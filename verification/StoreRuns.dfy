/** The theorems about whole runs: any interleaving of the writer, the sealing workers and the merge workers. */
module StoreRuns {
  import opened Prelude
  import opened Store
  import opened StoreInvariants
  import opened StoreSteps
  import opened StoreMerge

  /** One step of any thread. */
  lemma StepHolds(s: State, l: Label)
    requires Inv(s) && Enabled(s, l)
    ensures Inv(Apply(s, l)) && Effect(s, l, Apply(s, l)) && ReplyTrue(s, l)
  {
    if Checking(l) { CheckingStep(s, l); }
    else if Signalling(l) { SignallingStep(s, l); }
    else if l.TakeBuffer? { TakeStep(s); }
    else if l.PushSealing? { PushStep(s); }
    else if l.ApplyInsert? { InsertStep(s); }
    else if l.EraseBuffer? { EraseBufferStep(s); }
    else if l.EraseSealing? { EraseSealingStep(s); }
    else if l.EraseSegments? { EraseSegmentsStep(s); }
    else if l.Publish? { PublishStep(s, l.tid); }
    else if l.Snapshot? { SnapshotStep(s, l); }
    else { SwapStep(s, l.jid); }
  }

  /** The newest-copy property survives every step except, exactly, a swap that hides a live copy. */
  lemma StepKeepsNewestIff(s: State, l: Label)
    requires Inv(s) && NewestLive(Layers(s)) && Enabled(s, l)
    ensures NewestLive(Layers(Apply(s, l))) <==> (l.Swap? ==> HidesNothing(s, l.jid))
  {
    if Checking(l) { CheckingStep(s, l); }
    else if Signalling(l) { SignallingStep(s, l); }
    else if l.TakeBuffer? { TakeStep(s); }
    else if l.PushSealing? { PushStep(s); }
    else if l.ApplyInsert? { InsertStep(s); }
    else if l.EraseBuffer? { EraseBufferStep(s); }
    else if l.EraseSealing? { EraseSealingStep(s); }
    else if l.EraseSegments? { EraseSegmentsStep(s); }
    else if l.Publish? { PublishStep(s, l.tid); }
    else if l.Snapshot? { SnapshotStep(s, l); }
    else { SwapKeepsNewestIff(s, l.jid); }
  }

  lemma {:induction false} RunHolds(s: State, ls: seq<Label>)
    requires Inv(s) && IsRun(s, ls)
    ensures Inv(After(s, ls))
    decreases |ls|
  {
    if |ls| > 0 {
      StepHolds(s, ls[0]);
      RunHolds(Apply(s, ls[0]), ls[1..]);
    }
  }

  // ---- Refinement of the map id -> vector ----

  /** The two writes of the abstract map. */
  datatype Write = Put(id: Id, v: Floats) | Cut(id: Id)

  function Written(m: map<Id, Floats>, w: Write): map<Id, Floats> {
    match w case Put(id, v) => m[id := v] case Cut(id) => m - {id}
  }

  function WrittenAll(m: map<Id, Floats>, ws: seq<Write>): map<Id, Floats>
    decreases |ws|
  {
    if |ws| == 0 then m else WrittenAll(Written(m, ws[0]), ws[1..])
  }

  /** Each `Put` names an absent id and each `Cut` a present one. */
  predicate Legal(m: map<Id, Floats>, ws: seq<Write>)
    decreases |ws|
  {
    |ws| == 0 ||
    ((match ws[0] case Put(id, _) => id !in m case Cut(id) => id in m) && Legal(Written(m, ws[0]), ws[1..]))
  }

  /** The write a block performs, read off the writer's position. */
  function WriteOf(s: State, l: Label): seq<Write>
    requires Enabled(s, l)
  {
    if l.ApplyInsert? then [Put(s.pc.id, s.pc.v)]
    else if Erases(l) && ReplyOf(s, l) == Some(Erased) then [Cut(s.pc.id)]
    else []
  }

  function Writes(s: State, ls: seq<Label>): seq<Write>
    requires IsRun(s, ls)
    decreases |ls|
  {
    if |ls| == 0 then [] else WriteOf(s, ls[0]) + Writes(Apply(s, ls[0]), ls[1..])
  }

  /**
   * Every run, whatever the workers do in between, acts on the live map as the sequence of the
   * writer's inserts and deletes; publishes, snapshots and swaps are invisible.
   */
  lemma {:induction false} RunRefines(s: State, ls: seq<Label>)
    requires Inv(s) && IsRun(s, ls)
    ensures View(After(s, ls)) == WrittenAll(View(s), Writes(s, ls))
    ensures Legal(View(s), Writes(s, ls))
    decreases |ls|
  {
    if |ls| > 0 {
      var s' := Apply(s, ls[0]);
      StepHolds(s, ls[0]);
      StepWrites(s, ls[0]);
      RunRefines(s', ls[1..]);
      WriteFirst(View(s), WriteOf(s, ls[0]), Writes(s', ls[1..]));
    }
  }

  lemma StepWrites(s: State, l: Label)
    requires Enabled(s, l) && Effect(s, l, Apply(s, l))
    ensures |WriteOf(s, l)| <= 1
    ensures Legal(View(s), WriteOf(s, l)) && View(Apply(s, l)) == WrittenAll(View(s), WriteOf(s, l))
  {
  }

  lemma WriteFirst(m: map<Id, Floats>, w: seq<Write>, ws: seq<Write>)
    requires |w| <= 1 && Legal(m, w) && Legal(WrittenAll(m, w), ws)
    ensures Legal(m, w + ws) && WrittenAll(m, w + ws) == WrittenAll(WrittenAll(m, w), ws)
  {
    if w == [] {
      assert w + ws == ws;
    } else {
      var x := w[0];
      assert w == [x];
      assert WrittenAll(m, w) == Written(m, x) by { assert w[1..] == []; }
      WriteCons(m, x, ws);
    }
  }

  lemma WriteCons(m: map<Id, Floats>, x: Write, ws: seq<Write>)
    ensures WrittenAll(m, [x] + ws) == WrittenAll(Written(m, x), ws)
    ensures Legal(m, [x] + ws) <==> Legal(m, [x]) && Legal(Written(m, x), ws)
  {
    assert ([x] + ws)[1..] == ws && [x][1..] == [];
  }

  /** An id that is gone stays gone through any run that does not insert it. */
  lemma {:induction false} GoneStaysGone(s: State, ls: seq<Label>, id: Id)
    requires Inv(s) && IsRun(s, ls) && id !in View(s)
    requires forall w :: w in Writes(s, ls) && w.Put? ==> w.id != id
    ensures id !in View(After(s, ls))
    decreases |ls|
  {
    if |ls| > 0 {
      var s' := Apply(s, ls[0]);
      StepHolds(s, ls[0]);
      assert forall w :: w in Writes(s', ls[1..]) ==> w in Writes(s, ls);
      assert forall w :: w in WriteOf(s, ls[0]) ==> w in Writes(s, ls);
      if ls[0].ApplyInsert? { assert Put(s.pc.id, s.pc.v) in WriteOf(s, ls[0]); }
      GoneStaysGone(s', ls[1..], id);
    }
  }

  /** After a delete answered Ok the id is dead until somebody inserts it again, merges or not. */
  lemma DeletedStaysDeleted(s: State, l: Label, ls: seq<Label>)
    requires Inv(s) && Enabled(s, l) && Erases(l) && ReplyOf(s, l) == Some(Erased)
    requires IsRun(Apply(s, l), ls)
    requires forall w :: w in Writes(Apply(s, l), ls) && w.Put? ==> w.id != s.pc.id
    ensures s.pc.id !in View(After(Apply(s, l), ls))
  {
    StepHolds(s, l);
    GoneStaysGone(Apply(s, l), ls, s.pc.id);
  }

  // ---- The newest copy ----

  /** Every swap of the run meets its guard. */
  ghost predicate Guarded(s: State, ls: seq<Label>)
    requires IsRun(s, ls)
    decreases |ls|
  {
    |ls| == 0 || ((ls[0].Swap? ==> HidesNothing(s, ls[0].jid)) && Guarded(Apply(s, ls[0]), ls[1..]))
  }

  /** In a guarded run the newest copy decides, at every moment. */
  lemma {:induction false} GuardedRunKeepsNewest(s: State, ls: seq<Label>)
    requires Inv(s) && NewestLive(Layers(s)) && IsRun(s, ls) && Guarded(s, ls)
    ensures Inv(After(s, ls)) && NewestLive(Layers(After(s, ls)))
    decreases |ls|
  {
    if |ls| > 0 {
      StepHolds(s, ls[0]);
      StepKeepsNewestIff(s, ls[0]);
      GuardedRunKeepsNewest(Apply(s, ls[0]), ls[1..]);
    }
  }

  /** With the newest-copy property a delete that passed its liveness check never answers NotFound. */
  lemma DeleteOfLiveSucceeds(s: State, l: Label)
    requires Inv(s) && NewestLive(Layers(s)) && Enabled(s, l) && Erases(l)
    ensures s.pc.id in View(s) && ReplyOf(s, l) != Some(Missing)
    ensures l.EraseSegments? ==> ReplyOf(s, l) == Some(Erased)
  {
    var id, ls := s.pc.id, Layers(s);
    assert id in View(s);
    LiveMapMembers(ls, id);
    var i :| 0 <= i < |ls| && ls[i].Live(id);
    if l.EraseSealing? {
      LocateSealing(s, id, i);
    } else if l.EraseSegments? {
      LocateSegments(s, id, i);
    }
  }

  lemma LocateSealing(s: State, id: Id, i: nat)
    requires NewestLive(Layers(s)) && Hand(s.pc) == [] && id !in s.buffer
    requires i < |Layers(s)| && Layers(s)[i].Live(id)
    ensures var j := Newest(s.sealing, id); j >= 0 ==> s.sealing[j].Live(id)
  {
    var j, k, ls := Newest(s.sealing, id), |s.segments|, Layers(s);
    LayerAt(s, i);
    if j >= 0 {
      LayerAt(s, k + j);
      assert id in ls[k + j].data;
      assert i >= k + j;
    }
  }

  /** What the layers are, without a buffer in the writer's hand. */
  lemma LayerAt(s: State, i: nat)
    requires Hand(s.pc) == [] && i < |Layers(s)|
    ensures |Layers(s)| == |s.segments| + |s.sealing| + 1
    ensures Layers(s)[i] == if i < |s.segments| then s.segments[i]
      else if i < |s.segments| + |s.sealing| then s.sealing[i - |s.segments|] else Source(0, s.buffer, {})
  {
  }

  lemma LocateSegments(s: State, id: Id, i: nat)
    requires NewestLive(Layers(s)) && Hand(s.pc) == [] && id !in s.buffer && Newest(s.sealing, id) < 0
    requires i < |Layers(s)| && Layers(s)[i].Live(id)
    ensures var j := Newest(s.segments, id); j >= 0 && s.segments[j].Live(id)
  {
    var j, k, ls := Newest(s.segments, id), |s.segments|, Layers(s);
    LayerAt(s, i);
    assert i < k;
    assert j >= i;
    LayerAt(s, j);
  }

  // ---- Checks spread over three locks ----

  predicate Worker(l: Label) {
    l.Scan? || l.Publish? || l.Clear? || l.Recheck? || l.Reclaim? || l.Snapshot? || l.Swap?
  }

  /**
   * `validate_insert` reads buffer, queue and segments under three separate locks. Whatever the
   * workers move in between, its verdict is membership in the live map.
   */
  lemma DuplicateCheckIsMembership(s: State, id: Id, v: Floats, ls: seq<Label>)
    requires Inv(s) && s.pc.Idle? && |v| == s.dim && IsRun(s, [BeginInsert(id, v)] + ls)
    requires forall l :: l in ls ==> Worker(l) || l.CheckSealing? || l.CheckSegments?
    ensures var t := After(s, [BeginInsert(id, v)] + ls);
      && View(t) == View(s)
      && (t.pc.InsApply? ==> id !in View(s)) && (t.pc.Idle? ==> id in View(s))
  {
    var b := BeginInsert(id, v);
    assert ([b] + ls)[0] == b && ([b] + ls)[1..] == ls;
    StepHolds(s, b);
    var s' := Apply(s, b);
    ViewMembers(s, id);
    CheckRun(s', View(s), id, ls);
  }

  predicate Inserting(pc: Pc, id: Id) {
    (pc.InsSealing? || pc.InsSegments? || pc.InsApply?) && pc.id == id
  }

  lemma {:induction false} CheckRun(s: State, m: map<Id, Floats>, id: Id, ls: seq<Label>)
    requires Inv(s) && IsRun(s, ls) && View(s) == m
    requires (s.pc.Idle? && id in m) || Inserting(s.pc, id)
    requires forall l :: l in ls ==> Worker(l) || l.CheckSealing? || l.CheckSegments?
    ensures var t := After(s, ls);
      && View(t) == m && ((t.pc.Idle? && id in m) || (Inserting(t.pc, id) && (t.pc.InsApply? ==> id !in m)))
    decreases |ls|
  {
    if |ls| == 0 {
      if s.pc.InsApply? { RuledOut(s, id); }
    } else {
      assert ls[0] in ls;
      CheckStep(s, ls[0], id);
      CheckRun(Apply(s, ls[0]), m, id, ls[1..]);
    }
  }

  lemma RuledOut(s: State, id: Id)
    requires PcOk(s) && s.pc.InsApply? && s.pc.id == id
    ensures id !in View(s)
  {
    ViewMembers(s, id);
  }

  lemma CheckStep(s: State, l: Label, id: Id)
    requires Inv(s) && Enabled(s, l) && (Worker(l) || l.CheckSealing? || l.CheckSegments?)
    requires (s.pc.Idle? && id in View(s)) || Inserting(s.pc, id)
    ensures var t := Apply(s, l);
      Inv(t) && View(t) == View(s) && ((t.pc.Idle? && id in View(s)) || Inserting(t.pc, id))
  {
    StepHolds(s, l);
    CheckPcMoves(s, l, id);
  }

  lemma CheckPcMoves(s: State, l: Label, id: Id)
    requires Enabled(s, l) && (Worker(l) || l.CheckSealing? || l.CheckSegments?)
    requires ReplyTrue(s, l)
    requires (s.pc.Idle? && id in View(s)) || Inserting(s.pc, id)
    ensures (Apply(s, l).pc.Idle? && id in View(s)) || Inserting(Apply(s, l).pc, id)
  {
    if Worker(l) { WorkerKeepsPc(s, l); }
  }

  /** The liveness check of a delete, likewise: it goes on to erase exactly when the id is live. */
  lemma LivenessCheckIsMembership(s: State, id: Id, ls: seq<Label>)
    requires Inv(s) && s.pc.Idle? && IsRun(s, [BeginDelete(id)] + ls)
    requires forall l :: l in ls ==> Worker(l) || l.FindSealing? || l.FindSegments?
    ensures var t := After(s, [BeginDelete(id)] + ls);
      && View(t) == View(s)
      && (t.pc.DelBuffer? ==> id in View(s)) && (t.pc.Idle? ==> id !in View(s))
  {
    var b := BeginDelete(id);
    assert ([b] + ls)[0] == b && ([b] + ls)[1..] == ls;
    StepHolds(s, b);
    FindRun(Apply(s, b), View(s), id, ls);
  }

  predicate Finding(pc: Pc, id: Id) {
    (pc.HasSealing? || pc.HasSegments? || pc.DelBuffer?) && pc.id == id
  }

  lemma {:induction false} FindRun(s: State, m: map<Id, Floats>, id: Id, ls: seq<Label>)
    requires Inv(s) && IsRun(s, ls) && View(s) == m
    requires (s.pc.Idle? && id !in m) || Finding(s.pc, id)
    requires forall l :: l in ls ==> Worker(l) || l.FindSealing? || l.FindSegments?
    ensures var t := After(s, ls);
      && View(t) == m && ((t.pc.Idle? && id !in m) || (Finding(t.pc, id) && (t.pc.DelBuffer? ==> id in m)))
    decreases |ls|
  {
    if |ls| > 0 {
      assert ls[0] in ls;
      FindStep(s, ls[0], id);
      FindRun(Apply(s, ls[0]), m, id, ls[1..]);
    }
  }

  lemma FindStep(s: State, l: Label, id: Id)
    requires Inv(s) && Enabled(s, l) && (Worker(l) || l.FindSealing? || l.FindSegments?)
    requires (s.pc.Idle? && id !in View(s)) || Finding(s.pc, id)
    ensures var t := Apply(s, l);
      Inv(t) && View(t) == View(s) && ((t.pc.Idle? && id !in View(s)) || Finding(t.pc, id))
  {
    StepHolds(s, l);
    FindPcMoves(s, l, id);
  }

  lemma FindPcMoves(s: State, l: Label, id: Id)
    requires Enabled(s, l) && (Worker(l) || l.FindSealing? || l.FindSegments?)
    requires ReplyTrue(s, l)
    requires (s.pc.Idle? && id !in View(s)) || Finding(s.pc, id)
    ensures (Apply(s, l).pc.Idle? && id !in View(s)) || Finding(Apply(s, l).pc, id)
  {
    if Worker(l) { WorkerKeepsPc(s, l); }
  }

  lemma WorkerKeepsPc(s: State, l: Label)
    requires Enabled(s, l) && Worker(l)
    ensures Apply(s, l).pc == s.pc
  {
    match l
    case Scan(_) =>
    case Publish(_) =>
    case Clear(_) =>
    case Recheck(_) =>
    case Reclaim(_) =>
    case Snapshot(_, _, _) =>
    case Swap(_) =>
  }
}
