/** The sealing queue over whole runs, quiescence before a checkpoint, and record counting. */
module StoreWorkers {
  import opened Prelude
  import opened Store
  import opened StoreInvariants
  import opened StoreSteps
  import opened StoreMerge
  import opened StoreRuns

  /** A state some interleaving reaches from the empty store. */
  ghost predicate Reached(dim: nat, threshold: nat, ls: seq<Label>, s: State) {
    IsRun(Init(dim, threshold), ls) && After(Init(dim, threshold), ls) == s
  }

  lemma ReachedHolds(dim: nat, threshold: nat, ls: seq<Label>, s: State)
    requires Reached(dim, threshold, ls, s)
    ensures Inv(s)
  {
    InitHolds(dim, threshold);
    RunHolds(Init(dim, threshold), ls);
  }

  /** In every reachable state at most one worker owns the queue, and only while the flag is up. */
  lemma OneOwner(dim: nat, threshold: nat, ls: seq<Label>, s: State, t: nat, u: nat)
    requires Reached(dim, threshold, ls, s)
    requires t in s.sealers && u in s.sealers && Owns(s.sealers[t]) && Owns(s.sealers[u])
    ensures t == u && s.inFlight && !s.pc.SealSpawn?
  {
    ReachedHolds(dim, threshold, ls, s);
  }

  /** No wakeup is lost: once every worker has left and the writer is past starting one, the queue is empty. */
  lemma NoLostWakeup(dim: nat, threshold: nat, ls: seq<Label>, s: State)
    requires Reached(dim, threshold, ls, s)
    requires s.sealers == map[] && !s.pc.SealSwap? && !s.pc.SealSpawn?
    ensures s.sealing == [] && !s.inFlight
  {
    ReachedHolds(dim, threshold, ls, s);
  }

  /** Unless the safety valve fired, the queue holds at most 3 buffers, and at most 2 between operations. */
  lemma QueueBounded(dim: nat, threshold: nat, ls: seq<Label>, s: State)
    requires Reached(dim, threshold, ls, s) && !s.valveFired
    ensures |s.sealing| <= 3 && (s.pc.Idle? ==> |s.sealing| <= 2)
  {
    ReachedHolds(dim, threshold, ls, s);
  }

  // ---- When a buffer is sealed ----

  /** A full buffer is being sealed. */
  ghost predicate SealsInTime(s: State) { |s.buffer| < Max(s.threshold, 1) || s.pc.SealTake? }

  lemma StepSealsInTime(s: State, l: Label)
    requires SealsInTime(s) && Enabled(s, l)
    ensures SealsInTime(Apply(s, l)) && Apply(s, l).threshold == s.threshold
  {
    if l.EraseBuffer? {
      ErasedSize(s.buffer, s.pc.id);
    } else if !l.ApplyInsert? {
      OthersGrowNothing(s, l);
    }
  }

  lemma ErasedSize(m: map<Id, Floats>, id: Id)
    ensures |m - {id}| <= |m|
  {
    assert (m - {id}).Keys == m.Keys - {id};
  }

  lemma OthersGrowNothing(s: State, l: Label)
    requires Enabled(s, l) && !l.ApplyInsert? && !l.EraseBuffer?
    ensures var t := Apply(s, l);
      t.threshold == s.threshold && (t.buffer == map[] || (t.buffer == s.buffer && (s.pc.SealTake? ==> t.pc.SealTake?)))
  {
    hide Newest, Find, Retain, Bury, Carried, Victims, AnyLive;
    if Worker(l) { WorkersGrowNothing(s, l); }
  }

  lemma WorkersGrowNothing(s: State, l: Label)
    requires Enabled(s, l) && Worker(l)
    ensures var t := Apply(s, l); t.threshold == s.threshold && t.buffer == s.buffer && t.pc == s.pc
  {
    hide Newest, Find, Retain, Bury, Carried, Victims, AnyLive;
  }

  lemma {:induction false} RunSealsInTime(s: State, ls: seq<Label>)
    requires SealsInTime(s) && IsRun(s, ls)
    ensures SealsInTime(After(s, ls)) && After(s, ls).threshold == s.threshold
    decreases |ls|
  {
    if |ls| > 0 {
      StepSealsInTime(s, ls[0]);
      RunSealsInTime(Apply(s, ls[0]), ls[1..]);
    }
  }

  /** Between operations of any run the write buffer is below the threshold: it is sealed when it reaches it. */
  lemma BufferBelowThreshold(dim: nat, threshold: nat, ls: seq<Label>)
    requires IsRun(Init(dim, threshold), ls) && After(Init(dim, threshold), ls).pc.Idle?
    ensures |After(Init(dim, threshold), ls).buffer| < Max(threshold, 1)
  {
    RunSealsInTime(Init(dim, threshold), ls);
  }

  // ---- First in, first out ----

  /** Queue entries carry increasing uids, in the order they were pushed. */
  ghost predicate Fifo(s: State) {
    forall i, j :: 0 <= i < j < |s.sealing| ==> s.sealing[i].uid < s.sealing[j].uid
  }

  lemma StepFifo(s: State, l: Label)
    requires Inv(s) && Fifo(s) && Enabled(s, l)
    ensures Fifo(Apply(s, l))
  {
    if l.PushSealing? {
      assert forall i :: 0 <= i < |s.sealing| ==> Stack(s)[|s.segments| + i] == s.sealing[i];
    } else if l.Publish? {
      PublishStack(s, l.tid);
    } else if l.EraseSealing? {
      BuryKeepsUids(s);
    } else {
      QueueUntouched(s, l);
    }
  }

  lemma BuryKeepsUids(s: State)
    requires Enabled(s, EraseSealing)
    ensures var q := Apply(s, EraseSealing).sealing;
      |q| == |s.sealing| && forall i :: 0 <= i < |q| ==> q[i].uid == s.sealing[i].uid
  {
  }

  lemma QueueUntouched(s: State, l: Label)
    requires Enabled(s, l) && !l.PushSealing? && !l.Publish? && !l.EraseSealing?
    ensures Apply(s, l).sealing == s.sealing
  {
    match l {
      case BeginInsert(_, _) =>
      case CheckSealing =>
      case CheckSegments =>
      case ApplyInsert =>
      case BeginSeal =>
      case TakeBuffer =>
      case SwapFlag =>
      case Spawn(_) =>
      case Swap(_) =>
      case _ =>
    }
  }

  lemma {:induction false} RunFifo(s: State, ls: seq<Label>)
    requires Inv(s) && Fifo(s) && IsRun(s, ls)
    ensures Fifo(After(s, ls))
    decreases |ls|
  {
    if |ls| > 0 {
      StepHolds(s, ls[0]);
      StepFifo(s, ls[0]);
      RunFifo(Apply(s, ls[0]), ls[1..]);
    }
  }

  /**
   * A publish in a reachable state takes the oldest buffer of the queue, with every tombstone it has
   * collected so far, and leaves only younger ones behind.
   */
  lemma PublishTakesOldest(dim: nat, threshold: nat, ls: seq<Label>, s: State, tid: nat)
    requires Reached(dim, threshold, ls, s) && Enabled(s, Publish(tid))
    ensures s.sealing != []
    ensures var s' := Apply(s, Publish(tid));
      && s'.segments == s.segments + [s.sealing[0]] && s'.sealing == s.sealing[1..]
      && forall i :: 0 <= i < |s'.sealing| ==> s.sealing[0].uid < s'.sealing[i].uid
  {
    ReachedHolds(dim, threshold, ls, s);
    InitHolds(dim, threshold);
    RunFifo(Init(dim, threshold), ls);
    PublishStack(s, tid);
  }

  // ---- Quiescence ----

  /** Nothing is buffered, queued or in the writer's hand. */
  predicate Quiet(s: State) { s.buffer == map[] && s.sealing == [] && !s.pc.SealPush? }

  /** Then every live record is in the segment list. */
  lemma QuietMeansSegments(s: State)
    requires Inv(s) && Quiet(s)
    ensures View(s) == LiveMap(s.segments)
    ensures UniqueLive(s.segments) && Distinct(s.segments) && TombsInside(s.segments)
    ensures NewestLive(Layers(s)) ==> NewestLive(s.segments)
  {
    var e := Source(0, s.buffer, {});
    assert Stack(s) == s.segments;
    assert Layers(s) == s.segments + [e];
    EmptyTop(s.segments, e);
    assert forall i :: 0 <= i < |s.segments| ==> Layers(s)[i] == s.segments[i];
  }

  lemma WorkerKeepsQuiet(s: State, l: Label)
    requires Quiet(s) && Enabled(s, l) && Worker(l)
    ensures Quiet(Apply(s, l))
  {
    WorkerKeepsPc(s, l);
    match l
    case Publish(_) =>
    case Swap(_) =>
    case Snapshot(_, _, _) =>
    case _ => WorkerFields(s, l);
  }

  /**
   * Once the checkpoint has stopped waiting, it may read the segment list at any later moment: whatever
   * merges and idle sealing workers still do, the list holds exactly the live map of that point, one live
   * copy per id -- the newest, if the swaps in between are guarded.
   */
  lemma {:induction false} SettledSnapshot(s: State, ls: seq<Label>)
    requires Inv(s) && Quiet(s) && IsRun(s, ls) && forall l :: l in ls ==> Worker(l)
    ensures Inv(After(s, ls)) && Quiet(After(s, ls))
    ensures LiveMap(After(s, ls).segments) == View(s) && Distinct(After(s, ls).segments)
    ensures UniqueLive(After(s, ls).segments) && TombsInside(After(s, ls).segments)
    ensures NewestLive(Layers(s)) && Guarded(s, ls) ==> NewestLive(After(s, ls).segments)
    decreases |ls|
  {
    if |ls| == 0 {
      QuietMeansSegments(s);
    } else {
      assert ls[0] in ls;
      StepHolds(s, ls[0]);
      if NewestLive(Layers(s)) { StepKeepsNewestIff(s, ls[0]); }
      WorkerKeepsQuiet(s, ls[0]);
      WorkerKeepsView(s, ls[0]);
      SettledSnapshot(Apply(s, ls[0]), ls[1..]);
    }
  }

  lemma WorkerKeepsView(s: State, l: Label)
    requires Enabled(s, l) && Worker(l) && Effect(s, l, Apply(s, l))
    ensures View(Apply(s, l)) == View(s)
  {
  }

  // ---- Segments are immutable ----

  /** Every source of `t` that is not younger than `s` is one of `s`, with the same contents. */
  ghost predicate SameContentsByUid(s: State, t: State) {
    && s.nextUid <= t.nextUid
    && forall x :: x in Stack(t) && x.uid < s.nextUid ==>
         exists y :: y in Stack(s) && y.uid == x.uid && y.data == x.data
  }

  lemma SameStackContents(s: State, t: State)
    requires Stack(t) == Stack(s) && t.nextUid == s.nextUid
    ensures SameContentsByUid(s, t)
  {
  }

  lemma BuriedContents(s: State, t: State, i: nat, id: Id)
    requires i < |Stack(s)| && Stack(t) == Bury(Stack(s), i, id) && t.nextUid == s.nextUid
    ensures SameContentsByUid(s, t)
  {
    forall x | x in Stack(t) ensures exists y :: y in Stack(s) && y.uid == x.uid && y.data == x.data {
      var k :| 0 <= k < |Stack(t)| && Stack(t)[k] == x;
      assert Stack(s)[k] in Stack(s);
    }
  }

  lemma EraseContents(s: State, l: Label)
    requires Inv(s) && Enabled(s, l) && Erases(l)
    ensures SameContentsByUid(s, Apply(s, l))
  {
    var t, id := Apply(s, l), s.pc.id;
    if l.EraseSealing? && Newest(s.sealing, id) >= 0 && id !in s.sealing[Newest(s.sealing, id)].tombs {
      BuryRight(s.segments, s.sealing, Newest(s.sealing, id), id);
      BuriedContents(s, t, |s.segments| + Newest(s.sealing, id), id);
    } else if l.EraseSegments? && Newest(s.segments, id) >= 0 && id !in s.segments[Newest(s.segments, id)].tombs {
      BuryLeft(s.segments, s.sealing, Newest(s.segments, id), id);
      BuriedContents(s, t, Newest(s.segments, id), id);
    } else {
      EraseElsewhere(s, l);
      SameStackContents(s, t);
    }
  }

  lemma EraseElsewhere(s: State, l: Label)
    requires Enabled(s, l) && Erases(l)
    requires l.EraseSealing? ==> Newest(s.sealing, s.pc.id) < 0 || s.pc.id in s.sealing[Newest(s.sealing, s.pc.id)].tombs
    requires l.EraseSegments? ==> Newest(s.segments, s.pc.id) < 0 || s.pc.id in s.segments[Newest(s.segments, s.pc.id)].tombs
    ensures Stack(Apply(s, l)) == Stack(s) && Apply(s, l).nextUid == s.nextUid
  {
  }

  lemma SwapContents(s: State, jid: nat)
    requires Inv(s) && Enabled(s, Swap(jid))
    ensures SameContentsByUid(s, Apply(s, Swap(jid)))
  {
    var t := Apply(s, Swap(jid));
    if Present(s, jid) {
      SwapShape(s, jid);
      SwapLayers(s, jid);
      SwappedContents(Stack(s), Stack(t), |s.segments|, Lower(s, jid), Upper(s, jid), Product(s, jid), s.nextUid);
    } else {
      SwapCancelled(s, jid);
      SameStackContents(s, t);
    }
  }

  lemma SwappedContents(ls: seq<Source>, ms: seq<Source>, n: nat, p: nat, q: nat, m: Source, nextUid: nat)
    requires p < q < n <= |ls| && ms == Swapped(ls, n, p, q, m) && m.uid == nextUid
    ensures forall x :: x in ms && x.uid < nextUid ==> x in ls
  {
    forall x | x in ms && x.uid < nextUid ensures x in ls {
      var k :| 0 <= k < |ms| && ms[k] == x;
      SwappedAt(ls, n, p, q, m, 0);
      SwappedAt(ls, n, p, q, m, k);
    }
  }

  lemma StackUntouched(s: State, l: Label)
    requires Enabled(s, l) && !l.PushSealing? && !l.Publish? && !l.Swap? && !Erases(l)
    ensures Stack(Apply(s, l)) == Stack(s) && Apply(s, l).nextUid == s.nextUid
  {
  }

  lemma StepContents(s: State, l: Label)
    requires Inv(s) && Enabled(s, l)
    ensures SameContentsByUid(s, Apply(s, l))
  {
    if l.PushSealing? {
      assert Stack(Apply(s, l)) == Stack(s) + [Source(s.nextUid, s.pc.taken, {})];
    } else if l.Publish? {
      PublishStack(s, l.tid);
      SameStackContents(s, Apply(s, l));
    } else if l.Swap? {
      SwapContents(s, l.jid);
    } else if Erases(l) {
      EraseContents(s, l);
    } else {
      StackUntouched(s, l);
      SameStackContents(s, Apply(s, l));
    }
  }

  lemma ContentsTrans(a: State, b: State, c: State)
    requires SameContentsByUid(a, b) && SameContentsByUid(b, c)
    ensures SameContentsByUid(a, c)
  {
  }

  /** A segment keeps its identity and its contents over every run; only tombstones are added. */
  lemma {:induction false} SegmentsImmutable(s: State, ls: seq<Label>)
    requires Inv(s) && IsRun(s, ls)
    ensures SameContentsByUid(s, After(s, ls))
    decreases |ls|
  {
    if |ls| > 0 {
      var t := Apply(s, ls[0]);
      StepHolds(s, ls[0]);
      StepContents(s, ls[0]);
      SegmentsImmutable(t, ls[1..]);
      ContentsTrans(s, t, After(t, ls[1..]));
    } else {
      SameStackContents(s, s);
    }
  }

  // ---- Counting ----

  /** `len_shared`: live counts summed over the sources. */
  function CountAll(ls: seq<Source>): int {
    if |ls| == 0 then 0 else CountAll(ls[..|ls| - 1]) + ls[|ls| - 1].LiveCount()
  }

  lemma LiveCountIsSize(x: Source)
    requires x.tombs <= x.data.Keys
    ensures x.LiveCount() == |x.LiveData()| >= 0
  {
    assert x.LiveData().Keys == x.data.Keys - x.tombs;
    assert |x.data.Keys - x.tombs| == |x.data.Keys| - |x.tombs|;
    assert |x.LiveData().Keys| == |x.LiveData()|;
    assert |x.data.Keys| == |x.data|;
  }

  /** Subtracting tombstones never underflows, and the sum counts the live map exactly. */
  lemma {:induction false} CountIsSize(ls: seq<Source>)
    requires TombsInside(ls) && UniqueLive(ls)
    ensures CountAll(ls) == |LiveMap(ls)|
  {
    if |ls| > 0 {
      var n := |ls| - 1;
      var m, x := LiveMap(ls[..n]), ls[n];
      CountIsSize(ls[..n]);
      LiveCountIsSize(x);
      forall id | id in m.Keys && id in x.LiveData().Keys ensures false {
        LiveMapMembers(ls[..n], id);
        var i :| 0 <= i < n && ls[..n][i].Live(id);
        assert ls[i].Live(id) && ls[n].Live(id);
      }
      assert m.Keys !! x.LiveData().Keys;
      assert (m + x.LiveData()).Keys == m.Keys + x.LiveData().Keys;
      assert |(m + x.LiveData()).Keys| == |m.Keys| + |x.LiveData().Keys|;
    }
  }
}
