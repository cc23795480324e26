/**
 * What code may carry from one locked block to the next while other threads step: the whole invariant,
 * under one name, and the descent of the sources. Proofs that only pass them on hide what they mean.
 */
module StoreFrames {
  import opened Prelude
  import opened Store
  import opened StoreInvariants
  import opened StoreSteps
  import opened StoreMerge
  import opened StoreRuns
  import opened StoreWorkers

  /** The invariant, and the newest-copy rule if every swap is guarded. */
  ghost predicate Sound(s: State, guarded: bool) { Inv(s) && (guarded ==> NewestLive(Layers(s))) }

  /** The sources of a state and the next free number. */
  datatype Stock = Stock(stack: seq<Source>, next: nat)

  function StockOf(s: State): Stock { Stock(Stack(s), s.nextUid) }

  /** Every source that is not younger than `before` is one of `before`, with the same contents. */
  ghost predicate Descends(before: Stock, after: Stock) {
    && before.next <= after.next
    && forall x :: x in after.stack && x.uid < before.next ==>
         exists y :: y in before.stack && y.uid == x.uid && y.data == x.data
  }

  lemma DescendsIs(s: State, t: State)
    ensures Descends(StockOf(s), StockOf(t)) <==> SameContentsByUid(s, t)
  {
  }

  lemma DescendsSelf(a: Stock)
    ensures Descends(a, a)
  {
  }

  lemma DescendsTrans(a: Stock, b: Stock, c: Stock)
    requires Descends(a, b) && Descends(b, c)
    ensures Descends(a, c)
  {
  }

  predicate Writing(l: Label) { l.ApplyInsert? || Erases(l) }

  /** One block of any thread. */
  lemma Took(s: State, l: Label, t: State, guarded: bool)
    requires Sound(s, guarded) && Enabled(s, l) && t == Apply(s, l)
    requires guarded && l.Swap? ==> HidesNothing(s, l.jid)
    ensures Sound(t, guarded) && Descends(StockOf(s), StockOf(t)) && (!Writing(l) ==> View(t) == View(s))
  {
    StepContents(s, l);
    DescendsIs(s, t);
    StepQuietly(s, l, t);
    if guarded { StepKeepsNewestIff(s, l); }
  }

  lemma StepQuietly(s: State, l: Label, t: State)
    requires Inv(s) && Enabled(s, l) && t == Apply(s, l)
    ensures Inv(t) && (!Writing(l) ==> View(t) == View(s))
  {
    StepHolds(s, l);
    assert Effect(s, l, t);
    QuietEffect(s, l, t);
  }

  lemma QuietEffect(s: State, l: Label, t: State)
    requires Enabled(s, l) && Effect(s, l, t)
    ensures !Writing(l) ==> View(t) == View(s)
  {
  }

  /** The block that adds a record. */
  lemma TookInsert(s: State, t: State, guarded: bool)
    requires Sound(s, guarded) && Enabled(s, ApplyInsert) && t == Apply(s, ApplyInsert)
    ensures s.pc.id !in View(s) && View(t) == View(s)[s.pc.id := s.pc.v]
  {
    StepHolds(s, ApplyInsert);
  }

  /** A block of a delete: it ends in a success, in a refusal, or goes on to the next place. */
  lemma TookErase(s: State, l: Label, t: State, guarded: bool)
    requires Sound(s, guarded) && Enabled(s, l) && Erases(l) && t == Apply(s, l)
    ensures s.pc.id in View(s)
    ensures View(t) == if ReplyOf(s, l) == Some(Erased) then View(s) - {s.pc.id} else View(s)
    ensures guarded ==> ReplyOf(s, l) != Some(Missing)
  {
    StepHolds(s, l);
    EraseEffect(s, l);
    if guarded { DeleteOfLiveSucceeds(s, l); }
  }

  lemma EraseEffect(s: State, l: Label)
    requires PcOk(s) && Enabled(s, l) && Erases(l) && Effect(s, l, Apply(s, l))
    ensures s.pc.id in View(s)
    ensures View(Apply(s, l)) == if ReplyOf(s, l) == Some(Erased) then View(s) - {s.pc.id} else View(s)
  {
  }

  // ---- What the writer's reads establish ----

  /** A check that finds the id live somewhere. */
  lemma LiveSomewhere(s: State, id: Id)
    requires AnyLive(s.sealing, id) || AnyLive(s.segments, id) || id in s.buffer
    ensures id in View(s)
  {
    ViewMembers(s, id);
  }

  /** A writer past its last check. */
  lemma WriterKnows(s: State, guarded: bool)
    requires Sound(s, guarded)
    ensures s.pc.InsApply? ==> s.pc.id !in View(s) && |s.pc.v| == s.dim && s.pc.id !in s.buffer
    ensures s.pc.DelBuffer? ==> s.pc.id in View(s)
    ensures s.pc.HasSegments? && !AnyLive(s.segments, s.pc.id) ==> s.pc.id !in View(s)
  {
    if s.pc.InsApply? || s.pc.HasSegments? { ViewMembers(s, s.pc.id); }
  }

  /** A replayed record enters past the checks. */
  lemma EntersAt(s: State, pc: Pc, guarded: bool)
    requires Sound(s, guarded) && s.pc.Idle?
    requires (pc.InsApply? && pc.id !in View(s) && |pc.v| == s.dim) || (pc.DelBuffer? && pc.id in View(s))
    ensures Sound(s.(pc := pc), guarded)
  {
    var t := s.(pc := pc);
    ViewMembers(s, pc.id);
    assert Stack(t) == Stack(s) && Layers(t) == Layers(s);
  }

  /** A writer that is only reading may as well not have started. */
  predicate Reading(pc: Pc) {
    pc.Idle? || pc.InsSealing? || pc.InsSegments? || pc.InsApply? || pc.HasSealing? || pc.HasSegments? || pc.DelBuffer?
  }

  lemma BackToIdle(s: State, guarded: bool)
    requires Sound(s, guarded) && Reading(s.pc)
    ensures Sound(s.(pc := Idle), guarded)
  {
    var t := s.(pc := Idle);
    assert Stack(t) == Stack(s) && Layers(t) == Layers(s);
  }

  // ---- Workers ----

  /** A worker's block neither reads nor moves the writer. */
  lemma WorkerCommutes(s: State, l: Label, pc: Pc)
    requires Worker(l) && Enabled(s, l)
    ensures Enabled(s.(pc := pc), l) && Apply(s.(pc := pc), l) == Apply(s, l).(pc := pc)
  {
    match l
    case Scan(_) =>
    case Publish(_) =>
    case Clear(_) =>
    case Recheck(_) =>
    case Reclaim(_) =>
    case Snapshot(_, _, _) =>
    case Swap(jid) => SwapCommutes(s, jid, pc);
  }

  lemma SwapCommutes(s: State, jid: nat, pc: Pc)
    requires Enabled(s, Swap(jid))
    ensures Apply(s.(pc := pc), Swap(jid)) == Apply(s, Swap(jid)).(pc := pc)
  {
    var job := s.jobs[jid];
    if Find(s.segments, job.a) >= 0 && Find(s.segments, job.b) >= 0 {
      assert Carried(s.(pc := pc), job) == Carried(s, job);
    }
  }

  lemma WorkerKeepsBuffer(s: State, l: Label)
    requires Worker(l) && Enabled(s, l)
    ensures var t := Apply(s, l);
      t.dim == s.dim && t.threshold == s.threshold && t.buffer == s.buffer && t.pc == s.pc
        && t.valveFired == s.valveFired
  {
    match l
    case Scan(_) =>
    case Publish(_) =>
    case Clear(_) =>
    case Recheck(_) =>
    case Reclaim(_) =>
    case Snapshot(_, _, _) =>
    case Swap(_) =>
  }

  lemma HidingIgnoresPc(s: State, jid: nat, pc: Pc)
    ensures HidesNothing(s.(pc := pc), jid) <==> HidesNothing(s, jid)
  {
    if Present(s, jid) { assert Carried(s.(pc := pc), s.jobs[jid]) == Carried(s, s.jobs[jid]); }
  }

  /** What a worker's block means to the writer. */
  lemma WorkerTook(s: State, l: Label, guarded: bool)
    requires Sound(s, guarded) && Worker(l) && Enabled(s, l)
    requires guarded && l.Swap? ==> HidesNothing(s, l.jid)
    ensures Quiet(s) ==> Quiet(Apply(s, l))
    ensures Sound(Apply(s, l), guarded) && View(Apply(s, l)) == View(s)
    ensures Descends(StockOf(s), StockOf(Apply(s, l)))
  {
    Took(s, l, Apply(s, l), guarded);
    if Quiet(s) { WorkerKeepsQuiet(s, l); }
  }

  // ---- A store opened on a list of segments ----

  function Opened(dim: nat, threshold: nat, segments: seq<Source>): State {
    State(dim, threshold, map[], [], segments, false, map[], map[], Idle, |segments|, false)
  }

  /** It is in order, holds what the list shows, and the newest copy decides if it does in the list. */
  lemma OpenedHolds(dim: nat, threshold: nat, segments: seq<Source>)
    requires Distinct(segments) && Below(segments, |segments|) && TombsInside(segments) && UniqueLive(segments)
    ensures var s := Opened(dim, threshold, segments);
      Inv(s) && View(s) == LiveMap(segments) && (NewestLive(segments) ==> NewestLive(Layers(s)))
  {
    var s, e := Opened(dim, threshold, segments), Source(0, map[], {});
    assert Stack(s) == segments && Layers(s) == segments + [e];
    EmptyTop(segments, e);
  }

  // ---- The wait for quiet ends ----

  ghost predicate Somewhere(s: State, p: SealerPc) { exists t :: t in s.sealers && s.sealers[t] == p }

  /** How many worker blocks the next publish, or the end of the wait, is away at most. */
  ghost function Away(s: State): nat {
    if s.inFlight then
      if s.sealing == [] then (if Somewhere(s, Scanning) then 2 else 1)
      else if Somewhere(s, Drained) then 6
      else if Somewhere(s, Scanning) then 3 else 2
    else if s.sealing == [] then 0
    else if Somewhere(s, Reclaiming) then 4 else 5
  }

  ghost predicate Closer(s: State, t: State) {
    |t.sealing| < |s.sealing| || (|t.sealing| == |s.sealing| && Away(t) < Away(s))
  }

  predicate Waiting(s: State) { s.pc.SealDone? && (s.inFlight || s.sealing != []) }

  /** Somebody has work to do as long as the wait goes on. */
  lemma SomebodyWorks(s: State)
    requires Protocol(s) && Waiting(s)
    ensures s.inFlight ==> exists t :: t in s.sealers && Owns(s.sealers[t])
    ensures !s.inFlight ==> exists t :: t in s.sealers && !Owns(s.sealers[t])
  {
  }

  /** The next block of the owner of the queue. */
  function OwnersNext(s: State, t: nat): Label
    requires t in s.sealers && Owns(s.sealers[t])
  {
    if s.sealers[t].Scanning? then Scan(t) else if s.sealers[t].Building? then Publish(t) else Clear(t)
  }

  lemma OwnerAway(s: State, t: nat)
    requires Protocol(s) && Waiting(s) && s.inFlight && t in s.sealers && Owns(s.sealers[t])
    ensures Away(s) == if s.sealing == [] then (if s.sealers[t].Scanning? then 2 else 1)
      else if s.sealers[t].Drained? then 6 else if s.sealers[t].Scanning? then 3 else 2
    ensures s.sealers[t].Building? ==> s.sealing != []
  {
    assert forall u :: u in s.sealers && Owns(s.sealers[u]) ==> u == t;
    assert Somewhere(s, Scanning) <==> s.sealers[t].Scanning?;
    assert Somewhere(s, Drained) <==> s.sealers[t].Drained?;
  }

  lemma OwnerCloser(s: State, t: nat)
    requires Distinct(Stack(s)) && Protocol(s) && Waiting(s) && s.inFlight && t in s.sealers && Owns(s.sealers[t])
    requires Protocol(Apply(s, OwnersNext(s, t)))
    ensures Closer(s, Apply(s, OwnersNext(s, t)))
  {
    var l, s' := OwnersNext(s, t), Apply(s, OwnersNext(s, t));
    OwnerAway(s, t);
    if l.Publish? {
      PublishStack(s, t);
    } else {
      WorkerFields(s, l);
      if l.Scan? {
        OwnerAway(s', t);
      } else {
        assert s'.sealers[t] == Rechecking && !s'.inFlight;
      }
    }
  }

  /** ... and of a worker that has dropped the flag. */
  function LookersNext(s: State, t: nat): Label
    requires t in s.sealers && !Owns(s.sealers[t])
  {
    if s.sealers[t].Reclaiming? then Reclaim(t) else Recheck(t)
  }

  lemma LookerCloser(s: State, t: nat)
    requires Protocol(s) && Waiting(s) && !s.inFlight && t in s.sealers && !Owns(s.sealers[t])
    requires Somewhere(s, Reclaiming) ==> s.sealers[t].Reclaiming?
    requires Protocol(Apply(s, LookersNext(s, t)))
    ensures Closer(s, Apply(s, LookersNext(s, t)))
  {
    var l, s' := LookersNext(s, t), Apply(s, LookersNext(s, t));
    WorkerFields(s, l);
    if l.Reclaim? {
      assert s'.sealers[t] == Scanning;
      OwnerAway(s', t);
    } else {
      assert s'.sealers[t] == Reclaiming;
    }
  }

  /** `l` is the next block of the owner or, when there is none, of a worker on its way back. */
  ghost predicate Picked(s: State, l: Label) {
    && (l.Scan? || l.Publish? || l.Clear? || l.Recheck? || l.Reclaim?)
    && l.tid in s.sealers && (s.inFlight <==> Owns(s.sealers[l.tid]))
    && l == (if s.inFlight then OwnersNext(s, l.tid) else LookersNext(s, l.tid))
    && (!s.inFlight && Somewhere(s, Reclaiming) ==> s.sealers[l.tid].Reclaiming?)
  }
}
