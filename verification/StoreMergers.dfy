/**
 * Who merges: every publish asks whether there are too many segments, and whoever finds the flag down starts
 * the merge worker, which goes on until there are few enough, drops the flag and looks once more.
 */
module StoreMergers {
  import opened Prelude
  import opened Store
  import opened StoreInvariants
  import opened StoreSteps
  import opened StoreMerge
  import opened StoreRuns

  /** A sealing worker after its publish: it counts, raises the flag, starts the thread. */
  datatype Asker = Counting | Raising | Starting

  /** Where a merge worker stands. The first four phases own the flag. */
  datatype MergerPc = Looking | Picking | Merging(jid: nat) | Dropping | DoubleChecking | Regaining

  predicate OwnsFlag(p: MergerPc) { p.Looking? || p.Picking? || p.Merging? || p.Dropping? }

  /** The store, the segment ceiling, the merge flag and the threads. */
  datatype Crew = Crew(s: State, ceiling: nat, merging: bool, askers: map<nat, Asker>, mergers: map<nat, MergerPc>)

  /** A block of the store outside merging, or a block of the merge protocol. */
  datatype Turn =
    | Other(l: Label)
    | Count(tid: nat) | Raise(tid: nat) | Start(tid: nat, mid: nat)
    | Look(mid: nat) | Pick(mid: nat, jid: nat, i: nat, j: nat) | Pass(mid: nat) | Install(mid: nat)
    | Drop(mid: nat) | DoubleCheck(mid: nat) | Regain(mid: nat)

  predicate At(c: Crew, mid: nat, p: MergerPc) { mid in c.mergers && c.mergers[mid] == p }

  predicate Asks(c: Crew, tid: nat, a: Asker) { tid in c.askers && c.askers[tid] == a }

  /** The block of a sealing worker that is still asking: it goes back to its queue when it is done. */
  predicate Busy(c: Crew, l: Label) {
    (l.Scan? || l.Publish? || l.Clear? || l.Recheck? || l.Reclaim?) && l.tid in c.askers
  }

  predicate CanTurn(c: Crew, t: Turn) {
    match t
    case Other(l) => Enabled(c.s, l) && !l.Snapshot? && !l.Swap? && !Busy(c, l)
    case Count(tid) => Asks(c, tid, Counting)
    case Raise(tid) => Asks(c, tid, Raising)
    case Start(tid, mid) => Asks(c, tid, Starting) && mid !in c.mergers
    case Look(mid) => At(c, mid, Looking)
    case Pick(mid, jid, i, j) => At(c, mid, Picking) && Enabled(c.s, Snapshot(jid, i, j))
    case Pass(mid) => At(c, mid, Picking) && |c.s.segments| < 2
    case Install(mid) => mid in c.mergers && c.mergers[mid].Merging? && Enabled(c.s, Swap(c.mergers[mid].jid))
    case Drop(mid) => At(c, mid, Dropping)
    case DoubleCheck(mid) => At(c, mid, DoubleChecking)
    case Regain(mid) => At(c, mid, Regaining)
  }

  predicate TooMany(c: Crew) { |c.s.segments| > c.ceiling }

  function Goes(c: Crew, mid: nat, p: MergerPc): Crew { c.(mergers := c.mergers[mid := p]) }

  /** What the block does to the store. */
  function Shadow(c: Crew, t: Turn): seq<Label>
    requires CanTurn(c, t)
  {
    match t
    case Other(l) => [l]
    case Pick(_, jid, i, j) => [Snapshot(jid, i, j)]
    case Install(mid) => [Swap(c.mergers[mid].jid)]
    case _ => []
  }

  function Turned(c: Crew, t: Turn): Crew
    requires CanTurn(c, t)
  {
    match t
    case Other(l) =>
      c.(s := Apply(c.s, l), askers := if l.Publish? then c.askers[l.tid := Counting] else c.askers)
    case Count(tid) =>
      c.(askers := if TooMany(c) then c.askers[tid := Raising] else c.askers - {tid})
    case Raise(tid) =>
      if c.merging then c.(askers := c.askers - {tid}) else c.(merging := true, askers := c.askers[tid := Starting])
    case Start(tid, mid) => Goes(c, mid, Looking).(askers := c.askers - {tid})
    case Look(mid) => Goes(c, mid, if TooMany(c) then Picking else Dropping)
    case Pick(mid, jid, i, j) => Goes(c, mid, Merging(jid)).(s := Apply(c.s, Snapshot(jid, i, j)))
    case Pass(mid) => Goes(c, mid, Looking)
    case Install(mid) => Goes(c, mid, Looking).(s := Apply(c.s, Swap(c.mergers[mid].jid)))
    case Drop(mid) => Goes(c, mid, DoubleChecking).(merging := false)
    case DoubleCheck(mid) => if TooMany(c) then Goes(c, mid, Regaining) else c.(mergers := c.mergers - {mid})
    case Regain(mid) =>
      if c.merging then c.(mergers := c.mergers - {mid}) else Goes(c, mid, Looking).(merging := true)
  }

  predicate IsShift(c: Crew, ts: seq<Turn>)
    decreases |ts|
  {
    |ts| == 0 || (CanTurn(c, ts[0]) && IsShift(Turned(c, ts[0]), ts[1..]))
  }

  function EndOf(c: Crew, ts: seq<Turn>): Crew
    requires IsShift(c, ts)
    decreases |ts|
  {
    if |ts| == 0 then c else EndOf(Turned(c, ts[0]), ts[1..])
  }

  function Morning(dim: nat, threshold: nat, ceiling: nat): Crew {
    Crew(Init(dim, threshold), ceiling, false, map[], map[])
  }

  // ---- What holds at every turn ----

  /** The flag has one owner at most, and is up exactly while there is one. */
  ghost predicate FlagOk(merging: bool, askers: map<nat, Asker>, mergers: map<nat, MergerPc>) {
    && (forall m, n :: m in mergers && n in mergers && OwnsFlag(mergers[m]) && OwnsFlag(mergers[n]) ==> m == n)
    && (forall t, u :: t in askers && u in askers && askers[t].Starting? && askers[u].Starting? ==> t == u)
    && (forall t, m :: t in askers && m in mergers && askers[t].Starting? ==> !OwnsFlag(mergers[m]))
    && (merging <==>
          (exists m :: m in mergers && OwnsFlag(mergers[m])) || (exists t :: t in askers && askers[t].Starting?))
  }

  /** Every merge in flight has its worker, and both its sources are still in the list. */
  ghost predicate JobsOk(s: State, mergers: map<nat, MergerPc>) {
    && (forall jid :: jid in s.jobs ==> exists m :: m in mergers && mergers[m] == Merging(jid))
    && (forall m :: m in mergers && mergers[m].Merging? ==> mergers[m].jid in s.jobs && Present(s, mergers[m].jid))
  }

  /** Too many segments: somebody is there to notice. */
  ghost predicate Watched(c: Crew) { TooMany(c) ==> c.askers.Keys != {} || c.mergers.Keys != {} }

  ghost predicate CrewOk(c: Crew) {
    Inv(c.s) && FlagOk(c.merging, c.askers, c.mergers) && JobsOk(c.s, c.mergers) && Watched(c)
  }

  lemma MorningOk(dim: nat, threshold: nat, ceiling: nat)
    ensures CrewOk(Morning(dim, threshold, ceiling))
  {
    InitHolds(dim, threshold);
  }

  lemma TurnHolds(c: Crew, t: Turn)
    requires CrewOk(c) && CanTurn(c, t)
    ensures CrewOk(Turned(c, t))
  {
    hide Inv, FlagOk, JobsOk, Watched, Apply, Enabled;
    StoreTurn(c, t);
    FlagTurn(c, t);
    JobsTurn(c, t);
    WatchedTurn(c, t);
  }

  lemma StoreTurn(c: Crew, t: Turn)
    requires Inv(c.s) && CanTurn(c, t)
    ensures Inv(Turned(c, t).s)
  {
    hide Inv, Apply, Enabled, Effect, ReplyTrue;
    if t.Other? { StepHolds(c.s, t.l); }
    else if t.Pick? { StepHolds(c.s, Snapshot(t.jid, t.i, t.j)); }
    else if t.Install? { StepHolds(c.s, Swap(c.mergers[t.mid].jid)); }
  }

  lemma FlagTurn(c: Crew, t: Turn)
    requires FlagOk(c.merging, c.askers, c.mergers) && CanTurn(c, t)
    ensures var d := Turned(c, t); FlagOk(d.merging, d.askers, d.mergers)
  {
    hide Apply, Enabled;
    var d := Turned(c, t);
    if c.merging && !t.Drop? {
      if u :| u in c.askers && c.askers[u].Starting? {
        if t.Start? {
          assert t.mid in d.mergers && OwnsFlag(d.mergers[t.mid]);
        } else {
          assert u in d.askers && d.askers[u].Starting?;
        }
      } else {
        var m :| m in c.mergers && OwnsFlag(c.mergers[m]);
        assert m in d.mergers && OwnsFlag(d.mergers[m]);
      }
    } else if t.Raise? {
      assert t.tid in d.askers && d.askers[t.tid].Starting?;
    } else if t.Regain? {
      assert t.mid in d.mergers && OwnsFlag(d.mergers[t.mid]);
    }
  }

  lemma JobsTurn(c: Crew, t: Turn)
    requires Inv(c.s) && FlagOk(c.merging, c.askers, c.mergers) && JobsOk(c.s, c.mergers) && CanTurn(c, t)
    ensures var d := Turned(c, t); JobsOk(d.s, d.mergers)
  {
    hide Apply, Enabled, Inv, Present;
    var d := Turned(c, t);
    if t.Other? {
      OthersLeaveMerges(c.s, t.l);
    } else if t.Pick? {
      SnapshotShows(c.s, t.jid, t.i, t.j);
      NoneInFlight(c, t.mid);
      assert d.mergers[t.mid] == Merging(t.jid);
    } else if t.Install? {
      SwapEnds(c.s, c.mergers[t.mid].jid);
      assert c.s.jobs.Keys <= {c.mergers[t.mid].jid};
    } else {
      forall jid | jid in c.s.jobs ensures exists m :: m in d.mergers && d.mergers[m] == Merging(jid) {
        var m :| m in c.mergers && c.mergers[m] == Merging(jid);
        assert d.mergers[m] == Merging(jid);
      }
    }
  }

  /** A worker about to pick its victims means that nobody is merging. */
  lemma NoneInFlight(c: Crew, mid: nat)
    requires FlagOk(c.merging, c.askers, c.mergers) && JobsOk(c.s, c.mergers) && At(c, mid, Picking)
    ensures c.s.jobs.Keys == {}
  {
    if jid :| jid in c.s.jobs { assert false; }
  }

  /** Outside merging no merge begins or ends, and no segment leaves the list. */
  lemma OthersLeaveMerges(s: State, l: Label)
    requires Inv(s) && Enabled(s, l) && !l.Snapshot? && !l.Swap?
    ensures Apply(s, l).jobs == s.jobs
    ensures forall jid :: Present(s, jid) ==> Present(Apply(s, l), jid)
    ensures |Apply(s, l).segments| == |s.segments| + if l.Publish? then 1 else 0
  {
    hide Apply, Enabled, Inv, Find;
    SegmentsAfter(s, l);
    forall jid | Present(s, jid) ensures Present(Apply(s, l), jid) {
      FoundAgain(s.segments, Apply(s, l).segments, s.jobs[jid].a);
      FoundAgain(s.segments, Apply(s, l).segments, s.jobs[jid].b);
    }
  }

  ghost predicate SameUids(xs: seq<Source>, ys: seq<Source>) {
    |xs| <= |ys| && forall i :: 0 <= i < |xs| ==> ys[i].uid == xs[i].uid
  }

  lemma FoundAgain(xs: seq<Source>, ys: seq<Source>, uid: nat)
    requires SameUids(xs, ys) && Find(xs, uid) >= 0
    ensures Find(ys, uid) >= 0
  {
    assert ys[Find(xs, uid)].uid == uid;
  }

  lemma SegmentsAfter(s: State, l: Label)
    requires Inv(s) && Enabled(s, l) && !l.Snapshot? && !l.Swap?
    ensures var t := Apply(s, l);
      && t.jobs == s.jobs && SameUids(s.segments, t.segments)
      && |t.segments| == |s.segments| + if l.Publish? then 1 else 0
  {
    hide Newest, Find, AnyLive, Victims, Records, PcOk;
    if l.Publish? { PublishGrows(s, l.tid); }
  }

  lemma PublishGrows(s: State, tid: nat)
    requires Inv(s) && Enabled(s, Publish(tid))
    ensures var t := Apply(s, Publish(tid)); t.jobs == s.jobs && t.segments == s.segments + [s.sealing[0]]
  {
    hide PcOk, Apply;
    PublishStack(s, tid);
  }

  lemma SnapshotShows(s: State, jid: nat, i: nat, j: nat)
    requires Enabled(s, Snapshot(jid, i, j))
    ensures var t := Apply(s, Snapshot(jid, i, j));
      t.segments == s.segments && t.jobs.Keys == s.jobs.Keys + {jid} && Present(t, jid)
  {
  }

  lemma SwapEnds(s: State, jid: nat)
    requires Enabled(s, Swap(jid))
    ensures Apply(s, Swap(jid)).jobs.Keys == s.jobs.Keys - {jid}
  {
    hide Find, Retain, Carried;
  }

  lemma WatchedTurn(c: Crew, t: Turn)
    requires Inv(c.s) && FlagOk(c.merging, c.askers, c.mergers) && Watched(c) && CanTurn(c, t)
    ensures Watched(Turned(c, t))
  {
    hide Apply, Enabled, Inv;
    var d := Turned(c, t);
    if t.Other? {
      OthersLeaveMerges(c.s, t.l);
      if t.l.Publish? { assert t.l.tid in d.askers.Keys; }
    } else if t.Count? {
      assert TooMany(c) ==> t.tid in d.askers.Keys;
    } else if t.Raise? {
      if c.merging { SomebodyElse(c, t.tid); } else { assert t.tid in d.askers.Keys; }
    } else if t.Drop? || t.Look? || t.Pass? || t.Pick? || t.Install? || t.Start? {
      assert t.mid in d.mergers.Keys;
    } else if t.DoubleCheck? {
      assert TooMany(c) ==> t.mid in d.mergers.Keys;
    } else {
      if c.merging { SomebodyElse(c, t.mid); } else { assert t.mid in d.mergers.Keys; }
    }
  }

  /** A raised flag has its owner, and that is nobody who is still trying to raise it. */
  lemma SomebodyElse(c: Crew, id: nat)
    requires FlagOk(c.merging, c.askers, c.mergers) && c.merging
    ensures Asks(c, id, Raising) ==> (c.askers - {id}).Keys != {} || c.mergers.Keys != {}
    ensures At(c, id, Regaining) ==> c.askers.Keys != {} || (c.mergers - {id}).Keys != {}
  {
    if u :| u in c.askers && c.askers[u].Starting? {
      assert u in c.askers.Keys;
      if Asks(c, id, Raising) { assert u in (c.askers - {id}).Keys; }
    } else {
      var m :| m in c.mergers && OwnsFlag(c.mergers[m]);
      assert m in c.mergers.Keys;
      if At(c, id, Regaining) { assert m in (c.mergers - {id}).Keys; }
    }
  }

  // ---- Over every run ----

  lemma {:induction false} ShiftHolds(c: Crew, ts: seq<Turn>)
    requires CrewOk(c) && IsShift(c, ts)
    ensures CrewOk(EndOf(c, ts))
    decreases |ts|
  {
    if |ts| > 0 {
      TurnHolds(c, ts[0]);
      ShiftHolds(Turned(c, ts[0]), ts[1..]);
    }
  }

  /** A crew some interleaving reaches from the empty store. */
  ghost predicate Met(dim: nat, threshold: nat, ceiling: nat, ts: seq<Turn>, c: Crew) {
    IsShift(Morning(dim, threshold, ceiling), ts) && EndOf(Morning(dim, threshold, ceiling), ts) == c
  }

  lemma MetHolds(dim: nat, threshold: nat, ceiling: nat, ts: seq<Turn>, c: Crew)
    requires Met(dim, threshold, ceiling, ts, c)
    ensures CrewOk(c)
  {
    MorningOk(dim, threshold, ceiling);
    ShiftHolds(Morning(dim, threshold, ceiling), ts);
  }

  /** At most one merge at a time: one owner of the flag, one merge in flight. */
  lemma OneMerger(dim: nat, threshold: nat, ceiling: nat, ts: seq<Turn>, c: Crew, m: nat, n: nat)
    requires Met(dim, threshold, ceiling, ts, c)
    requires m in c.mergers && n in c.mergers && OwnsFlag(c.mergers[m]) && OwnsFlag(c.mergers[n])
    ensures m == n && c.merging && |c.s.jobs| <= 1
  {
    hide Inv;
    MetHolds(dim, threshold, ceiling, ts, c);
    if jid :| jid in c.s.jobs {
      assert c.s.jobs.Keys == {jid};
      assert |c.s.jobs| == |c.s.jobs.Keys|;
    } else {
      assert c.s.jobs == map[];
    }
  }

  /** No trigger is lost: with nobody asking and nobody merging there are few enough segments. */
  lemma NoLostTrigger(dim: nat, threshold: nat, ceiling: nat, ts: seq<Turn>, c: Crew)
    requires Met(dim, threshold, ceiling, ts, c)
    requires c.askers == map[] && c.mergers == map[]
    ensures |c.s.segments| <= ceiling && !c.merging && c.s.jobs == map[]
  {
    hide Inv;
    MetHolds(dim, threshold, ceiling, ts, c);
    SameCeiling(Morning(dim, threshold, ceiling), ts);
    assert c.s.jobs.Keys == {};
  }

  lemma {:induction false} SameCeiling(c: Crew, ts: seq<Turn>)
    requires IsShift(c, ts)
    ensures EndOf(c, ts).ceiling == c.ceiling
    decreases |ts|
  {
    hide Apply, Enabled;
    if |ts| > 0 { SameCeiling(Turned(c, ts[0]), ts[1..]); }
  }

  /** No swap is cancelled: a finished merge always makes one segment of two. */
  lemma EveryMergeCounts(dim: nat, threshold: nat, ceiling: nat, ts: seq<Turn>, c: Crew, mid: nat)
    requires Met(dim, threshold, ceiling, ts, c)
    requires mid in c.mergers && c.mergers[mid].Merging?
    ensures CanTurn(c, Install(mid))
    ensures |Turned(c, Install(mid)).s.segments| == |c.s.segments| - 1
  {
    hide Inv, Apply;
    MetHolds(dim, threshold, ceiling, ts, c);
    TwoBecomeOne(c.s, c.mergers[mid].jid);
  }

  lemma TwoBecomeOne(s: State, jid: nat)
    requires Inv(s) && Present(s, jid)
    ensures |Apply(s, Swap(jid)).segments| == |s.segments| - 1
  {
    hide PcOk, Protocol, Apply;
    SwapShape(s, jid);
  }

  /** To the store the merge protocol is invisible: its runs are runs of the store. */
  function Shadows(c: Crew, ts: seq<Turn>): seq<Label>
    requires IsShift(c, ts)
    decreases |ts|
  {
    if |ts| == 0 then [] else Shadow(c, ts[0]) + Shadows(Turned(c, ts[0]), ts[1..])
  }

  lemma {:induction false} ShiftIsRun(c: Crew, ts: seq<Turn>)
    requires IsShift(c, ts)
    ensures IsRun(c.s, Shadows(c, ts)) && After(c.s, Shadows(c, ts)) == EndOf(c, ts).s
    decreases |ts|
  {
    hide Apply, Enabled;
    if |ts| > 0 {
      var d, rest := Turned(c, ts[0]), Shadows(Turned(c, ts[0]), ts[1..]);
      ShiftIsRun(d, ts[1..]);
      var first := Shadow(c, ts[0]);
      if first == [] {
        assert first + rest == rest;
      } else {
        assert (first + rest)[0] == first[0] && (first + rest)[1..] == rest;
      }
    }
  }
}
