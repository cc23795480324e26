/**
 * When the single-Eq shortcut of the filtered search can be trusted: at which moments the posting lists
 * name nothing that the search does not see, and what goes wrong at the others.
 */
module Shortcut {
  import opened Prelude
  import opened Meta
  import opened Store
  import opened StoreInvariants
  import opened StoreSteps
  import opened StoreRuns
  import opened StoreWorkers
  import opened StoreHiding
  import opened StoreReads
  import opened StoreMetas
  import opened Planner

  /** At every moment the three metadata structures are in step: this is what a search asks of them. */
  lemma AlwaysInStep(m: Moment)
    requires Booked(m)
    ensures InStep(Sides(m.posted, m.ranged, m.metas))
  {
  }

  /** The posting lists still name a record in the writer's hand, or one whose vector is already erased. */
  ghost predicate Stale(m: Moment) {
    || (exists id :: id in Taken(m.s) && id in m.posted)
    || ((m.phase.ToForget? || m.phase.ToUnpost?) && m.phase.id in m.posted)
  }

  /** They name unseen records exactly then. */
  lemma StaleIff(m: Moment)
    requires Inv(m.s) && Booked(m)
    ensures m.posted.Keys <= Seen(m.s).Keys <==> !Stale(m)
    ensures Stale(m) ==> m.s.pc.SealPush? || m.phase.ToForget? || m.phase.ToUnpost?
  {
    hide Inv, View;
    VisibleMap(m.s);
  }

  /** The answer without the filter is right for this filter. */
  ghost predicate Trusted(seen: map<Id, Floats>, posted: map<Id, Metadata>, f: Filter) {
    Fires(posted, f, |seen|) ==> AllWanted(seen, posted, f)
  }

  /** Trusted for every filter and all metadata of the indexed records. */
  ghost predicate AlwaysTrusted(seen: map<Id, Floats>, indexed: set<Id>) {
    forall posted: map<Id, Metadata>, f :: posted.Keys == indexed ==> Trusted(seen, posted, f)
  }

  /** Some records carry a value, the others another one. */
  ghost function Marked(indexed: set<Id>, some: set<Id>): map<Id, Metadata> {
    map id | id in indexed :: map["k" := MetaValue.Int(if id in some then 1 else 0)]
  }

  const ONES: Filter := [Eq("k", MetaValue.Int(1))]

  lemma MarkedCarriers(indexed: set<Id>, some: set<Id>)
    requires some <= indexed
    ensures Carriers(Marked(indexed, some), ONES[0]) == some && Marked(indexed, some).Keys == indexed
  {
  }

  /**
   * The exact condition: the shortcut can be trusted if and only if the posting lists name seen records
   * only, or nothing is seen, or fewer records are indexed than are seen.
   */
  lemma TrustedIff(seen: map<Id, Floats>, indexed: set<Id>)
    ensures AlwaysTrusted(seen, indexed) <==> indexed <= seen.Keys || seen == map[] || |indexed| < |seen|
  {
    assert |seen.Keys| == |seen|;
    if indexed <= seen.Keys || seen == map[] || |indexed| < |seen| {
      forall posted: map<Id, Metadata>, f | posted.Keys == indexed && Fires(posted, f, |seen|)
        ensures AllWanted(seen, posted, f)
      {
        Enough(seen, posted, f);
      }
    } else {
      Distrusted(seen, indexed);
    }
  }

  /** Metadata with these ids under which the shortcut fires, and a seen record that does not match. */
  lemma Distrusted(seen: map<Id, Floats>, indexed: set<Id>)
    requires seen != map[] && |indexed| >= |seen| && !(indexed <= seen.Keys)
    ensures !AlwaysTrusted(seen, indexed)
  {
    var id := Odd(seen.Keys, indexed);
    var some := indexed - {id};
    var posted := Marked(indexed, some);
    MarkedCarriers(indexed, some);
    assert |seen.Keys| == |seen|;
    OddOneOut(seen.Keys, indexed, id);
    assert Fires(posted, ONES, |seen|);
    assert id !in Targets(seen, posted, ONES) by {
      assert id in posted ==> !Satisfies(ONES[0], FieldOf(posted[id], "k"));
    }
    assert !Trusted(seen, posted, ONES);
  }

  /** A seen record: one that is not indexed, if there is any. */
  ghost function Odd(seen: set<Id>, indexed: set<Id>): (id: Id)
    requires seen != {}
    ensures id in seen && (id in indexed ==> seen <= indexed)
  {
    if seen <= indexed then var id :| id in seen; id else var id :| id in seen && id !in indexed; id
  }

  lemma OddOneOut(seen: set<Id>, indexed: set<Id>, id: Id)
    requires id in seen && (id in indexed ==> seen <= indexed) && |indexed| >= |seen| && !(indexed <= seen)
    ensures |indexed - {id}| >= |seen| && |seen| >= 1
  {
    if id in indexed {
      assert |indexed - seen| == |indexed| - |seen|;
      assert indexed - seen != {};
      assert |indexed - {id}| == |indexed| - 1;
    } else {
      assert indexed - {id} == indexed;
    }
    assert |seen - {id}| == |seen| - 1;
  }

  lemma Enough(seen: map<Id, Floats>, posted: map<Id, Metadata>, f: Filter)
    requires posted.Keys <= seen.Keys || seen == map[] || |posted| < |seen|
    requires Fires(posted, f, |seen|)
    ensures AllWanted(seen, posted, f)
  {
    if posted.Keys <= seen.Keys {
      EveryoneMatches(seen, posted, f, |seen|);
    } else if seen != map[] {
      assert |posted.Keys| == |posted|;
      SubsetSmaller(Carriers(posted, f[0]), posted.Keys);
      assert false;
    }
  }

  lemma SubsetSmaller(a: set<Id>, b: set<Id>)
    requires a <= b
    ensures |a| <= |b|
  {
    assert |b - a| == |b| - |a|;
  }

  // ---- At the moments of the store ----

  /**
   * At every moment the store can be in: the shortcut can be trusted, for every filter and all metadata of
   * the records indexed by then, if and only if no indexed record is in the writer's hand or already erased
   * -- or nothing is seen, or fewer records are indexed than are seen.
   */
  lemma ShortcutTrustedIff(m: Moment)
    requires Inv(m.s) && Booked(m)
    ensures CountAll(Visible(m.s)) == |Seen(m.s)|
    ensures AlwaysTrusted(Seen(m.s), m.posted.Keys) <==>
      !Stale(m) || Seen(m.s) == map[] || |m.posted.Keys| < |Seen(m.s)|
  {
    CountsSeen(m.s);
    StaleIff(m);
    TrustedIff(Seen(m.s), m.posted.Keys);
  }

  /** So away from the hand-over of a seal and from the middle of a delete it can always be trusted. */
  lemma TrustedBetween(dim: nat, threshold: nat, m: Moment, f: Filter)
    requires Reaches(Outset(dim, threshold), m)
    requires !m.s.pc.SealPush? && !m.phase.ToForget? && !m.phase.ToUnpost?
    ensures Fires(m.posted, f, CountAll(Visible(m.s))) ==> AllWanted(View(m.s), m.posted, f)
  {
    ReachesHold(dim, threshold, m);
    CountsSeen(m.s);
    StaleIff(m);
    NothingTaken(m.s);
    if Fires(m.posted, f, CountAll(Visible(m.s))) { Enough(Seen(m.s), m.posted, f); }
  }

  // ---- Both windows are real ----

  const ZERO: Metadata := map["k" := MetaValue.Int(0)]
  const ONE: Metadata := map["k" := MetaValue.Int(1)]

  /** The shortcut fires, but what is seen is one record that does not match. */
  ghost predicate Misfires(posted: map<Id, Metadata>, seen: map<Id, Floats>, len: int) {
    Fires(posted, ONES, len) && |seen| == 1 && Targets(seen, posted, ONES) == map[]
  }

  lemma OneMisfires(a: Id, b: Id, v: Floats)
    requires a != b
    ensures Misfires(map[a := ONE, b := ZERO], map[b := v], 1)
  {
    var posted := map[a := ONE, b := ZERO];
    assert Satisfies(ONES[0], FieldOf(posted[a], "k")) && !Satisfies(ONES[0], FieldOf(posted[b], "k"));
    assert Carriers(posted, ONES[0]) == {a};
  }

  /** A record goes in, with its metadata, and nobody comes between. */
  lemma RecordAdded(from: Moment, m: Moment, id: Id, v: Floats, meta: Metadata) returns (next: Moment)
    requires Reaches(from, m) && m.phase.AtRest? && m.s.pc.Idle? && |v| == m.s.dim && meta != map[]
    requires id !in m.s.buffer && !AnyLive(m.s.sealing, id) && !AnyLive(m.s.segments, id)
    ensures Reaches(from, next)
    ensures var buffer := m.s.buffer[id := v];
      && next.s == m.s.(buffer := buffer, pc := if |buffer| >= m.s.threshold then SealTake(Throttle) else Idle)
      && next.posted == m.posted[id := meta] && next.ranged == m.ranged[id := meta]
      && next.metas == m.metas[id := meta] && next.phase.AtRest?
  {
    hide Reaches;
    var t := m;
    next := t.(s := t.s.(pc := InsSealing(id, v)));
    Onward(from, t, Vectors(BeginInsert(id, v), map[]), next);
    t, next := next, t.(s := t.s.(pc := InsSegments(id, v)));
    Onward(from, t, Vectors(CheckSealing, map[]), next);
    t, next := next, t.(s := t.s.(pc := InsApply(id, v)));
    Onward(from, t, Vectors(CheckSegments, map[]), next);
    next := MetadataAdded(from, next, id, v, meta);
  }

  lemma MetadataAdded(from: Moment, m: Moment, id: Id, v: Floats, meta: Metadata) returns (next: Moment)
    requires Reaches(from, m) && m.phase.AtRest? && m.s.pc == InsApply(id, v) && meta != map[] && id !in m.s.buffer
    ensures Reaches(from, next)
    ensures var buffer := m.s.buffer[id := v];
      && next.s == m.s.(buffer := buffer, pc := if |buffer| >= m.s.threshold then SealTake(Throttle) else Idle)
      && next.posted == m.posted[id := meta] && next.ranged == m.ranged[id := meta]
      && next.metas == m.metas[id := meta] && next.phase.AtRest?
  {
    hide Reaches;
    next := Ran(m, Vectors(ApplyInsert, meta));
    Onward(from, m, Vectors(ApplyInsert, meta), next);
    var t := next;
    next := Ran(t, Posting);
    Onward(from, t, Posting, next);
    t := next;
    next := Ran(t, Ranging);
    Onward(from, t, Ranging, next);
    t := next;
    next := Ran(t, Keeping);
    Onward(from, t, Keeping, next);
  }

  /** A block that touches no metadata. */
  lemma Stepped(from: Moment, m: Moment, l: Label, t: State)
    requires Reaches(from, m) && m.phase.AtRest? && !l.ApplyInsert? && !Erases(l)
    requires Enabled(m.s, l) && Apply(m.s, l) == t
    ensures Reaches(from, m.(s := t))
  {
    Onward(from, m, Vectors(l, map[]), m.(s := t));
  }

  /** Two records in the buffer. */
  lemma BothAdded() returns (m: Moment)
    ensures Reaches(Outset(1, 10), m) && m.phase.AtRest? && m.posted == map[5 := ONE, 6 := ZERO]
    ensures m.s == Init(1, 10).(buffer := map[5 := X, 6 := Y])
  {
    hide Reaches;
    var from := Outset(1, 10);
    Here(from);
    assert "k" in ONE && "k" in ZERO;
    m := RecordAdded(from, from, 5, X, ONE);
    m := RecordAdded(from, m, 6, Y, ZERO);
  }

  /**
   * A delete in the middle: the vector is erased, the posting lists still name it. Record 5 matches, record
   * 6 does not; 5 is being deleted, and the search answers 6.
   */
  lemma ErasedMisfires() returns (m: Moment)
    ensures Reaches(Outset(1, 10), m) && m.phase.ToForget? && m.s.pc.Idle?
    ensures Misfires(m.posted, View(m.s), CountAll(Visible(m.s)))
  {
    hide Reaches, View, CountAll, Misfires;
    var before := BothAdded();
    m := FirstErased(before);
    BufferOnly(m.s, Y);
    OneMisfires(5, 6, Y);
  }

  lemma FirstErased(m: Moment) returns (next: Moment)
    requires Reaches(Outset(1, 10), m) && m.phase.AtRest? && m.s == Init(1, 10).(buffer := map[5 := X, 6 := Y])
    ensures Reaches(Outset(1, 10), next) && next.phase.ToForget? && next.posted == m.posted
    ensures next.s == Init(1, 10).(buffer := map[6 := Y])
  {
    hide Reaches;
    var t := m.s.(pc := DelBuffer(5));
    Stepped(Outset(1, 10), m, BeginDelete(5), t);
    next := m.(s := m.s.(buffer := map[6 := Y]), phase := ToForget(5));
    assert map[5 := X, 6 := Y] - {5} == map[6 := Y];
    Onward(Outset(1, 10), m.(s := t), Vectors(EraseBuffer, map[]), next);
  }

  lemma BufferOnly(s: State, v: Floats)
    requires s.segments == [] && s.sealing == [] && s.pc.Idle? && s.buffer == map[6 := v]
    ensures View(s) == map[6 := v] && CountAll(Visible(s)) == 1
  {
    var x := Source(0, s.buffer, {});
    assert Layers(s) == [x] && Visible(s) == [x];
    assert [x][..0] == [] && x.LiveData() == s.buffer && x.LiveCount() == 1;
    assert LiveMap([x]) == LiveMap([]) + x.LiveData();
    assert CountAll([x]) == CountAll([]) + x.LiveCount();
  }

  /** One record queued, a second one in the buffer. */
  lemma OneQueued() returns (m: Moment)
    ensures Reaches(Outset(1, 1), m) && m.phase.AtRest? && m.posted == map[5 := ZERO, 6 := ONE]
    ensures m.s == Queued().(buffer := map[6 := Y], pc := SealTake(Throttle))
  {
    hide Reaches;
    var from := Outset(1, 1);
    Here(from);
    assert "k" in ONE && "k" in ZERO;
    m := RecordAdded(from, from, 5, X, ZERO);
    BufferSealed(from, m);
    m := RecordAdded(from, m.(s := Queued()), 6, Y, ONE);
  }

  function Queued(): State {
    Init(1, 1).(sealing := [A], nextUid := 1, inFlight := true, sealers := map[0 := Scanning])
  }

  /**
   * The hand-over of a seal: record 5 is queued and does not match; record 6 matches and is in the writer's
   * hand. The search answers 5.
   */
  lemma TakenMisfires() returns (m: Moment)
    ensures Reaches(Outset(1, 1), m) && m.s.pc.SealPush? && m.phase.AtRest?
    ensures Misfires(m.posted, Seen(m.s), CountAll(Visible(m.s)))
  {
    hide Reaches, View, CountAll, Misfires, Inv;
    m := OneQueued();
    var t := Queued().(pc := SealPush(map[6 := Y], Throttle));
    assert 6 in m.s.buffer;
    Stepped(Outset(1, 1), m, TakeBuffer, t);
    m := m.(s := t);
    QueueOnly(t);
    assert m.posted == map[6 := ONE, 5 := ZERO];
    OneMisfires(6, 5, X);
    ReachesHold(1, 1, m);
    VisibleMap(t);
  }

  lemma QueueOnly(s: State)
    requires s.segments == [] && s.sealing == [A] && s.buffer == map[]
    ensures LiveMap(Visible(s)) == map[5 := X] && CountAll(Visible(s)) == 1
  {
    assert Visible(s) == [A, Source(0, map[], {})];
    OneRecord(A, Source(0, map[], {}));
  }

  /** The first record's buffer is queued and a worker started. */
  lemma BufferSealed(from: Moment, m: Moment)
    requires Reaches(from, m) && m.phase.AtRest? && m.s == Init(1, 1).(buffer := map[5 := X], pc := SealTake(Throttle))
    ensures Reaches(from, m.(s := Queued()))
  {
    hide Reaches;
    var t1 := Init(1, 1).(pc := SealPush(map[5 := X], Throttle));
    assert 5 in m.s.buffer;
    Stepped(from, m, TakeBuffer, t1);
    var t2 := Init(1, 1).(sealing := [A], nextUid := 1, pc := SealSwap(Throttle));
    assert [] + [A] == [A];
    Stepped(from, m.(s := t1), PushSealing, t2);
    WorkerStarted(from, m.(s := t2));
  }

  lemma WorkerStarted(from: Moment, m: Moment)
    requires Reaches(from, m) && m.phase.AtRest?
    requires m.s == Init(1, 1).(sealing := [A], nextUid := 1, pc := SealSwap(Throttle))
    ensures Reaches(from, m.(s := Queued()))
  {
    hide Reaches;
    var t1 := m.s.(inFlight := true, pc := SealSpawn(Throttle));
    Stepped(from, m, SwapFlag, t1);
    var t2 := Queued().(pc := SealDone(Throttle));
    assert t1.sealers[0 := Scanning] == map[0 := Scanning];
    Stepped(from, m.(s := t1), Spawn(0), t2);
    Stepped(from, m.(s := t2), Throttled, Queued());
  }
}
