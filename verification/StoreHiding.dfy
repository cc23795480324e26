/**
 * A reachable state in which a live record cannot be read or deleted: id 5 is deleted while a merge of
 * its segment is being built, inserted again and published before the swap. The merged segment lands
 * at the end of the list with id 5 tombstoned and hides the newer, live copy.
 */
module StoreHiding {
  import opened Prelude
  import opened Store
  import opened StoreInvariants
  import opened StoreMerge

  lemma {:induction false} RunConcat(s: State, a: seq<Label>, b: seq<Label>)
    requires IsRun(s, a) && IsRun(After(s, a), b)
    ensures IsRun(s, a + b) && After(s, a + b) == After(After(s, a), b)
    decreases |a|
  {
    if |a| == 0 {
      assert a + b == b;
    } else {
      assert (a + b)[1..] == a[1..] + b;
      RunConcat(Apply(s, a[0]), a[1..], b);
    }
  }

  /** Two, then four blocks in a row, each landing where the caller says. */
  lemma RunTwo(s: State, l0: Label, s1: State, l1: Label, s2: State)
    requires Enabled(s, l0) && Apply(s, l0) == s1 && Enabled(s1, l1) && Apply(s1, l1) == s2
    ensures IsRun(s, [l0, l1]) && After(s, [l0, l1]) == s2
  {
    assert [l0, l1][1..] == [l1] && [l1][1..] == [];
    assert After(s, [l0, l1]) == After(s1, [l1]) == After(s2, []);
  }

  lemma RunFour(s: State, l0: Label, s1: State, l1: Label, s2: State, l2: Label, s3: State, l3: Label, s4: State)
    requires Enabled(s, l0) && Apply(s, l0) == s1 && Enabled(s1, l1) && Apply(s1, l1) == s2
    requires Enabled(s2, l2) && Apply(s2, l2) == s3 && Enabled(s3, l3) && Apply(s3, l3) == s4
    ensures IsRun(s, [l0, l1, l2, l3]) && After(s, [l0, l1, l2, l3]) == s4
  {
    RunTwo(s, l0, s1, l1, s2);
    RunTwo(s2, l2, s3, l3, s4);
    RunConcat(s, [l0, l1], [l2, l3]);
    assert [l0, l1] + [l2, l3] == [l0, l1, l2, l3];
  }

  /** Nothing buffered or queued, worker 0 about to look at the queue, every insert seals. */
  predicate Resting(s: State) {
    && s.dim == 1 && s.threshold == 1 && s.buffer == map[] && s.sealing == [] && s.inFlight
    && s.sealers == map[0 := Scanning] && s.pc.Idle?
  }

  function InsertLabels(id: Id, v: Floats): seq<Label> {
    [BeginInsert(id, v), CheckSealing, CheckSegments, ApplyInsert]
    + [TakeBuffer, PushSealing, SwapFlag, Throttled]
    + [Scan(0), Publish(0)]
  }

  lemma InsertBuffered(s: State, id: Id, v: Floats)
    requires Resting(s) && |v| == 1 && !AnyLive(s.segments, id)
    ensures var ls := [BeginInsert(id, v), CheckSealing, CheckSegments, ApplyInsert];
      IsRun(s, ls) && After(s, ls) == s.(buffer := map[id := v], pc := SealTake(Throttle))
  {
    var t := s.(buffer := map[id := v], pc := SealTake(Throttle));
    assert s.buffer[id := v] == map[id := v] && |map[id := v]| == 1;
    RunFour(s, BeginInsert(id, v), s.(pc := InsSealing(id, v)), CheckSealing, s.(pc := InsSegments(id, v)),
            CheckSegments, s.(pc := InsApply(id, v)), ApplyInsert, t);
  }

  lemma BufferQueued(s: State)
    requires s.buffer != map[] && s.sealing == [] && s.inFlight && s.pc == SealTake(Throttle)
    ensures var ls := [TakeBuffer, PushSealing, SwapFlag, Throttled];
      IsRun(s, ls) && After(s, ls) ==
        s.(buffer := map[], sealing := [Source(s.nextUid, s.buffer, {})], nextUid := s.nextUid + 1, pc := Idle)
  {
    var s1 := s.(buffer := map[], pc := SealPush(s.buffer, Throttle));
    var s2 := s1.(sealing := [Source(s.nextUid, s.buffer, {})], nextUid := s.nextUid + 1, pc := SealSwap(Throttle));
    assert [] + [Source(s.nextUid, s.buffer, {})] == [Source(s.nextUid, s.buffer, {})];
    RunFour(s, TakeBuffer, s1, PushSealing, s2, SwapFlag, s2.(pc := SealDone(Throttle)), Throttled, s2.(pc := Idle));
  }

  lemma QueuePublished(s: State, one: Source)
    requires s.sealing == [one] && s.sealers == map[0 := Scanning]
    ensures var ls := [Scan(0), Publish(0)];
      IsRun(s, ls) && After(s, ls) == s.(segments := s.segments + [one], sealing := [])
  {
    var s1 := s.(sealers := map[0 := Building(one.uid)]);
    assert s.sealers[0 := Building(one.uid)] == s1.sealers && s1.sealers[0 := Scanning] == s.sealers;
    assert Find([one], one.uid) == 0 && [one][..0] + [one][1..] == [];
    RunTwo(s, Scan(0), s1, Publish(0), s.(segments := s.segments + [one], sealing := []));
  }

  /** An insert that is sealed and published at once. */
  lemma InsertAndPublish(s: State, id: Id, v: Floats)
    requires Resting(s) && |v| == 1 && !AnyLive(s.segments, id)
    ensures IsRun(s, InsertLabels(id, v))
    ensures After(s, InsertLabels(id, v)) ==
      s.(segments := s.segments + [Source(s.nextUid, map[id := v], {})], nextUid := s.nextUid + 1)
  {
    var a, b := [BeginInsert(id, v), CheckSealing, CheckSegments, ApplyInsert],
                [TakeBuffer, PushSealing, SwapFlag, Throttled];
    InsertBuffered(s, id, v);
    var s1 := After(s, a);
    assert id in s1.buffer;
    BufferQueued(s1);
    RunConcat(s, a, b);
    var s2 := After(s, a + b);
    QueuePublished(s2, Source(s.nextUid, map[id := v], {}));
    RunConcat(s, a + b, [Scan(0), Publish(0)]);
  }

  function StartLabels(id: Id, v: Floats): seq<Label> {
    [BeginInsert(id, v), CheckSealing, CheckSegments, ApplyInsert] + [TakeBuffer, PushSealing, SwapFlag, Spawn(0)]
  }

  function BootLabels(id: Id, v: Floats): seq<Label> {
    StartLabels(id, v) + [Throttled] + [Scan(0), Publish(0)]
  }

  function Started(one: Source): State {
    State(1, 1, map[], [one], [], true, map[0 := Scanning], map[], SealDone(Throttle), 1, false)
  }

  lemma Start(id: Id, v: Floats)
    requires |v| == 1
    ensures IsRun(Init(1, 1), StartLabels(id, v))
    ensures After(Init(1, 1), StartLabels(id, v)) == Started(Source(0, map[id := v], {}))
  {
    var s := Init(1, 1);
    BootBuffered(id, v);
    var s1 := s.(buffer := map[id := v], pc := SealTake(Throttle));
    assert id in s1.buffer;
    BootQueued(s1, Source(0, map[id := v], {}));
    RunConcat(s, [BeginInsert(id, v), CheckSealing, CheckSegments, ApplyInsert],
              [TakeBuffer, PushSealing, SwapFlag, Spawn(0)]);
  }

  /** The first insert also starts the worker. */
  lemma Boot(id: Id, v: Floats)
    requires |v| == 1
    ensures IsRun(Init(1, 1), BootLabels(id, v))
    ensures After(Init(1, 1), BootLabels(id, v)) == Rest([Source(0, map[id := v], {})], map[], 1)
  {
    var s, one := Init(1, 1), Source(0, map[id := v], {});
    Start(id, v);
    BootDone(Started(one), one);
    RunConcat(s, StartLabels(id, v), [Throttled]);
    RunConcat(s, StartLabels(id, v) + [Throttled], [Scan(0), Publish(0)]);
  }

  lemma BootDone(s: State, one: Source)
    requires s.sealing == [one] && s.sealers == map[0 := Scanning] && s.pc == SealDone(Throttle)
    ensures IsRun(s, [Throttled]) && IsRun(After(s, [Throttled]), [Scan(0), Publish(0)])
    ensures After(After(s, [Throttled]), [Scan(0), Publish(0)]) ==
      s.(pc := Idle, segments := s.segments + [one], sealing := [])
  {
    RunStep(s, Throttled, s.(pc := Idle));
    QueuePublished(s.(pc := Idle), one);
  }

  lemma RunStep(s: State, l: Label, t: State)
    requires Enabled(s, l) && Apply(s, l) == t
    ensures IsRun(s, [l]) && After(s, [l]) == t
  {
    assert [l][1..] == [];
  }

  lemma BootBuffered(id: Id, v: Floats)
    requires |v| == 1
    ensures var ls, s := [BeginInsert(id, v), CheckSealing, CheckSegments, ApplyInsert], Init(1, 1);
      IsRun(s, ls) && After(s, ls) == s.(buffer := map[id := v], pc := SealTake(Throttle))
  {
    var s := Init(1, 1);
    assert s.buffer[id := v] == map[id := v] && |map[id := v]| == 1;
    RunFour(s, BeginInsert(id, v), s.(pc := InsSealing(id, v)), CheckSealing, s.(pc := InsSegments(id, v)),
            CheckSegments, s.(pc := InsApply(id, v)), ApplyInsert, s.(buffer := map[id := v], pc := SealTake(Throttle)));
  }

  lemma BootQueued(s: State, one: Source)
    requires s.buffer != map[] && s.sealing == [] && !s.inFlight && s.sealers == map[] && s.pc == SealTake(Throttle)
    requires one == Source(s.nextUid, s.buffer, {})
    ensures var ls := [TakeBuffer, PushSealing, SwapFlag, Spawn(0)];
      IsRun(s, ls) && After(s, ls) == s.(buffer := map[], sealing := [one], nextUid := s.nextUid + 1,
        inFlight := true, sealers := map[0 := Scanning], pc := SealDone(Throttle))
  {
    var s1 := s.(buffer := map[], pc := SealPush(s.buffer, Throttle));
    var s2 := s1.(sealing := [one], nextUid := s.nextUid + 1, pc := SealSwap(Throttle));
    var s3 := s2.(inFlight := true, pc := SealSpawn(Throttle));
    var s4 := s3.(sealers := map[0 := Scanning], pc := SealDone(Throttle));
    assert s3.sealers[0 := Scanning] == s4.sealers;
    RunFour(s, TakeBuffer, s1, PushSealing, s2, SwapFlag, s3, Spawn(0), s4);
  }

  /** A delete up to, but not including, its last block. */
  function DeleteLabels(id: Id): seq<Label> {
    [BeginDelete(id), FindSealing, FindSegments, EraseBuffer] + [EraseSealing]
  }

  lemma DeleteReachesSegments(s: State, id: Id)
    requires s.pc.Idle? && s.buffer == map[] && s.sealing == [] && AnyLive(s.segments, id)
    ensures IsRun(s, DeleteLabels(id)) && After(s, DeleteLabels(id)) == s.(pc := DelSegments(id))
  {
    RunFour(s, BeginDelete(id), s.(pc := HasSealing(id)), FindSealing, s.(pc := HasSegments(id)),
            FindSegments, s.(pc := DelBuffer(id)), EraseBuffer, s.(pc := DelSealing(id)));
    RunStep(s.(pc := DelSealing(id)), EraseSealing, s.(pc := DelSegments(id)));
    RunConcat(s, [BeginDelete(id), FindSealing, FindSegments, EraseBuffer], [EraseSealing]);
  }

  function Rest(segments: seq<Source>, jobs: map<nat, Job>, uid: nat): State {
    State(1, 1, map[], [], segments, true, map[0 := Scanning], jobs, Idle, uid, false)
  }

  const X: Floats := (SmallIsFloat(0); [0.0])
  const Y: Floats := (SmallIsFloat(1); [1.0])
  const A := Source(0, map[5 := X], {})
  const B := Source(1, map[6 := X], {})
  const C := Source(2, map[7 := X], {})
  const D := Source(3, map[5 := Y], {})
  const M := Source(4, map[5 := X, 6 := X], {5})
  const MERGE := Job(0, 1, map[5 := X], map[6 := X], {}, {})

  /** Insert 5, 6 and 7, each sealed and published on its own. */
  function FillLabels(): seq<Label> { BootLabels(5, X) + InsertLabels(6, X) + InsertLabels(7, X) }

  /** Start merging the segments of 5 and 6, delete 5. */
  function HidingPrefix(): seq<Label> { FillLabels() + [Snapshot(0, 0, 1)] + (DeleteLabels(5) + [EraseSegments]) }

  /** Insert 5 again, then let the merge swap. */
  function HidingRun(): seq<Label> { HidingPrefix() + InsertLabels(5, Y) + [Swap(0)] }

  lemma PrefixRuns()
    ensures IsRun(Init(1, 1), HidingPrefix())
    ensures After(Init(1, 1), HidingPrefix()) == Rest([A.(tombs := {5}), B, C], map[0 := MERGE], 3)
  {
    var s := Init(1, 1);
    Filled();
    var s3 := Rest([A, B, C], map[0 := MERGE], 3);
    SnapshotTaken(Rest([A, B, C], map[], 3), s3);
    RunConcat(s, FillLabels(), [Snapshot(0, 0, 1)]);
    assert [A, B, C][0].Live(5);
    DeleteReachesSegments(s3, 5);
    var s4 := Rest([A.(tombs := {5}), B, C], map[0 := MERGE], 3);
    FirstDelete(s3.(pc := DelSegments(5)), s4);
    RunConcat(s3, DeleteLabels(5), [EraseSegments]);
    RunConcat(s, FillLabels() + [Snapshot(0, 0, 1)], DeleteLabels(5) + [EraseSegments]);
  }

  lemma Filled()
    ensures IsRun(Init(1, 1), FillLabels()) && After(Init(1, 1), FillLabels()) == Rest([A, B, C], map[], 3)
  {
    var s := Init(1, 1);
    Boot(5, X);
    assert !AnyLive([A], 6);
    InsertAndPublish(Rest([A], map[], 1), 6, X);
    RunConcat(s, BootLabels(5, X), InsertLabels(6, X));
    assert [A] + [B] == [A, B];
    assert !AnyLive([A, B], 7);
    InsertAndPublish(Rest([A, B], map[], 2), 7, X);
    RunConcat(s, BootLabels(5, X) + InsertLabels(6, X), InsertLabels(7, X));
    assert [A, B] + [C] == [A, B, C];
  }

  lemma SnapshotTaken(s2: State, s3: State)
    requires s2 == Rest([A, B, C], map[], 3) && s3 == Rest([A, B, C], map[0 := MERGE], 3)
    ensures IsRun(s2, [Snapshot(0, 0, 1)]) && After(s2, [Snapshot(0, 0, 1)]) == s3
  {
    assert A.LiveCount() == 1 && B.LiveCount() == 1 && C.LiveCount() == 1;
    assert s2.jobs[0 := MERGE] == map[0 := MERGE];
    RunStep(s2, Snapshot(0, 0, 1), s3);
  }

  lemma FirstDelete(s: State, t: State)
    requires s == Rest([A, B, C], map[0 := MERGE], 3).(pc := DelSegments(5))
    requires t == Rest([A.(tombs := {5}), B, C], map[0 := MERGE], 3)
    ensures IsRun(s, [EraseSegments]) && After(s, [EraseSegments]) == t
  {
    NewestHere([A, B, C], 0, 5);
    assert A.tombs + {5} == {5};
    assert Bury([A, B, C], 0, 5) == [A.(tombs := {5}), B, C];
    RunStep(s, EraseSegments, t);
  }

  lemma MergeSwapped(s: State)
    requires s == Rest([A.(tombs := {5}), B, C, D], map[0 := MERGE], 4)
    ensures IsRun(s, [Swap(0)]) && After(s, [Swap(0)]) == Rest([C, D, M], map[], 5)
  {
    var ls := [A.(tombs := {5}), B, C, D];
    FoundAt(ls, 0);
    FoundAt(ls, 1);
    RetainTwo(ls, 0, 1, 0, 1);
    assert ls[..0] + ls[1..1] + ls[2..] + [M] == [C, D, M];
    SwapFields(s, 0);
    MergedRecords(s);
    RunStep(s, Swap(0), Rest([C, D, M], map[], 5));
  }

  lemma MergedRecords(s: State)
    requires s == Rest([A.(tombs := {5}), B, C, D], map[0 := MERGE], 4)
    requires Find(s.segments, 0) == 0 && Find(s.segments, 1) == 1
    ensures Product(s, 0) == M && s.jobs - {0} == map[]
  {
    assert MERGE.Merged() == M.data && Carried(s, MERGE) == {5};
  }

  /** The merge worker starts a merge only over the ceiling, and only one at a time. */
  ghost predicate AsTriggered(s: State, ls: seq<Label>, maxSegments: nat) {
    forall i :: 0 <= i < |ls| && ls[i].Snapshot? ==>
      IsRun(s, ls[..i]) && |After(s, ls[..i]).segments| > maxSegments && After(s, ls[..i]).jobs == map[]
  }

  predicate Snapshotless(ls: seq<Label>) { forall l :: l in ls ==> !l.Snapshot? }

  lemma ElsewhereNone(a: seq<Label>, l: Label, b: seq<Label>, i: nat)
    requires Snapshotless(a) && Snapshotless(b) && i < |a + ([l] + b)|
    ensures i != |a| ==> !(a + ([l] + b))[i].Snapshot?
  {
    var ls := a + ([l] + b);
    if i < |a| { assert ls[i] == a[i]; } else if i > |a| { assert ls[i] == b[i - |a| - 1]; }
  }

  lemma OneSnapshot(s: State, a: seq<Label>, l: Label, b: seq<Label>, max: nat)
    requires IsRun(s, a) && Snapshotless(a) && Snapshotless(b)
    requires |After(s, a).segments| > max && After(s, a).jobs == map[]
    ensures AsTriggered(s, a + ([l] + b), max)
  {
    var ls := a + ([l] + b);
    forall i | 0 <= i < |ls| ensures ls[i].Snapshot? ==> i == |a| { ElsewhereNone(a, l, b, i); }
    assert ls[..|a|] == a;
  }

  /** The one snapshot of the run is taken over the smallest ceiling the program accepts. */
  lemma HidingIsTriggered()
    ensures AsTriggered(Init(1, 1), HidingRun(), 2)
  {
    Regrouped(FillLabels(), [Snapshot(0, 0, 1)], DeleteLabels(5) + [EraseSegments], InsertLabels(5, Y), [Swap(0)]);
    Filled();
    FillSnapshotless();
    RestSnapshotless();
    OneSnapshot(Init(1, 1), FillLabels(), Snapshot(0, 0, 1),
                DeleteLabels(5) + [EraseSegments] + InsertLabels(5, Y) + [Swap(0)], 2);
  }

  lemma BothSnapshotless(a: seq<Label>, b: seq<Label>)
    requires Snapshotless(a) && Snapshotless(b)
    ensures Snapshotless(a + b)
  {
  }

  lemma InsertSnapshotless(id: Id, v: Floats)
    ensures Snapshotless(InsertLabels(id, v)) && Snapshotless(BootLabels(id, v))
  {
    var begin := [BeginInsert(id, v), CheckSealing, CheckSegments, ApplyInsert];
    BothSnapshotless(begin, [TakeBuffer, PushSealing, SwapFlag, Throttled]);
    BothSnapshotless(begin + [TakeBuffer, PushSealing, SwapFlag, Throttled], [Scan(0), Publish(0)]);
    BothSnapshotless(begin, [TakeBuffer, PushSealing, SwapFlag, Spawn(0)]);
    BothSnapshotless(StartLabels(id, v), [Throttled]);
    BothSnapshotless(StartLabels(id, v) + [Throttled], [Scan(0), Publish(0)]);
  }

  lemma FillSnapshotless()
    ensures Snapshotless(FillLabels())
  {
    InsertSnapshotless(5, X);
    InsertSnapshotless(6, X);
    InsertSnapshotless(7, X);
    BothSnapshotless(BootLabels(5, X), InsertLabels(6, X));
    BothSnapshotless(BootLabels(5, X) + InsertLabels(6, X), InsertLabels(7, X));
  }

  lemma RestSnapshotless()
    ensures Snapshotless(DeleteLabels(5) + [EraseSegments] + InsertLabels(5, Y) + [Swap(0)])
  {
    InsertSnapshotless(5, Y);
    assert Snapshotless(DeleteLabels(5) + [EraseSegments]);
    BothSnapshotless(DeleteLabels(5) + [EraseSegments], InsertLabels(5, Y));
    BothSnapshotless(DeleteLabels(5) + [EraseSegments] + InsertLabels(5, Y), [Swap(0)]);
  }

  lemma Regrouped(a: seq<Label>, b: seq<Label>, c: seq<Label>, d: seq<Label>, e: seq<Label>)
    ensures a + b + c + d + e == a + (b + (c + d + e))
  {
  }

  /**
   * The run exists, its merge starts as the program starts one with a ceiling of 2, and in its last
   * state id 5 is live, yet the newest source containing it is the merged segment that holds it dead:
   * reading misses it, and a delete that has passed its liveness check is answered NotFound.
   */
  lemma LiveRecordHidden()
    ensures IsRun(Init(1, 1), HidingRun()) && AsTriggered(Init(1, 1), HidingRun(), 2)
    ensures var s := After(Init(1, 1), HidingRun());
      && 5 in View(s) && Lookup(Layers(s), 5) == None && !NewestLive(Layers(s))
      && IsRun(s, DeleteLabels(5))
      && (var t := After(s, DeleteLabels(5)); Enabled(t, EraseSegments) && ReplyOf(t, EraseSegments) == Some(Missing))
  {
    HidingRuns();
    HidingIsTriggered();
    FinalState(Rest([C, D, M], map[], 5));
  }

  lemma Reinserted(s: State)
    requires s == Rest([A.(tombs := {5}), B, C], map[0 := MERGE], 3)
    ensures IsRun(s, InsertLabels(5, Y))
    ensures After(s, InsertLabels(5, Y)) == Rest([A.(tombs := {5}), B, C, D], map[0 := MERGE], 4)
  {
    var segs := s.segments;
    assert !AnyLive(segs, 5);
    InsertAndPublish(s, 5, Y);
    assert segs + [D] == [A.(tombs := {5}), B, C, D];
  }

  lemma HidingRuns()
    ensures IsRun(Init(1, 1), HidingRun()) && After(Init(1, 1), HidingRun()) == Rest([C, D, M], map[], 5)
  {
    PrefixRuns();
    Reinserted(Rest([A.(tombs := {5}), B, C], map[0 := MERGE], 3));
    RunConcat(Init(1, 1), HidingPrefix(), InsertLabels(5, Y));
    MergeSwapped(Rest([A.(tombs := {5}), B, C, D], map[0 := MERGE], 4));
    RunConcat(Init(1, 1), HidingPrefix() + InsertLabels(5, Y), [Swap(0)]);
  }

  lemma FinalState(s: State)
    requires s == Rest([C, D, M], map[], 5)
    ensures 5 in View(s) && Lookup(Layers(s), 5) == None && !NewestLive(Layers(s))
    ensures IsRun(s, DeleteLabels(5))
    ensures var t := After(s, DeleteLabels(5)); Enabled(t, EraseSegments) && ReplyOf(t, EraseSegments) == Some(Missing)
  {
    var ls := [C, D, M, Source(0, map[], {})];
    assert Layers(s) == ls;
    assert [C, D, M][1].Live(5);
    LiveMapMembers(ls, 5);
    assert ls[1].Live(5) && 5 in ls[2].data;
    NewestHere(ls, 2, 5);
    DeleteReachesSegments(s, 5);
    NewestHere([C, D, M], 2, 5);
  }
}
