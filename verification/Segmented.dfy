/**
 * The segmented index itself: the loops inside its locked blocks, each proved to be the step the
 * interleaving machine takes, and its operations, with blocks of the other threads between any two.
 */
module Segmented {
  import opened Prelude
  import opened Store
  import opened StoreInvariants
  import opened StoreSteps
  import opened StoreMerge
  import opened StoreRuns
  import opened StoreWorkers
  import opened StoreFrames
  import TopK

  /** Is the id live in one of the sources? */
  method ContainsLiveIn(ls: seq<Source>, id: Id) returns (found: bool)
    ensures found == AnyLive(ls, id)
  {
    for i := 0 to |ls|
      invariant forall j :: 0 <= j < i ==> !ls[j].Live(id)
    {
      if id in ls[i].data && id !in ls[i].tombs {
        assert ls[i].Live(id);
        return true;
      }
    }
    found := false;
  }

  /** Newest to oldest, stopping at the first source that contains the id, tombstoned or not. */
  method FindNewest(ls: seq<Source>, id: Id) returns (i: int)
    ensures i == Newest(ls, id)
  {
    i := |ls| - 1;
    while i >= 0 && id !in ls[i].data
      invariant -1 <= i < |ls| && Newest(ls, id) <= i
    {
      i := i - 1;
    }
  }

  /** Position of a source by identity; -1 when it is no longer listed. */
  method FindSource(ls: seq<Source>, uid: nat) returns (i: int)
    ensures i == Find(ls, uid)
  {
    i := |ls| - 1;
    assert ls[..i + 1] == ls;
    while i >= 0 && ls[i].uid != uid
      invariant -1 <= i < |ls| && Find(ls, uid) == Find(ls[..i + 1], uid)
    {
      assert ls[..i + 1][..i] == ls[..i];
      i := i - 1;
    }
  }

  /** `retain`: the list without one source. */
  method WithoutOne(ls: seq<Source>, uid: nat) returns (r: seq<Source>)
    requires Distinct(ls) && Find(ls, uid) >= 0
    ensures var i := Find(ls, uid); r == ls[..i] + ls[i + 1..]
  {
    ghost var i := Find(ls, uid);
    r := [];
    for j := 0 to |ls|
      invariant r == if j <= i then ls[..j] else ls[..i] + ls[i + 1..j]
    {
      if ls[j].uid != uid { r := r + [ls[j]]; }
    }
  }

  /** `retain`: the list without two sources. */
  method Without(ls: seq<Source>, a: nat, b: nat) returns (r: seq<Source>)
    ensures r == Retain(ls, a, b)
  {
    r := [];
    for i := 0 to |ls|
      invariant r == Retain(ls[..i], a, b)
    {
      RetainAppend(ls[..i], [ls[i]], a, b);
      assert ls[..i + 1] == ls[..i] + [ls[i]];
      assert Retain([ls[i]], a, b) == if ls[i].uid == a || ls[i].uid == b then [] else [ls[i]] by {
        assert [ls[i]][1..] == [];
      }
      if ls[i].uid != a && ls[i].uid != b { r := r + [ls[i]]; }
    }
    assert ls[..|ls|] == ls;
  }

  /** The two smallest segments by live count, earlier ones first among equals: a stable sort's first two. */
  method PickVictims(ls: seq<Source>) returns (i: nat, j: nat)
    requires |ls| >= 2
    ensures Victims(ls, i, j)
  {
    var order := TopK.Sort(ByLiveCount(ls));
    SortPermutes(ls, order);
    FirstTwo(ls, order);
    i, j := order[0].key, order[1].key;
  }

  /** The victims have the fewest live records; of equals the earlier in the list is taken, and comes first. */
  lemma VictimsAreSmallest(ls: seq<Source>, i: nat, j: nat, k: nat)
    requires Victims(ls, i, j) && k < |ls| && k != i && k != j
    ensures ls[i].LiveCount() <= ls[j].LiveCount() <= ls[k].LiveCount()
    ensures ls[i].LiveCount() == ls[j].LiveCount() ==> i < j
    ensures ls[j].LiveCount() == ls[k].LiveCount() ==> j < k
  {
    assert Smaller(ls, i, j) && Smaller(ls, j, k);
  }

  function ByLiveCount(ls: seq<Source>): (r: seq<TopK.Ranked>)
    ensures |r| == |ls| && forall i :: 0 <= i < |ls| ==> r[i] == TopK.Ranked(i, ls[i].LiveCount() as real)
  {
    seq(|ls|, i requires 0 <= i < |ls| => TopK.Ranked(i, ls[i].LiveCount() as real))
  }

  /** `order` is a permutation of the ranked segments. */
  ghost predicate Permutes(ls: seq<Source>, order: seq<TopK.Ranked>) {
    && |order| == |ls|
    && (forall n :: 0 <= n < |order| ==> order[n].key < |ls| && order[n].dist == ls[order[n].key].LiveCount() as real)
    && (forall k: nat :: k < |ls| ==> Placed(order, k))
    && (|order| >= 2 ==> order[0].key != order[1].key)
  }

  predicate Placed(order: seq<TopK.Ranked>, k: nat) { exists n :: 0 <= n < |order| && order[n].key == k }

  lemma SortPermutes(ls: seq<Source>, order: seq<TopK.Ranked>)
    requires order == TopK.Sort(ByLiveCount(ls))
    ensures Permutes(ls, order)
  {
    var r := ByLiveCount(ls);
    SameMembers(order, r);
    forall n | 0 <= n < |order| ensures order[n].key < |ls| && order[n] == r[order[n].key] {
      assert order[n] in r;
    }
    forall k: nat | k < |ls| ensures Placed(order, k) {
      assert r[k] in order;
      var n :| 0 <= n < |order| && order[n] == r[k];
      assert order[n].key == k;
    }
    if |order| >= 2 { TwoPositions(r, order); }
  }

  lemma SameMembers(a: seq<TopK.Ranked>, b: seq<TopK.Ranked>)
    requires multiset(a) == multiset(b)
    ensures |a| == |b| && (forall x :: x in a ==> x in b) && forall x :: x in b ==> x in a
  {
    assert |a| == |multiset(a)| && |b| == |multiset(b)|;
    forall x | x in a ensures x in b { assert x in multiset(a) && x in multiset(b); }
    forall x | x in b ensures x in a { assert x in multiset(b) && x in multiset(a); }
  }

  lemma FirstTwo(ls: seq<Source>, order: seq<TopK.Ranked>)
    requires |ls| >= 2 && Permutes(ls, order) && TopK.Sorted(order)
    ensures Victims(ls, order[0].key, order[1].key)
  {
    var i, j := order[0].key, order[1].key;
    forall k: nat | k < |ls| && k != i ensures Smaller(ls, i, k) {
      assert Placed(order, k);
      var n :| 0 <= n < |order| && order[n].key == k;
      assert !TopK.Less(order[n], order[0]);
    }
    forall k: nat | k < |ls| && k != i && k != j ensures Smaller(ls, j, k) {
      assert Placed(order, k);
      var n :| 0 <= n < |order| && order[n].key == k;
      assert !TopK.Less(order[n], order[1]);
    }
  }

  lemma TwoPositions(r: seq<TopK.Ranked>, order: seq<TopK.Ranked>)
    requires |order| >= 2 && multiset(order) == multiset(r) && forall a, b :: 0 <= a < b < |r| ==> r[a] != r[b]
    ensures order[0] != order[1]
  {
    var x := order[0];
    assert x in multiset(r);
    var a :| 0 <= a < |r| && r[a] == x;
    OnlyOnce(r, a);
    assert order == [order[0]] + [order[1]] + order[2..];
  }

  lemma OnlyOnce(r: seq<TopK.Ranked>, a: nat)
    requires a < |r| && forall i, j :: 0 <= i < j < |r| ==> r[i] != r[j]
    ensures multiset(r)[r[a]] == 1
  {
    assert r == r[..a] + [r[a]] + r[a + 1..];
    assert r[a] !in r[..a] && r[a] !in r[a + 1..];
  }

  /** The lock-free rebuild: both snapshots' live records, none of them twice. */
  method Rebuild(job: Job) returns (merged: map<Id, Floats>)
    requires (job.aData.Keys - job.aSnap) !! (job.bData.Keys - job.bSnap)
    ensures merged == job.Merged()
  {
    merged := CopyLive(map[], job.aData, job.aSnap);
    merged := CopyLive(merged, job.bData, job.bSnap);
  }

  method CopyLive(into: map<Id, Floats>, data: map<Id, Floats>, snap: set<Id>) returns (merged: map<Id, Floats>)
    requires into.Keys !! (data.Keys - snap)
    ensures merged == into + (data - snap)
  {
    hide Copied;
    merged := into;
    var rest := data.Keys;
    NothingCopied(into, data - snap, rest);
    while rest != {}
      invariant rest <= data.Keys && merged == Copied(into, data - snap, rest)
      decreases |rest|
    {
      var id :| id in rest;
      CopyStep(into, data - snap, rest, id);
      rest := rest - {id};
      if id !in snap {
        assert id !in merged;  // so the insert into the new graph cannot fail
        merged := merged[id := data[id]];
      }
    }
    AllCopied(into, data - snap);
  }

  /** With `rest` still to come. */
  ghost function Copied(into: map<Id, Floats>, live: map<Id, Floats>, rest: set<Id>): map<Id, Floats> {
    into + (live - rest)
  }

  lemma NothingCopied(into: map<Id, Floats>, live: map<Id, Floats>, rest: set<Id>)
    requires live.Keys <= rest
    ensures Copied(into, live, rest) == into
  {
    assert live - rest == map[];
  }

  lemma AllCopied(into: map<Id, Floats>, live: map<Id, Floats>)
    ensures Copied(into, live, {}) == into + live
  {
    assert live - {} == live;
  }

  lemma CopyStep(into: map<Id, Floats>, live: map<Id, Floats>, rest: set<Id>, id: Id)
    requires id in rest && into.Keys !! live.Keys
    ensures id in live ==> id !in Copied(into, live, rest)
    ensures Copied(into, live, rest - {id}) ==
      if id in live then Copied(into, live, rest)[id := live[id]] else Copied(into, live, rest)
  {
    OneMore(live, rest, id);
  }

  lemma OneMore(live: map<Id, Floats>, rest: set<Id>, id: Id)
    requires id in rest
    ensures live - (rest - {id}) == if id in live then (live - rest)[id := live[id]] else live - rest
  {
  }

  /** `l` runs as a whole. */
  ghost predicate Stepped(before: State, l: Label, after: State) {
    Enabled(before, l) && after == Apply(before, l)
  }

  /**
   * The index. `sealers` and `jobs` are where its background threads stand; `guarded` records the
   * assumption, when it is made, that no merge swap hides a live copy.
   */
  class SegmentedIndex {
    const dim: nat
    const threshold: nat
    const guarded: bool
    var buffer: map<Id, Floats>
    var sealing: seq<Source>
    var segments: seq<Source>
    var inFlight: bool
    var nextUid: nat
    var sealers: map<nat, SealerPc>
    var jobs: map<nat, Job>
    var valveFired: bool

    /** The state of the interleaving machine when the writer stands at `pc`. */
    function At(pc: Pc): State
      reads this
    {
      State(dim, threshold, buffer, sealing, segments, inFlight, sealers, jobs, pc, nextUid, valveFired)
    }

    /** All is well with the writer at `pc`. */
    ghost predicate Stands(pc: Pc)
      reads this
    {
      Sound(At(pc), guarded)
    }

    ghost predicate Valid()
      reads this
    {
      Stands(Idle)
    }

    /** The records the index holds, the buffer in the writer's hand included. */
    ghost function Holding(pc: Pc): map<Id, Floats>
      reads this
    {
      View(At(pc))
    }

    ghost function Contents(): map<Id, Floats>
      reads this
    {
      Holding(Idle)
    }

    ghost function Sources(): Stock
      reads this
    {
      Stock(segments + sealing, nextUid)
    }

    /** A new index (no segments), or one opened on the segments of a directory. */
    constructor (dim: nat, threshold: nat, guarded: bool, segments: seq<Source>)
      requires Distinct(segments) && Below(segments, |segments|) && TombsInside(segments) && UniqueLive(segments)
      requires guarded ==> NewestLive(segments)
      ensures Valid() && Contents() == LiveMap(segments) && Sources() == Stock(segments, |segments|)
      ensures this.dim == dim && this.threshold == threshold && this.guarded == guarded
    {
      hide Descends;
      this.dim, this.threshold, this.guarded := dim, threshold, guarded;
      this.buffer, this.sealing, this.segments, this.inFlight, this.nextUid := map[], [], segments, false, |segments|;
      this.sealers, this.jobs, this.valveFired := map[], map[], false;
      new;
      OpenedHolds(dim, threshold, segments);
      assert At(Idle) == Opened(dim, threshold, segments);
    }

    /** Outside the hand-over the writer's position does not change what the index holds. */
    lemma SameLayers(a: Pc, b: Pc)
      requires !a.SealPush? && !b.SealPush?
      ensures Layers(At(a)) == Layers(At(b)) && Holding(a) == Holding(b)
    {
    }

    // ---- The other threads ----

    /** Any finite number of blocks of sealing and merge workers, wherever the writer stands. */
    method Others(ghost pc: Pc)
      requires Stands(pc)
      modifies this`sealing, this`segments, this`inFlight, this`nextUid, this`sealers, this`jobs
      ensures Stands(pc) && Holding(pc) == old(Holding(pc)) && Descends(old(Sources()), Sources())
      ensures old(Quiet(At(pc))) ==> Quiet(At(pc))
    {
      hide Sound, Descends, View;
      ghost var from, m, quiet := Sources(), Holding(pc), Quiet(At(pc));
      DescendsSelf(from);
      var blocks := *;
      while blocks > 0
        invariant Stands(pc) && Holding(pc) == m && Descends(from, Sources())
        invariant quiet ==> Quiet(At(pc))
        decreases blocks
      {
        blocks := blocks - 1;
        var l: Label := *;
        ghost var before := Sources();
        WorkerBlock(l, pc);
        DescendsTrans(from, before, Sources());
      }
    }

    /** One block of a worker, if it can run now. */
    method WorkerBlock(l: Label, ghost pc: Pc)
      requires Stands(pc)
      modifies this`sealing, this`segments, this`inFlight, this`nextUid, this`sealers, this`jobs
      ensures Stands(pc) && Holding(pc) == old(Holding(pc)) && Descends(old(Sources()), Sources())
      ensures old(Quiet(At(pc))) ==> Quiet(At(pc))
      ensures At(pc) == old(At(pc)) || (Worker(l) && old(Enabled(At(pc), l)) && At(pc) == Apply(old(At(pc)), l))
      ensures Worker(l) && !l.Swap? && old(Enabled(At(pc), l)) ==> At(pc) == Apply(old(At(pc)), l)
    {
      hide Sound, Descends, View, Apply, Quiet, HidesNothing;
      DescendsSelf(Sources());
      if Worker(l) && Enabled(At(Idle), l) && (guarded && l.Swap? ==> HidesNothing(At(Idle), l.jid)) {
        HidingIgnoresPc(At(Idle), if l.Swap? then l.jid else 0, pc);
        WorkerCommutes(At(Idle), l, pc);
        WorkerTook(At(pc), l, guarded);
        Run(l, pc);
      } else if Worker(l) && !l.Swap? && Enabled(At(pc), l) {
        WorkerCommutes(At(pc), l, Idle);
      }
    }

    method Run(l: Label, ghost pc: Pc)
      requires Worker(l) && Enabled(At(Idle), l) && Enabled(At(pc), l)
      modifies this`sealing, this`segments, this`inFlight, this`nextUid, this`sealers, this`jobs
      ensures At(pc) == Apply(old(At(pc)), l)
    {
      WorkerCommutes(At(Idle), l, pc);
      WorkerKeepsBuffer(At(Idle), l);
      var t := Apply(At(Idle), l);
      sealing, segments, inFlight, nextUid := t.sealing, t.segments, t.inFlight, t.nextUid;
      sealers, jobs := t.sealers, t.jobs;
    }

    // ---- Checks spread over three locks ----

    /** `validate_insert`: dimension, then the duplicate checks, with other threads in between. */
    method ValidateInsert(id: Id, v: Floats) returns (r: Status)
      requires Valid()
      modifies this`sealing, this`segments, this`inFlight, this`nextUid, this`sealers, this`jobs
      ensures Valid() && Contents() == old(Contents()) && Descends(old(Sources()), Sources())
      ensures r == if |v| != dim then DimensionMismatch else if id in Contents() then DuplicateId else Ok
      ensures r == Ok ==> Stands(InsApply(id, v))
    {
      hide Sound, Descends, View;
      DescendsSelf(Sources());
      if |v| != dim { return DimensionMismatch; }
      if id in buffer {
        LiveSomewhere(At(Idle), id);
        return DuplicateId;
      }
      Took(At(Idle), BeginInsert(id, v), At(InsSealing(id, v)), guarded);
      SameLayers(Idle, InsSealing(id, v));
      r := CheckQueue(id, v);
    }

    /** The queue, then the segments. */
    method CheckQueue(id: Id, v: Floats) returns (r: Status)
      requires Stands(InsSealing(id, v))
      modifies this`sealing, this`segments, this`inFlight, this`nextUid, this`sealers, this`jobs
      ensures Valid() && Contents() == old(Contents()) && Descends(old(Sources()), Sources())
      ensures r == if id in Contents() then DuplicateId else Ok
      ensures r == Ok ==> Stands(InsApply(id, v))
    {
      hide Sound, Descends, View;
      SameLayers(InsSealing(id, v), Idle);
      ghost var from := Sources();
      Others(InsSealing(id, v));
      SameLayers(InsSealing(id, v), Idle);
      var queued := ContainsLiveIn(sealing, id);
      Took(At(InsSealing(id, v)), Label.CheckSealing, At(if queued then Idle else InsSegments(id, v)), guarded);
      if queued {
        LiveSomewhere(At(Idle), id);
        return DuplicateId;
      }
      SameLayers(InsSegments(id, v), Idle);
      ghost var mid := Sources();
      Others(InsSegments(id, v));
      DescendsTrans(from, mid, Sources());
      SameLayers(InsSegments(id, v), Idle);
      r := CheckSegments(id, v);
    }

    method CheckSegments(id: Id, v: Floats) returns (r: Status)
      requires Stands(InsSegments(id, v))
      ensures Valid() && r == if id in Contents() then DuplicateId else Ok
      ensures r == Ok ==> Stands(InsApply(id, v))
    {
      hide Sound, Descends, View;
      var live := ContainsLiveIn(segments, id);
      Took(At(InsSegments(id, v)), Label.CheckSegments, At(if live then Idle else InsApply(id, v)), guarded);
      if live {
        LiveSomewhere(At(Idle), id);
        return DuplicateId;
      }
      BackToIdle(At(InsApply(id, v)), guarded);
      WriterKnows(At(InsApply(id, v)), guarded);
      SameLayers(InsApply(id, v), Idle);
      r := Ok;
    }

    /** `contains_live`, likewise. */
    method ContainsLive(id: Id) returns (live: bool)
      requires Valid()
      modifies this`sealing, this`segments, this`inFlight, this`nextUid, this`sealers, this`jobs
      ensures Valid() && Contents() == old(Contents()) && Descends(old(Sources()), Sources())
      ensures live == (id in Contents())
      ensures live ==> Stands(DelBuffer(id))
    {
      hide Sound, Descends, View;
      DescendsSelf(Sources());
      live := id in buffer;
      Took(At(Idle), BeginDelete(id), At(if live then DelBuffer(id) else HasSealing(id)), guarded);
      if live {
        LiveSomewhere(At(Idle), id);
      } else {
        SameLayers(HasSealing(id), Idle);
        live := FindInQueue(id);
      }
    }

    method FindInQueue(id: Id) returns (live: bool)
      requires Stands(HasSealing(id))
      modifies this`sealing, this`segments, this`inFlight, this`nextUid, this`sealers, this`jobs
      ensures Valid() && Contents() == old(Contents()) && Descends(old(Sources()), Sources())
      ensures live == (id in Contents())
      ensures live ==> Stands(DelBuffer(id))
    {
      hide Sound, Descends, View;
      SameLayers(HasSealing(id), Idle);
      ghost var from := Sources();
      Others(HasSealing(id));
      SameLayers(HasSealing(id), Idle);
      live := ContainsLiveIn(sealing, id);
      Took(At(HasSealing(id)), Label.FindSealing, At(if live then DelBuffer(id) else HasSegments(id)), guarded);
      if live {
        LiveSomewhere(At(Idle), id);
        BackToIdle(At(DelBuffer(id)), guarded);
        return;
      }
      SameLayers(HasSegments(id), Idle);
      ghost var mid := Sources();
      Others(HasSegments(id));
      DescendsTrans(from, mid, Sources());
      SameLayers(HasSegments(id), Idle);
      live := FindInSegments(id);
    }

    method FindInSegments(id: Id) returns (live: bool)
      requires Stands(HasSegments(id))
      ensures Valid() && live == (id in Contents())
      ensures live ==> Stands(DelBuffer(id))
    {
      hide Sound, Descends, View;
      live := ContainsLiveIn(segments, id);
      WriterKnows(At(HasSegments(id)), guarded);
      SameLayers(HasSegments(id), Idle);
      Took(At(HasSegments(id)), Label.FindSegments, At(if live then DelBuffer(id) else Idle), guarded);
      if live {
        LiveSomewhere(At(Idle), id);
        BackToIdle(At(DelBuffer(id)), guarded);
      }
    }

    // ---- Delete ----

    method EraseBuffer(id: Id) returns (ok: bool)
      modifies this`buffer
      ensures At(if ok then Idle else DelSealing(id)) == Apply(old(At(DelBuffer(id))), Label.EraseBuffer)
      ensures ok == (ReplyOf(old(At(DelBuffer(id))), Label.EraseBuffer) == Some(Erased))
    {
      ok := id in buffer;
      if ok { buffer := buffer - {id}; }
    }

    /** The queue, newest first; a hit ends the delete either way. */
    method EraseSealing(id: Id) returns (hit: bool, ok: bool)
      modifies this`sealing
      ensures At(if hit then Idle else DelSegments(id)) == Apply(old(At(DelSealing(id))), Label.EraseSealing)
      ensures hit == (ReplyOf(old(At(DelSealing(id))), Label.EraseSealing) != None)
      ensures ok == (ReplyOf(old(At(DelSealing(id))), Label.EraseSealing) == Some(Erased))
    {
      var i := FindNewest(sealing, id);
      hit, ok := i >= 0, false;
      if hit && id !in sealing[i].tombs {
        ok := true;
        sealing := sealing[i := sealing[i].(tombs := sealing[i].tombs + {id})];
      }
    }

    method EraseSegments(id: Id) returns (ok: bool)
      modifies this`segments
      ensures At(Idle) == Apply(old(At(DelSegments(id))), Label.EraseSegments)
      ensures ok == (ReplyOf(old(At(DelSegments(id))), Label.EraseSegments) == Some(Erased))
    {
      var i := FindNewest(segments, id);
      ok := false;
      if i >= 0 && id !in segments[i].tombs {
        ok := true;
        segments := segments[i := segments[i].(tombs := segments[i].tombs + {id})];
      }
    }

    /** The in-memory side of a delete: buffer, queue, segments, in that order, other threads in between. */
    method DeleteVectorOnly(id: Id) returns (ok: bool)
      requires Stands(DelBuffer(id))
      modifies this`buffer, this`sealing, this`segments, this`inFlight, this`nextUid, this`sealers, this`jobs
      ensures Valid() && Descends(old(Sources()), Sources())
      ensures Contents() == if ok then old(Contents()) - {id} else old(Contents())
      ensures guarded ==> ok
    {
      hide Sound, Descends, View;
      SameLayers(DelBuffer(id), Idle);
      ghost var from := Sources();
      Others(DelBuffer(id));
      ghost var s, mid := At(DelBuffer(id)), Sources();
      ok := EraseBuffer(id);
      Took(s, Label.EraseBuffer, At(if ok then Idle else DelSealing(id)), guarded);
      TookErase(s, Label.EraseBuffer, At(if ok then Idle else DelSealing(id)), guarded);
      DescendsTrans(from, mid, Sources());
      if ok { return; }
      SameLayers(DelSealing(id), Idle);
      mid := Sources();
      ok := DeleteFromQueue(id);
      DescendsTrans(from, mid, Sources());
    }

    method DeleteFromQueue(id: Id) returns (ok: bool)
      requires Stands(DelSealing(id))
      modifies this`sealing, this`segments, this`inFlight, this`nextUid, this`sealers, this`jobs
      ensures Valid() && Descends(old(Sources()), Sources())
      ensures Contents() == if ok then old(Contents()) - {id} else old(Contents())
      ensures guarded ==> ok
    {
      hide Sound, Descends, View;
      SameLayers(DelSealing(id), Idle);
      ghost var from := Sources();
      Others(DelSealing(id));
      ghost var s, mid := At(DelSealing(id)), Sources();
      var hit;
      hit, ok := EraseSealing(id);
      Took(s, Label.EraseSealing, At(if hit then Idle else DelSegments(id)), guarded);
      TookErase(s, Label.EraseSealing, At(if hit then Idle else DelSegments(id)), guarded);
      DescendsTrans(from, mid, Sources());
      if hit { return; }
      SameLayers(DelSegments(id), Idle);
      mid := Sources();
      ok := DeleteFromSegments(id);
      DescendsTrans(from, mid, Sources());
    }

    method DeleteFromSegments(id: Id) returns (ok: bool)
      requires Stands(DelSegments(id))
      modifies this`sealing, this`segments, this`inFlight, this`nextUid, this`sealers, this`jobs
      ensures Valid() && Descends(old(Sources()), Sources())
      ensures Contents() == if ok then old(Contents()) - {id} else old(Contents())
      ensures guarded ==> ok
    {
      hide Sound, Descends, View;
      SameLayers(DelSegments(id), Idle);
      ghost var from := Sources();
      Others(DelSegments(id));
      ghost var s, mid := At(DelSegments(id)), Sources();
      ok := EraseSegments(id);
      Took(s, Label.EraseSegments, At(Idle), guarded);
      TookErase(s, Label.EraseSegments, At(Idle), guarded);
      DescendsTrans(from, mid, Sources());
    }

    /**
     * `delete_shared`, whatever the other threads do in between: an exact delete on the map as long as
     * the newest copy decides, and never the loss of another record.
     */
    method DeleteShared(id: Id) returns (r: Status)
      requires Valid()
      modifies this`buffer, this`sealing, this`segments, this`inFlight, this`nextUid, this`sealers, this`jobs
      ensures Valid() && (r == Ok || r == NotFound) && Descends(old(Sources()), Sources())
      ensures Contents() == if r == Ok then old(Contents()) - {id} else old(Contents())
      ensures r == Ok ==> id in old(Contents())
      ensures guarded ==> (r == Ok <==> id in old(Contents()))
    {
      hide Sound, Descends, View;
      ghost var from := Sources();
      var live := ContainsLive(id);
      if !live { return NotFound; }
      ghost var mid := Sources();
      var ok := DeleteVectorOnly(id);
      DescendsTrans(from, mid, Sources());
      r := if ok then Ok else NotFound;
    }

    // ---- Insert ----

    /** The buffer append; `full` tells the caller to seal. */
    method AppendBuffer(id: Id, v: Floats) returns (full: bool)
      requires id !in buffer
      modifies this`buffer
      ensures At(if full then SealTake(Throttle) else Idle) == Apply(old(At(InsApply(id, v))), Label.ApplyInsert)
    {
      buffer := buffer[id := v];
      full := |buffer| >= threshold;
    }

    /** The buffer swap; nothing happens when it is empty. */
    method TakeBuffer(after: Resume) returns (taken: Option<map<Id, Floats>>)
      modifies this`buffer
      ensures At(if taken.Some? then SealPush(taken.value, after) else SealDone(after)) ==
        Apply(old(At(SealTake(after))), Label.TakeBuffer)
    {
      if buffer == map[] { return None; }
      taken := Some(buffer);
      buffer := map[];
    }

    method PushSealing(taken: map<Id, Floats>, after: Resume)
      modifies this`sealing, this`nextUid
      ensures At(SealSwap(after)) == Apply(old(At(SealPush(taken, after))), Label.PushSealing)
    {
      sealing := sealing + [Source(nextUid, taken, {})];
      nextUid := nextUid + 1;
    }

    /** `in_flight.swap`: whoever raises the flag starts the worker. */
    method RaiseFlag(after: Resume) returns (start: bool)
      modifies this`inFlight
      ensures At(if start then SealSpawn(after) else SealDone(after)) == Apply(old(At(SealSwap(after))), Label.SwapFlag)
    {
      start := !inFlight;
      inFlight := true;
    }

    /** `thread::spawn`: a new worker with a number of its own. */
    method StartWorker(after: Resume) returns (tid: nat)
      modifies this`sealers
      ensures tid !in old(sealers) && At(SealDone(after)) == Apply(old(At(SealSpawn(after))), Label.Spawn(tid))
    {
      tid := 0;
      var known := sealers.Keys;
      while tid in known
        invariant forall t :: t in sealers ==> t < tid || t in known
        decreases |known|
      {
        known := known - {tid};
        tid := tid + 1;
      }
      sealers := sealers[tid := Scanning];
    }

    /** `seal`: take the buffer, queue it, see to it that a worker runs; other threads in between. */
    method Seal(after: Resume)
      requires Stands(SealTake(after))
      modifies this`buffer, this`sealing, this`segments, this`inFlight, this`nextUid, this`sealers, this`jobs
      ensures Stands(SealDone(after)) && Holding(SealDone(after)) == old(Holding(SealTake(after)))
      ensures Descends(old(Sources()), Sources())
    {
      hide Sound, Descends, View;
      ghost var from := Sources();
      Others(SealTake(after));
      ghost var s, mid := At(SealTake(after)), Sources();
      var taken := TakeBuffer(after);
      Took(s, Label.TakeBuffer, At(if taken.Some? then SealPush(taken.value, after) else SealDone(after)), guarded);
      DescendsTrans(from, mid, Sources());
      if taken.None? { return; }
      mid := Sources();
      QueueTaken(taken.value, after);
      DescendsTrans(from, mid, Sources());
    }

    method QueueTaken(taken: map<Id, Floats>, after: Resume)
      requires Stands(SealPush(taken, after))
      modifies this`sealing, this`segments, this`inFlight, this`nextUid, this`sealers, this`jobs
      ensures Stands(SealDone(after)) && Holding(SealDone(after)) == old(Holding(SealPush(taken, after)))
      ensures Descends(old(Sources()), Sources())
    {
      hide Sound, Descends, View;
      ghost var from := Sources();
      Others(SealPush(taken, after));
      ghost var s, mid := At(SealPush(taken, after)), Sources();
      PushSealing(taken, after);
      Took(s, Label.PushSealing, At(SealSwap(after)), guarded);
      DescendsTrans(from, mid, Sources());
      mid := Sources();
      EnsureWorker(after);
      DescendsTrans(from, mid, Sources());
    }

    /** `spawn_if_needed`. */
    method EnsureWorker(after: Resume)
      requires Stands(SealSwap(after))
      modifies this`sealing, this`segments, this`inFlight, this`nextUid, this`sealers, this`jobs
      ensures Stands(SealDone(after)) && Holding(SealDone(after)) == old(Holding(SealSwap(after)))
      ensures Descends(old(Sources()), Sources())
    {
      hide Sound, Descends, View;
      ghost var from := Sources();
      Others(SealSwap(after));
      ghost var s := At(SealSwap(after));
      var start := RaiseFlag(after);
      Took(s, Label.SwapFlag, At(if start then SealSpawn(after) else SealDone(after)), guarded);
      if !start { return; }
      ghost var mid := Sources();
      Others(SealSpawn(after));
      DescendsTrans(from, mid, Sources());
      s := At(SealSpawn(after));
      var tid := StartWorker(after);
      Took(s, Label.Spawn(tid), At(SealDone(after)), guarded);
    }

    /** `apply_backpressure`: wait while the queue is too long, until patience runs out. */
    method Backpressure()
      requires Stands(SealDone(Throttle))
      modifies this`sealing, this`segments, this`inFlight, this`nextUid, this`sealers, this`jobs, this`valveFired
      ensures Valid() && Contents() == old(Holding(SealDone(Throttle))) && Descends(old(Sources()), Sources())
      ensures |sealing| <= 2 || valveFired
    {
      hide Sound, Descends, View;
      ghost var from, m := Sources(), Holding(SealDone(Throttle));
      DescendsSelf(from);
      var patience: nat := *;
      while |sealing| > 2 && patience > 0
        invariant Stands(SealDone(Throttle)) && Holding(SealDone(Throttle)) == m && Descends(from, Sources())
        decreases patience
      {
        ghost var mid := Sources();
        Others(SealDone(Throttle));
        DescendsTrans(from, mid, Sources());
        patience := patience - 1;
      }
      ghost var s := At(SealDone(Throttle));
      var late := |sealing| > 2;
      if late { valveFired := true; }
      Took(s, if late then Label.Valve else Label.Throttled, At(Idle), guarded);
    }

    /** The in-memory side of an insert: append, and when the buffer is full seal and throttle. */
    method ApplyInsert(id: Id, v: Floats)
      requires Stands(InsApply(id, v))
      modifies this
      ensures Valid() && Contents() == old(Contents())[id := v] && Descends(old(Sources()), Sources())
    {
      hide Sound, Descends, View;
      ghost var from := Sources();
      var full := Append(id, v);
      SealIfFull(full, from);
    }

    /** The append, other threads running up to it. */
    method Append(id: Id, v: Floats) returns (full: bool)
      requires Stands(InsApply(id, v))
      modifies this`buffer, this`sealing, this`segments, this`inFlight, this`nextUid, this`sealers, this`jobs
      ensures Stands(if full then SealTake(Throttle) else Idle) && Descends(old(Sources()), Sources())
      ensures Holding(if full then SealTake(Throttle) else Idle) == old(Contents())[id := v]
    {
      hide Sound, Descends, View;
      SameLayers(InsApply(id, v), Idle);
      ghost var from := Sources();
      Others(InsApply(id, v));
      WriterKnows(At(InsApply(id, v)), guarded);
      ghost var s, mid := At(InsApply(id, v)), Sources();
      full := AppendBuffer(id, v);
      Took(s, Label.ApplyInsert, At(if full then SealTake(Throttle) else Idle), guarded);
      TookInsert(s, At(if full then SealTake(Throttle) else Idle), guarded);
      DescendsTrans(from, mid, Sources());
    }

    /** Past the append -- and past the metadata -- a full buffer is sealed. */
    method SealIfFull(full: bool, ghost from: Stock)
      requires Stands(if full then SealTake(Throttle) else Idle) && Descends(from, Sources())
      modifies this
      ensures Valid() && Contents() == old(Holding(if full then SealTake(Throttle) else Idle))
      ensures Descends(from, Sources())
    {
      hide Sound, Descends, View;
      if full { SealAndThrottle(from); }
    }

    method SealAndThrottle(ghost from: Stock)
      requires Stands(SealTake(Throttle)) && Descends(from, Sources())
      modifies this
      ensures Valid() && Contents() == old(Holding(SealTake(Throttle))) && Descends(from, Sources())
    {
      hide Sound, Descends, View;
      ghost var mid := Sources();
      Seal(Throttle);
      DescendsTrans(from, mid, Sources());
      mid := Sources();
      Backpressure();
      DescendsTrans(from, mid, Sources());
    }

    /** `insert_shared`, sealing and throttling included, whatever the other threads do in between. */
    method InsertShared(id: Id, v: Floats) returns (r: Status)
      requires Valid()
      modifies this
      ensures Valid() && Descends(old(Sources()), Sources())
      ensures r == if |v| != dim then DimensionMismatch else if id in old(Contents()) then DuplicateId else Ok
      ensures Contents() == if r == Ok then old(Contents())[id := v] else old(Contents())
    {
      hide Sound, Descends, View;
      ghost var from := Sources();
      r := ValidateInsert(id, v);
      if r != Ok { return; }
      ghost var mid := Sources();
      ApplyInsert(id, v);
      DescendsTrans(from, mid, Sources());
    }

    /** A replayed record enters past the checks, which its log entry vouches for. */
    lemma Enters(pc: Pc)
      requires Valid()
      requires (pc.InsApply? && pc.id !in Contents() && |pc.v| == dim) || (pc.DelBuffer? && pc.id in Contents())
      ensures Stands(pc)
    {
      hide Sound, Descends, View;
      EntersAt(At(Idle), pc, guarded);
    }

    // ---- Quiescence ----

    /**
     * The wait of a checkpoint for the queue to drain. After whatever else happened, the sealing workers
     * alone always bring it to an end.
     */
    method Wait()
      requires Stands(SealDone(Settle))
      modifies this`sealing, this`segments, this`inFlight, this`nextUid, this`sealers, this`jobs
      ensures Stands(SealDone(Settle)) && Holding(SealDone(Settle)) == old(Holding(SealDone(Settle)))
      ensures Descends(old(Sources()), Sources()) && !inFlight && sealing == []
    {
      hide Sound, Descends, View;
      ghost var from, m := Sources(), Holding(SealDone(Settle));
      Others(SealDone(Settle));
      while inFlight || sealing != []
        invariant Stands(SealDone(Settle)) && Holding(SealDone(Settle)) == m && Descends(from, Sources())
        decreases |sealing|, Away(At(SealDone(Settle)))
      {
        ghost var mid := Sources();
        Advance();
        DescendsTrans(from, mid, Sources());
      }
    }

    /** The next block of a worker that has work to do. */
    method Advance()
      requires Stands(SealDone(Settle)) && (inFlight || sealing != [])
      modifies this`sealing, this`segments, this`inFlight, this`nextUid, this`sealers, this`jobs
      ensures Stands(SealDone(Settle)) && Holding(SealDone(Settle)) == old(Holding(SealDone(Settle)))
      ensures Descends(old(Sources()), Sources())
      ensures Closer(old(At(SealDone(Settle))), At(SealDone(Settle)))
    {
      hide Sound, Descends, View;
      WaitIsOrdered();
      var l := NextBlock();
      NextIsCloser(l);
      WorkerBlock(l, SealDone(Settle));
    }

    lemma WaitIsOrdered()
      requires Stands(SealDone(Settle))
      ensures Distinct(Stack(At(SealDone(Settle)))) && Protocol(At(SealDone(Settle)))
    {
      hide Descends;
    }

    lemma NextIsCloser(l: Label)
      requires Stands(SealDone(Settle)) && (inFlight || sealing != [])
      requires Picked(At(SealDone(Settle)), l)
      ensures Worker(l) && !l.Swap? && Enabled(At(SealDone(Settle)), l)
      ensures Closer(At(SealDone(Settle)), Apply(At(SealDone(Settle)), l))
    {
      hide Descends;
      var s := At(SealDone(Settle));
      WaitIsOrdered();
      Took(s, l, Apply(s, l), guarded);
      if inFlight { OwnerCloser(s, l.tid); } else { LookerCloser(s, l.tid); }
    }

    method NextBlock() returns (l: Label)
      requires Protocol(At(SealDone(Settle))) && (inFlight || sealing != [])
      ensures Picked(At(SealDone(Settle)), l)
    {
      SomebodyWorks(At(SealDone(Settle)));
      if inFlight {
        var t :| t in sealers && Owns(sealers[t]);
        l := OwnersNext(At(SealDone(Settle)), t);
      } else if exists t :: t in sealers && sealers[t].Reclaiming? {
        var t :| t in sealers && sealers[t].Reclaiming?;
        l := Reclaim(t);
      } else {
        var t :| t in sealers && !Owns(sealers[t]);
        l := Recheck(t);
      }
    }

    /** The checkpoint's seal and wait, and the segment list read some time after. */
    method SettleDown() returns (snapshot: seq<Source>)
      requires Valid()
      modifies this`buffer, this`sealing, this`segments, this`inFlight, this`nextUid, this`sealers, this`jobs
      ensures Valid() && Contents() == old(Contents()) && Descends(old(Sources()), Sources())
      ensures snapshot == segments && Quiet(At(Idle))
    {
      hide Sound, Descends, View;
      Took(At(Idle), BeginSeal, At(SealTake(Settle)), guarded);
      ghost var from := Sources();
      Seal(Settle);
      ghost var mid := Sources();
      Wait();
      DescendsTrans(from, mid, Sources());
      BufferEmptied(SealDone(Settle));
      Took(At(SealDone(Settle)), Settled, At(Idle), guarded);
      mid := Sources();
      Others(Idle);
      DescendsTrans(from, mid, Sources());
      snapshot := segments;
    }

    lemma BufferEmptied(pc: Pc)
      requires Stands(pc) && pc.SealDone?
      ensures buffer == map[]
    {
      hide Descends;
    }

    /** A settled index shows all its records in the segment list, one live copy each. */
    lemma SettledSegments()
      requires Valid() && Quiet(At(Idle))
      ensures LiveMap(segments) == Contents() && Distinct(segments) && Below(segments, nextUid)
      ensures UniqueLive(segments) && TombsInside(segments) && (guarded ==> NewestLive(segments))
      ensures Sources().stack == segments
    {
      hide Descends;
      QuietMeansSegments(At(Idle));
      assert Stack(At(Idle)) == segments;
    }

    // ---- Background work ----

    /** The worker's publish of what it has built: the oldest buffer, with its tombstones of now. */
    method Publish(uid: nat)
      requires Distinct(sealing)
      modifies this`sealing, this`segments
      ensures forall tid, pc :: tid in sealers && sealers[tid] == Building(uid) ==>
        At(pc).(sealers := sealers[tid := Scanning]) == Apply(old(At(pc)), Label.Publish(tid))
    {
      var i := FindSource(sealing, uid);
      if i >= 0 {
        segments := segments + [sealing[i]];
        sealing := WithoutOne(sealing, uid);
      }
    }

    /** The start of a merge: victims and tombstone snapshots under one read lock. */
    method TakeSnapshot(jid: nat) returns (job: Option<Job>, ghost i: nat, ghost j: nat)
      requires jid !in jobs
      modifies this`jobs
      ensures job.None? <==> |segments| < 2
      ensures job.None? ==> jobs == old(jobs)
      ensures job.Some? ==> forall pc :: Stepped(old(At(pc)), Label.Snapshot(jid, i, j), At(pc))
      ensures job.Some? ==> jobs == old(jobs)[jid := job.value] && i < |segments| && j < |segments|
      ensures job.Some? ==> job.value.a == segments[i].uid && job.value.aSnap == segments[i].tombs
      ensures job.Some? ==> job.value.b == segments[j].uid && job.value.bSnap == segments[j].tombs
    {
      i, j := 0, 0;
      if |segments| < 2 { return None, 0, 0; }
      var p, q := PickVictims(segments);
      i, j := p, q;
      var a, b := segments[p], segments[q];
      job := Some(Job(a.uid, b.uid, a.data, b.data, a.tombs, b.tombs));
      jobs := jobs[jid := job.value];
    }

    /** The swap: cancelled when a source is gone, else diff-replay, retain and push under one write lock. */
    method InstallMerged(jid: nat, job: Job, merged: map<Id, Floats>)
      requires jid in jobs && jobs[jid] == job && merged == job.Merged()
      modifies this`segments, this`jobs, this`nextUid
      ensures forall pc :: At(pc) == Apply(old(At(pc)), Label.Swap(jid))
    {
      jobs := jobs - {jid};
      var a := FindSource(segments, job.a);
      var b := FindSource(segments, job.b);
      if a < 0 || b < 0 { return; }
      var carried := (segments[a].tombs - job.aSnap) + (segments[b].tombs - job.bSnap);
      var rest := Without(segments, job.a, job.b);
      segments := rest + [Source(nextUid, merged, carried)];
      nextUid := nextUid + 1;
    }

    /** The snapshot just taken is of the sources as they are. */
    ghost predicate UpToDate(job: Job)
      reads this
    {
      && Find(segments, job.a) >= 0 && Find(segments, job.b) >= 0
      && segments[Find(segments, job.a)].tombs == job.aSnap && segments[Find(segments, job.b)].tombs == job.bSnap
    }

    /**
     * `merge_smallest_pair_bg`: other threads run up to `blocks` blocks between its snapshot and its swap.
     * The map is what it was; with nobody in between the list has one segment less.
     */
    method MergeSmallestPair(jid: nat, blocks: nat)
      requires Valid() && jid !in jobs && (guarded ==> blocks == 0)
      modifies this`sealing, this`segments, this`inFlight, this`nextUid, this`sealers, this`jobs
      ensures Valid() && Contents() == old(Contents()) && jid !in jobs && Descends(old(Sources()), Sources())
      ensures blocks == 0 ==> |segments| == if old(|segments|) < 2 then old(|segments|) else old(|segments|) - 1
    {
      hide Sound, Descends, View;
      ghost var from := Sources();
      var job := BeginMerge(jid);
      if job.None? { return; }
      ghost var mid := Sources();
      Meanwhile(jid, job.value, blocks);
      DescendsTrans(from, mid, Sources());
      mid := Sources();
      FinishMerge(jid, job.value);
      DescendsTrans(from, mid, Sources());
    }

    method BeginMerge(jid: nat) returns (job: Option<Job>)
      requires Valid() && jid !in jobs
      modifies this`jobs
      ensures Valid() && Contents() == old(Contents()) && (job.None? <==> |segments| < 2)
      ensures jobs == if job.Some? then old(jobs)[jid := job.value] else old(jobs)
      ensures job.Some? ==> UpToDate(job.value)
      ensures Descends(old(Sources()), Sources())
    {
      hide Sound, Descends, View;
      ghost var s0 := At(Idle);
      DescendsSelf(Sources());
      ghost var i, j;
      job, i, j := TakeSnapshot(jid);
      if job.None? { return; }
      assert Stepped(s0, Label.Snapshot(jid, i, j), At(Idle));
      Took(s0, Label.Snapshot(jid, i, j), At(Idle), guarded);
      FreshSnapshot(job.value, i, j);
    }

    /** The other threads, while the rebuild runs without a lock. */
    method Meanwhile(jid: nat, ghost job: Job, blocks: nat)
      requires Valid() && jid in jobs && jobs[jid] == job
      modifies this`sealing, this`segments, this`inFlight, this`nextUid, this`sealers, this`jobs
      ensures Valid() && Contents() == old(Contents()) && jid in jobs && jobs[jid] == job
      ensures Descends(old(Sources()), Sources())
      ensures blocks == 0 ==> segments == old(segments)
    {
      hide Sound, Descends, View, Quiet;
      ghost var from, m := Sources(), Contents();
      DescendsSelf(from);
      for i := 0 to blocks
        invariant Valid() && Contents() == m && jid in jobs && jobs[jid] == job && Descends(from, Sources())
        invariant i == 0 ==> segments == old(segments)
      {
        var l: Label := *;
        if l != Label.Swap(jid) {
          ghost var s, mid := At(Idle), Sources();
          WorkerBlock(l, Idle);
          if Worker(l) && Enabled(s, l) { JobStays(s, l, jid); }
          DescendsTrans(from, mid, Sources());
        }
      }
    }

    /** Nobody but its own worker ends a merge. */
    static lemma JobStays(s: State, l: Label, jid: nat)
      requires Worker(l) && Enabled(s, l) && l != Label.Swap(jid) && jid in s.jobs
      ensures jid in Apply(s, l).jobs && Apply(s, l).jobs[jid] == s.jobs[jid]
    {
      hide Find, Retain, Carried, Victims;
    }

    lemma FreshSnapshot(job: Job, i: nat, j: nat)
      requires Valid() && i < |segments| && j < |segments|
      requires job.a == segments[i].uid && job.aSnap == segments[i].tombs
      requires job.b == segments[j].uid && job.bSnap == segments[j].tombs
      ensures UpToDate(job)
    {
      hide Descends;
      DistinctSegments(At(Idle));
      FoundAt(segments, i);
      FoundAt(segments, j);
    }

    /** The rebuild and the swap of a merge whose snapshot is taken. */
    method FinishMerge(jid: nat, job: Job)
      requires Valid() && jid in jobs && jobs[jid] == job && (guarded ==> UpToDate(job))
      modifies this`segments, this`jobs, this`nextUid
      ensures Valid() && Contents() == old(Contents()) && jobs == old(jobs) - {jid}
      ensures old(UpToDate(job)) ==> |segments| == old(|segments|) - 1
      ensures Descends(old(Sources()), Sources())
    {
      hide Sound, Descends, View;
      ghost var s1 := At(Idle);
      SwapIsClean(jid, job);
      var merged := Rebuild(job);
      InstallMerged(jid, job, merged);
      assert At(Idle) == Apply(s1, Label.Swap(jid));
      Took(s1, Label.Swap(jid), At(Idle), guarded);
    }

    /** The sources share no record; if nothing landed since the snapshot, the swap hides none. */
    lemma SwapIsClean(jid: nat, job: Job)
      requires Valid() && jid in jobs && jobs[jid] == job
      ensures (job.aData.Keys - job.aSnap) !! (job.bData.Keys - job.bSnap)
      ensures UpToDate(job) ==>
        HidesNothing(At(Idle), jid) && |Apply(At(Idle), Label.Swap(jid)).segments| == |segments| - 1
    {
      hide Descends;
      var s := At(Idle);
      assert JobOk(Stack(s), s.nextUid, s.jobs[jid]);
      if UpToDate(job) {
        assert Carried(s, job) == {};
        SwapShape(s, jid);
      }
    }

    /**
     * The merge worker's loop: it runs while there are more segments than the ceiling allows. `schedule`
     * says what the other threads manage to do during each merge; once they are done the loop ends.
     */
    method MergeDown(maxSegments: nat, jid: nat, schedule: seq<nat>)
      requires Valid() && jid !in jobs && maxSegments >= 2 && (guarded ==> schedule == [])
      modifies this`sealing, this`segments, this`inFlight, this`nextUid, this`sealers, this`jobs
      ensures Valid() && Contents() == old(Contents()) && Descends(old(Sources()), Sources())
      ensures |segments| <= maxSegments && jid !in jobs
    {
      hide Sound, Descends, View;
      ghost var from := Sources();
      DescendsSelf(from);
      var rest := schedule;
      while |segments| > maxSegments
        invariant Valid() && Contents() == old(Contents()) && jid !in jobs && Descends(from, Sources())
        invariant guarded ==> rest == []
        decreases |rest|, |segments|
      {
        ghost var mid := Sources();
        MergeSmallestPair(jid, if rest == [] then 0 else rest[0]);
        DescendsTrans(from, mid, Sources());
        rest := if rest == [] then [] else rest[1..];
      }
    }
  }
}
