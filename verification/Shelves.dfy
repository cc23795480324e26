/**
 * The indexes behind the sources: a flat block for the buffer and for every queued buffer, a graph for
 * every segment. They are built when a buffer is sealed or two segments are merged, and move with the
 * sources from one list to the next, so that at every moment each source has its index.
 */
module Shelves {
  import opened Prelude
  import opened TopK
  import opened ExactSearch
  import opened Store
  import opened StoreInvariants
  import opened StoreSteps
  import opened StoreReads
  import opened SourceSearch
  import B = BruteForce
  import H = Hnsw
  import FlatBlock
  import StoreFrames

  // ---- Building ----

  /** `m` is `base` and, of `all`, everything outside `rest`. */
  ghost predicate Partly(m: map<Id, Vector>, base: map<Id, Vector>, all: map<Id, Vector>, rest: set<Id>) {
    rest <= all.Keys && base.Keys !! all.Keys && m == base + (all - rest)
  }

  lemma PartlyBegins(base: map<Id, Vector>, all: map<Id, Vector>)
    requires base.Keys !! all.Keys
    ensures Partly(base, base, all, all.Keys)
  {
  }

  lemma PartlyGrows(m: map<Id, Vector>, base: map<Id, Vector>, all: map<Id, Vector>, rest: set<Id>, id: Id)
    requires Partly(m, base, all, rest) && id in rest
    ensures id in all && id !in m && Partly(m[id := all[id]], base, all, rest - {id})
  {
  }

  lemma PartlyEnds(m: map<Id, Vector>, base: map<Id, Vector>, all: map<Id, Vector>)
    requires Partly(m, base, all, {})
    ensures m == base + all
  {
    assert all - {} == all;
  }

  /** Normalising what is stored normalised changes nothing. */
  lemma NormalAgain(metric: Metric, data: map<Id, Vector>, id: Id)
    requires Proper(metric) && id in data
    ensures metric.normal(Stored(metric, data)[id]) == Stored(metric, data)[id]
  {
  }

  /** `build_one`: the records of a queued buffer go into a new graph, one by one. */
  method BuildOne(b: B.BruteForceIndex, ghost data: map<Id, Vector>, params: H.Params) returns (g: H.HnswIndex)
    requires b.Valid() && Proper(b.metric) && H.Sane(params) && b.Contents() == Stored(b.metric, data)
    ensures fresh(g) && g.Valid() && g.metric == b.metric && g.dim == b.dim && g.params == params
    ensures g.Contents() == Stored(b.metric, data)
  {
    hide H.HnswIndex.Valid, H.HnswIndex.Contents, B.BruteForceIndex.Valid, B.BruteForceIndex.Contents, Partly, Stored;
    g := new H.HnswIndex(b.dim, b.metric, params);
    ghost var all := Stored(b.metric, data);
    FlatKeys(b);
    PartlyBegins(map[], all);
    var rest := b.slotOf.Keys;
    while rest != {}
      invariant fresh(g) && g.Valid() && g.metric == b.metric && g.dim == b.dim && g.params == params
      invariant Partly(g.Contents(), map[], all, rest)
      decreases |rest|
    {
      var id :| id in rest;
      PartlyGrows(g.Contents(), map[], all, rest, id);
      AddFlat(g, b, id, data);
      rest := rest - {id};
    }
    PartlyEnds(g.Contents(), map[], all);
    assert map[] + all == all;
  }

  method AddFlat(g: H.HnswIndex, b: B.BruteForceIndex, id: Id, ghost data: map<Id, Vector>)
    requires g.Valid() && b.Valid() && Proper(b.metric) && b.Contents() == Stored(b.metric, data)
    requires g.metric == b.metric && g.dim == b.dim && id in Stored(b.metric, data) && id !in g.Contents()
    modifies g
    ensures g.Valid() && g.Contents() == old(g.Contents())[id := Stored(b.metric, data)[id]]
  {
    hide H.HnswIndex.Valid;
    FlatKeys(b);
    var v := VectorOf(b, id, data);
    AddNormal(g, id, v);
  }

  lemma FlatKeys(b: B.BruteForceIndex)
    requires b.Valid()
    ensures b.slotOf.Keys == b.Contents().Keys
  {
  }

  method VectorOf(b: B.BruteForceIndex, id: Id, ghost data: map<Id, Vector>) returns (v: Vector)
    requires b.Valid() && Proper(b.metric) && b.Contents() == Stored(b.metric, data) && id in b.slotOf
    ensures id in data && v == Stored(b.metric, data)[id] && |v| == b.dim && b.metric.normal(v) == v
  {
    v := b.VectorAt(b.slotOf[id]);
    assert id in b.Contents() && b.Contents()[id] == v;
    NormalAgain(b.metric, data, id);
  }

  /** One vector in normal form joins a graph. */
  method AddNormal(g: H.HnswIndex, id: Id, v: Vector)
    requires g.Valid() && |v| == g.dim && id !in g.Contents() && g.metric.normal(v) == v
    modifies g
    ensures g.Valid() && g.Contents() == old(g.Contents())[id := v]
  {
    hide H.HnswIndex.Valid;
    var status := g.Insert(id, v);
  }

  method VectorIn(src: H.HnswIndex, id: Id) returns (v: Vector)
    requires src.Valid() && id in src.slotOf
    ensures id in src.Contents() && v == src.Contents()[id] && |v| == src.dim && src.metric.normal(v) == v
  {
    assert H.NormalAt(src.metric, src.data, src.dim, |src.ids|, src.slotOf[id]);
    v := FlatBlock.At(src.data, src.dim, |src.ids|, src.slotOf[id]);
  }

  /** The live records of a graph that a snapshot does not show as deleted go into another graph. */
  method AddLive(g: H.HnswIndex, src: H.HnswIndex, snap: set<Id>)
    requires g.Valid() && src.Valid() && g != src && g.metric == src.metric && g.dim == src.dim
    requires g.Contents().Keys !! src.Contents().Keys - snap
    modifies g
    ensures g.Valid() && g.Contents() == old(g.Contents()) + (src.Contents() - snap)
  {
    hide H.HnswIndex.Valid, H.HnswIndex.Contents, Partly;
    KeysOf(src);
    ghost var base, all := g.Contents(), src.Contents() - snap;
    var rest := src.slotOf.Keys - snap;
    PartlyBegins(base, all);
    assert rest == all.Keys;
    while rest != {}
      invariant g.Valid() && src.Valid() && src.Contents() - snap == all && Partly(g.Contents(), base, all, rest)
      decreases |rest|
    {
      var id :| id in rest;
      PartlyGrows(g.Contents(), base, all, rest, id);
      AddFrom(g, src, id);
      rest := rest - {id};
    }
    PartlyEnds(g.Contents(), base, all);
  }

  lemma KeysOf(g: H.HnswIndex)
    requires g.Valid()
    ensures g.slotOf.Keys == g.Contents().Keys
  {
  }

  method AddFrom(g: H.HnswIndex, src: H.HnswIndex, id: Id)
    requires g.Valid() && src.Valid() && g != src && g.metric == src.metric && g.dim == src.dim
    requires id in src.Contents() && id !in g.Contents()
    modifies g
    ensures g.Valid() && g.Contents() == old(g.Contents())[id := src.Contents()[id]]
  {
    var v := VectorIn(src, id);
    AddNormal(g, id, v);
  }

  /** The rebuild of a merge: what the two snapshots show as live, in one graph. */
  method BuildMerged(a: H.HnswIndex, b: H.HnswIndex, job: Job, params: H.Params) returns (g: H.HnswIndex)
    requires a.Valid() && b.Valid() && a.metric == b.metric && a.dim == b.dim && H.Sane(params)
    requires a.Contents() == Stored(a.metric, job.aData) && b.Contents() == Stored(b.metric, job.bData)
    requires (job.aData.Keys - job.aSnap) !! (job.bData.Keys - job.bSnap)
    ensures fresh(g) && g.Valid() && g.metric == a.metric && g.dim == a.dim && g.params == params
    ensures g.Contents() == Stored(a.metric, job.Merged())
  {
    hide H.HnswIndex.Valid;
    ProperOf(a);
    g := new H.HnswIndex(a.dim, a.metric, params);
    AddLive(g, a, job.aSnap);
    assert g.Contents().Keys == job.aData.Keys - job.aSnap;
    AddLive(g, b, job.bSnap);
    MergedStored(a.metric, job);
  }

  lemma ProperOf(g: H.HnswIndex)
    requires g.Valid()
    ensures Proper(g.metric)
  {
  }

  lemma MergedStored(metric: Metric, job: Job)
    ensures Stored(metric, job.Merged()) ==
      (map[] + (Stored(metric, job.aData) - job.aSnap)) + (Stored(metric, job.bData) - job.bSnap)
  {
  }

  // ---- Lists that go along ----

  /** What `retain` leaves of a list that runs along with `ls`. */
  function RetainAlong<T>(ls: seq<Source>, ts: seq<T>, a: nat, b: nat): (r: seq<T>)
    requires |ts| == |ls|
    ensures |r| == |Retain(ls, a, b)|
  {
    if |ls| == 0 then []
    else if ls[0].uid == a || ls[0].uid == b then RetainAlong(ls[1..], ts[1..], a, b)
    else [ts[0]] + RetainAlong(ls[1..], ts[1..], a, b)
  }

  /** Whatever is kept is kept with its companion. */
  lemma {:induction false} RetainedPair<T>(ls: seq<Source>, ts: seq<T>, a: nat, b: nat, i: nat) returns (j: nat)
    requires |ts| == |ls| && i < |Retain(ls, a, b)|
    ensures j < |ls| && Retain(ls, a, b)[i] == ls[j] && RetainAlong(ls, ts, a, b)[i] == ts[j]
    decreases |ls|
  {
    if ls[0].uid == a || ls[0].uid == b {
      j := RetainedPair(ls[1..], ts[1..], a, b, i);
      j := j + 1;
    } else if i == 0 {
      j := 0;
    } else {
      j := RetainedPair(ls[1..], ts[1..], a, b, i - 1);
      j := j + 1;
    }
  }

  // ---- The shelf ----

  /** The indexes of a store, along its lists: segments, queue, the buffer in the writer's hand, the buffer. */
  class Shelf {
    const dim: nat
    const metric: Metric
    const params: H.Params
    var graphs: seq<H.HnswIndex>
    var queue: seq<B.BruteForceIndex>
    var hand: Option<B.BruteForceIndex>
    var active: B.BruteForceIndex

    /** An index of this shelf's kind with the records of `x`. */
    ghost predicate GraphFor(g: H.HnswIndex, x: Source)
      reads g
    {
      g.dim == dim && Serves(Graph(g), x, metric)
    }

    ghost predicate FlatFor(b: B.BruteForceIndex, x: Source)
      reads b
    {
      b.dim == dim && Serves(Flat(b), x, metric)
    }

    ghost predicate GraphsFor(segments: seq<Source>)
      reads this`graphs, graphs
    {
      |graphs| == |segments| && forall i :: 0 <= i < |graphs| ==> GraphFor(graphs[i], segments[i])
    }

    ghost predicate QueueFor(sealing: seq<Source>)
      reads this`queue, this`active, queue
    {
      && |queue| == |sealing|
      && forall i :: 0 <= i < |queue| ==> queue[i] != active && FlatFor(queue[i], sealing[i])
    }

    ghost predicate HandFor(pc: Pc)
      reads this`hand, this`active, if hand.Some? then {hand.value} else {}
    {
      && (hand.Some? <==> pc.SealPush?)
      && (hand.Some? ==> hand.value != active && FlatFor(hand.value, Source(0, pc.taken, {})))
    }

    /** Every source of `s` has its index. */
    ghost predicate Matches(s: State)
      reads this, graphs, queue, if hand.Some? then {hand.value} else {}, active
    {
      && dim == s.dim && Proper(metric) && H.Sane(params)
      && GraphsFor(s.segments) && QueueFor(s.sealing) && HandFor(s.pc)
      && FlatFor(active, Source(0, s.buffer, {}))
    }

    /** The indexes a search walks. */
    function Shown(): Parts
      reads this
    {
      Parts(graphs, queue + [active])
    }

    /** So a search finds an index behind every source it sees. */
    lemma ServesVisible(s: State)
      requires Matches(s)
      ensures AllServe(Shown(), Visible(s), metric)
    {
      var parts, ls := Shown(), Visible(s);
      forall i | 0 <= i < |ls| ensures Serves(PartAt(parts, i), ls[i], metric) {
        if i < |graphs| {
          assert GraphFor(graphs[i], s.segments[i]);
        } else if i < |graphs| + |queue| {
          assert FlatFor(queue[i - |graphs|], s.sealing[i - |graphs|]);
        }
      }
    }

    /** A new store. */
    constructor (dim: nat, metric: Metric, params: H.Params, threshold: nat)
      requires Proper(metric) && H.Sane(params)
      ensures Matches(Init(dim, threshold)) && this.dim == dim && this.metric == metric && fresh(active)
    {
      this.dim, this.metric, this.params := dim, metric, params;
      graphs, queue, hand := [], [], None;
      active := new B.BruteForceIndex(dim, metric);
    }

    /** An opened store: a graph for every segment of the directory, and an empty buffer. */
    constructor Opened(dim: nat, metric: Metric, params: H.Params, graphs: seq<H.HnswIndex>,
                       ghost segments: seq<Source>, ghost threshold: nat)
      requires Proper(metric) && H.Sane(params) && |graphs| == |segments|
      requires forall i :: 0 <= i < |graphs| ==> graphs[i].dim == dim && Serves(Graph(graphs[i]), segments[i], metric)
      ensures Matches(StoreFrames.Opened(dim, threshold, segments)) && this.metric == metric && fresh(active)
    {
      this.dim, this.metric, this.params, this.graphs := dim, metric, params, graphs;
      queue, hand := [], None;
      active := new B.BruteForceIndex(dim, metric);
    }

    // ---- One block at a time ----

    /** Tombstones, flags and threads are not the indexes' business. */
    static ghost predicate SameRecords(s: State, t: State) {
      && t.dim == s.dim && t.buffer == s.buffer
      && SameData(s.segments, t.segments) && SameData(s.sealing, t.sealing) && SameHand(s.pc, t.pc)
    }

    static ghost predicate SameData(xs: seq<Source>, ys: seq<Source>) {
      |xs| == |ys| && forall i :: 0 <= i < |xs| ==> xs[i].data == ys[i].data
    }

    static ghost predicate SameHand(p: Pc, q: Pc) {
      (p.SealPush? <==> q.SealPush?) && (p.SealPush? ==> p.taken == q.taken)
    }

    lemma StillMatches(s: State, t: State)
      requires Matches(s) && SameRecords(s, t)
      ensures Matches(t)
    {
      forall i | 0 <= i < |graphs| ensures GraphFor(graphs[i], t.segments[i]) {
        assert GraphFor(graphs[i], s.segments[i]);
      }
      forall i | 0 <= i < |queue| ensures queue[i] != active && FlatFor(queue[i], t.sealing[i]) {
        assert FlatFor(queue[i], s.sealing[i]);
      }
    }

    /** `t` is `s` with another buffer. */
    ghost predicate OtherBuffer(s: State, t: State, buffer: map<Id, Floats>) {
      && t.dim == s.dim && t.segments == s.segments && t.sealing == s.sealing && t.buffer == buffer
      && !s.pc.SealPush? && !t.pc.SealPush?
    }

    /** The append to the buffer. */
    method Append(id: Id, v: Floats, ghost s: State, ghost t: State)
      requires Matches(s) && |v| == s.dim && id !in s.buffer && OtherBuffer(s, t, s.buffer[id := v])
      modifies active
      ensures Matches(t)
    {
      var status := active.Insert(id, v);
      assert active.Contents() == Stored(metric, s.buffer)[id := metric.normal(v)] == Stored(metric, t.buffer);
    }

    /** A delete from the buffer. */
    method Erase(id: Id, ghost s: State, ghost t: State)
      requires Matches(s) && OtherBuffer(s, t, s.buffer - {id})
      modifies active
      ensures Matches(t)
    {
      var status := active.Delete(id);
      assert active.Contents() == Stored(metric, s.buffer) - {id} == Stored(metric, t.buffer);
    }

    /** The seal takes the full buffer and leaves an empty one. */
    method Take(ghost s: State, ghost t: State)
      requires Matches(s) && !s.pc.SealPush? && t.pc.SealPush? && t.pc.taken == s.buffer
      requires t.dim == s.dim && t.segments == s.segments && t.sealing == s.sealing && t.buffer == map[]
      modifies this`active, this`hand
      ensures Matches(t) && fresh(active)
    {
      hand := Some(active);
      active := new B.BruteForceIndex(dim, metric);
      assert Stored(metric, map[]) == map[];
    }

    /** ... and queues it. */
    method Push(ghost s: State, ghost t: State)
      requires Matches(s) && s.pc.SealPush? && !t.pc.SealPush? && t.dim == s.dim && t.buffer == s.buffer
      requires t.segments == s.segments && |t.sealing| == |s.sealing| + 1
      requires t.sealing[..|s.sealing|] == s.sealing && t.sealing[|s.sealing|].data == s.pc.taken
      modifies this`queue, this`hand
      ensures Matches(t)
    {
      queue := queue + [hand.value];
      hand := None;
      forall i | 0 <= i < |queue| ensures queue[i] != active && FlatFor(queue[i], t.sealing[i]) {
        assert i < |s.sealing| ==> t.sealing[i] == s.sealing[i];
      }
    }

    /** The worker builds a graph for the queued buffer `i`, which then leaves the queue. */
    method Publish(i: nat, s: State, ghost t: State)
      requires Matches(s) && i < |s.sealing| && t.dim == s.dim && t.buffer == s.buffer && SameHand(s.pc, t.pc)
      requires t.segments == s.segments + [s.sealing[i]] && t.sealing == s.sealing[..i] + s.sealing[i + 1..]
      modifies this`graphs, this`queue
      ensures Matches(t)
    {
      assert FlatFor(queue[i], s.sealing[i]);
      var g := BuildOne(queue[i], s.sealing[i].data, params);
      Published(g, i, s, t);
      graphs, queue := graphs + [g], queue[..i] + queue[i + 1..];
    }

    lemma Published(g: H.HnswIndex, i: nat, s: State, t: State)
      requires Matches(s) && i < |s.sealing| && GraphFor(g, s.sealing[i])
      requires t.segments == s.segments + [s.sealing[i]] && t.sealing == s.sealing[..i] + s.sealing[i + 1..]
      ensures var gs, q := graphs + [g], queue[..i] + queue[i + 1..];
        && |gs| == |t.segments| && (forall j :: 0 <= j < |gs| ==> GraphFor(gs[j], t.segments[j]))
        && |q| == |t.sealing| && (forall j :: 0 <= j < |q| ==> q[j] != active && FlatFor(q[j], t.sealing[j]))
    {
      var gs, q := graphs + [g], queue[..i] + queue[i + 1..];
      forall j | 0 <= j < |gs| ensures GraphFor(gs[j], t.segments[j]) {
        if j < |graphs| { assert GraphFor(graphs[j], s.segments[j]); }
      }
      forall j | 0 <= j < |q| ensures q[j] != active && FlatFor(q[j], t.sealing[j]) {
        var k := if j < i then j else j + 1;
        assert q[j] == queue[k] && t.sealing[j] == s.sealing[k];
        assert FlatFor(queue[k], s.sealing[k]);
      }
    }

    /** The graph for the merged segment `z`, from those of `x` and `y`. */
    method Rebuilt(a: H.HnswIndex, b: H.HnswIndex, job: Job, ghost x: Source, ghost y: Source, ghost z: Source)
      returns (g: H.HnswIndex)
      requires GraphFor(a, x) && GraphFor(b, y) && H.Sane(params)
      requires x.data == job.aData && y.data == job.bData && z.data == job.Merged()
      requires (job.aData.Keys - job.aSnap) !! (job.bData.Keys - job.bSnap)
      ensures fresh(g) && GraphFor(g, z)
    {
      hide H.HnswIndex.Valid, H.HnswIndex.Contents;
      g := BuildMerged(a, b, job, params);
    }

    /** The merge worker's graph takes the place of its two sources'. */
    method Swap(ia: nat, ib: nat, job: Job, s: State, ghost t: State)
      requires Matches(s) && ia < |s.segments| && ib < |s.segments|
      requires s.segments[ia].data == job.aData && s.segments[ib].data == job.bData
      requires (job.aData.Keys - job.aSnap) !! (job.bData.Keys - job.bSnap)
      requires t.dim == s.dim && t.buffer == s.buffer && t.sealing == s.sealing && SameHand(s.pc, t.pc)
      requires |t.segments| == |Retain(s.segments, job.a, job.b)| + 1
      requires t.segments[..|t.segments| - 1] == Retain(s.segments, job.a, job.b)
      requires t.segments[|t.segments| - 1].data == job.Merged()
      modifies this`graphs
      ensures Matches(t)
    {
      hide GraphFor;
      assert GraphFor(graphs[ia], s.segments[ia]) && GraphFor(graphs[ib], s.segments[ib]);
      var g := Rebuilt(graphs[ia], graphs[ib], job, s.segments[ia], s.segments[ib], t.segments[|t.segments| - 1]);
      Swapped(g, job, s, t);
      graphs := RetainAlong(s.segments, graphs, job.a, job.b) + [g];
    }

    lemma Swapped(g: H.HnswIndex, job: Job, s: State, t: State)
      requires Matches(s) && |t.segments| == |Retain(s.segments, job.a, job.b)| + 1
      requires t.segments[..|t.segments| - 1] == Retain(s.segments, job.a, job.b)
      requires GraphFor(g, t.segments[|t.segments| - 1])
      ensures var gs := RetainAlong(s.segments, graphs, job.a, job.b) + [g];
        |gs| == |t.segments| && forall j :: 0 <= j < |gs| ==> GraphFor(gs[j], t.segments[j])
    {
      var kept := RetainAlong(s.segments, graphs, job.a, job.b);
      forall j | 0 <= j < |kept| ensures GraphFor(kept[j], t.segments[j]) {
        var k := RetainedPair(s.segments, graphs, job.a, job.b, j);
        assert t.segments[j] == t.segments[..|t.segments| - 1][j];
        assert GraphFor(graphs[k], s.segments[k]);
      }
    }

    // ---- Along with the store ----

    method FollowAppend(s: State)
      requires Matches(s) && Inv(s) && Enabled(s, ApplyInsert)
      modifies active
      ensures Matches(Apply(s, ApplyInsert))
    {
      hide Matches, Records, Protocol;
      Append(s.pc.id, s.pc.v, s, Apply(s, ApplyInsert));
    }

    method FollowErase(s: State)
      requires Matches(s) && Enabled(s, EraseBuffer)
      modifies active
      ensures Matches(Apply(s, EraseBuffer))
    {
      hide Matches;
      if s.pc.id in s.buffer {
        Erase(s.pc.id, s, Apply(s, EraseBuffer));
      } else {
        StillMatches(s, Apply(s, EraseBuffer));
      }
    }

    method FollowTake(s: State)
      requires Matches(s) && Enabled(s, TakeBuffer)
      modifies this`active, this`hand
      ensures Matches(Apply(s, TakeBuffer)) && (active == old(active) || fresh(active))
    {
      hide Matches;
      if s.buffer != map[] {
        Take(s, Apply(s, TakeBuffer));
      } else {
        StillMatches(s, Apply(s, TakeBuffer));
      }
    }

    method FollowPush(s: State)
      requires Matches(s) && Enabled(s, PushSealing)
      modifies this`queue, this`hand
      ensures Matches(Apply(s, PushSealing))
    {
      hide Matches;
      Push(s, Apply(s, PushSealing));
    }

    method FollowPublish(s: State, tid: nat)
      requires Matches(s) && Enabled(s, Label.Publish(tid))
      modifies this`graphs, this`queue
      ensures Matches(Apply(s, Label.Publish(tid)))
    {
      hide Matches, SameRecords, Find;
      assert s.sealers[tid].Building?;
      var i := Find(s.sealing, s.sealers[tid].uid);
      hide Enabled;
      PublishMoves(s, tid, i);
      hide Apply;
      if i >= 0 {
        Publish(i, s, Apply(s, Label.Publish(tid)));
      } else {
        StillMatches(s, Apply(s, Label.Publish(tid)));
      }
    }

    static lemma PublishMoves(s: State, tid: nat, i: int)
      requires Enabled(s, Label.Publish(tid)) && i == Find(s.sealing, s.sealers[tid].uid)
      ensures var t := Apply(s, Label.Publish(tid));
        if i < 0 then SameRecords(s, t)
        else
          && t.dim == s.dim && t.buffer == s.buffer && t.pc == s.pc
          && t.segments == s.segments + [s.sealing[i]] && t.sealing == s.sealing[..i] + s.sealing[i + 1..]
    {
      hide Find, SameRecords;
      if i < 0 { Unmoved(s, Apply(s, Label.Publish(tid))); }
    }

    method FollowSwap(s: State, jid: nat)
      requires Matches(s) && Inv(s) && Enabled(s, Label.Swap(jid))
      modifies this`graphs
      ensures Matches(Apply(s, Label.Swap(jid)))
    {
      hide Matches, PcOk, Protocol;
      var job := s.jobs[jid];
      var ia, ib := Find(s.segments, job.a), Find(s.segments, job.b);
      if ia >= 0 && ib >= 0 {
        JobFits(s, job, ia, ib);
        Swap(ia, ib, job, s, Apply(s, Label.Swap(jid)));
      } else {
        StillMatches(s, Apply(s, Label.Swap(jid)));
      }
    }

    /** The snapshot of a merge still is what its sources hold. */
    lemma JobFits(s: State, job: Job, ia: nat, ib: nat)
      requires JobOk(Stack(s), s.nextUid, job) && ia < |s.segments| && ib < |s.segments|
      requires s.segments[ia].uid == job.a && s.segments[ib].uid == job.b
      ensures s.segments[ia].data == job.aData && s.segments[ib].data == job.bData
    {
      assert Stack(s)[ia] == s.segments[ia] && Stack(s)[ib] == s.segments[ib];
    }

    /** The blocks that bring, take or move records. */
    static predicate Moving(l: Label) {
      || l.ApplyInsert? || l.EraseBuffer? || l.TakeBuffer? || l.PushSealing? || l.Publish? || l.Swap?
    }

    static lemma OthersMoveNothing(s: State, l: Label)
      requires Enabled(s, l) && !Moving(l)
      ensures SameRecords(s, Apply(s, l))
    {
      if l.EraseSealing? || l.EraseSegments? {
        BuryMovesNothing(s, l);
      } else {
        RestMovesNothing(s, l);
      }
    }

    static lemma BuryMovesNothing(s: State, l: Label)
      requires Enabled(s, l) && (l.EraseSealing? || l.EraseSegments?)
      ensures SameRecords(s, Apply(s, l))
    {
      hide Newest, SameData;
      var t := Apply(s, l);
      if l.EraseSealing? {
        assert t.segments == s.segments;
        BuriedData(s.sealing, Newest(s.sealing, s.pc.id), s.pc.id);
      } else {
        assert t.sealing == s.sealing;
        BuriedData(s.segments, Newest(s.segments, s.pc.id), s.pc.id);
      }
      SameAsItself(s.segments);
      SameAsItself(s.sealing);
    }

    static lemma BuriedData(ls: seq<Source>, i: int, id: Id)
      requires -1 <= i < |ls|
      ensures i >= 0 ==> SameData(ls, Bury(ls, i, id))
    {
    }

    static lemma SameAsItself(ls: seq<Source>)
      ensures SameData(ls, ls)
    {
    }

    static lemma RestMovesNothing(s: State, l: Label)
      requires Enabled(s, l) && !Moving(l) && !l.EraseSealing? && !l.EraseSegments?
      ensures SameRecords(s, Apply(s, l))
    {
      hide SameRecords;
      var t := Apply(s, l);
      assert t.dim == s.dim && t.buffer == s.buffer && t.segments == s.segments && t.sealing == s.sealing;
      assert !s.pc.SealPush? || t.pc == s.pc;
      assert SameHand(s.pc, t.pc);
      Unmoved(s, t);
    }

    static lemma Unmoved(s: State, t: State)
      requires t.dim == s.dim && t.buffer == s.buffer && t.segments == s.segments && t.sealing == s.sealing
      requires SameHand(s.pc, t.pc)
      ensures SameRecords(s, t)
    {
    }

    /** Whatever block the store runs, its indexes can follow. */
    method Follow(s: State, l: Label)
      requires Matches(s) && Inv(s) && Enabled(s, l)
      modifies this, active
      ensures Matches(Apply(s, l)) && (active == old(active) || fresh(active))
    {
      hide Matches, SameRecords, Inv, Apply, Enabled;
      match l {
        case ApplyInsert => FollowAppend(s);
        case EraseBuffer => FollowErase(s);
        case TakeBuffer => FollowTake(s);
        case PushSealing => FollowPush(s);
        case Publish(tid) => FollowPublish(s, tid);
        case Swap(jid) => FollowSwap(s, jid);
        case _ =>
          OthersMoveNothing(s, l);
          StillMatches(s, Apply(s, l));
      }
    }
  }
}
