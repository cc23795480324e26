/** The brute-force index: a flat block with swap-remove, and its serial, parallel and filtered scans. */
module BruteForce {
  import opened Prelude
  import opened TopK
  import opened ExactSearch
  import opened FlatBlock

  /** Slot -> id and id -> slot are inverse, and the block has one row per slot. */
  ghost predicate Layout(data: seq<real>, dim: nat, ids: seq<Id>, slotOf: map<Id, nat>) {
    && |data| == |ids| * dim
    && (forall s :: 0 <= s < |ids| ==> ids[s] in slotOf && slotOf[ids[s]] == s)
    && (forall id :: id in slotOf ==> slotOf[id] < |ids| && ids[slotOf[id]] == id)
  }

  ghost function MapOf(data: seq<real>, dim: nat, ids: seq<Id>, slotOf: map<Id, nat>): map<Id, Vector>
    requires Layout(data, dim, ids, slotOf)
  {
    map id | id in slotOf :: At(data, dim, |ids|, slotOf[id])
  }

  /** Swap-remove on the three structures. */
  lemma RemovedMap(data: seq<real>, dim: nat, ids: seq<Id>, slotOf: map<Id, nat>, id: Id)
    requires Layout(data, dim, ids, slotOf) && id in slotOf
    ensures var slot, last := slotOf[id], |ids| - 1;
      var newData := SwapRemoved(data, dim, |ids|, slot);
      var newIds := (if slot != last then ids[slot := ids[last]] else ids)[..last];
      var newSlots := if slot != last then (slotOf - {id})[ids[last] := slot] else slotOf - {id};
      && Layout(newData, dim, newIds, newSlots)
      && MapOf(newData, dim, newIds, newSlots) == MapOf(data, dim, ids, slotOf) - {id}
  {
    var slot, last := slotOf[id], |ids| - 1;
    var newData := SwapRemoved(data, dim, |ids|, slot);
    var newIds := (if slot != last then ids[slot := ids[last]] else ids)[..last];
    var newSlots := if slot != last then (slotOf - {id})[ids[last] := slot] else slotOf - {id};
    SwapRemovedSize(data, dim, |ids|, slot);
    assert ids[last] != id || slot == last;
    assert Layout(newData, dim, newIds, newSlots);
    forall k | k in newSlots ensures At(newData, dim, |newIds|, newSlots[k]) == At(data, dim, |ids|, slotOf[k]) {
      SwapRemovedRow(data, dim, |ids|, slot, newSlots[k]);
    }
    assert newSlots.Keys == slotOf.Keys - {id};
  }

  lemma AppendedMap(data: seq<real>, dim: nat, ids: seq<Id>, slotOf: map<Id, nat>, id: Id, v: Vector)
    requires Layout(data, dim, ids, slotOf) && id !in slotOf && |v| == dim
    ensures Layout(data + v, dim, ids + [id], slotOf[id := |ids|])
    ensures MapOf(data + v, dim, ids + [id], slotOf[id := |ids|]) == MapOf(data, dim, ids, slotOf)[id := v]
  {
    RowAppend(data, dim, |ids|, v, |ids|);
    forall k | k in slotOf ensures At(data + v, dim, |ids| + 1, slotOf[k]) == At(data, dim, |ids|, slotOf[k]) {
      RowAppend(data, dim, |ids|, v, slotOf[k]);
    }
  }

  class BruteForceIndex {
    const dim: nat
    const metric: Metric
    var data: seq<real>
    var ids: seq<Id>
    var slotOf: map<Id, nat>

    ghost predicate Valid()
      reads this
    {
      Layout(data, dim, ids, slotOf)
    }

    /** The vector stored in a slot. */
    function VectorAt(slot: nat): (v: Vector)
      reads this
      requires Valid() && slot < |ids|
      ensures |v| == dim
    {
      At(data, dim, |ids|, slot)
    }

    /** The index as a map. */
    ghost function Contents(): map<Id, Vector>
      reads this
      requires Valid()
    {
      MapOf(data, dim, ids, slotOf)
    }

    constructor (dim: nat, metric: Metric)
      requires Proper(metric)
      ensures Valid() && Contents() == map[] && this.dim == dim && this.metric == metric
    {
      this.dim, this.metric := dim, metric;
      data, ids, slotOf := [], [], map[];
    }

    method Insert(id: Id, vector: Vector) returns (r: Status)
      requires Valid() && Proper(metric)
      modifies this
      ensures Valid()
      ensures r == if |vector| != dim then DimensionMismatch
                   else if id in old(Contents()) then DuplicateId else Ok
      ensures Contents() == if r.Ok? then old(Contents())[id := metric.normal(vector)] else old(Contents())
    {
      if |vector| != dim { return DimensionMismatch; }
      if id in slotOf { return DuplicateId; }
      var slot := |ids|;
      var v := metric.normal(vector);
      AppendedMap(data, dim, ids, slotOf, id, v);
      data := data + v;
      ids := ids + [id];
      slotOf := slotOf[id := slot];
      return Ok;
    }

    method Delete(id: Id) returns (r: Status)
      requires Valid()
      modifies this
      ensures Valid()
      ensures r == if id in old(Contents()) then Ok else NotFound
      ensures Contents() == old(Contents()) - {id}
    {
      if id !in slotOf { return NotFound; }
      var slot := slotOf[id];
      var last := |ids| - 1;
      RemovedMap(data, dim, ids, slotOf, id);
      slotOf := slotOf - {id};
      data := SwapRemoved(data, dim, |ids|, slot);
      if slot != last {
        var moved := ids[last];
        ids := ids[slot := moved];
        slotOf := slotOf[moved := slot];
      }
      ids := ids[..last];
      return Ok;
    }

    /** Every slot's distance to the query, in slot order. */
    function Hits(d: Vector -> real): (s: seq<Ranked>)
      reads this
      requires Valid()
      ensures |s| == |ids|
      ensures forall i :: 0 <= i < |s| ==> s[i] == Ranked(ids[i], d(VectorAt(i)))
    {
      seq(|ids|, i requires 0 <= i < |ids| reads this requires Valid() => Ranked(ids[i], d(VectorAt(i))))
    }

    lemma HitsList(d: Vector -> real)
      requires Valid()
      ensures Lists(Contents(), d, Hits(d))
    {
      forall id | id in Contents() ensures exists i :: 0 <= i < |Hits(d)| && Hits(d)[i].key == id {
        assert Hits(d)[slotOf[id]].key == id;
      }
    }

    /** The core shared by the serial and the parallel path: a local top-k heap over a slot range. */
    method ScanRange(d: Vector -> real, k: nat, lo: nat, hi: nat) returns (heap: seq<Ranked>)
      requires Valid() && lo <= hi <= |ids|
      ensures heap == Best(Hits(d)[lo..hi], k)
    {
      heap := [];
      ghost var all := Hits(d);
      NothingYet(all, lo, k);
      for slot := lo to hi
        invariant Valid() && heap == Best(all[lo..slot], k)
      {
        heap := OfferNext(all, lo, slot, k, heap, Ranked(ids[slot], d(VectorAt(slot))));
      }
    }

    /** Ranks of the k nearest records, serially below the threshold and in chunks above it. */
    method Search(query: Vector, k: nat, parallelThreshold: nat, threads: nat) returns (out: seq<Ranked>)
      requires Valid()
      ensures out == Exact(Contents(), To(metric, query), k)
    {
      var d := To(metric, query);
      HitsList(d);
      AnyListing(Contents(), d, Hits(d), k);
      var n := |ids|;
      if k == 0 || n == 0 { return []; }
      ghost var all := Hits(d);
      if n < parallelThreshold {
        out := ScanRange(d, k, 0, n);
        assert all[0..n] == all;
      } else {
        var workers := if threads > 1 then threads else 1;
        var chunk := (n + workers - 1) / workers;
        assert chunk > 0 by { ChunkPositive(n, workers); }
        out := [];
        var start := 0;
        while start < n
          invariant 0 <= start <= n
          invariant out == Best(all[0..start], k)
          decreases n - start
        {
          var stop := if start + chunk < n then start + chunk else n;
          var local := ScanRange(d, k, start, stop);
          out := MergeInto(all, start, stop, out, local, k);
          start := stop;
        }
        assert all[0..n] == all;
      }
    }

    /** The filtered scan: keep, sort, truncate. */
    method SearchFiltered(query: Vector, k: nat, allow: Id -> bool) returns (out: seq<Ranked>)
      requires Valid()
      ensures out == Exact(map id | id in Contents() && allow(id) :: Contents()[id], To(metric, query), k)
    {
      var d := To(metric, query);
      ghost var kept := map id | id in Contents() && allow(id) :: Contents()[id];
      if k == 0 { return []; }
      var all: seq<Ranked> := [];
      for slot := 0 to |ids|
        invariant forall i :: 0 <= i < |all| ==>
          all[i].key in slotOf && slotOf[all[i].key] < slot && allow(all[i].key)
          && all[i].dist == d(VectorAt(slotOf[all[i].key]))
        invariant forall i, j :: 0 <= i < j < |all| ==> all[i].key != all[j].key
        invariant forall s :: 0 <= s < slot && allow(ids[s]) ==> exists i :: 0 <= i < |all| && all[i].key == ids[s]
      {
        if allow(ids[slot]) {
          ghost var before := all;
          all := all + [Ranked(ids[slot], d(VectorAt(slot)))];
          assert all[|before|].key == ids[slot];
          forall s | 0 <= s < slot && allow(ids[s]) ensures exists i :: 0 <= i < |all| && all[i].key == ids[s] {
            var i :| 0 <= i < |before| && before[i].key == ids[s];
            assert all[i].key == ids[s];
          }
        }
      }
      AnyListing(kept, d, all, k);
      out := Take(Sort(all), k);
    }
  }

  lemma ChunkPositive(n: nat, workers: nat)
    requires n > 0 && workers > 0
    ensures (n + workers - 1) / workers > 0
  {
  }

  /** One step of a bounded heap: push while short, replace the worst when strictly better. */
  method OfferTo(heap: seq<Ranked>, k: nat, c: Ranked) returns (r: seq<Ranked>)
    requires Sorted(heap)
    ensures r == Offer(heap, k, c)
  {
    r := heap;
    if |r| < k {
      r := Push(r, c);
    } else if |r| > 0 {
      var worst := r[|r| - 1];
      if Less(c, worst) { r := Push(r[..|r| - 1], c); }
    }
  }

  /** One slot of a scan. */
  method OfferNext(ghost all: seq<Ranked>, ghost lo: nat, ghost i: nat, k: nat, heap: seq<Ranked>, c: Ranked)
    returns (r: seq<Ranked>)
    requires lo <= i < |all| && all[i] == c && heap == Best(all[lo..i], k)
    ensures r == Best(all[lo..i + 1], k)
  {
    BestStep(all, lo, i, k);
    r := OfferTo(heap, k, c);
  }

  lemma BestStep(all: seq<Ranked>, lo: nat, i: nat, k: nat)
    requires lo <= i < |all|
    ensures Offer(Best(all[lo..i], k), k, all[i]) == Best(all[lo..i + 1], k)
  {
    SliceStep(all, lo, i);
    OfferAll(all[lo..i], all[i], k);
  }

  lemma NothingYet(all: seq<Ranked>, lo: nat, k: nat)
    requires lo <= |all|
    ensures Best(all[lo..lo], k) == []
  {
    assert all[lo..lo] == [];
  }

  lemma SliceStep(all: seq<Ranked>, lo: nat, i: nat)
    requires lo <= i < |all|
    ensures all[lo..i] + [all[i]] == all[lo..i + 1]
  {
  }

  lemma MergeStep(all: seq<Ranked>, start: nat, stop: nat, drained: seq<Ranked>, k: nat)
    requires start <= stop <= |all| && multiset(drained) == multiset(Best(all[start..stop], k))
    ensures OfferSeq(Best(all[0..start], k), k, drained) == Best(all[0..stop], k)
  {
    SliceJoin(all, start, stop);
    MergeHeaps(all[0..start], all[start..stop], drained, k);
  }

  lemma SliceJoin(all: seq<Ranked>, start: nat, stop: nat)
    requires start <= stop <= |all|
    ensures all[0..start] + all[start..stop] == all[0..stop]
  {
  }

  lemma OfferSeqStep(h: seq<Ranked>, k: nat, b: seq<Ranked>, i: nat)
    requires Sorted(h) && i < |b|
    ensures OfferSeq(h, k, b[..i + 1]) == Offer(OfferSeq(h, k, b[..i]), k, b[i])
  {
    assert b[..i + 1][..i] == b[..i];
  }

  /** The reduce step: the heap of the next chunk is drained into the heap of all chunks before it. */
  method MergeInto(ghost all: seq<Ranked>, ghost start: nat, ghost stop: nat,
                   a: seq<Ranked>, b: seq<Ranked>, k: nat) returns (r: seq<Ranked>)
    requires start <= stop <= |all| && a == Best(all[0..start], k) && b == Best(all[start..stop], k)
    ensures r == Best(all[0..stop], k)
  {
    var drained := Drain(b);
    r := a;
    for i := 0 to |drained|
      invariant Sorted(r) && r == OfferSeq(a, k, drained[..i])
    {
      OfferSeqStep(a, k, drained, i);
      r := OfferTo(r, k, drained[i]);
    }
    assert drained[..|drained|] == drained;
    MergeStep(all, start, stop, drained, k);
  }

  /** Iterating over a heap: every element once, in storage order, which may be any. */
  method Drain(h: seq<Ranked>) returns (r: seq<Ranked>)
    ensures multiset(r) == multiset(h)
  {
    r := [];
    var rest := h;
    while rest != []
      invariant multiset(r) + multiset(rest) == multiset(h)
      decreases |rest|
    {
      var i :| 0 <= i < |rest|;
      assert rest == rest[..i] + [rest[i]] + rest[i + 1..];
      r := r + [rest[i]];
      rest := rest[..i] + rest[i + 1..];
    }
  }

  function ByPosition(base: seq<Vector>): map<Id, Vector> {
    map i | 0 <= i < |base| :: i as Id := base[i]
  }

  /** The independent reference scan of the evaluation module: ids are positions. */
  method ExactTopK(base: seq<Vector>, query: Vector, k: nat, distance: (Vector, Vector) -> real)
    returns (out: seq<Ranked>)
    ensures out == Exact(ByPosition(base), v => distance(query, v), k)
  {
    ghost var d: Vector -> real := v => distance(query, v);
    ghost var all := seq(|base|, i requires 0 <= i < |base| => Ranked(i, distance(query, base[i])));
    out := [];
    for i := 0 to |base|
      invariant out == Best(all[0..i], k)
    {
      BestStep(all, 0, i, k);
      out := OfferTo(out, k, Ranked(i, distance(query, base[i])));
    }
    assert all[0..|base|] == all;
    ghost var m := ByPosition(base);
    forall id | id in m ensures exists i :: 0 <= i < |all| && all[i].key == id {
      assert all[id].key == id;
    }
    AnyListing(m, d, all, k);
  }
}
