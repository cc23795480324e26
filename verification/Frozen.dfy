/** A frozen, quantized HNSW: the graph of an index unchanged, its vectors as 8-bit codes. */
module Frozen {
  import opened Prelude
  import opened TopK
  import opened ExactSearch
  import opened FlatBlock
  import opened LayerSearch
  import opened HnswGraph
  import opened Hnsw
  import Quant

  type Codes = seq<Quant.Code>

  /** `dim` codes per slot, in slot order. */
  function CodeAt(codes: Codes, dim: nat, n: nat, slot: nat): (c: Codes)
    requires |codes| == n * dim && slot < n
    ensures |c| == dim
  {
    RowFits(dim, slot, n);
    RowStart(dim, slot);
    codes[slot * dim..slot * dim + dim]
  }

  lemma CodeAppend(codes: Codes, dim: nat, n: nat, c: Codes, slot: nat)
    requires |codes| == n * dim && |c| == dim && slot <= n
    ensures |codes + c| == (n + 1) * dim
    ensures CodeAt(codes + c, dim, n + 1, slot) == if slot < n then CodeAt(codes, dim, n, slot) else c
  {
    RowStart(dim, n);
    RowStart(dim, slot);
    RowFits(dim, slot, n + 1);
    var from := slot * dim;
    if slot < n {
      RowFits(dim, slot, n);
      assert from + dim <= |codes|;
      assert (codes + c)[from..from + dim] == codes[from..from + dim];
    } else {
      assert from == |codes|;
      assert (codes + c)[from..from + dim] == c;
    }
  }

  datatype QuantizedHnsw = QuantizedHnsw(
    quantizer: Quant.ScalarQuantizer, l2: bool, normal: Vector -> Vector, dim: nat, codes: Codes,
    ids: seq<Id>, links: Links, entry: Option<nat>, deleted: seq<bool>) {

    predicate Sized() {
      |codes| == |ids| * dim && |quantizer.mins| == |quantizer.scales| == dim
    }

    ghost predicate Valid() {
      Sized() && |links| == |deleted| == |ids| && Shape(links) && EntryOk(links, deleted, entry)
      && forall v :: |normal(v)| == |v|
    }

    /** The vector a slot's code stands for. */
    function Stored(slot: nat): (v: Vector)
      requires Sized() && slot < |ids|
      ensures |v| == dim
    {
      quantizer.Decoded(CodeAt(codes, dim, |ids|, slot))
    }

    /** Asymmetric distance of an exact query to a slot. */
    function DistTo(q: Vector): nat -> real {
      (s: nat) => if Sized() && s < |ids| && |q| == dim then Quant.Distance(l2, q, Stored(s)) else 0.0
    }

    function Live(): nat -> bool { (s: nat) => s < |deleted| && !deleted[s] }

    /** Slots as records. */
    function Records(found: seq<Ranked>, k: nat): (r: seq<Ranked>)
      requires forall i :: 0 <= i < |found| ==> found[i].key < |ids|
      ensures |r| == Min(k, |found|)
      ensures forall i :: 0 <= i < |r| ==> r[i] == Ranked(ids[found[i].key], found[i].dist)
    {
      seq(Min(k, |found|), i requires 0 <= i < Min(k, |found|) && forall j :: 0 <= j < |found| ==> found[j].key < |ids|
                             => Ranked(ids[found[i].key], found[i].dist))
    }
  }

  /** The slots a search may answer with: live, and reachable from `start` on the base layer. */
  ghost function LiveReach(f: QuantizedHnsw, start: nat): set<nat>
    requires f.Valid()
  {
    set v | v in Reach(f.links, 0, [start]) && !f.deleted[v]
  }

  ghost predicate ListOf(f: QuantizedHnsw, q: Vector, slots: set<nat>, found: seq<Ranked>) {
    Heap(found, f.DistTo(q)) && Keys(found) == slots && forall i :: 0 <= i < |found| ==> found[i].key < |f.ids|
  }

  /** `r` reports the k nearest of `slots` at their asymmetric distance, nearest first. */
  ghost predicate Reports(f: QuantizedHnsw, q: Vector, k: nat, slots: set<nat>, r: seq<Ranked>) {
    exists found: seq<Ranked> :: ListOf(f, q, slots, found) && r == f.Records(found, k)
  }

  /** `s` is the slot behind entry `i` of an answer. */
  ghost predicate Behind(f: QuantizedHnsw, q: Vector, r: seq<Ranked>, i: nat, s: nat) {
    i < |r| && s < |f.ids| && r[i] == Ranked(f.ids[s], f.DistTo(q)(s))
  }

  /** Entry `i` of an answer comes from one of `slots`. */
  ghost predicate From(f: QuantizedHnsw, q: Vector, slots: set<nat>, r: seq<Ranked>, i: nat) {
    exists s: nat :: s in slots && Behind(f, q, r, i, s)
  }

  /** `s` is in the answer, or everything in it is at least as close. */
  ghost predicate Weighed(f: QuantizedHnsw, q: Vector, r: seq<Ranked>, s: nat) {
    (exists i: nat :: Behind(f, q, r, i, s)) || forall i :: 0 <= i < |r| ==> r[i].dist <= f.DistTo(q)(s)
  }

  lemma EntryBehind(f: QuantizedHnsw, q: Vector, k: nat, slots: set<nat>, found: seq<Ranked>, i: nat)
    requires ListOf(f, q, slots, found) && i < Min(k, |found|)
    ensures found[i].key in slots && Behind(f, q, f.Records(found, k), i, found[i].key)
  {
    assert found[i].key in Keys(found);
  }

  lemma SlotWeighed(f: QuantizedHnsw, q: Vector, k: nat, slots: set<nat>, found: seq<Ranked>, s: nat)
    requires ListOf(f, q, slots, found) && s in slots
    ensures Weighed(f, q, f.Records(found, k), s)
  {
    assert s in Keys(found);
    var p :| 0 <= p < |found| && found[p].key == s;
    if p < k { EntryBehind(f, q, k, slots, found, p); }
  }

  /** What such a report is, without its list: as many as there are, ascending, and no slot left out is closer. */
  lemma ReportsMeans(f: QuantizedHnsw, q: Vector, k: nat, slots: set<nat>, r: seq<Ranked>)
    requires Reports(f, q, k, slots, r)
    ensures |r| == Min(k, |slots|)
    ensures forall i, j :: 0 <= i < j < |r| ==> r[i].dist <= r[j].dist
    ensures forall i :: 0 <= i < |r| ==> From(f, q, slots, r, i)
    ensures forall s: nat :: s in slots ==> Weighed(f, q, r, s)
  {
    var found: seq<Ranked> :| ListOf(f, q, slots, found) && r == f.Records(found, k);
    KeysSize(found, f.DistTo(q));
    forall i | 0 <= i < |r| ensures From(f, q, slots, r, i) { EntryBehind(f, q, k, slots, found, i); }
    forall s: nat | s in slots ensures Weighed(f, q, r, s) { SlotWeighed(f, q, k, slots, found, s); }
  }

  /** The frozen copy stands for `src`: same graph, and each vector within half a step per dimension. */
  ghost predicate Freezes(f: QuantizedHnsw, src: HnswIndex)
    requires src.Valid()
    reads src
  {
    && f.Valid() && f.quantizer.Valid() && f.dim == src.dim && f.normal == src.metric.normal
    && f.ids == src.ids && f.links == src.links && f.entry == src.entry && f.deleted == src.deleted
    && forall s: nat, j: nat :: s < |f.ids| && j < f.dim ==>
         Quant.Abs(f.Stored(s)[j] - At(src.data, src.dim, |src.ids|, s)[j]) <= f.quantizer.scales[j] / 2.0
  }

  /** `from_hnsw`: calibrate on every slot, encode every slot, copy the graph. */
  method FromHnsw(src: HnswIndex, l2: bool) returns (f: QuantizedHnsw)
    requires src.Valid()
    ensures Freezes(f, src)
  {
    var n := |src.ids|;
    var (data, dim) := (src.data, src.dim);
    var rows := seq(n, s requires 0 <= s < n && |data| == n * dim => At(data, dim, n, s));
    var q := Quant.Fit(rows, dim);
    var codes: Codes := [];
    for s := 0 to n
      invariant |codes| == s * dim
      invariant forall i: nat :: i < s ==> CodeAt(codes, dim, s, i) == q.Codes(rows[i])
    {
      ghost var before := codes;
      assert q.Covers(rows[s]);
      codes := Quant.Encode(q, rows[s], codes);
      CodeAppend(before, dim, s, q.Codes(rows[s]), s);
      forall i: nat | i < s ensures CodeAt(codes, dim, s + 1, i) == q.Codes(rows[i]) {
        CodeAppend(before, dim, s, q.Codes(rows[s]), i);
      }
    }
    f := QuantizedHnsw(q, l2, src.metric.normal, dim, codes, src.ids, src.links, src.entry, src.deleted);
    forall s: nat, j: nat | s < n && j < dim
      ensures Quant.Abs(f.Stored(s)[j] - At(src.data, src.dim, n, s)[j]) <= q.scales[j] / 2.0
    {
      assert q.Covers(rows[s]);
      Quant.DecodeEncode(q, rows[s], j);
    }
  }

  /** The width-1 step of the descent: the nearest live slot found, or where it started. */
  method Step(f: QuantizedHnsw, q: Vector, ep: nat, level: nat) returns (next: nat)
    requires f.Valid() && OnLevel(f.links, level, ep)
    ensures OnLevel(f.links, level, next) && LayerSearch.Step(f.links, level, f.DistTo(q), f.Live(), ep, next)
  {
    ShapeClosed(f.links, level);
    var out, visits, admissions, seen := SearchLayer(f.links, f.DistTo(q), [ep], 1, level, f.Live(), None);
    assert Answered(f.links, level, [ep], 1, f.DistTo(q), f.Live(), out);
    next := ep;
    if |out| > 0 {
      assert out[0].key in Keys(out);
      next := out[0].key;
    }
  }

  /**
   * Search over the codes. Answers are live slots at their asymmetric distance, nearest first; when the
   * width covers everything reachable on the base layer they are the k nearest reachable live slots.
   */
  method SearchWithEf(f: QuantizedHnsw, query: Vector, k: nat, ef: nat)
    returns (r: seq<Ranked>, ghost start: nat)
    requires f.Valid() && |query| == f.dim
    ensures |r| <= k && (f.entry.None? ==> r == [])
    ensures ReportsLive(f, f.normal(query), k, r)
    ensures k > 0 && f.entry.Some? && |Reach(f.links, 0, [start])| <= Max(ef, k) ==>
      Reports(f, f.normal(query), k, LiveReach(f, start), r)
    ensures k > 0 && f.entry.Some? ==> Explores(f, f.normal(query), Max(ef, k), k, r)
  {
    start := 0;
    if f.entry.None? || k == 0 {
      r := [];
      NothingFound(f, f.normal(query), k);
      return;
    }
    var q := f.normal(query);
    var ep := Descend(f, q, f.entry.value);
    start := ep;
    r := SearchBase(f, q, ep, k, Max(ef, k));
  }

  /** Where a search starts on the base layer: the end of a greedy descent over live slots from the entry. */
  ghost predicate Start(f: QuantizedHnsw, q: Vector, start: nat) {
    f.entry.Some? && f.entry.value < |f.links|
    && Descent(f.links, |f.links[f.entry.value]| - 1, 0, f.DistTo(q), f.Live(), f.entry.value, start)
  }

  /** What a search of this width answers on the base layer. */
  ghost predicate FoundFrom(f: QuantizedHnsw, q: Vector, width: nat, start: nat, found: seq<Ranked>) {
    Answered(f.links, 0, [start], width, f.DistTo(q), f.Live(), found)
    && forall i :: 0 <= i < |found| ==> found[i].key < |f.ids|
  }

  /** The first `k` records of what a search of this width finds from the end of the descent. */
  ghost predicate Explores(f: QuantizedHnsw, q: Vector, width: nat, k: nat, r: seq<Ranked>) {
    exists start: nat, found: seq<Ranked> ::
      Start(f, q, start) && FoundFrom(f, q, width, start, found) && r == f.Records(found, k)
  }

  lemma HasBase(links: Links, s: nat)
    requires Shape(links) && s < |links|
    ensures |links[s]| >= 1
  {
  }

  /** Down the levels, one width-1 step each. */
  method Descend(f: QuantizedHnsw, q: Vector, entry: nat) returns (ep: nat)
    requires f.Valid() && f.entry == Some(entry)
    ensures OnLevel(f.links, 0, ep) && Start(f, q, ep)
  {
    hide Descent, LayerSearch.Step, Shape;
    HasBase(f.links, entry);
    ep := entry;
    var level := |f.links[ep]| - 1;
    ghost var top := level;
    DescentStart(f.links, top, top, f.DistTo(q), f.Live(), ep);
    while level > 0
      invariant 0 <= level <= top && OnLevel(f.links, level, ep)
      invariant Descent(f.links, top, level, f.DistTo(q), f.Live(), entry, ep)
    {
      ghost var from := ep;
      ep := Step(f, q, ep, level);
      DescentMore(f.links, top, level - 1, f.DistTo(q), f.Live(), entry, from, ep);
      level := level - 1;
    }
  }

  /** The base layer, and its result as records. */
  method SearchBase(f: QuantizedHnsw, q: Vector, ep: nat, k: nat, width: nat) returns (r: seq<Ranked>)
    requires f.Valid() && OnLevel(f.links, 0, ep) && 0 < k <= width && Start(f, q, ep)
    ensures |r| <= k && ReportsLive(f, q, k, r) && Explores(f, q, width, k, r)
    ensures |Reach(f.links, 0, [ep])| <= width ==> Reports(f, q, k, LiveReach(f, ep), r)
  {
    hide Start;
    ShapeClosed(f.links, 0);
    var out, visits, admissions, seen := SearchLayer(f.links, f.DistTo(q), [ep], width, 0, f.Live(), None);
    forall i | 0 <= i < |out| ensures out[i].key < |f.ids| && !f.deleted[out[i].key] {
      assert out[i].key in Keys(out);
    }
    r := f.Records(out, k);
    assert FoundFrom(f, q, width, ep, out);
    assert ListOf(f, q, Keys(out), out);
    assert Reports(f, q, k, Keys(out), r);
  }

  /** A report of some live slots. */
  ghost predicate ReportsLive(f: QuantizedHnsw, q: Vector, k: nat, r: seq<Ranked>) {
    exists slots: set<nat> ::
      (forall s: nat :: s in slots ==> s < |f.ids| && s < |f.deleted| && !f.deleted[s]) && Reports(f, q, k, slots, r)
  }

  lemma NothingFound(f: QuantizedHnsw, q: Vector, k: nat)
    ensures ReportsLive(f, q, k, [])
  {
    var none: set<nat> := {};
    assert ListOf(f, q, none, []) && [] == f.Records([], k);
    assert Reports(f, q, k, none, []);
  }
}
