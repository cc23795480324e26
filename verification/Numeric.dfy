/**
 * The numeric field index: a value-ordered map for exact enumeration and a 64-bucket equal-width
 * histogram for interval estimates. Values are reals; map keys stand for `ordered_bits` of the value,
 * which sorts the same way (Meta.OrderedBitsOrder).
 */
module Numeric {
  import opened Prelude
  import opened Meta

  const BUCKETS: nat := 64

  /** One value and the ids that carry it, in insertion order up to swap-removes. */
  datatype Cell = Cell(value: real, ids: seq<Id>)

  /** A stored pair. */
  datatype Entry = Entry(value: real, id: Id)

  // ---- The ordered map ----

  ghost predicate Ordered(cells: seq<Cell>) {
    && (forall i, j :: 0 <= i < j < |cells| ==> cells[i].value < cells[j].value)
    && (forall i :: 0 <= i < |cells| ==> cells[i].ids != [])
  }

  function EntriesOf(c: Cell): (r: seq<Entry>)
    ensures |r| == |c.ids|
  {
    seq(|c.ids|, i requires 0 <= i < |c.ids| => Entry(c.value, c.ids[i]))
  }

  /** Everything stored, in value order. */
  function Flat(cells: seq<Cell>): seq<Entry> {
    if |cells| == 0 then [] else Flat(cells[..|cells| - 1]) + EntriesOf(cells[|cells| - 1])
  }

  /** How many entries satisfy `p`. */
  function Count(s: seq<Entry>, p: Entry -> bool): nat {
    if |s| == 0 then 0 else Count(s[..|s| - 1], p) + if p(s[|s| - 1]) then 1 else 0
  }

  lemma {:induction false} CountConcat(a: seq<Entry>, b: seq<Entry>, p: Entry -> bool)
    ensures Count(a + b, p) == Count(a, p) + Count(b, p)
  {
    if |b| == 0 {
      assert a + b == a;
    } else {
      var n := |b| - 1;
      assert (a + b)[..|a + b| - 1] == a + b[..n];
      CountConcat(a, b[..n], p);
    }
  }

  /** Counting does not depend on the order. */
  lemma {:induction false} CountOfSame(a: seq<Entry>, b: seq<Entry>, p: Entry -> bool)
    requires multiset(a) == multiset(b)
    ensures Count(a, p) == Count(b, p)
  {
    if |a| == 0 {
      assert |b| == |multiset(b)| == 0;
    } else {
      var n := |a| - 1;
      var x := a[n];
      assert a == a[..n] + [x];
      assert x in multiset(b);
      var i :| 0 <= i < |b| && b[i] == x;
      var rest := b[..i] + b[i + 1..];
      assert b == b[..i] + [x] + b[i + 1..];
      assert multiset(rest) == multiset(b) - multiset{x};
      assert multiset(a[..n]) == multiset(a) - multiset{x};
      CountOfSame(a[..n], rest, p);
      CountConcat(b[..i] + [x], b[i + 1..], p);
      CountConcat(b[..i], [x], p);
      CountConcat(b[..i], b[i + 1..], p);
      assert [x][..0] == [];
    }
  }

  lemma {:induction false} CountImplies(s: seq<Entry>, p: Entry -> bool, q: Entry -> bool)
    requires forall e :: e in s && p(e) ==> q(e)
    ensures Count(s, p) <= Count(s, q)
  {
    if |s| > 0 {
      assert s[|s| - 1] in s;
      CountImplies(s[..|s| - 1], p, q);
    }
  }

  // ---- The histogram ----

  /** Equal-width bucket of `v` within [lo, hi]; the last bucket is closed above. */
  function Bucket(lo: real, hi: real, v: real): (b: nat)
    requires lo <= v <= hi
    ensures b < BUCKETS
  {
    if hi <= lo then 0 else
    Fraction(lo, hi, v);
    Min(((v - lo) / (hi - lo) * 64.0).Floor, BUCKETS - 1)
  }

  lemma Fraction(lo: real, hi: real, v: real)
    requires lo <= v <= hi && lo < hi
    ensures 0.0 <= (v - lo) / (hi - lo) <= 1.0
  {
    Monotone(hi - lo, 0.0, v - lo);
    Monotone(hi - lo, v - lo, hi - lo);
    assert (hi - lo) / (hi - lo) == 1.0;
  }

  lemma Monotone(d: real, a: real, b: real)
    requires 0.0 < d && a <= b
    ensures a / d <= b / d
  {
  }

  lemma BucketMonotone(lo: real, hi: real, v: real, w: real)
    requires lo <= v <= w <= hi
    ensures Bucket(lo, hi, v) <= Bucket(lo, hi, w)
  {
    if lo < hi { Monotone(hi - lo, v - lo, w - lo); }
  }

  function InBucket(lo: real, hi: real, b: nat): Entry -> bool {
    (e: Entry) => lo <= e.value <= hi && Bucket(lo, hi, e.value) == b
  }

  /** Entries whose bucket lies in [a, b). */
  function InBuckets(lo: real, hi: real, a: nat, b: nat): Entry -> bool {
    (e: Entry) => lo <= e.value <= hi && a <= Bucket(lo, hi, e.value) < b
  }

  function InRange(lo: Bound, hi: Bound): Entry -> bool {
    (e: Entry) => In(e.value, lo, hi)
  }

  function Sum(h: seq<nat>, a: nat, b: nat): nat
    requires a <= b <= |h|
  {
    if a == b then 0 else Sum(h, a, b - 1) + h[b - 1]
  }

  /** Every bucket holds a recount of its entries. */
  ghost predicate Recounts(h: seq<nat>, s: seq<Entry>, lo: real, hi: real) {
    |h| == BUCKETS && forall b :: 0 <= b < BUCKETS ==> h[b] == Count(s, InBucket(lo, hi, b))
  }

  ghost predicate Within(s: seq<Entry>, lo: real, hi: real) {
    forall e :: e in s ==> lo <= e.value <= hi
  }

  lemma {:induction false} OneMoreBucket(s: seq<Entry>, lo: real, hi: real, a: nat, b: nat)
    requires a <= b
    ensures Count(s, InBuckets(lo, hi, a, b + 1)) == Count(s, InBuckets(lo, hi, a, b)) + Count(s, InBucket(lo, hi, b))
  {
    if |s| > 0 { OneMoreBucket(s[..|s| - 1], lo, hi, a, b); }
  }

  lemma {:induction false} NoBuckets(s: seq<Entry>, lo: real, hi: real, a: nat)
    ensures Count(s, InBuckets(lo, hi, a, a)) == 0
  {
    if |s| > 0 { NoBuckets(s[..|s| - 1], lo, hi, a); }
  }

  /** A run of buckets sums to the entries that fall into it. */
  lemma {:induction false} SumIsCount(h: seq<nat>, s: seq<Entry>, lo: real, hi: real, a: nat, b: nat)
    requires Recounts(h, s, lo, hi) && a <= b <= BUCKETS
    ensures Sum(h, a, b) == Count(s, InBuckets(lo, hi, a, b))
    decreases b
  {
    if a == b {
      NoBuckets(s, lo, hi, a);
    } else {
      SumIsCount(h, s, lo, hi, a, b - 1);
      OneMoreBucket(s, lo, hi, a, b - 1);
    }
  }

  lemma {:induction false} CountEverything(s: seq<Entry>, p: Entry -> bool)
    requires forall e :: e in s ==> p(e)
    ensures Count(s, p) == |s|
  {
    if |s| > 0 {
      assert s[|s| - 1] in s;
      CountEverything(s[..|s| - 1], p);
    }
  }

  lemma {:induction false} CountNothing(s: seq<Entry>, p: Entry -> bool)
    requires forall e :: e in s ==> !p(e)
    ensures Count(s, p) == 0
  {
    if |s| > 0 {
      assert s[|s| - 1] in s;
      CountNothing(s[..|s| - 1], p);
    }
  }

  /** The whole histogram sums to the number of entries. */
  lemma SumIsTotal(h: seq<nat>, s: seq<Entry>, lo: real, hi: real)
    requires Recounts(h, s, lo, hi) && Within(s, lo, hi)
    ensures Sum(h, 0, BUCKETS) == |s|
  {
    SumIsCount(h, s, lo, hi, 0, BUCKETS);
    CountEverything(s, InBuckets(lo, hi, 0, BUCKETS));
  }

  // ---- Ordered-map operations ----

  /** Position of the first cell with a value at or above `v`. */
  function Locate(cells: seq<Cell>, v: real): (i: nat)
    ensures i <= |cells|
    ensures i < |cells| ==> v <= cells[i].value
    ensures forall j :: 0 <= j < i ==> cells[j].value < v
  {
    if |cells| == 0 || v <= cells[0].value then 0 else
    assert forall j :: 0 < j < |cells| ==> cells[1..][j - 1] == cells[j];
    1 + Locate(cells[1..], v)
  }

  predicate HasValue(cells: seq<Cell>, v: real) {
    var i := Locate(cells, v); i < |cells| && cells[i].value == v
  }

  /** `entry(v).or_default().push(id)`. */
  function Added(cells: seq<Cell>, v: real, id: Id): seq<Cell> {
    var i := Locate(cells, v);
    if HasValue(cells, v) then cells[i := Cell(v, cells[i].ids + [id])]
    else cells[..i] + [Cell(v, [id])] + cells[i..]
  }

  lemma {:induction false} FlatConcat(a: seq<Cell>, b: seq<Cell>)
    ensures Flat(a + b) == Flat(a) + Flat(b)
  {
    if |b| == 0 {
      assert a + b == a;
    } else {
      var n := |b| - 1;
      assert (a + b)[..|a + b| - 1] == a + b[..n] && (a + b)[|a + b| - 1] == b[n];
      FlatConcat(a, b[..n]);
      assert Flat(b) == Flat(b[..n]) + EntriesOf(b[n]);
      assert Flat(a) + (Flat(b[..n]) + EntriesOf(b[n])) == (Flat(a) + Flat(b[..n])) + EntriesOf(b[n]);
    }
  }

  /** A list around one cell. */
  function Around(left: seq<Cell>, c: Cell, right: seq<Cell>): seq<Cell> { left + [c] + right }

  lemma FlatAround(left: seq<Cell>, c: Cell, right: seq<Cell>)
    ensures Flat(Around(left, c, right)) == Flat(left) + EntriesOf(c) + Flat(right)
  {
    FlatConcat(left + [c], right);
    FlatConcat(left, [c]);
    assert [c][..0] == [];
    assert Flat([c]) == Flat([]) + EntriesOf(c);
  }

  lemma AroundIndex(cells: seq<Cell>, i: nat, c: Cell)
    requires i < |cells|
    ensures cells == Around(cells[..i], cells[i], cells[i + 1..])
    ensures cells[i := c] == Around(cells[..i], c, cells[i + 1..])
  {
  }

  lemma AddedOrdered(cells: seq<Cell>, v: real, id: Id)
    requires Ordered(cells)
    ensures Ordered(Added(cells, v, id))
  {
  }

  lemma BagAround(left: seq<Entry>, x: seq<Entry>, right: seq<Entry>, y: seq<Entry>, e: Entry)
    requires multiset(y) == multiset(x) + multiset{e}
    ensures multiset(left + y + right) == multiset(left + x + right) + multiset{e}
  {
  }

  lemma GrownCell(left: seq<Cell>, c: Cell, d: Cell, right: seq<Cell>, e: Entry)
    requires multiset(EntriesOf(d)) == multiset(EntriesOf(c)) + multiset{e}
    ensures multiset(Flat(Around(left, d, right))) == multiset(Flat(Around(left, c, right))) + multiset{e}
  {
    FlatAround(left, c, right);
    FlatAround(left, d, right);
    BagAround(Flat(left), EntriesOf(c), Flat(right), EntriesOf(d), e);
  }

  lemma NewCell(left: seq<Cell>, right: seq<Cell>, c: Cell, e: Entry)
    requires EntriesOf(c) == [e]
    ensures multiset(Flat(Around(left, c, right))) == multiset(Flat(left + right)) + multiset{e}
  {
    FlatAround(left, c, right);
    FlatConcat(left, right);
    BagInsert(Flat(left), Flat(right), e);
  }

  lemma BagInsert(left: seq<Entry>, right: seq<Entry>, e: Entry)
    ensures multiset(left + [e] + right) == multiset(left + right) + multiset{e}
  {
  }

  lemma AddedEntries(cells: seq<Cell>, v: real, id: Id)
    ensures multiset(Flat(Added(cells, v, id))) == multiset(Flat(cells)) + multiset{Entry(v, id)}
  {
    var i := Locate(cells, v);
    if HasValue(cells, v) {
      AddedToCell(cells, i, id);
    } else {
      assert EntriesOf(Cell(v, [id])) == [Entry(v, id)];
      NewCell(cells[..i], cells[i..], Cell(v, [id]), Entry(v, id));
      Rejoined(cells, i);
    }
  }

  lemma Rejoined(cells: seq<Cell>, i: nat)
    requires i <= |cells|
    ensures cells[..i] + cells[i..] == cells
  {
  }

  lemma AddedToCell(cells: seq<Cell>, i: nat, id: Id)
    requires i < |cells|
    ensures multiset(Flat(cells[i := Cell(cells[i].value, cells[i].ids + [id])])) ==
      multiset(Flat(cells)) + multiset{Entry(cells[i].value, id)}
  {
    var c := Cell(cells[i].value, cells[i].ids + [id]);
    AroundIndex(cells, i, c);
    assert EntriesOf(c) == EntriesOf(cells[i]) + [Entry(c.value, id)];
    GrownCell(cells[..i], cells[i], c, cells[i + 1..], Entry(c.value, id));
  }

  function IndexOf(ids: seq<Id>, id: Id): (p: nat)
    ensures p <= |ids| && (p < |ids| ==> ids[p] == id) && forall q :: 0 <= q < p ==> ids[q] != id
  {
    if |ids| == 0 || ids[0] == id then 0 else
    assert forall j :: 0 < j < |ids| ==> ids[1..][j - 1] == ids[j];
    1 + IndexOf(ids[1..], id)
  }

  /** `Vec::swap_remove`. */
  function SwapRemove(ids: seq<Id>, p: nat): seq<Id>
    requires p < |ids|
  {
    ids[p := ids[|ids| - 1]][..|ids| - 1]
  }

  predicate Stored(cells: seq<Cell>, v: real, id: Id) {
    HasValue(cells, v) && id in cells[Locate(cells, v)].ids
  }

  /** The map without one copy of a stored pair; an emptied cell goes. */
  function Removed(cells: seq<Cell>, v: real, id: Id): seq<Cell>
    requires Stored(cells, v, id)
  {
    var i := Locate(cells, v);
    var ids := SwapRemove(cells[i].ids, IndexOf(cells[i].ids, id));
    if ids == [] then cells[..i] + cells[i + 1..] else cells[i := Cell(v, ids)]
  }

  lemma SwapRemoveBag(c: Cell, p: nat)
    requires p < |c.ids|
    ensures multiset(EntriesOf(Cell(c.value, SwapRemove(c.ids, p)))) + multiset{Entry(c.value, c.ids[p])}
      == multiset(EntriesOf(c))
  {
    LastFillsGap(EntriesOf(c), EntriesOf(Cell(c.value, SwapRemove(c.ids, p))), p);
  }

  lemma LastFillsGap(e: seq<Entry>, r: seq<Entry>, p: nat)
    requires p < |e| == |r| + 1
    requires forall i :: 0 <= i < |r| ==> r[i] == e[if i == p then |r| else i]
    ensures multiset(r) + multiset{e[p]} == multiset(e)
  {
    var n := |r|;
    assert e == e[..n] + [e[n]];
    if p == n {
      assert r == e[..n];
    } else {
      assert e[..n] == e[..p] + [e[p]] + e[p + 1..n];
      assert r == e[..p] + [e[n]] + e[p + 1..n];
    }
  }

  lemma RemovedOrdered(cells: seq<Cell>, v: real, id: Id)
    requires Ordered(cells) && Stored(cells, v, id)
    ensures Ordered(Removed(cells, v, id))
  {
  }

  lemma RemovedEntries(cells: seq<Cell>, v: real, id: Id)
    requires Stored(cells, v, id)
    ensures multiset(Flat(Removed(cells, v, id))) + multiset{Entry(v, id)} == multiset(Flat(cells))
  {
    var i := Locate(cells, v);
    var p := IndexOf(cells[i].ids, id);
    var c := Cell(v, SwapRemove(cells[i].ids, p));
    SwapRemoveBag(cells[i], p);
    AroundIndex(cells, i, c);
    if c.ids == [] {
      OneEntry(cells[i], id);
      NewCell(cells[..i], cells[i + 1..], cells[i], Entry(v, id));
    } else {
      GrownCell(cells[..i], c, cells[i], cells[i + 1..], Entry(v, id));
    }
  }

  lemma OneEntry(c: Cell, id: Id)
    requires |c.ids| == 1 && id in c.ids
    ensures EntriesOf(c) == [Entry(c.value, id)]
  {
  }

  lemma {:induction false} FlatValues(cells: seq<Cell>, e: Entry)
    ensures e in Flat(cells) <==> exists i :: 0 <= i < |cells| && cells[i].value == e.value && e.id in cells[i].ids
  {
    if |cells| > 0 {
      var n := |cells| - 1;
      FlatValues(cells[..n], e);
      InCell(cells[n], e);
      if i :| 0 <= i < |cells| && cells[i].value == e.value && e.id in cells[i].ids && i < n {
        assert cells[..n][i] == cells[i];
      }
      if e in Flat(cells[..n]) {
        var i :| 0 <= i < n && cells[..n][i].value == e.value && e.id in cells[..n][i].ids;
        assert cells[i] == cells[..n][i];
      }
    }
  }

  lemma InCell(c: Cell, e: Entry)
    ensures e in EntriesOf(c) <==> c.value == e.value && e.id in c.ids
  {
    if c.value == e.value && e.id in c.ids {
      var i :| 0 <= i < |c.ids| && c.ids[i] == e.id;
      assert EntriesOf(c)[i] == e;
    }
  }

  /** Lookup by value, then by id, finds exactly the stored pairs. */
  lemma StoredIsMember(cells: seq<Cell>, v: real, id: Id)
    requires Ordered(cells)
    ensures Stored(cells, v, id) <==> Entry(v, id) in Flat(cells)
  {
    FlatValues(cells, Entry(v, id));
    if i :| 0 <= i < |cells| && cells[i].value == v && id in cells[i].ids {
      var k := Locate(cells, v);
      assert !(i < k);
      assert !(k < i);
    }
  }

  // ---- Counting ----

  lemma {:induction false} CountCell(c: Cell, p: Entry -> bool, q: bool)
    requires forall id :: p(Entry(c.value, id)) == q
    ensures Count(EntriesOf(c), p) == if q then |c.ids| else 0
  {
    if q {
      CountEverything(EntriesOf(c), p);
    } else {
      CountNothing(EntriesOf(c), p);
    }
  }

  /** The histogram counts after one more entry, one less entry, or one more whole cell. */
  lemma CountBag(s: seq<Entry>, t: seq<Entry>, e: Entry, p: Entry -> bool)
    requires multiset(t) == multiset(s) + multiset{e}
    ensures Count(t, p) == Count(s, p) + if p(e) then 1 else 0
  {
    CountOfSame(t, s + [e], p);
    assert (s + [e])[..|s|] == s;
  }

  lemma RecountsAdded(h: seq<nat>, s: seq<Entry>, t: seq<Entry>, e: Entry, lo: real, hi: real)
    requires Recounts(h, s, lo, hi) && multiset(t) == multiset(s) + multiset{e} && lo <= e.value <= hi
    ensures var b := Bucket(lo, hi, e.value); Recounts(h[b := h[b] + 1], t, lo, hi)
    ensures Within(s, lo, hi) ==> Within(t, lo, hi)
  {
    forall b | 0 <= b < BUCKETS
      ensures Count(t, InBucket(lo, hi, b)) == h[b] + if b == Bucket(lo, hi, e.value) then 1 else 0
    {
      CountBag(s, t, e, InBucket(lo, hi, b));
    }
    assert forall x :: x in t ==> x in multiset(t);
  }

  lemma RecountsRemoved(h: seq<nat>, s: seq<Entry>, t: seq<Entry>, e: Entry, lo: real, hi: real)
    requires Recounts(h, s, lo, hi) && multiset(s) == multiset(t) + multiset{e} && lo <= e.value <= hi
    ensures var b := Bucket(lo, hi, e.value); h[b] > 0 && Recounts(h[b := h[b] - 1], t, lo, hi)
    ensures Within(s, lo, hi) ==> Within(t, lo, hi)
  {
    forall b | 0 <= b < BUCKETS
      ensures h[b] == Count(t, InBucket(lo, hi, b)) + if b == Bucket(lo, hi, e.value) then 1 else 0
    {
      CountBag(t, s, e, InBucket(lo, hi, b));
    }
    assert forall x :: x in t ==> x in multiset(t) && x in multiset(s);
  }

  lemma RecountsCell(h: seq<nat>, cells: seq<Cell>, i: nat, lo: real, hi: real)
    requires i < |cells| && Recounts(h, Flat(cells[..i]), lo, hi) && lo <= cells[i].value <= hi
    ensures var b := Bucket(lo, hi, cells[i].value);
      Recounts(h[b := h[b] + |cells[i].ids|], Flat(cells[..i + 1]), lo, hi)
  {
    assert cells[..i + 1][..i] == cells[..i];
    forall b | 0 <= b < BUCKETS
      ensures Count(Flat(cells[..i + 1]), InBucket(lo, hi, b)) ==
        h[b] + if b == Bucket(lo, hi, cells[i].value) then |cells[i].ids| else 0
    {
      CountConcat(Flat(cells[..i]), EntriesOf(cells[i]), InBucket(lo, hi, b));
      CountCell(cells[i], InBucket(lo, hi, b), b == Bucket(lo, hi, cells[i].value));
    }
  }

  // ---- Enumeration ----

  /** The ids in range among the first `i` cells. */
  ghost function UpTo(cells: seq<Cell>, i: nat, lo: Bound, hi: Bound): seq<Id>
    requires i <= |cells|
  {
    Matching(Flat(cells[..i]), lo, hi)
  }

  /** The ids in range, in value order. */
  function Matching(s: seq<Entry>, lo: Bound, hi: Bound): (r: seq<Id>)
  {
    if |s| == 0 then []
    else Matching(s[..|s| - 1], lo, hi) + if In(s[|s| - 1].value, lo, hi) then [s[|s| - 1].id] else []
  }

  lemma {:induction false} MatchingCounts(s: seq<Entry>, lo: Bound, hi: Bound)
    ensures |Matching(s, lo, hi)| == Count(s, InRange(lo, hi))
  {
    if |s| > 0 { MatchingCounts(s[..|s| - 1], lo, hi); }
  }

  /** Enumeration misses nothing and makes nothing up. */
  lemma {:induction false} MatchingMembers(s: seq<Entry>, lo: Bound, hi: Bound, id: Id)
    ensures id in Matching(s, lo, hi) <==> exists e :: e in s && e.id == id && In(e.value, lo, hi)
  {
    if |s| > 0 {
      var n := |s| - 1;
      MatchingMembers(s[..n], lo, hi, id);
      assert forall e :: e in s <==> e in s[..n] || e == s[n];
    }
  }

  lemma {:induction false} MatchingConcat(a: seq<Entry>, b: seq<Entry>, lo: Bound, hi: Bound)
    ensures Matching(a + b, lo, hi) == Matching(a, lo, hi) + Matching(b, lo, hi)
  {
    if |b| == 0 {
      assert a + b == a;
    } else {
      var n := |b| - 1;
      assert (a + b)[..|a + b| - 1] == a + b[..n];
      MatchingConcat(a, b[..n], lo, hi);
    }
  }

  lemma {:induction false} MatchingCell(c: Cell, k: nat, lo: Bound, hi: Bound)
    requires k <= |c.ids|
    ensures Matching(EntriesOf(c)[..k], lo, hi) == if In(c.value, lo, hi) then c.ids[..k] else []
  {
    if k > 0 {
      MatchingCell(c, k - 1, lo, hi);
      assert EntriesOf(c)[..k][..k - 1] == EntriesOf(c)[..k - 1];
    }
  }

  lemma MatchingNext(cells: seq<Cell>, i: nat, lo: Bound, hi: Bound)
    requires i < |cells|
    ensures Matching(Flat(cells[..i + 1]), lo, hi) ==
      Matching(Flat(cells[..i]), lo, hi) + if In(cells[i].value, lo, hi) then cells[i].ids else []
  {
    assert cells[..i + 1][..i] == cells[..i];
    MatchingConcat(Flat(cells[..i]), EntriesOf(cells[i]), lo, hi);
    MatchingCell(cells[i], |cells[i].ids|, lo, hi);
    assert EntriesOf(cells[i])[..|cells[i].ids|] == EntriesOf(cells[i]);
  }

  lemma {:induction false} MatchingRest(cells: seq<Cell>, i: nat, lo: Bound, hi: Bound)
    requires i <= |cells| && forall j :: i <= j < |cells| ==> !In(cells[j].value, lo, hi)
    ensures Matching(Flat(cells), lo, hi) == UpTo(cells, i, lo, hi)
    decreases |cells| - i
  {
    if i < |cells| {
      MatchingNext(cells, i, lo, hi);
      MatchingRest(cells, i + 1, lo, hi);
    } else {
      assert cells[..i] == cells;
    }
  }

  lemma {:induction false} MatchingSkipped(cells: seq<Cell>, i: nat, lo: Bound, hi: Bound)
    requires i <= |cells| && forall j :: 0 <= j < i ==> !In(cells[j].value, lo, hi)
    ensures Matching(Flat(cells[..i]), lo, hi) == []
  {
    if i > 0 {
      MatchingSkipped(cells, i - 1, lo, hi);
      MatchingNext(cells, i - 1, lo, hi);
    }
  }

  // ---- The index ----

  class NumericFieldIndex {
    var sorted: seq<Cell>
    var total: nat
    var lo: Bound
    var hi: Bound
    var hist: seq<nat>

    ghost predicate Valid()
      reads this
    {
      && Ordered(sorted) && total == |Flat(sorted)| && |hist| == BUCKETS
      && (if lo.Fin? then RangeOk() else lo.PosInf? && hi.NegInf? && sorted == [])
    }

    /** The endpoints cover every value, and each bucket is a recount. */
    ghost predicate RangeOk()
      reads this
    {
      && lo.Fin? && hi.Fin? && lo.r < hi.r && |hist| == BUCKETS
      && Within(Flat(sorted), lo.r, hi.r) && Recounts(hist, Flat(sorted), lo.r, hi.r)
    }

    /** The abstract contents: which id carries which value. */
    ghost function Entries(): multiset<Entry>
      reads this
    {
      multiset(Flat(sorted))
    }

    constructor ()
      ensures Valid() && Entries() == multiset{}
    {
      sorted, total, lo, hi, hist := [], 0, PosInf, NegInf, seq(BUCKETS, _ => 0);
    }

    method Insert(v: real, id: Id)
      requires Valid()
      modifies this
      ensures Valid() && Entries() == old(Entries()) + multiset{Entry(v, id)}
    {
      ghost var before := Flat(sorted);
      Put(v, id);
      if !Le(lo, Fin(v)) || !Le(Fin(v), hi) {
        Widen(v);
        AddedWithin(before, Flat(sorted), Entry(v, id), lo.r, hi.r);
        RebuildHist();
      } else {
        Bump(v, id, before);
      }
    }

    method Put(v: real, id: Id)
      requires Ordered(sorted) && total == |Flat(sorted)|
      modifies this`sorted, this`total
      ensures Ordered(sorted) && total == |Flat(sorted)| && sorted != []
      ensures Entries() == old(Entries()) + multiset{Entry(v, id)}
    {
      AddedOrdered(sorted, v, id);
      AddedEntries(sorted, v, id);
      assert |Flat(Added(sorted, v, id))| == |multiset(Flat(sorted)) + multiset{Entry(v, id)}|;
      sorted := Added(sorted, v, id);
      total := total + 1;
    }

    method Bump(v: real, id: Id, ghost before: seq<Entry>)
      requires lo.Fin? && hi.Fin? && lo.r < hi.r && lo.r <= v <= hi.r
      requires Recounts(hist, before, lo.r, hi.r) && Within(before, lo.r, hi.r)
      requires multiset(Flat(sorted)) == multiset(before) + multiset{Entry(v, id)}
      modifies this`hist
      ensures RangeOk()
    {
      var b := Bucket(lo.r, hi.r, v);
      RecountsAdded(hist, before, Flat(sorted), Entry(v, id), lo.r, hi.r);
      hist := hist[b := hist[b] + 1];
    }

    /** Overshoots by an eighth of the span, so that a monotone stream does not rebuild every time. */
    method Widen(v: real)
      requires lo.Fin? ==> hi.Fin? && lo.r < hi.r
      requires !lo.Fin? ==> lo.PosInf? && hi.NegInf?
      modifies this`lo, this`hi
      ensures lo.Fin? && hi.Fin? && lo.r < v < hi.r
      ensures old(lo).Fin? ==> lo.r <= old(lo).r && old(hi).r <= hi.r
    {
      var least := Larger(Larger(v, -v), 1.0) * 0.01;
      if lo.Fin? {
        var span := Larger(hi.r - lo.r, least);
        lo, hi := Fin(Smaller(lo.r, v - span * 0.125)), Fin(Larger(hi.r, v + span * 0.125));
      } else {
        lo, hi := Fin(v - least * 0.125), Fin(v + least * 0.125);
      }
    }

    method RebuildHist()
      requires Ordered(sorted) && lo.Fin? && hi.Fin? && lo.r < hi.r && Within(Flat(sorted), lo.r, hi.r)
      modifies this`hist
      ensures Recounts(hist, Flat(sorted), lo.r, hi.r)
    {
      hist := seq(BUCKETS, _ => 0);
      for i := 0 to |sorted|
        invariant Recounts(hist, Flat(sorted[..i]), lo.r, hi.r)
      {
        ValueWithin(sorted, i, lo.r, hi.r);
        RecountsCell(hist, sorted, i, lo.r, hi.r);
        var b := Bucket(lo.r, hi.r, sorted[i].value);
        hist := hist[b := hist[b] + |sorted[i].ids|];
      }
      assert sorted[..|sorted|] == sorted;
    }

    /** Drops one copy of the pair; a no-op when it is not stored. The range never shrinks. */
    method Remove(v: real, id: Id)
      requires Valid()
      modifies this
      ensures Valid() && Entries() == old(Entries()) - multiset{Entry(v, id)}
    {
      StoredIsMember(sorted, v, id);
      assert Entry(v, id) in Flat(sorted) <==> Entry(v, id) in multiset(Flat(sorted));
      if Stored(sorted, v, id) {
        ghost var before := Flat(sorted);
        TakeOut(v, id);
        Drop(v, id, before);
      }
    }

    method TakeOut(v: real, id: Id)
      requires Ordered(sorted) && total == |Flat(sorted)| && Stored(sorted, v, id)
      modifies this`sorted, this`total
      ensures Ordered(sorted) && total == |Flat(sorted)|
      ensures Entries() + multiset{Entry(v, id)} == old(Entries())
    {
      RemovedOrdered(sorted, v, id);
      RemovedEntries(sorted, v, id);
      assert |multiset(Flat(Removed(sorted, v, id))) + multiset{Entry(v, id)}| == |multiset(Flat(sorted))|;
      sorted := Removed(sorted, v, id);
      total := total - 1;
    }

    method Drop(v: real, id: Id, ghost before: seq<Entry>)
      requires lo.Fin? && hi.Fin? && lo.r < hi.r && Entry(v, id) in before
      requires Recounts(hist, before, lo.r, hi.r) && Within(before, lo.r, hi.r)
      requires multiset(before) == multiset(Flat(sorted)) + multiset{Entry(v, id)}
      modifies this`hist
      ensures RangeOk()
    {
      var b := Bucket(lo.r, hi.r, v);
      RecountsRemoved(hist, before, Flat(sorted), Entry(v, id), lo.r, hi.r);
      hist := hist[b := if hist[b] > 0 then hist[b] - 1 else 0];
    }

    /** An interval that brackets the number of entries in [qlo, qhi], off by the two edge buckets at most. */
    method Estimate(qlo: Bound, qhi: Bound) returns (lower: nat, upper: nat)
      requires Valid() && Le(qlo, qhi)
      ensures lower <= Count(Flat(sorted), InRange(qlo, qhi)) <= upper
      ensures total == 0 || !Le(lo, qhi) || !Le(qlo, hi) ==> lower == upper == 0
      ensures total > 0 && Le(lo, qhi) && Le(qlo, hi) ==>
        && Count(Flat(sorted), WellInside(lo.r, hi.r, qlo, qhi)) <= lower
        && upper <= Count(Flat(sorted), NearlyInside(lo.r, hi.r, qlo, qhi))
    {
      if total == 0 || !Le(lo, qhi) || !Le(qlo, hi) {
        OutOfRange(Flat(sorted), lo, hi, qlo, qhi);
        return 0, 0;
      }
      lower, upper := Bracket(qlo, qhi);
    }

    /** The part of it about a range that meets the span of the buckets. */
    method Bracket(qlo: Bound, qhi: Bound) returns (lower: nat, upper: nat)
      requires RangeOk() && Le(qlo, qhi) && Le(lo, qhi) && Le(qlo, hi)
      ensures Fits(Flat(sorted), lo.r, hi.r, qlo, qhi, lower, upper)
    {
      hide Fits, Within, Recounts, Flat, Bucket;
      var from := if Le(qlo, lo) then lo.r else qlo.r;
      var to := if Le(hi, qhi) then hi.r else qhi.r;
      var first, last := Bucket(lo.r, hi.r, from), Bucket(lo.r, hi.r, to);
      Bracketed(Flat(sorted), hist, lo.r, hi.r, qlo, qhi, from, to);
      lower, upper := Between(hist, first, last);
    }

    /** The buckets strictly between two, and the two besides. */
    static method Between(hist: seq<nat>, first: nat, last: nat) returns (lower: nat, upper: nat)
      requires first <= last < |hist|
      ensures first == last ==> lower == 0 && upper == hist[first]
      ensures first < last ==> lower == Sum(hist, first + 1, last) && upper == lower + hist[first] + hist[last]
    {
      if first == last { return 0, hist[first]; }
      lower := 0;
      for b := first + 1 to last
        invariant lower == Sum(hist, first + 1, b)
      {
        lower := lower + hist[b];
      }
      upper := lower + hist[first] + hist[last];
    }

    /** A real count up to `limit`: the exact ids in range, or nothing when there are more. */
    method EnumerateUpTo(qlo: Bound, qhi: Bound, limit: nat) returns (r: Option<seq<Id>>)
      requires Valid() && Le(qlo, qhi)
      ensures r.Some? <==> Count(Flat(sorted), InRange(qlo, qhi)) <= limit
      ensures r.Some? ==> r.value == Matching(Flat(sorted), qlo, qhi)
    {
      var i := 0;
      while i < |sorted| && !Le(qlo, Fin(sorted[i].value))
        invariant 0 <= i <= |sorted|
        invariant forall j :: 0 <= j < i ==> !Le(qlo, Fin(sorted[j].value))
      {
        i := i + 1;
      }
      MatchingSkipped(sorted, i, qlo, qhi);
      MatchingCounts(Flat(sorted), qlo, qhi);
      r := Gather(i, qlo, qhi, limit);
    }

    /** The walk over the cells in range, from the first one on. */
    method Gather(start: nat, qlo: Bound, qhi: Bound, limit: nat) returns (r: Option<seq<Id>>)
      requires Ordered(sorted) && start <= |sorted| && UpTo(sorted, start, qlo, qhi) == []
      requires start < |sorted| ==> Le(qlo, Fin(sorted[start].value))
      ensures r.Some? <==> |Matching(Flat(sorted), qlo, qhi)| <= limit
      ensures r.Some? ==> r.value == Matching(Flat(sorted), qlo, qhi)
    {
      var out: seq<Id> := [];
      var i := start;
      while i < |sorted| && Le(Fin(sorted[i].value), qhi)
        invariant start <= i <= |sorted| && out == UpTo(sorted, i, qlo, qhi) && |out| <= limit
      {
        InnerCell(sorted, start, i, qlo, qhi);
        out := out + sorted[i].ids;
        i := i + 1;
        if |out| > limit { break; }
      }
      if |out| > limit {
        MatchingGrows(sorted, i, qlo, qhi);
        return None;
      }
      PastEnd(sorted, i, qlo, qhi);
      MatchingRest(sorted, i, qlo, qhi);
      r := Some(out);
    }

    /** The unbounded form, for the exact fallback. */
    method EnumerateAll(qlo: Bound, qhi: Bound) returns (out: seq<Id>)
      requires Valid() && Le(qlo, qhi)
      ensures out == Matching(Flat(sorted), qlo, qhi)
    {
      out := [];
      for i := 0 to |sorted|
        invariant out == Matching(Flat(sorted[..i]), qlo, qhi)
      {
        MatchingNext(sorted, i, qlo, qhi);
        if In(sorted[i].value, qlo, qhi) { out := out + sorted[i].ids; }
      }
      assert sorted[..|sorted|] == sorted;
    }

    /** The histogram never drifts: its sum is the number of entries. */
    lemma HistogramIsTotal()
      requires Valid() && lo.Fin?
      ensures Sum(hist, 0, BUCKETS) == total == |Entries()|
    {
      SumIsTotal(hist, Flat(sorted), lo.r, hi.r);
    }
  }

  lemma FromStart(cells: seq<Cell>, start: nat, i: nat, lo: Bound, hi: Bound)
    requires Ordered(cells) && start <= i < |cells| && Le(lo, Fin(cells[start].value)) && Le(Fin(cells[i].value), hi)
    ensures In(cells[i].value, lo, hi)
  {
    assert start < i ==> cells[start].value < cells[i].value;
  }

  lemma InnerCell(cells: seq<Cell>, start: nat, i: nat, lo: Bound, hi: Bound)
    requires Ordered(cells) && start <= i < |cells| && Le(lo, Fin(cells[start].value)) && Le(Fin(cells[i].value), hi)
    ensures UpTo(cells, i + 1, lo, hi) == UpTo(cells, i, lo, hi) + cells[i].ids
  {
    FromStart(cells, start, i, lo, hi);
    MatchingNext(cells, i, lo, hi);
  }

  lemma PastEnd(cells: seq<Cell>, i: nat, lo: Bound, hi: Bound)
    requires Ordered(cells) && i <= |cells| && (i < |cells| ==> !Le(Fin(cells[i].value), hi))
    ensures forall j :: i <= j < |cells| ==> !In(cells[j].value, lo, hi)
  {
    forall j | i <= j < |cells| ensures !In(cells[j].value, lo, hi) {
      assert i < j ==> cells[i].value < cells[j].value;
    }
  }

  lemma AddedWithin(s: seq<Entry>, t: seq<Entry>, e: Entry, lo: real, hi: real)
    requires multiset(t) == multiset(s) + multiset{e} && Within(s, lo, hi) && lo <= e.value <= hi
    ensures Within(t, lo, hi)
  {
    assert forall x :: x in t ==> x in multiset(t);
  }

  function Larger(a: real, b: real): real { if a < b then b else a }

  function Smaller(a: real, b: real): real { if a < b then a else b }

  lemma ValueWithin(cells: seq<Cell>, i: nat, lo: real, hi: real)
    requires Ordered(cells) && i < |cells| && Within(Flat(cells), lo, hi)
    ensures lo <= cells[i].value <= hi
  {
    FlatValues(cells, Entry(cells[i].value, cells[i].ids[0]));
  }

  lemma OutOfRange(s: seq<Entry>, lo: Bound, hi: Bound, qlo: Bound, qhi: Bound)
    requires s == [] || (lo.Fin? && hi.Fin? && Within(s, lo.r, hi.r) && (!Le(lo, qhi) || !Le(qlo, hi)))
    ensures Count(s, InRange(qlo, qhi)) == 0
  {
    CountNothing(s, InRange(qlo, qhi));
  }

  /** Inner buckets lie wholly in the range, and nothing in the range lies outside the outer ones. */
  lemma Brackets(s: seq<Entry>, h: seq<nat>, lo: real, hi: real, qlo: Bound, qhi: Bound, from: real, to: real)
    requires Within(s, lo, hi) && Recounts(h, s, lo, hi) && lo <= from <= to <= hi
    requires forall v :: lo <= v <= hi ==> (In(v, qlo, qhi) <==> from <= v <= to)
    ensures var a, b, n := Bucket(lo, hi, from), Bucket(lo, hi, to), Count(s, InRange(qlo, qhi));
      && a <= b && (a == b ==> n <= h[a])
      && (a < b ==> Sum(h, a + 1, b) <= n <= Sum(h, a + 1, b) + h[a] + h[b])
  {
    var a, b := Bucket(lo, hi, from), Bucket(lo, hi, to);
    BucketMonotone(lo, hi, from, to);
    Outer(s, lo, hi, qlo, qhi, from, to);
    SumIsCount(h, s, lo, hi, a, b + 1);
    if a < b {
      Inner(s, lo, hi, qlo, qhi, from, to);
      SumIsCount(h, s, lo, hi, a + 1, b);
      SumEnds(h, a, b);
    } else {
      assert Sum(h, a, a) == 0;
    }
  }

  /** The same with the query clipped to the span of the buckets. */
  lemma Clipped(s: seq<Entry>, h: seq<nat>, lo: real, hi: real, qlo: Bound, qhi: Bound, from: real, to: real)
    requires Within(s, lo, hi) && Recounts(h, s, lo, hi) && Le(qlo, qhi) && Le(Fin(lo), qhi) && Le(qlo, Fin(hi))
      && lo <= hi
    requires from == (if Le(qlo, Fin(lo)) then lo else qlo.r) && to == (if Le(Fin(hi), qhi) then hi else qhi.r)
    ensures lo <= from <= to <= hi
    ensures var a, b, n := Bucket(lo, hi, from), Bucket(lo, hi, to), Count(s, InRange(qlo, qhi));
      && a <= b < |h| && (a == b ==> n <= h[a])
      && (a < b ==> Sum(h, a + 1, b) <= n <= Sum(h, a + 1, b) + h[a] + h[b])
  {
    BucketMonotone(lo, hi, from, to);
    Brackets(s, h, lo, hi, qlo, qhi, from, to);
  }

  /** The width of a bucket. */
  function Step(lo: real, hi: real): real { (hi - lo) / 64.0 }

  /** Entries more than a bucket's width inside both the range and the span of the buckets. */
  function WellInside(lo: real, hi: real, qlo: Bound, qhi: Bound): Entry -> bool {
    (e: Entry) =>
      var v, w := e.value, Step(lo, hi);
      lo < v - w && !Le(Fin(v - w), qlo) && v + w < hi && !Le(qhi, Fin(v + w))
  }

  /** Entries at most a bucket's width outside the range. */
  function NearlyInside(lo: real, hi: real, qlo: Bound, qhi: Bound): Entry -> bool {
    (e: Entry) => var v, w := e.value, Step(lo, hi); Le(qlo, Fin(v + w)) && Le(Fin(v - w), qhi)
  }

  /** `b` bucket widths above the low end. */
  function Edge(lo: real, hi: real, b: int): real { lo + Times(b as real, Step(lo, hi)) }

  function Times(a: real, b: real): real { a * b }

  /** Bucket `b` is the stretch from `b` to `b + 1` widths above the low end. */
  lemma BucketSpan(lo: real, hi: real, v: real)
    requires lo <= v <= hi && lo < hi
    ensures var b := Bucket(lo, hi, v);
      Edge(lo, hi, b) <= v <= Edge(lo, hi, b + 1) && (b + 1 < BUCKETS ==> v < Edge(lo, hi, b + 1))
  {
    var w, b := Step(lo, hi), Bucket(lo, hi, v);
    var x := (v - lo) / (hi - lo) * 64.0;
    Fraction(lo, hi, v);
    Unscale(v - lo, hi - lo, w);
    hide Times;
    Scale(b as real, x, w);
    Scale(x, (b + 1) as real, w);
    if b + 1 < BUCKETS { ScaleStrictly(x, (b + 1) as real, w); }
  }

  lemma Unscale(a: real, d: real, w: real)
    requires d > 0.0 && w == d / 64.0
    ensures Times(a / d * 64.0, w) == a
  {
    var q := a / d;
    assert q * d == a;
    assert q * 64.0 * w == q * (64.0 * w);
  }

  lemma Scale(a: real, b: real, w: real)
    requires a <= b && w > 0.0
    ensures Times(a, w) <= Times(b, w)
  {
  }

  lemma ScaleStrictly(a: real, b: real, w: real)
    requires a < b && w > 0.0
    ensures Times(a, w) < Times(b, w)
  {
  }

  lemma EdgeNext(lo: real, hi: real, b: int)
    ensures Edge(lo, hi, b + 1) == Edge(lo, hi, b) + Step(lo, hi)
  {
    NextTimes(b as real, Step(lo, hi));
  }

  lemma NextTimes(a: real, w: real)
    ensures Times(a + 1.0, w) == Times(a, w) + w
  {
  }

  lemma EdgesGrow(lo: real, hi: real, a: int, b: int)
    requires a <= b && lo < hi
    ensures Edge(lo, hi, a) <= Edge(lo, hi, b)
  {
    Scale(a as real, b as real, Step(lo, hi));
  }

  /** More than a width above `from` is a later bucket; a bucket not before it is no more than a width below. */
  lemma Apart(lo: real, hi: real, from: real, v: real)
    requires lo < hi && lo <= from <= hi && lo <= v <= hi
    ensures v > from + Step(lo, hi) ==> Bucket(lo, hi, from) < Bucket(lo, hi, v)
    ensures Bucket(lo, hi, from) <= Bucket(lo, hi, v) ==> from - Step(lo, hi) <= v
  {
    hide Bucket, Edge, Step;
    var a, b := Bucket(lo, hi, from), Bucket(lo, hi, v);
    BucketSpan(lo, hi, from);
    BucketSpan(lo, hi, v);
    EdgeNext(lo, hi, a);
    EdgeNext(lo, hi, b);
    if b <= a { EdgesGrow(lo, hi, b + 1, a + 1); } else { EdgesGrow(lo, hi, a, b); }
    if a == b { EdgesGrow(lo, hi, a, b); }
  }

  /** The two edge buckets are all the estimate is off by. */
  lemma Tight(s: seq<Entry>, h: seq<nat>, lo: real, hi: real, qlo: Bound, qhi: Bound, from: real, to: real)
    requires Within(s, lo, hi) && Recounts(h, s, lo, hi) && lo < hi && lo <= from <= to <= hi
    requires Le(qlo, qhi) && Le(Fin(lo), qhi) && Le(qlo, Fin(hi))
    requires from == (if Le(qlo, Fin(lo)) then lo else qlo.r) && to == (if Le(Fin(hi), qhi) then hi else qhi.r)
    ensures var a, b := Bucket(lo, hi, from), Bucket(lo, hi, to);
      && a <= b < |h|
      && (a < b ==> Count(s, WellInside(lo, hi, qlo, qhi)) <= Sum(h, a + 1, b))
      && (a < b ==> Sum(h, a + 1, b) + h[a] + h[b] <= Count(s, NearlyInside(lo, hi, qlo, qhi)))
      && (a == b ==> Count(s, WellInside(lo, hi, qlo, qhi)) == 0 && h[a] <= Count(s, NearlyInside(lo, hi, qlo, qhi)))
  {
    var a, b := Bucket(lo, hi, from), Bucket(lo, hi, to);
    BucketMonotone(lo, hi, from, to);
    Deep(s, lo, hi, qlo, qhi, from, to);
    Wide(s, lo, hi, qlo, qhi, from, to);
    SumIsCount(h, s, lo, hi, a, b + 1);
    if a < b {
      SumIsCount(h, s, lo, hi, a + 1, b);
      SumEnds(h, a, b);
    } else {
      assert Sum(h, a, a) == 0;
    }
  }

  /** The interval holds the count in the range, and is off by the edge buckets at most. */
  ghost predicate Fits(s: seq<Entry>, lo: real, hi: real, qlo: Bound, qhi: Bound, lower: nat, upper: nat) {
    && lower <= Count(s, InRange(qlo, qhi)) <= upper
    && Count(s, WellInside(lo, hi, qlo, qhi)) <= lower && upper <= Count(s, NearlyInside(lo, hi, qlo, qhi))
  }

  lemma Bracketed(s: seq<Entry>, h: seq<nat>, lo: real, hi: real, qlo: Bound, qhi: Bound, from: real, to: real)
    requires Within(s, lo, hi) && Recounts(h, s, lo, hi) && lo < hi
    requires Le(qlo, qhi) && Le(Fin(lo), qhi) && Le(qlo, Fin(hi))
    requires from == (if Le(qlo, Fin(lo)) then lo else qlo.r) && to == (if Le(Fin(hi), qhi) then hi else qhi.r)
    ensures lo <= from <= to <= hi
    ensures var a, b := Bucket(lo, hi, from), Bucket(lo, hi, to);
      && a <= b < |h| && (a == b ==> Fits(s, lo, hi, qlo, qhi, 0, h[a]))
      && (a < b ==> Fits(s, lo, hi, qlo, qhi, Sum(h, a + 1, b), Sum(h, a + 1, b) + h[a] + h[b]))
  {
    hide Count, Within, Recounts, Bucket, Sum, WellInside, NearlyInside, InRange;
    Clipped(s, h, lo, hi, qlo, qhi, from, to);
    Tight(s, h, lo, hi, qlo, qhi, from, to);
  }

  lemma Deep(s: seq<Entry>, lo: real, hi: real, qlo: Bound, qhi: Bound, from: real, to: real)
    requires Within(s, lo, hi) && lo < hi && lo <= from <= to <= hi
    requires Le(qlo, qhi) && Le(Fin(lo), qhi) && Le(qlo, Fin(hi))
    requires from == (if Le(qlo, Fin(lo)) then lo else qlo.r) && to == (if Le(Fin(hi), qhi) then hi else qhi.r)
    ensures var a, b := Bucket(lo, hi, from), Bucket(lo, hi, to);
      && (a == b ==> Count(s, WellInside(lo, hi, qlo, qhi)) == 0)
      && (a < b ==> Count(s, WellInside(lo, hi, qlo, qhi)) <= Count(s, InBuckets(lo, hi, a + 1, b)))
  {
    hide Bucket, Step;
    var a, b := Bucket(lo, hi, from), Bucket(lo, hi, to);
    forall e | e in s && WellInside(lo, hi, qlo, qhi)(e) ensures a < Bucket(lo, hi, e.value) < b {
      Apart(lo, hi, from, e.value);
      Apart(lo, hi, e.value, to);
    }
    if a == b {
      CountNothing(s, WellInside(lo, hi, qlo, qhi));
    } else {
      CountImplies(s, WellInside(lo, hi, qlo, qhi), InBuckets(lo, hi, a + 1, b));
    }
  }

  lemma Wide(s: seq<Entry>, lo: real, hi: real, qlo: Bound, qhi: Bound, from: real, to: real)
    requires Within(s, lo, hi) && lo < hi && lo <= from <= to <= hi
    requires Le(qlo, qhi) && Le(Fin(lo), qhi) && Le(qlo, Fin(hi))
    requires from == (if Le(qlo, Fin(lo)) then lo else qlo.r) && to == (if Le(Fin(hi), qhi) then hi else qhi.r)
    ensures var a, b := Bucket(lo, hi, from), Bucket(lo, hi, to);
      Count(s, InBuckets(lo, hi, a, b + 1)) <= Count(s, NearlyInside(lo, hi, qlo, qhi))
  {
    hide Bucket, Step;
    var a, b := Bucket(lo, hi, from), Bucket(lo, hi, to);
    forall e | e in s && InBuckets(lo, hi, a, b + 1)(e) ensures NearlyInside(lo, hi, qlo, qhi)(e) {
      Apart(lo, hi, from, e.value);
      Apart(lo, hi, e.value, to);
    }
    CountImplies(s, InBuckets(lo, hi, a, b + 1), NearlyInside(lo, hi, qlo, qhi));
  }

  lemma {:induction false} SumEnds(h: seq<nat>, a: nat, b: nat)
    requires a < b < |h|
    ensures Sum(h, a, b + 1) == h[a] + Sum(h, a + 1, b) + h[b]
    decreases b
  {
    if a + 1 < b {
      SumEnds(h, a, b - 1);
    } else {
      assert Sum(h, a, a + 1) == Sum(h, a, a) + h[a];
    }
  }

  lemma Outer(s: seq<Entry>, lo: real, hi: real, qlo: Bound, qhi: Bound, from: real, to: real)
    requires Within(s, lo, hi) && lo <= from <= to <= hi
    requires forall v :: lo <= v <= hi ==> (In(v, qlo, qhi) <==> from <= v <= to)
    ensures Count(s, InRange(qlo, qhi)) <= Count(s, InBuckets(lo, hi, Bucket(lo, hi, from), Bucket(lo, hi, to) + 1))
  {
    forall e | e in s && In(e.value, qlo, qhi)
      ensures Bucket(lo, hi, from) <= Bucket(lo, hi, e.value) <= Bucket(lo, hi, to)
    {
      BucketMonotone(lo, hi, from, e.value);
      BucketMonotone(lo, hi, e.value, to);
    }
    CountImplies(s, InRange(qlo, qhi), InBuckets(lo, hi, Bucket(lo, hi, from), Bucket(lo, hi, to) + 1));
  }

  lemma Inner(s: seq<Entry>, lo: real, hi: real, qlo: Bound, qhi: Bound, from: real, to: real)
    requires Within(s, lo, hi) && lo <= from <= to <= hi
    requires forall v :: lo <= v <= hi ==> (In(v, qlo, qhi) <==> from <= v <= to)
    ensures Count(s, InBuckets(lo, hi, Bucket(lo, hi, from) + 1, Bucket(lo, hi, to))) <= Count(s, InRange(qlo, qhi))
  {
    forall e | e in s && Bucket(lo, hi, from) < Bucket(lo, hi, e.value) < Bucket(lo, hi, to)
      ensures In(e.value, qlo, qhi)
    {
      if e.value < from { BucketMonotone(lo, hi, e.value, from); }
      if to < e.value { BucketMonotone(lo, hi, to, e.value); }
    }
    CountImplies(s, InBuckets(lo, hi, Bucket(lo, hi, from) + 1, Bucket(lo, hi, to)), InRange(qlo, qhi));
  }

  lemma {:induction false} MatchingGrows(cells: seq<Cell>, i: nat, lo: Bound, hi: Bound)
    requires i <= |cells|
    ensures |UpTo(cells, i, lo, hi)| <= |Matching(Flat(cells), lo, hi)|
    decreases |cells| - i
  {
    if i < |cells| {
      MatchingNext(cells, i, lo, hi);
      MatchingGrows(cells, i + 1, lo, hi);
    } else {
      assert cells[..i] == cells;
    }
  }
}
