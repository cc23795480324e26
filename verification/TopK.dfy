/**
 * Ranked results, binary heaps seen as sorted sequences, and the bounded top-k heap.
 *
 * `Ranked` is both the program's `SearchResult` (key = record id) and its `Cand` (key = graph slot):
 * the two types carry the same total order, distance first and key second.
 */
module TopK {
  import opened Prelude

  datatype Ranked = Ranked(key: nat, dist: real)

  /** The strict total order (distance, key). */
  predicate Less(a: Ranked, b: Ranked) {
    a.dist < b.dist || (a.dist == b.dist && a.key < b.key)
  }

  ghost predicate Sorted(s: seq<Ranked>) {
    forall i, j :: 0 <= i < j < |s| ==> !Less(s[j], s[i])
  }

  predicate Has(s: seq<Ranked>, key: nat) { exists i :: 0 <= i < |s| && s[i].key == key }

  /** Pushing onto a heap: the sequence lists its elements in pop order, best first. */
  function Push(h: seq<Ranked>, c: Ranked): (r: seq<Ranked>)
    requires Sorted(h)
    ensures Sorted(r) && multiset(r) == multiset(h) + multiset{c} && |r| == |h| + 1
  {
    if |h| == 0 || !Less(c, h[|h| - 1]) then h + [c]
    else
      var rest := Push(h[..|h| - 1], c);
      assert h == h[..|h| - 1] + [h[|h| - 1]];
      PushBelow(h, c, rest);
      rest + [h[|h| - 1]]
  }

  lemma PushBelow(h: seq<Ranked>, c: Ranked, rest: seq<Ranked>)
    requires Sorted(h) && |h| > 0 && Less(c, h[|h| - 1])
    requires Sorted(rest) && multiset(rest) == multiset(h[..|h| - 1]) + multiset{c}
    ensures Sorted(rest + [h[|h| - 1]])
  {
    forall i | 0 <= i < |rest| ensures !Less(h[|h| - 1], rest[i]) {
      assert rest[i] in multiset(rest);
      if rest[i] != c {
        assert rest[i] in multiset(h[..|h| - 1]);
        assert rest[i] in h[..|h| - 1];
      }
    }
  }

  /** `sort()`: the unique sorted arrangement. */
  function Sort(s: seq<Ranked>): (r: seq<Ranked>)
    ensures Sorted(r) && multiset(r) == multiset(s) && |r| == |s|
  {
    if |s| == 0 then []
    else
      assert s == s[..|s| - 1] + [s[|s| - 1]];
      Push(Sort(s[..|s| - 1]), s[|s| - 1])
  }

  lemma LastIsLargest(s: seq<Ranked>, x: Ranked)
    requires Sorted(s) && x in multiset(s)
    ensures |s| > 0 && !Less(s[|s| - 1], x)
  {
    var i :| 0 <= i < |s| && s[i] == x;
    assert i == |s| - 1 || !Less(s[|s| - 1], s[i]);
  }

  /** Two sorted sequences of the same elements are the same sequence. */
  lemma {:induction false} SortedUnique(a: seq<Ranked>, b: seq<Ranked>)
    requires Sorted(a) && Sorted(b) && multiset(a) == multiset(b)
    ensures a == b
  {
    assert |a| == |multiset(a)| == |multiset(b)| == |b|;
    if |a| > 0 {
      LastAgrees(a, b);
      DropLast(a);
      DropLast(b);
      SortedUnique(a[..|a| - 1], b[..|b| - 1]);
      LastApart([], a);
      LastApart([], b);
    }
  }

  lemma LastAgrees(a: seq<Ranked>, b: seq<Ranked>)
    requires Sorted(a) && Sorted(b) && multiset(a) == multiset(b) && |a| == |b| > 0
    ensures a[|a| - 1] == b[|b| - 1]
  {
    var x, y := a[|a| - 1], b[|b| - 1];
    assert x in multiset(b) && y in multiset(a);
    LastIsLargest(b, x);
    LastIsLargest(a, y);
  }

  lemma DropLast(s: seq<Ranked>)
    requires |s| > 0
    ensures multiset(s[..|s| - 1]) == multiset(s) - multiset{s[|s| - 1]}
    ensures Sorted(s) ==> Sorted(s[..|s| - 1])
  {
    assert s == s[..|s| - 1] + [s[|s| - 1]];
  }

  /** Sorting forgets the order the elements came in. */
  lemma SortOfSame(a: seq<Ranked>, b: seq<Ranked>)
    requires multiset(a) == multiset(b)
    ensures Sort(a) == Sort(b)
  {
    SortedUnique(Sort(a), Sort(b));
  }

  /** The reference: the k best of `s`, in order. */
  function Best(s: seq<Ranked>, k: nat): (r: seq<Ranked>)
    ensures Sorted(r) && |r| == Min(k, |s|)
    ensures forall x :: x in r ==> x in s
  {
    var t := Sort(s);
    assert forall x :: x in Take(t, k) ==> x in t && x in multiset(t) && x in multiset(s);
    Take(t, k)
  }

  /** What "the k best" means: everything left out ranks at or after everything returned. */
  lemma BestIsBest(s: seq<Ranked>, k: nat, x: Ranked, y: Ranked)
    requires x in Best(s, k) && multiset(s)[y] > multiset(Best(s, k))[y]
    ensures !Less(y, x)
  {
    LeftOut(Sort(s), |Best(s, k)|, x, y);
  }

  lemma LeftOut(t: seq<Ranked>, n: nat, x: Ranked, y: Ranked)
    requires Sorted(t) && n <= |t| && x in t[..n] && multiset(t)[y] > multiset(t[..n])[y]
    ensures !Less(y, x)
  {
    assert t == t[..n] + t[n..];
    assert multiset(t) == multiset(t[..n]) + multiset(t[n..]);
    assert y in t[n..];
    var j :| n <= j < |t| && t[j] == y;
    var i :| 0 <= i < n && t[i] == x;
    assert i < j;
  }

  /** The bounded heap step of every scan: push while short, else replace the worst if strictly better. */
  function Offer(h: seq<Ranked>, k: nat, c: Ranked): (r: seq<Ranked>)
    requires Sorted(h)
    ensures Sorted(r)
  {
    if |h| < k then Push(h, c)
    else if |h| > 0 && Less(c, h[|h| - 1]) then Push(h[..|h| - 1], c)
    else h
  }

  /** Cutting to k commutes with pushing: the dropped elements never come back. */
  lemma {:induction false} OfferCut(s: seq<Ranked>, k: nat, c: Ranked)
    requires Sorted(s)
    ensures Sorted(Take(s, k)) && Offer(Take(s, k), k, c) == Take(Push(s, c), k)
  {
    var n := |s| - 1;
    if |s| < k {
      assert Take(Push(s, c), k) == Push(s, c);
    } else if |s| == 0 || !Less(c, s[n]) {
      OfferLate(s, k, c);
    } else if |s| == k {
      assert Take(s, k) == s;
      assert Take(Push(s[..n], c) + [s[n]], k) == Push(s[..n], c);
    } else {
      assert Sorted(s[..n]);
      OfferCut(s[..n], k, c);
      assert Take(s[..n], k) == Take(s, k);
      TakeOfLonger(Push(s[..n], c), s[n], k);
    }
  }

  lemma TakeOfLonger(s: seq<Ranked>, x: Ranked, k: nat)
    requires k <= |s|
    ensures Take(s + [x], k) == Take(s, k)
  {
  }

  lemma OfferLate(s: seq<Ranked>, k: nat, c: Ranked)
    requires Sorted(s) && k <= |s| && (|s| == 0 || !Less(c, s[|s| - 1]))
    ensures Sorted(Take(s, k)) && Offer(Take(s, k), k, c) == Take(Push(s, c), k)
  {
    TakeOfLonger(s, c, k);
    if k > 0 { assert k == |s| || !Less(s[|s| - 1], s[k - 1]); }
  }

  /** Offering a whole sequence to a heap that holds the k best so far gives the k best overall. */
  lemma {:induction false} OfferAll(s: seq<Ranked>, c: Ranked, k: nat)
    ensures Offer(Best(s, k), k, c) == Best(s + [c], k)
  {
    assert (s + [c])[..|s|] == s;
    OfferCut(Sort(s), k, c);
  }

  /** The heap after offering all of `b`, in the order given, to `h`. */
  function OfferSeq(h: seq<Ranked>, k: nat, b: seq<Ranked>): (r: seq<Ranked>)
    requires Sorted(h)
    ensures Sorted(r)
  {
    if |b| == 0 then h else Offer(OfferSeq(h, k, b[..|b| - 1]), k, b[|b| - 1])
  }

  lemma {:induction false} OfferSeqBest(a: seq<Ranked>, b: seq<Ranked>, k: nat)
    ensures OfferSeq(Best(a, k), k, b) == Best(a + b, k)
  {
    if |b| == 0 {
      assert a + b == a;
    } else {
      var p := b[..|b| - 1];
      OfferSeqBest(a, p, k);
      OfferAll(a + p, b[|b| - 1], k);
      LastApart(a, b);
    }
  }

  lemma LastApart(a: seq<Ranked>, b: seq<Ranked>)
    requires |b| > 0
    ensures (a + b[..|b| - 1]) + [b[|b| - 1]] == a + b
  {
  }

  /** Two heaps of k merge into the k best of everything, whatever order the second is drained in. */
  lemma MergeHeaps(a: seq<Ranked>, b: seq<Ranked>, drained: seq<Ranked>, k: nat)
    requires multiset(drained) == multiset(Best(b, k))
    ensures OfferSeq(Best(a, k), k, drained) == Best(a + b, k)
  {
    var kept := Best(b, k);
    OfferSeqBest(a, drained, k);
    SortOfSame(a + drained, kept + a);
    OfferSeqBest(kept, a, k);
    CutTwice(b, k);
    OfferSeqBest(b, a, k);
    SortOfSame(b + a, a + b);
  }

  lemma CutTwice(b: seq<Ranked>, k: nat)
    ensures Best(Best(b, k), k) == Best(b, k)
  {
    SortedUnique(Sort(Best(b, k)), Best(b, k));
  }

  /**
   * How a parallel `reduce` may combine chunk heaps: any tree, with the empty heap anywhere. `drained`
   * lists the elements of the right heap in the order they come out of its storage.
   */
  datatype Plan = Empty | Chunk(s: seq<Ranked>) | Join(left: Plan, right: Plan, drained: seq<Ranked>)

  function Whole(p: Plan): seq<Ranked> {
    match p case Empty => [] case Chunk(s) => s case Join(l, r, _) => Whole(l) + Whole(r)
  }

  /** Each join drains exactly the heap its right side produced, in whatever order. */
  predicate Drains(p: Plan, k: nat) {
    match p
    case Empty => true
    case Chunk(_) => true
    case Join(l, r, drained) => Drains(l, k) && Drains(r, k) && multiset(drained) == multiset(Reduce(r, k))
  }

  /** The heap a reduction tree produces; each chunk is scanned into its own bounded heap. */
  function Reduce(p: Plan, k: nat): (r: seq<Ranked>)
    ensures Sorted(r)
  {
    match p
    case Empty => []
    case Chunk(s) => OfferSeq([], k, s)
    case Join(l, _, drained) => OfferSeq(Reduce(l, k), k, drained)
  }

  /** For every chunking, every reduction tree and every order of draining the result is the k best of the whole. */
  lemma {:induction false} ReduceIsBest(p: Plan, k: nat)
    requires Drains(p, k)
    ensures Reduce(p, k) == Best(Whole(p), k)
  {
    match p
    case Empty =>
    case Chunk(s) =>
      OfferSeqBest([], s, k);
      assert [] + s == s;
    case Join(l, r, drained) =>
      ReduceIsBest(l, k);
      ReduceIsBest(r, k);
      MergeHeaps(Whole(l), Whole(r), drained, k);
  }
}
