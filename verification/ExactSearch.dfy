/** The reference answer of a search: the k nearest records of a plain map id -> vector. */
module ExactSearch {
  import opened Prelude
  import opened TopK

  /**
   * A metric: a distance ("smaller is closer") and the normalisation applied to stored vectors and
   * queries, the identity unless the metric asks for it.
   */
  datatype Metric = Metric(distance: (Vector, Vector) -> real, normal: Vector -> Vector)

  /** Normalisation keeps the dimension and is idempotent. */
  ghost predicate Proper(m: Metric) {
    forall v :: |m.normal(v)| == |v| && m.normal(m.normal(v)) == m.normal(v)
  }

  /** The distance of a stored vector to a query, normalised once per search. */
  function To(m: Metric, query: Vector): Vector -> real {
    var q := m.normal(query);
    v => m.distance(q, v)
  }

  /** Distances are taken from the query in normal form, so normalising it beforehand makes no difference. */
  lemma QueryIsNormalised(m: Metric, query: Vector, v: Vector)
    requires Proper(m)
    ensures To(m, query)(v) == To(m, m.normal(query))(v) == m.distance(m.normal(query), v)
  {
  }

  /** `s` ranks every record of `m` once. */
  ghost predicate Lists(m: map<Id, Vector>, d: Vector -> real, s: seq<Ranked>) {
    && (forall i :: 0 <= i < |s| ==> s[i].key in m && s[i].dist == d(m[s[i].key]))
    && (forall i, j :: 0 <= i < j < |s| ==> s[i].key != s[j].key)
    && (forall id :: id in m ==> exists i :: 0 <= i < |s| && s[i].key == id)
  }

  ghost function Listing(m: map<Id, Vector>, d: Vector -> real): (s: seq<Ranked>)
    ensures Lists(m, d, s)
    decreases |m|
  {
    if m == map[] then []
    else
      var id :| id in m;
      assert (m - {id}).Keys == m.Keys - {id};
      assert |m - {id}| < |m|;
      ExtendListing(m, d, id, Listing(m - {id}, d));
      Listing(m - {id}, d) + [Ranked(id, d(m[id]))]
  }

  lemma ExtendListing(m: map<Id, Vector>, d: Vector -> real, id: Id, s: seq<Ranked>)
    requires id in m && Lists(m - {id}, d, s)
    ensures Lists(m, d, s + [Ranked(id, d(m[id]))])
  {
    var t := s + [Ranked(id, d(m[id]))];
    forall k | k in m ensures exists i :: 0 <= i < |t| && t[i].key == k {
      if k == id {
        assert t[|s|].key == k;
      } else {
        assert k in m - {id};
        var i :| 0 <= i < |s| && s[i].key == k;
        assert t[i].key == k;
      }
    }
  }

  /** The exact top-k. */
  ghost function Exact(m: map<Id, Vector>, d: Vector -> real, k: nat): seq<Ranked> {
    Best(Listing(m, d), k)
  }

  lemma {:induction false} CountOne(s: seq<Ranked>, x: Ranked)
    requires forall i, j :: 0 <= i < j < |s| ==> s[i].key != s[j].key
    ensures multiset(s)[x] == if x in s then 1 else 0
  {
    if |s| > 0 {
      var n := |s| - 1;
      CountOne(s[..n], x);
      assert s == s[..n] + [s[n]];
      assert x in s <==> x in s[..n] || x == s[n];
      forall i | 0 <= i < n ensures s[..n][i] != s[n] {}
    }
  }

  lemma ListedMember(m: map<Id, Vector>, d: Vector -> real, s: seq<Ranked>, x: Ranked)
    requires Lists(m, d, s)
    ensures x in s <==> x.key in m && x.dist == d(m[x.key])
  {
    if x.key in m && x.dist == d(m[x.key]) {
      var i :| 0 <= i < |s| && s[i].key == x.key;
      assert s[i] == x;
    }
  }

  /** Whatever order the records are visited in, the k best are the same. */
  lemma AnyListing(m: map<Id, Vector>, d: Vector -> real, s: seq<Ranked>, k: nat)
    requires Lists(m, d, s)
    ensures Best(s, k) == Exact(m, d, k)
  {
    var t := Listing(m, d);
    forall x ensures multiset(s)[x] == multiset(t)[x] {
      CountOne(s, x);
      CountOne(t, x);
      ListedMember(m, d, s, x);
      ListedMember(m, d, t, x);
    }
    SortOfSame(s, t);
  }

  /** By distance and id: the entries ascend, and every record left out comes after all of them. */
  lemma ExactByDistance(m: map<Id, Vector>, d: Vector -> real, k: nat, i: nat, id: Id)
    requires i < |Exact(m, d, k)|
    ensures var r := Exact(m, d, k);
      && (i > 0 ==> r[i - 1].dist < r[i].dist || (r[i - 1].dist == r[i].dist && r[i - 1].key < r[i].key))
      && (id in m && !Has(r, id) ==> r[i].dist < d(m[id]) || (r[i].dist == d(m[id]) && r[i].key < id))
  {
    hide Exact;
    ExactMeans(m, d, k);
    var r := Exact(m, d, k);
    if i > 0 { Ascends(r, i); }
    if id in m && !Has(r, id) { LeftOut(r, i, Ranked(id, d(m[id]))); }
  }

  lemma Ascends(r: seq<Ranked>, i: nat)
    requires Sorted(r) && 0 < i < |r| && r[i - 1].key != r[i].key
    ensures r[i - 1].dist < r[i].dist || (r[i - 1].dist == r[i].dist && r[i - 1].key < r[i].key)
  {
  }

  lemma LeftOut(r: seq<Ranked>, i: nat, y: Ranked)
    requires i < |r| && !Has(r, y.key) && (y !in r ==> forall x :: x in r ==> !Less(y, x))
    ensures r[i].dist < y.dist || (r[i].dist == y.dist && r[i].key < y.key)
  {
    assert r[i] in r && r[i].key != y.key;
    forall j | 0 <= j < |r| ensures r[j] != y { }
  }

  /** What the exact answer is, said without any algorithm. */
  lemma ExactMeans(m: map<Id, Vector>, d: Vector -> real, k: nat)
    ensures var r := Exact(m, d, k);
      && Sorted(r) && |r| == Min(k, |m|)
      && (forall i :: 0 <= i < |r| ==> r[i].key in m && r[i].dist == d(m[r[i].key]))
      && (forall i, j :: 0 <= i < j < |r| ==> r[i].key != r[j].key)
      && (forall id, x :: id in m && x in r && Ranked(id, d(m[id])) !in r ==> !Less(Ranked(id, d(m[id])), x))
  {
    var s := Listing(m, d);
    var r := Exact(m, d, k);
    ListingSize(m, d, s);
    var t := Sort(s);
    forall i, j | 0 <= i < j < |r| ensures r[i].key != r[j].key {
      SortedKeysDistinct(s, i, j);
    }
    forall i | 0 <= i < |r| ensures r[i].key in m && r[i].dist == d(m[r[i].key]) {
      ListedMember(m, d, s, r[i]);
    }
    forall id, x | id in m && x in r && Ranked(id, d(m[id])) !in r ensures !Less(Ranked(id, d(m[id])), x) {
      var y := Ranked(id, d(m[id]));
      ListedMember(m, d, s, y);
      assert multiset(s)[y] > 0 && multiset(r)[y] == 0;
      BestIsBest(s, k, x, y);
    }
  }

  lemma SortedKeysDistinct(s: seq<Ranked>, i: nat, j: nat)
    requires forall a, b :: 0 <= a < b < |s| ==> s[a].key != s[b].key
    requires i < j < |s|
    ensures Sort(s)[i].key != Sort(s)[j].key
  {
    PermutedKeysDistinct(s, Sort(s), i, j);
  }

  lemma PermutedKeysDistinct(s: seq<Ranked>, t: seq<Ranked>, i: nat, j: nat)
    requires forall a, b :: 0 <= a < b < |s| ==> s[a].key != s[b].key
    requires multiset(t) == multiset(s) && i < j < |t|
    ensures t[i].key != t[j].key
  {
    CountOne(s, t[i]);
    Twice(t, i, j);
    FromOriginal(s, t, i);
    FromOriginal(s, t, j);
    var a :| 0 <= a < |s| && s[a] == t[i];
    var b :| 0 <= b < |s| && s[b] == t[j];
    assert s[a] != s[b];
  }

  lemma FromOriginal(s: seq<Ranked>, t: seq<Ranked>, i: nat)
    requires multiset(t) == multiset(s) && i < |t|
    ensures t[i] in s
  {
    assert t[i] in multiset(t) && t[i] in multiset(s);
  }

  lemma Twice(t: seq<Ranked>, i: nat, j: nat)
    requires i < j < |t|
    ensures t[i] == t[j] ==> multiset(t)[t[i]] >= 2
  {
    assert t == t[..j] + t[j..];
    assert t[i] == t[..j][i] && t[j] == t[j..][0];
    assert multiset(t[..j])[t[i]] >= 1 && multiset(t[j..])[t[j]] >= 1 by {
      assert t[i] in t[..j] && t[j] in t[j..];
    }
  }

  lemma {:induction false} ListingSize(m: map<Id, Vector>, d: Vector -> real, s: seq<Ranked>)
    requires Lists(m, d, s)
    ensures |s| == |m|
    decreases |s|
  {
    if |s| == 0 {
      assert m == map[];
    } else {
      var n := |s| - 1;
      var id := s[n].key;
      var rest := m - {id};
      assert rest.Keys == m.Keys - {id};
      forall k | k in rest ensures exists i :: 0 <= i < n && s[..n][i].key == k {
        var i :| 0 <= i < |s| && s[i].key == k;
        assert s[..n][i].key == k;
      }
      ListingSize(rest, d, s[..n]);
    }
  }
}
