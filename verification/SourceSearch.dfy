/**
 * Searching the sources of the store one by one: what the index behind each source contributes to an
 * unfiltered search and to the two graph arms of a filtered one, and what the contributions add up to.
 */
module SourceSearch {
  import opened Prelude
  import opened TopK
  import opened ExactSearch
  import opened Store
  import opened StoreInvariants
  import B = BruteForce
  import H = Hnsw

  /** The index behind a source: a graph for a segment, a flat block for a buffer. */
  datatype Part = Graph(g: H.HnswIndex) | Flat(b: B.BruteForceIndex)

  ghost function Objects(p: Part): set<object> {
    match p case Graph(g) => {g} case Flat(b) => {b}
  }

  /** Vectors as an index stores them. */
  ghost function Stored(metric: Metric, m: map<Id, Vector>): map<Id, Vector> {
    map id | id in m :: metric.normal(m[id])
  }

  /** The distance of a record to a query. */
  function Dist(metric: Metric, query: Vector): Vector -> real {
    var d := To(metric, query);
    v => d(metric.normal(v))
  }

  ghost predicate Serves(p: Part, x: Source, metric: Metric)
    reads Objects(p)
  {
    match p
    case Graph(g) => g.Valid() && g.metric == metric && g.Contents() == Stored(metric, x.data)
    case Flat(b) => b.Valid() && b.metric == metric && b.Contents() == Stored(metric, x.data)
  }

  /** The indexes behind a list of sources: a graph per segment, then a flat block per younger source. */
  datatype Parts = Parts(graphs: seq<H.HnswIndex>, flats: seq<B.BruteForceIndex>)

  function PartAt(parts: Parts, i: nat): Part
    requires i < |parts.graphs| + |parts.flats|
  {
    if i < |parts.graphs| then Graph(parts.graphs[i]) else Flat(parts.flats[i - |parts.graphs|])
  }

  /** One index per source. */
  ghost predicate AllServe(parts: Parts, ls: seq<Source>, metric: Metric)
    reads parts.graphs, parts.flats
  {
    && |parts.graphs| + |parts.flats| == |ls|
    && forall i :: 0 <= i < |ls| ==> Serves(PartAt(parts, i), ls[i], metric)
  }

  /** The records of `m` whose ids pass. */
  ghost function Restrict(m: map<Id, Vector>, allowed: set<Id>): map<Id, Vector> {
    map id | id in m && id in allowed :: m[id]
  }

  /** Distinct records of `m` at their true distances. */
  ghost predicate Gathers(m: map<Id, Vector>, d: Vector -> real, hits: seq<Ranked>) {
    && (forall i :: 0 <= i < |hits| ==> hits[i].key in m && hits[i].dist == d(m[hits[i].key]))
    && (forall i, j :: 0 <= i < j < |hits| ==> hits[i].key != hits[j].key)
  }

  /** Enough of them: `k`, or all there are. */
  ghost predicate Plenty(m: map<Id, Vector>, k: nat, hits: seq<Ranked>) { |hits| >= k || |hits| == |m| }

  // ---- What a search may leave out ----

  /** The hits at most this far. */
  ghost function Close(hits: seq<Ranked>, dist: real): set<nat> {
    set i | 0 <= i < |hits| && hits[i].dist <= dist :: hits[i].key
  }

  /** Every record of `m` is among the hits, or `k` hits are no farther. */
  ghost predicate Backed(m: map<Id, Vector>, d: Vector -> real, k: nat, hits: seq<Ranked>) {
    forall id :: id in m && !Has(hits, id) ==> |Close(hits, d(m[id]))| >= k
  }

  /** More hits back more. */
  lemma BackedGrows(m: map<Id, Vector>, d: Vector -> real, k: nat, hits: seq<Ranked>, more: seq<Ranked>)
    requires Backed(m, d, k, hits) && forall x :: x in hits ==> x in more
    ensures Backed(m, d, k, more)
  {
    forall id | id in m && !Has(more, id) ensures |Close(more, d(m[id]))| >= k {
      if i :| 0 <= i < |hits| && hits[i].key == id {
        InIsHas(more, hits[i]);
      }
      CloseGrows(hits, more, d(m[id]));
    }
  }

  lemma InIsHas(s: seq<Ranked>, x: Ranked)
    requires x in s
    ensures Has(s, x.key)
  {
  }

  lemma CloseGrows(hits: seq<Ranked>, more: seq<Ranked>, dist: real)
    requires forall x :: x in hits ==> x in more
    ensures |Close(hits, dist)| <= |Close(more, dist)|
  {
    forall key | key in Close(hits, dist) ensures key in Close(more, dist) {
      var i :| 0 <= i < |hits| && hits[i].dist <= dist && hits[i].key == key;
      assert hits[i] in more;
      var j :| 0 <= j < |more| && more[j] == hits[i];
    }
    H.SubsetSize(Close(hits, dist), Close(more, dist));
  }

  /** Distinct hits all within a distance are so many close ones. */
  lemma AllClose(hits: seq<Ranked>, dist: real)
    requires (forall i, j :: 0 <= i < j < |hits| ==> hits[i].key != hits[j].key) && H.NoneFarther(hits, dist)
    ensures |Close(hits, dist)| == |hits|
  {
    H.PrefixKeys(hits, |hits|);
    assert Close(hits, dist) == H.FirstKeys(hits, |hits|);
  }

  /** As many distinct hits as there are records are all of them. */
  lemma FullIsAll(m: map<Id, Vector>, d: Vector -> real, hits: seq<Ranked>, id: Id)
    requires Gathers(m, d, hits) && |hits| == |m| && id in m
    ensures Has(hits, id)
  {
    H.PrefixKeys(hits, |hits|);
    var keys := H.FirstKeys(hits, |hits|);
    assert keys <= m.Keys && |m.Keys| == |m|;
    assert |m.Keys - keys| == |m.Keys| - |keys|;
    assert id in keys;
    var i :| 0 <= i < |hits| && hits[i].key == id;
  }

  /** The nearest of a source leave out only what they back. */
  lemma NearestBacked(m: map<Id, Vector>, d: Vector -> real, want: nat, k: nat, hits: seq<Ranked>)
    requires H.NearestUpToTies(m, d, want, hits) && k <= want
    ensures Backed(m, d, k, hits)
  {
    AnswersGather(m, d, hits);
    forall id | id in m && !Has(hits, id) ensures |Close(hits, d(m[id]))| >= k {
      if |hits| == |m| { FullIsAll(m, d, hits, id); }
      AllClose(hits, d(m[id]));
    }
  }

  lemma StoredBacked(metric: Metric, query: Vector, m: map<Id, Vector>, k: nat, hits: seq<Ranked>)
    requires Backed(Stored(metric, m), To(metric, query), k, hits)
    ensures Backed(m, Dist(metric, query), k, hits)
  {
    var s := Stored(metric, m);
    forall id | id in m && !Has(hits, id) ensures |Close(hits, Dist(metric, query)(m[id]))| >= k {
      assert id in s && s[id] == metric.normal(m[id]);
    }
  }

  ghost function Living(m: map<Id, Vector>, tombs: set<Id>): map<Id, Vector> {
    map id | id in m && id !in tombs :: m[id]
  }

  /** Dropping the hits that do not pass drops no record that passes, and no more hits than are dead. */
  lemma FilteredBacked(m: map<Id, Vector>, d: Vector -> real, want: nat, k: nat, tombs: set<Id>, found: seq<Ranked>,
                       kept: seq<Ranked>)
    requires H.NearestUpToTies(m, d, want, found) && k + |tombs| <= want
    requires forall i, j :: 0 <= i < j < |kept| ==> kept[i].key != kept[j].key
    requires forall x :: x in kept <==> x in found && x.key !in tombs
    ensures Backed(Living(m, tombs), d, k, kept)
  {
    AnswersGather(m, d, found);
    forall id | id in m && id !in tombs && !Has(kept, id) ensures |Close(kept, d(m[id]))| >= k {
      if Has(found, id) {
        var i :| 0 <= i < |found| && found[i].key == id;
        InIsHas(kept, found[i]);
      }
      if |found| == |m| { FullIsAll(m, d, found, id); }
      DroppedFew(found, tombs, kept);
      NoneFartherIn(found, kept, d(m[id]));
      AllClose(kept, d(m[id]));
    }
  }

  lemma NoneFartherIn(found: seq<Ranked>, kept: seq<Ranked>, dist: real)
    requires H.NoneFarther(found, dist) && forall x :: x in kept ==> x in found
    ensures H.NoneFarther(kept, dist)
  {
    forall i | 0 <= i < |kept| ensures kept[i].dist <= dist { assert kept[i] in found; }
  }

  lemma DroppedFew(found: seq<Ranked>, tombs: set<Id>, kept: seq<Ranked>)
    requires forall i, j :: 0 <= i < j < |found| ==> found[i].key != found[j].key
    requires forall i, j :: 0 <= i < j < |kept| ==> kept[i].key != kept[j].key
    requires forall x :: x in kept <==> x in found && x.key !in tombs
    ensures |kept| + |tombs| >= |found|
  {
    H.PrefixKeys(found, |found|);
    H.PrefixKeys(kept, |kept|);
    var a, b := H.FirstKeys(found, |found|), H.FirstKeys(kept, |kept|);
    forall key | key in a ensures key in b + tombs {
      var i :| 0 <= i < |found| && found[i].key == key;
      if key !in tombs {
        assert found[i] in kept;
        var j :| 0 <= j < |kept| && kept[j] == found[i];
      }
    }
    H.SubsetSize(a, b + tombs);
    assert |b + tombs| <= |b| + |tombs|;
  }

  /** The three ways of walking the sources, with the results asked for and the search width. */
  datatype Mode = Plain(k: nat, ef: nat) | Wide(ef: nat) | Walking(k: nat, ef: nat)

  /**
   * A source whose index is searched in full: a flat block always, a graph that the search covers. A plain
   * search must also ask for enough to make up for every tombstone.
   */
  ghost predicate Sees(p: Part, x: Source, mode: Mode)
    reads Objects(p)
  {
    match mode
    case Plain(k, ef) => |x.tombs| <= k && (p.Graph? ==> p.g.Spanned(Max(ef, k + |x.tombs|)))
    case Wide(ef) => p.Graph? ==> p.g.Spanned(ef)
    case Walking(k, ef) => p.Graph? ==> p.g.Spanned(Max(ef, k + Min(|x.tombs|, k)))
  }

  /** How many results a graph is asked for: a few extra make up for tombstones. */
  function Asked(x: Source, mode: Mode): nat {
    match mode
    case Plain(k, _) => k + Min(|x.tombs|, k)
    case Wide(ef) => ef
    case Walking(k, _) => k + Min(|x.tombs|, k)
  }

  /** ... and how wide it is searched. */
  function Breadth(x: Source, mode: Mode): nat { Max(mode.ef, Asked(x, mode)) }

  /** What a walk under a filter may return from a source. */
  function Passing(tombs: set<Id>, allowed: set<Id>): Id -> bool { (id: Id) => Passes(tombs, allowed, id) }

  /** What the graph behind a source may answer: a plain search, or one under the filter with its fallback. */
  ghost predicate GraphAnswers(g: H.HnswIndex, x: Source, metric: Metric, query: Vector, mode: Mode,
                               allowed: set<Id>, found: seq<Ranked>)
    reads g
  {
    var (asked, breadth, q) := (Asked(x, mode), Breadth(x, mode), metric.normal(query));
    if mode.Walking? then
      || (exists visits: nat :: g.Explores(q, breadth, Passing(x.tombs, allowed), None, visits, asked, found))
      || found == Exact(Stored(metric, Restrict(x.LiveData(), allowed)), To(metric, query), asked)
    else g.Covers(q, breadth, asked, found)
  }

  /** All that the index answers, as far as it is live and allowed, is among the hits, seen in full or not. */
  ghost predicate Offered(p: Part, x: Source, metric: Metric, query: Vector, mode: Mode, allowed: set<Id>,
                          hits: seq<Ranked>)
    reads Objects(p)
  {
    match p
    case Graph(g) =>
      g.entry.Some? && Asked(x, mode) > 0 ==>
        exists found :: GraphAnswers(g, x, metric, query, mode, allowed, found) && Handed(x, allowed, found, hits)
    case Flat(_) =>
      mode.Plain? ==> Handed(x, allowed, Exact(Stored(metric, x.data), To(metric, query), Asked(x, mode)), hits)
  }

  ghost predicate Handed(x: Source, allowed: set<Id>, found: seq<Ranked>, hits: seq<Ranked>) {
    forall r :: r in found && Passes(x.tombs, allowed, r.key) ==> r in hits
  }

  ghost predicate OfferedBelow(parts: Parts, ls: seq<Source>, n: nat, metric: Metric, query: Vector, mode: Mode,
                               allowed: set<Id>, hits: seq<Ranked>)
    reads parts.graphs, parts.flats
  {
    n <= |ls| && n <= |parts.graphs| + |parts.flats|
    && forall i: nat :: i < n ==> OfferedAt(parts, ls, i, metric, query, mode, allowed, hits)
  }

  ghost predicate OfferedAt(parts: Parts, ls: seq<Source>, i: nat, metric: Metric, query: Vector, mode: Mode,
                            allowed: set<Id>, hits: seq<Ranked>)
    reads parts.graphs, parts.flats
  {
    i < |ls| && i < |parts.graphs| + |parts.flats|
    && Offered(PartAt(parts, i), ls[i], metric, query, mode, allowed, hits)
  }

  lemma OfferedGrows(p: Part, x: Source, metric: Metric, query: Vector, mode: Mode, allowed: set<Id>,
                     hits: seq<Ranked>, more: seq<Ranked>)
    requires Offered(p, x, metric, query, mode, allowed, hits) && forall r :: r in hits ==> r in more
    ensures Offered(p, x, metric, query, mode, allowed, more)
  {
    hide GraphAnswers;
    if p.Flat? {
      if mode.Plain? {
        HandedMore(x, allowed, Exact(Stored(metric, x.data), To(metric, query), Asked(x, mode)), hits, more);
      }
    } else if p.g.entry.Some? && Asked(x, mode) > 0 {
      var found :| GraphAnswers(p.g, x, metric, query, mode, allowed, found) && Handed(x, allowed, found, hits);
      assert Handed(x, allowed, found, more);
    }
  }

  lemma HandedMore(x: Source, allowed: set<Id>, found: seq<Ranked>, hits: seq<Ranked>, more: seq<Ranked>)
    requires Handed(x, allowed, found, hits) && forall r :: r in hits ==> r in more
    ensures Handed(x, allowed, found, more)
  {
  }

  lemma OfferedBelowGrows(parts: Parts, ls: seq<Source>, n: nat, metric: Metric, query: Vector, mode: Mode,
                          allowed: set<Id>, hits: seq<Ranked>, more: seq<Ranked>)
    requires OfferedBelow(parts, ls, n, metric, query, mode, allowed, hits) && forall r :: r in hits ==> r in more
    ensures OfferedBelow(parts, ls, n, metric, query, mode, allowed, more)
  {
    forall j: nat | j < n ensures OfferedAt(parts, ls, j, metric, query, mode, allowed, more) {
      hide Offered;
      assert OfferedAt(parts, ls, j, metric, query, mode, allowed, hits);
      OfferedGrows(PartAt(parts, j), ls[j], metric, query, mode, allowed, hits, more);
    }
  }

  /** One more source has handed over what it found. */
  lemma OfferedNext(parts: Parts, ls: seq<Source>, i: nat, metric: Metric, query: Vector, mode: Mode,
                    allowed: set<Id>, all: seq<Ranked>, hits: seq<Ranked>)
    requires i < |ls| == |parts.graphs| + |parts.flats|
    requires OfferedBelow(parts, ls, i, metric, query, mode, allowed, all)
    requires Offered(PartAt(parts, i), ls[i], metric, query, mode, allowed, hits)
    ensures OfferedBelow(parts, ls, i + 1, metric, query, mode, allowed, all + hits)
  {
    forall j: nat | j <= i ensures OfferedAt(parts, ls, j, metric, query, mode, allowed, all + hits) {
      hide Offered;
      if j < i {
        assert OfferedAt(parts, ls, j, metric, query, mode, allowed, all);
        OfferedGrows(PartAt(parts, j), ls[j], metric, query, mode, allowed, all, all + hits);
      } else {
        OfferedGrows(PartAt(parts, i), ls[i], metric, query, mode, allowed, hits, all + hits);
      }
    }
  }

  /** The live records of the sources seen in full. */
  ghost function Sure(parts: Parts, ls: seq<Source>, mode: Mode): set<Id>
    reads parts.graphs, parts.flats
  {
    set id | id in LiveMap(ls) && InFullView(parts, ls, mode, id)
  }

  ghost predicate InFullView(parts: Parts, ls: seq<Source>, mode: Mode, id: Id)
    reads parts.graphs, parts.flats
  {
    exists i: nat :: i < |ls| && SeesAt(parts, ls, mode, i) && ls[i].Live(id)
  }

  ghost predicate SeesAt(parts: Parts, ls: seq<Source>, mode: Mode, i: nat)
    reads parts.graphs, parts.flats
  {
    i < |ls| && i < |parts.graphs| + |parts.flats| && Sees(PartAt(parts, i), ls[i], mode)
  }

  /** When every source is seen, so is every record. */
  lemma AllSure(parts: Parts, ls: seq<Source>, mode: Mode)
    requires forall i: nat :: i < |ls| ==> SeesAt(parts, ls, mode, i)
    ensures Sure(parts, ls, mode) == LiveMap(ls).Keys
  {
    forall id | id in LiveMap(ls) ensures InFullView(parts, ls, mode, id) { LiveMapMembers(ls, id); }
  }

  /** A source is in full view as a whole, or not at all. */
  lemma SureSource(parts: Parts, ls: seq<Source>, mode: Mode, i: nat)
    requires UniqueLive(ls) && i < |ls|
    ensures SeesAt(parts, ls, mode, i) || ls[i].LiveData().Keys !! Sure(parts, ls, mode)
  {
    if !SeesAt(parts, ls, mode, i) {
      forall id | id in ls[i].LiveData() ensures !InFullView(parts, ls, mode, id) {
        assert ls[i].Live(id);
        forall j: nat | j < |ls| && ls[j].Live(id) ensures j == i { }
      }
    }
  }

  // ---- One source ----

  /** Hits over the stored vectors are hits over the records. */
  lemma StoredHits(metric: Metric, query: Vector, m: map<Id, Vector>, hits: seq<Ranked>)
    requires Gathers(Stored(metric, m), To(metric, query), hits)
    ensures Gathers(m, Dist(metric, query), hits)
  {
  }

  lemma StoredSize(metric: Metric, m: map<Id, Vector>)
    ensures |Stored(metric, m)| == |m|
  {
    assert Stored(metric, m).Keys == m.Keys;
    assert |Stored(metric, m).Keys| == |Stored(metric, m)| && |m.Keys| == |m|;
  }

  /** What a filtered search may return from a source: live there, and allowed. */
  predicate Passes(tombs: set<Id>, allowed: set<Id>, id: Id) { id !in tombs && id in allowed }

  lemma PassedRecords(metric: Metric, x: Source, allowed: set<Id>, contents: map<Id, Vector>)
    requires contents == Stored(metric, x.data)
    ensures (map id | id in contents && Passes(x.tombs, allowed, id) :: contents[id])
      == Stored(metric, Restrict(x.LiveData(), allowed))
  {
  }

  /** The hits of a search that may return anything, cut down to what passes. */
  method Filter(hits: seq<Ranked>, tombs: set<Id>, allowed: set<Id>, everyone: bool,
                ghost m: map<Id, Vector>, ghost d: Vector -> real) returns (kept: seq<Ranked>)
    requires Gathers(m, d, hits)
    ensures Gathers(map id | id in m && id !in tombs && (everyone || id in allowed) :: m[id], d, kept)
    ensures forall x :: x in kept <==> x in hits && x.key !in tombs && (everyone || x.key in allowed)
  {
    kept := [];
    for i := 0 to |hits|
      invariant forall j :: 0 <= j < |kept| ==> kept[j] in hits[..i]
      invariant forall x :: x in kept <==> x in hits[..i] && x.key !in tombs && (everyone || x.key in allowed)
      invariant forall j :: 0 <= j < |kept| ==> kept[j].key !in tombs && (everyone || kept[j].key in allowed)
      invariant forall a, b :: 0 <= a < b < |kept| ==> kept[a].key != kept[b].key
    {
      assert hits[..i + 1] == hits[..i] + [hits[i]];
      if hits[i].key !in tombs && (everyone || hits[i].key in allowed) {
        assert forall j :: 0 <= j < |kept| ==> kept[j].key != hits[i].key;
        kept := kept + [hits[i]];
      }
    }
    assert hits[..|hits|] == hits;
    assert forall j :: 0 <= j < |kept| ==> kept[j] in hits;
  }

  lemma ExactGathers(m: map<Id, Vector>, d: Vector -> real, k: nat)
    ensures Gathers(m, d, Exact(m, d, k)) && |Exact(m, d, k)| == Min(k, |m|)
  {
    ExactMeans(m, d, k);
  }

  /** A flat source under a filter: its k nearest that pass. */
  method FlatFiltered(b: B.BruteForceIndex, x: Source, metric: Metric, query: Vector, k: nat, allowed: set<Id>)
    returns (hits: seq<Ranked>)
    requires Serves(Flat(b), x, metric)
    ensures Gathers(Restrict(x.LiveData(), allowed), Dist(metric, query), hits)
    ensures Plenty(Restrict(x.LiveData(), allowed), k, hits)
    ensures Backed(Restrict(x.LiveData(), allowed), Dist(metric, query), k, hits)
  {
    var tombs := x.tombs;
    var allow := (id: Id) => Passes(tombs, allowed, id);
    ghost var m := Restrict(x.LiveData(), allowed);
    PassedRecords(metric, x, allowed, b.Contents());
    assert (map id | id in b.Contents() && allow(id) :: b.Contents()[id]) == Stored(metric, m);
    hits := b.SearchFiltered(query, k, allow);
    ExactStored(metric, query, m, k);
  }

  lemma ExactStored(metric: Metric, query: Vector, m: map<Id, Vector>, k: nat)
    ensures var hits := Exact(Stored(metric, m), To(metric, query), k);
      Gathers(m, Dist(metric, query), hits) && Plenty(m, k, hits) && Backed(m, Dist(metric, query), k, hits)
  {
    H.ExactNearest(Stored(metric, m), To(metric, query), k);
    NearestBacked(Stored(metric, m), To(metric, query), k, k, Exact(Stored(metric, m), To(metric, query), k));
    StoredBacked(metric, query, m, k, Exact(Stored(metric, m), To(metric, query), k));
    ExactGathers(Stored(metric, m), To(metric, query), k);
    StoredHits(metric, query, m, Exact(Stored(metric, m), To(metric, query), k));
    StoredSize(metric, m);
  }

  /** A source in the over-fetching arm: a wide unfiltered graph search, its results filtered. */
  method OverFetched(p: Part, x: Source, metric: Metric, query: Vector, k: nat, ef: nat, allowed: set<Id>)
    returns (hits: seq<Ranked>)
    requires Serves(p, x, metric)
    ensures Gathers(Restrict(x.LiveData(), allowed), Dist(metric, query), hits)
    ensures Sees(p, x, Wide(ef)) ==> Backed(Restrict(x.LiveData(), allowed), Dist(metric, query), k, hits)
    ensures Offered(p, x, metric, query, Wide(ef), allowed, hits)
  {
    hide H.HnswIndex.Covers;
    match p {
      case Graph(g) =>
        var found, start := g.SearchWithEf(query, ef, ef);
        hits := Filter(found, x.tombs, allowed, false, g.Contents(), To(metric, query));
        assert Handed(x, allowed, found, hits);
        FilteredIs(metric, x, allowed, g.Contents());
        StoredHits(metric, query, Restrict(x.LiveData(), allowed), hits);
        if g.Spanned(ef) {
          g.SpansAll(ef);
          WideBacked(metric, query, x, allowed, g.Contents(), ef, k, found, hits);
        }
      case Flat(b) => hits := FlatFiltered(b, x, metric, query, k, allowed);
    }
  }

  /** A graph searched in full gives up every record that is live and allowed. */
  lemma WideBacked(metric: Metric, query: Vector, x: Source, allowed: set<Id>, contents: map<Id, Vector>, ef: nat,
                   k: nat, found: seq<Ranked>, hits: seq<Ranked>)
    requires contents == Stored(metric, x.data) && |contents| <= ef
    requires H.NearestUpToTies(contents, To(metric, query), ef, found)
    requires forall r :: r in hits <==> r in found && r.key !in x.tombs && (false || r.key in allowed)
    ensures Backed(Restrict(x.LiveData(), allowed), Dist(metric, query), k, hits)
  {
    AnswersGather(contents, To(metric, query), found);
    forall id | id in Restrict(x.LiveData(), allowed) ensures Has(hits, id) {
      FullIsAll(contents, To(metric, query), found, id);
      var i :| 0 <= i < |found| && found[i].key == id;
      InIsHas(hits, found[i]);
    }
  }

  lemma FilteredIs(metric: Metric, x: Source, allowed: set<Id>, contents: map<Id, Vector>)
    requires contents == Stored(metric, x.data)
    ensures (map id | id in contents && id !in x.tombs && (false || id in allowed) :: contents[id])
      == Stored(metric, Restrict(x.LiveData(), allowed))
    ensures (map id | id in contents && id !in x.tombs && (true || id in allowed) :: contents[id])
      == Stored(metric, x.LiveData())
  {
  }

  lemma CountedHits(metric: Metric, query: Vector, m: map<Id, Vector>, k: nat, want: nat, hits: seq<Ranked>)
    requires Gathers(Stored(metric, m), To(metric, query), hits) && |hits| == Min(want, |Stored(metric, m)|)
      && k <= want
    ensures Gathers(m, Dist(metric, query), hits) && Plenty(m, k, hits)
  {
    StoredHits(metric, query, m, hits);
    StoredSize(metric, m);
  }

  lemma AnswersGather(m: map<Id, Vector>, d: Vector -> real, r: seq<Ranked>)
    requires H.Answers(m, d, r)
    ensures Gathers(m, d, r)
  {
  }

  /** A segment under a filter: a few extra results make up for tombstones. */
  method GraphFiltered(g: H.HnswIndex, x: Source, metric: Metric, query: Vector, k: nat, ef: nat, allowed: set<Id>)
    returns (hits: seq<Ranked>)
    requires Serves(Graph(g), x, metric)
    ensures Gathers(Restrict(x.LiveData(), allowed), Dist(metric, query), hits)
    ensures Plenty(Restrict(x.LiveData(), allowed), k, hits)
    ensures Sees(Graph(g), x, Walking(k, ef)) ==> Backed(Restrict(x.LiveData(), allowed), Dist(metric, query), k, hits)
    ensures Offered(Graph(g), x, metric, query, Walking(k, ef), allowed, hits)
  {
    hide H.HnswIndex.Valid, H.HnswIndex.Contents, H.HnswIndex.Explores, H.HnswIndex.Spanned, H.NearestUpToTies;
    hide Stored, Restrict, Dist, Gathers, Plenty, Backed, GraphAnswers, Passing, Exact, H.HnswIndex.Kept, Offered;
    var want := k + Min(|x.tombs|, k);
    var allow := Passing(x.tombs, allowed);
    KeptPasses(g, x, metric, allowed, allow);
    var stats;
    hits, stats := g.SearchFiltered(query, want, Max(ef, want), allow, None);
    AnswersGather(g.Kept(allow), To(metric, query), hits);
    CountedHits(metric, query, Restrict(x.LiveData(), allowed), k, want, hits);
    if g.entry.Some? && want > 0 {
      WalkAnswers(g, x, metric, query, k, ef, allowed, stats.visited, hits);
    } else {
      AskedNothing(g, x, metric, query, Walking(k, ef), allowed, hits);
    }
    if g.Spanned(Max(ef, want)) {
      NearestBacked(g.Kept(allow), To(metric, query), want, k, hits);
      StoredBacked(metric, query, Restrict(x.LiveData(), allowed), k, hits);
    }
  }

  lemma KeptPasses(g: H.HnswIndex, x: Source, metric: Metric, allowed: set<Id>, allow: Id -> bool)
    requires Serves(Graph(g), x, metric) && allow == Passing(x.tombs, allowed)
    ensures g.Kept(allow) == Stored(metric, Restrict(x.LiveData(), allowed))
  {
    PassedRecords(metric, x, allowed, g.Contents());
  }

  /** A source in the filtering arm: the graph is walked under the filter, without a budget. */
  method Traversed(p: Part, x: Source, metric: Metric, query: Vector, k: nat, ef: nat, allowed: set<Id>)
    returns (hits: seq<Ranked>)
    requires Serves(p, x, metric)
    ensures Gathers(Restrict(x.LiveData(), allowed), Dist(metric, query), hits)
    ensures Plenty(Restrict(x.LiveData(), allowed), k, hits)
    ensures Sees(p, x, Walking(k, ef)) ==> Backed(Restrict(x.LiveData(), allowed), Dist(metric, query), k, hits)
    ensures Offered(p, x, metric, query, Walking(k, ef), allowed, hits)
  {
    match p {
      case Graph(g) => hits := GraphFiltered(g, x, metric, query, k, ef, allowed);
      case Flat(b) => hits := FlatFiltered(b, x, metric, query, k, allowed);
    }
  }

  /** A few extra results make up for tombstones. */
  method Fetched(p: Part, x: Source, metric: Metric, query: Vector, k: nat, ef: nat) returns (found: seq<Ranked>)
    requires Serves(p, x, metric)
    ensures Gathers(Stored(metric, x.data), To(metric, query), found)
    ensures Sees(p, x, Plain(k, ef)) ==>
      H.NearestUpToTies(Stored(metric, x.data), To(metric, query), k + |x.tombs|, found)
    ensures p.Graph? && p.g.entry.Some? && Asked(x, Plain(k, ef)) > 0 ==>
      GraphAnswers(p.g, x, metric, query, Plain(k, ef), {}, found)
    ensures p.Flat? ==> found == Exact(Stored(metric, x.data), To(metric, query), Asked(x, Plain(k, ef)))
  {
    hide GraphAnswers, Gathers, Serves, H.NearestUpToTies, Stored, H.HnswIndex.Spans, Exact;
    match p {
      case Graph(g) => found := FetchedFromGraph(g, x, metric, query, k, ef);
      case Flat(b) => found := FetchedFromFlat(b, x, metric, query, k + Min(|x.tombs|, k));
    }
  }

  method FetchedFromFlat(b: B.BruteForceIndex, x: Source, metric: Metric, query: Vector, want: nat)
    returns (found: seq<Ranked>)
    requires Serves(Flat(b), x, metric)
    ensures found == Exact(Stored(metric, x.data), To(metric, query), want)
    ensures Gathers(Stored(metric, x.data), To(metric, query), found)
    ensures H.NearestUpToTies(Stored(metric, x.data), To(metric, query), want, found)
  {
    var threshold: nat, threads: nat := *, *;
    found := b.Search(query, want, threshold, threads);
    hide H.NearestUpToTies, Gathers, B.BruteForceIndex.Valid;
    H.ExactNearest(Stored(metric, x.data), To(metric, query), want);
    ExactGathers(Stored(metric, x.data), To(metric, query), want);
  }

  method FetchedFromGraph(g: H.HnswIndex, x: Source, metric: Metric, query: Vector, k: nat, ef: nat)
    returns (found: seq<Ranked>)
    requires Serves(Graph(g), x, metric)
    ensures Gathers(Stored(metric, x.data), To(metric, query), found)
    ensures Sees(Graph(g), x, Plain(k, ef)) ==>
      H.NearestUpToTies(Stored(metric, x.data), To(metric, query), k + |x.tombs|, found)
    ensures g.entry.Some? && Asked(x, Plain(k, ef)) > 0 ==>
      GraphAnswers(g, x, metric, query, Plain(k, ef), {}, found)
  {
    hide H.HnswIndex.Valid, H.HnswIndex.Contents, H.HnswIndex.Covers, H.HnswIndex.Spanned, H.NearestUpToTies;
    hide Stored, Gathers, GraphAnswers;
    var want := k + Min(|x.tombs|, k);
    ghost var start;
    found, start := g.SearchWithEf(query, want, Max(ef, want));
    AnswersGather(Stored(metric, x.data), To(metric, query), found);
    if g.entry.Some? && want > 0 { PlainAnswers(g, x, metric, query, k, ef, found); }
  }

  lemma PlainAnswers(g: H.HnswIndex, x: Source, metric: Metric, query: Vector, k: nat, ef: nat, found: seq<Ranked>)
    requires var want := k + Min(|x.tombs|, k);
      g.Covers(metric.normal(query), Max(Max(ef, want), want), want, found)
    ensures GraphAnswers(g, x, metric, query, Plain(k, ef), {}, found)
  {
    hide H.HnswIndex.Covers, H.HnswIndex.Explores, Stored, Restrict;
  }

  lemma AskedNothing(g: H.HnswIndex, x: Source, metric: Metric, query: Vector, mode: Mode, allowed: set<Id>,
                     found: seq<Ranked>)
    requires g.entry.None? || Asked(x, mode) == 0
    ensures Offered(Graph(g), x, metric, query, mode, allowed, found)
  {
  }

  lemma WalkAnswers(g: H.HnswIndex, x: Source, metric: Metric, query: Vector, k: nat, ef: nat, allowed: set<Id>,
                    visits: nat, found: seq<Ranked>)
    requires var (want, m, q) := (k + Min(|x.tombs|, k), Restrict(x.LiveData(), allowed), metric.normal(query));
      || found == Exact(Stored(metric, m), To(metric, query), want)
      || g.Explores(q, Max(Max(ef, want), want), Passing(x.tombs, allowed), None, visits, want, found)
    ensures Offered(Graph(g), x, metric, query, Walking(k, ef), allowed, found)
  {
    hide H.HnswIndex.Explores, H.HnswIndex.Covers, Exact, Stored, Restrict, Passing, Offered;
    assert GraphAnswers(g, x, metric, query, Walking(k, ef), allowed, found);
    AnswersOffered(g, x, metric, query, Walking(k, ef), allowed, found);
  }

  lemma AnswersOffered(g: H.HnswIndex, x: Source, metric: Metric, query: Vector, mode: Mode, allowed: set<Id>,
                       found: seq<Ranked>)
    requires GraphAnswers(g, x, metric, query, mode, allowed, found)
    ensures Offered(Graph(g), x, metric, query, mode, allowed, found)
  {
    hide GraphAnswers;
    assert Handed(x, allowed, found, found);
  }

  /** A source in the unfiltered search: of what was fetched, what is live. */
  method Searched(p: Part, x: Source, metric: Metric, query: Vector, k: nat, ef: nat, ghost wanted: set<Id>)
    returns (hits: seq<Ranked>)
    requires Serves(p, x, metric)
    ensures Gathers(x.LiveData(), Dist(metric, query), hits)
    ensures Sees(p, x, Plain(k, ef)) ==> Backed(x.LiveData(), Dist(metric, query), k, hits)
    ensures Offered(p, x, metric, query, Plain(k, ef), wanted, hits)
  {
    hide Serves, Backed, H.NearestUpToTies, Dist, H.HnswIndex.Spans;
    var found := Fetched(p, x, metric, query, k, ef);
    ghost var full := Sees(p, x, Plain(k, ef));
    hits := Filter(found, x.tombs, {}, true, Stored(metric, x.data), To(metric, query));
    FilteredIs(metric, x, {}, Stored(metric, x.data));
    StoredHits(metric, query, x.LiveData(), hits);
    assert Handed(x, wanted, found, hits);
    if p.Graph? && p.g.entry.Some? && Asked(x, Plain(k, ef)) > 0 {
      assert GraphAnswers(p.g, x, metric, query, Plain(k, ef), wanted, found);
    }
    if full { PlainBacked(metric, query, x, k, found, hits); }
  }

  lemma LiveStored(metric: Metric, x: Source)
    ensures Living(Stored(metric, x.data), x.tombs) == Stored(metric, x.LiveData())
  {
  }

  lemma PlainBacked(metric: Metric, query: Vector, x: Source, k: nat, found: seq<Ranked>, hits: seq<Ranked>)
    requires H.NearestUpToTies(Stored(metric, x.data), To(metric, query), k + |x.tombs|, found)
    requires forall i, j :: 0 <= i < j < |hits| ==> hits[i].key != hits[j].key
    requires forall r :: r in hits <==> r in found && r.key !in x.tombs
    ensures Backed(x.LiveData(), Dist(metric, query), k, hits)
  {
    hide H.NearestUpToTies, Backed;
    FilteredBacked(Stored(metric, x.data), To(metric, query), k + |x.tombs|, k, x.tombs, found, hits);
    LiveStored(metric, x);
    StoredBacked(metric, query, x.LiveData(), k, hits);
  }

  // ---- All sources ----

  /** The live records of one more source are new ones. */
  lemma OneMoreSource(ls: seq<Source>, i: nat)
    requires UniqueLive(ls) && i < |ls|
    ensures LiveMap(ls[..i + 1]) == LiveMap(ls[..i]) + ls[i].LiveData()
    ensures LiveMap(ls[..i]).Keys !! ls[i].LiveData().Keys
  {
    assert ls[..i + 1][..i] == ls[..i];
    forall id | id in LiveMap(ls[..i]) ensures id !in ls[i].LiveData() {
      LiveMapMembers(ls[..i], id);
      var j :| 0 <= j < i && ls[..i][j].Live(id);
      assert ls[j].Live(id);
      assert id in ls[i].LiveData() <==> ls[i].Live(id);
    }
  }

  lemma RestrictUnion(a: map<Id, Vector>, b: map<Id, Vector>, allowed: set<Id>)
    requires a.Keys !! b.Keys
    ensures Restrict(a + b, allowed) == Restrict(a, allowed) + Restrict(b, allowed)
    ensures Restrict(a, allowed).Keys !! Restrict(b, allowed).Keys
  {
  }

  lemma UnionSize(a: map<Id, Vector>, b: map<Id, Vector>)
    requires a.Keys !! b.Keys
    ensures |a + b| == |a| + |b|
  {
    assert (a + b).Keys == a.Keys + b.Keys;
    assert |a.Keys + b.Keys| == |a.Keys| + |b.Keys|;
    assert |(a + b).Keys| == |a + b| && |a.Keys| == |a| && |b.Keys| == |b|;
  }

  lemma GathersUnion(a: map<Id, Vector>, b: map<Id, Vector>, d: Vector -> real, hits: seq<Ranked>, more: seq<Ranked>)
    requires a.Keys !! b.Keys && Gathers(a, d, hits) && Gathers(b, d, more)
    ensures Gathers(a + b, d, hits + more)
  {
  }

  lemma PlentyUnion(a: map<Id, Vector>, b: map<Id, Vector>, k: nat, hits: seq<Ranked>, more: seq<Ranked>)
    requires a.Keys !! b.Keys && Plenty(a, k, hits) && Plenty(b, k, more)
    ensures Plenty(a + b, k, hits + more)
  {
    UnionSize(a, b);
  }

  lemma BackedUnion(a: map<Id, Vector>, b: map<Id, Vector>, d: Vector -> real, k: nat, hits: seq<Ranked>,
                    more: seq<Ranked>)
    requires a.Keys !! b.Keys && Backed(a, d, k, hits) && Backed(b, d, k, more)
    ensures Backed(a + b, d, k, hits + more)
  {
    BackedGrows(a, d, k, hits, hits + more);
    BackedGrows(b, d, k, more, hits + more);
  }

  /** What one more source must leave out, it backs. */
  lemma SureBacked(m: map<Id, Vector>, sure: set<Id>, d: Vector -> real, k: nat, hits: seq<Ranked>)
    requires Backed(m, d, k, hits) || m.Keys !! sure
    ensures Backed(Restrict(m, sure), d, k, hits)
  {
  }

  lemma OneMoreBacked(ls: seq<Source>, i: nat, allowed: set<Id>, sure: set<Id>, d: Vector -> real, k: nat,
                      all: seq<Ranked>, hits: seq<Ranked>)
    requires UniqueLive(ls) && i < |ls|
    requires Backed(Restrict(Restrict(LiveMap(ls[..i]), allowed), sure), d, k, all)
    requires Backed(Restrict(ls[i].LiveData(), allowed), d, k, hits) || ls[i].LiveData().Keys !! sure
    ensures Backed(Restrict(Restrict(LiveMap(ls[..i + 1]), allowed), sure), d, k, all + hits)
  {
    hide Backed;
    OneMoreSource(ls, i);
    var a, b := LiveMap(ls[..i]), ls[i].LiveData();
    RestrictUnion(a, b, allowed);
    RestrictUnion(Restrict(a, allowed), Restrict(b, allowed), sure);
    SureBacked(Restrict(b, allowed), sure, d, k, hits);
    BackedUnion(Restrict(Restrict(a, allowed), sure), Restrict(Restrict(b, allowed), sure), d, k, all, hits);
  }

  lemma OneMorePassing(ls: seq<Source>, i: nat, allowed: set<Id>, d: Vector -> real, all: seq<Ranked>,
                       hits: seq<Ranked>)
    requires UniqueLive(ls) && i < |ls|
    requires Gathers(Restrict(LiveMap(ls[..i]), allowed), d, all)
      && Gathers(Restrict(ls[i].LiveData(), allowed), d, hits)
    ensures Gathers(Restrict(LiveMap(ls[..i + 1]), allowed), d, all + hits)
  {
    OneMoreSource(ls, i);
    RestrictUnion(LiveMap(ls[..i]), ls[i].LiveData(), allowed);
    GathersUnion(Restrict(LiveMap(ls[..i]), allowed), Restrict(ls[i].LiveData(), allowed), d, all, hits);
  }

  lemma OneMorePlenty(ls: seq<Source>, i: nat, allowed: set<Id>, k: nat, all: seq<Ranked>, hits: seq<Ranked>)
    requires UniqueLive(ls) && i < |ls|
    requires Plenty(Restrict(LiveMap(ls[..i]), allowed), k, all) && Plenty(Restrict(ls[i].LiveData(), allowed), k, hits)
    ensures Plenty(Restrict(LiveMap(ls[..i + 1]), allowed), k, all + hits)
  {
    OneMoreSource(ls, i);
    RestrictUnion(LiveMap(ls[..i]), ls[i].LiveData(), allowed);
    PlentyUnion(Restrict(LiveMap(ls[..i]), allowed), Restrict(ls[i].LiveData(), allowed), k, all, hits);
  }

  /** The over-fetching arm over all sources. */
  method OverFetchAll(parts: Parts, ls: seq<Source>, metric: Metric, query: Vector, k: nat, ef: nat, allowed: set<Id>)
    returns (all: seq<Ranked>)
    requires AllServe(parts, ls, metric) && UniqueLive(ls)
    ensures Gathers(Restrict(LiveMap(ls), allowed), Dist(metric, query), all)
    ensures var sure := Sure(parts, ls, Wide(ef));
      Backed(Restrict(Restrict(LiveMap(ls), allowed), sure), Dist(metric, query), k, all)
    ensures OfferedBelow(parts, ls, |ls|, metric, query, Wide(ef), allowed, all)
  {
    all := [];
    NoSourceYet(ls, allowed, Sure(parts, ls, Wide(ef)), Dist(metric, query), k);
    for i := 0 to |ls|
      invariant var m := Restrict(LiveMap(ls[..i]), allowed);
        Collected(m, Sure(parts, ls, Wide(ef)), Dist(metric, query), k, all)
      invariant OfferedBelow(parts, ls, i, metric, query, Wide(ef), allowed, all)
    {
      hide UniqueLive, Dist, Collected, Restrict, Sure, Sees, OfferedAt;
      all := OverFetchOne(parts, ls, i, metric, query, k, ef, allowed, all);
    }
    assert ls[..|ls|] == ls;
  }

  /** Distinct records of `m` at their true distances; of those that must be found, only backed ones are missing. */
  ghost predicate Collected(m: map<Id, Vector>, sure: set<Id>, d: Vector -> real, k: nat, all: seq<Ranked>) {
    Gathers(m, d, all) && Backed(Restrict(m, sure), d, k, all)
  }

  method OverFetchOne(parts: Parts, ls: seq<Source>, i: nat, metric: Metric, query: Vector, k: nat, ef: nat,
                      allowed: set<Id>, all: seq<Ranked>) returns (more: seq<Ranked>)
    requires i < |ls| == |parts.graphs| + |parts.flats| && Serves(PartAt(parts, i), ls[i], metric) && UniqueLive(ls)
    requires var m := Restrict(LiveMap(ls[..i]), allowed);
      Collected(m, Sure(parts, ls, Wide(ef)), Dist(metric, query), k, all)
    requires OfferedBelow(parts, ls, i, metric, query, Wide(ef), allowed, all)
    ensures var m := Restrict(LiveMap(ls[..i + 1]), allowed);
      Collected(m, Sure(parts, ls, Wide(ef)), Dist(metric, query), k, more)
    ensures OfferedBelow(parts, ls, i + 1, metric, query, Wide(ef), allowed, more)
  {
    hide UniqueLive, Dist, Gathers, Backed, Restrict, Sure, Sees, OfferedAt, GraphAnswers, Exact;
    var hits := OverFetched(PartAt(parts, i), ls[i], metric, query, k, ef, allowed);
    OneMorePassing(ls, i, allowed, Dist(metric, query), all, hits);
    SureSource(parts, ls, Wide(ef), i);
    OneMoreBacked(ls, i, allowed, Sure(parts, ls, Wide(ef)), Dist(metric, query), k, all, hits);
    OfferedNext(parts, ls, i, metric, query, Wide(ef), allowed, all, hits);
    more := all + hits;
  }

  /** The filtering arm over all sources: `k` matches, or every one there is. */
  method TraverseAll(parts: Parts, ls: seq<Source>, metric: Metric, query: Vector, k: nat, ef: nat, allowed: set<Id>)
    returns (all: seq<Ranked>)
    requires AllServe(parts, ls, metric) && UniqueLive(ls)
    ensures Gathers(Restrict(LiveMap(ls), allowed), Dist(metric, query), all)
    ensures Plenty(Restrict(LiveMap(ls), allowed), k, all)
    ensures var sure := Sure(parts, ls, Walking(k, ef));
      Backed(Restrict(Restrict(LiveMap(ls), allowed), sure), Dist(metric, query), k, all)
    ensures OfferedBelow(parts, ls, |ls|, metric, query, Walking(k, ef), allowed, all)
  {
    all := [];
    NoSourceYet(ls, allowed, Sure(parts, ls, Walking(k, ef)), Dist(metric, query), k);
    for i := 0 to |ls|
      invariant Enough(ls[..i], allowed, Sure(parts, ls, Walking(k, ef)), Dist(metric, query), k, all)
      invariant OfferedBelow(parts, ls, i, metric, query, Walking(k, ef), allowed, all)
    {
      hide UniqueLive, Dist, Enough, Sure, Sees, OfferedAt;
      all := TraverseOne(parts, ls, i, metric, query, k, ef, allowed, all);
    }
    assert ls[..|ls|] == ls;
  }

  /** Matches of the given sources, enough of them, and none left out without reason. */
  ghost predicate Enough(ls: seq<Source>, allowed: set<Id>, sure: set<Id>, d: Vector -> real, k: nat,
                         all: seq<Ranked>) {
    var m := Restrict(LiveMap(ls), allowed);
    Collected(m, sure, d, k, all) && Plenty(m, k, all)
  }

  lemma NoSourceYet(ls: seq<Source>, allowed: set<Id>, sure: set<Id>, d: Vector -> real, k: nat)
    ensures Enough(ls[..0], allowed, sure, d, k, [])
  {
    assert ls[..0] == [];
    assert Restrict(map[], allowed) == map[];
  }

  method TraverseOne(parts: Parts, ls: seq<Source>, i: nat, metric: Metric, query: Vector, k: nat, ef: nat,
                     allowed: set<Id>, all: seq<Ranked>) returns (more: seq<Ranked>)
    requires i < |ls| == |parts.graphs| + |parts.flats| && Serves(PartAt(parts, i), ls[i], metric) && UniqueLive(ls)
    requires Enough(ls[..i], allowed, Sure(parts, ls, Walking(k, ef)), Dist(metric, query), k, all)
    requires OfferedBelow(parts, ls, i, metric, query, Walking(k, ef), allowed, all)
    ensures Enough(ls[..i + 1], allowed, Sure(parts, ls, Walking(k, ef)), Dist(metric, query), k, more)
    ensures OfferedBelow(parts, ls, i + 1, metric, query, Walking(k, ef), allowed, more)
  {
    hide UniqueLive, Dist, Gathers, Plenty, Backed, Restrict, Sure, Sees, OfferedAt, GraphAnswers;
    var hits := Traversed(PartAt(parts, i), ls[i], metric, query, k, ef, allowed);
    SureSource(parts, ls, Walking(k, ef), i);
    OneMoreBacked(ls, i, allowed, Sure(parts, ls, Walking(k, ef)), Dist(metric, query), k, all, hits);
    OneMorePassing(ls, i, allowed, Dist(metric, query), all, hits);
    OneMorePlenty(ls, i, allowed, k, all, hits);
    OfferedNext(parts, ls, i, metric, query, Walking(k, ef), allowed, all, hits);
    more := all + hits;
  }

  /** The unfiltered search over all sources. */
  method SearchAll(parts: Parts, ls: seq<Source>, metric: Metric, query: Vector, k: nat,
                   ef: nat, ghost wanted: set<Id>) returns (all: seq<Ranked>)
    requires AllServe(parts, ls, metric) && UniqueLive(ls)
    ensures OfferedBelow(parts, ls, |ls|, metric, query, Plain(k, ef), wanted, all)
    ensures Gathers(LiveMap(ls), Dist(metric, query), all)
    ensures Backed(Restrict(LiveMap(ls), Sure(parts, ls, Plain(k, ef))), Dist(metric, query), k, all)
  {
    all := [];
    assert ls[..0] == [];
    for i := 0 to |ls|
      invariant Collected(LiveMap(ls[..i]), Sure(parts, ls, Plain(k, ef)), Dist(metric, query), k, all)
      invariant OfferedBelow(parts, ls, i, metric, query, Plain(k, ef), wanted, all)
    {
      hide UniqueLive, Dist, Collected, Sure, Sees, OfferedAt;
      all := SearchOne(parts, ls, i, metric, query, k, ef, wanted, all);
    }
    assert ls[..|ls|] == ls;
  }

  method SearchOne(parts: Parts, ls: seq<Source>, i: nat, metric: Metric, query: Vector, k: nat, ef: nat,
                   ghost wanted: set<Id>, all: seq<Ranked>) returns (more: seq<Ranked>)
    requires i < |ls| == |parts.graphs| + |parts.flats| && Serves(PartAt(parts, i), ls[i], metric) && UniqueLive(ls)
    requires Collected(LiveMap(ls[..i]), Sure(parts, ls, Plain(k, ef)), Dist(metric, query), k, all)
    requires OfferedBelow(parts, ls, i, metric, query, Plain(k, ef), wanted, all)
    ensures Collected(LiveMap(ls[..i + 1]), Sure(parts, ls, Plain(k, ef)), Dist(metric, query), k, more)
    ensures OfferedBelow(parts, ls, i + 1, metric, query, Plain(k, ef), wanted, more)
  {
    hide UniqueLive, Dist, Gathers, Backed, Restrict, Sure, Sees, OfferedAt, GraphAnswers, Exact;
    var hits := Searched(PartAt(parts, i), ls[i], metric, query, k, ef, wanted);
    OneMoreSource(ls, i);
    GathersUnion(LiveMap(ls[..i]), ls[i].LiveData(), Dist(metric, query), all, hits);
    SureSource(parts, ls, Plain(k, ef), i);
    ghost var sure := Sure(parts, ls, Plain(k, ef));
    RestrictUnion(LiveMap(ls[..i]), ls[i].LiveData(), sure);
    SureBacked(ls[i].LiveData(), sure, Dist(metric, query), k, hits);
    BackedUnion(Restrict(LiveMap(ls[..i]), sure), Restrict(ls[i].LiveData(), sure), Dist(metric, query), k, all, hits);
    OfferedNext(parts, ls, i, metric, query, Plain(k, ef), wanted, all, hits);
    more := all + hits;
  }
}
