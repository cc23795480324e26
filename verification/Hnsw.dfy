/** The HNSW index: insert, tombstone delete, compaction and the searches, over the layered graph. */
module Hnsw {
  import opened Prelude
  import opened TopK
  import opened ExactSearch
  import opened FlatBlock
  import opened LayerSearch
  import opened HnswGraph
  import opened Neighbors
  import opened Wiring
  import opened BruteForce

  /** Construction parameters. `tombstoneThreshold` is a ratio of deleted slots. */
  datatype Params = Params(m: nat, mMax0: nat, efConstruction: nat, efSearch: nat, tombstoneThreshold: real)

  /** What the paper asks of them; the degree bounds need the first conjunct. */
  predicate Sane(p: Params) { p.m <= p.mMax0 && p.efConstruction >= 1 }

  /** Distance from a query to a slot of the block. */
  function SlotDist(metric: Metric, data: seq<real>, dim: nat, n: nat, q: Vector): nat -> real {
    (s: nat) => if s < n && |data| == n * dim then metric.distance(q, At(data, dim, n, s)) else 0.0
  }

  /** Distance between two slots of the block. */
  function SlotNear(metric: Metric, data: seq<real>, dim: nat, n: nat): (nat, nat) -> real {
    (a: nat, b: nat) =>
      if a < n && b < n && |data| == n * dim then metric.distance(At(data, dim, n, a), At(data, dim, n, b))
      else 0.0
  }

  /** Live slots and the id table are inverse. */
  ghost predicate Table(ids: seq<Id>, deleted: seq<bool>, slotOf: map<Id, nat>) {
    && |deleted| == |ids|
    && (forall id :: id in slotOf ==> slotOf[id] < |ids| && ids[slotOf[id]] == id && !deleted[slotOf[id]])
    && (forall s: nat :: s < |ids| && !deleted[s] ==> ids[s] in slotOf && slotOf[ids[s]] == s)
  }

  function CountDeleted(deleted: seq<bool>): (c: nat)
    ensures c <= |deleted|
  {
    if |deleted| == 0 then 0
    else CountDeleted(deleted[..|deleted| - 1]) + if deleted[|deleted| - 1] then 1 else 0
  }

  /** The entry is a live node of maximal level, or absent exactly when nothing is live. */
  ghost predicate EntryOk(links: Links, deleted: seq<bool>, entry: Option<nat>) {
    match entry
    case None => forall s: nat :: s < |deleted| ==> deleted[s]
    case Some(e) =>
      && e < |links| && |deleted| == |links| && !deleted[e]
      && (forall s: nat :: s < |links| && !deleted[s] ==> |links[s]| <= |links[e]|)
  }

  /** Distinct records of `m` with their true distances, nearest first. */
  ghost predicate Answers(m: map<Id, Vector>, d: Vector -> real, r: seq<Ranked>) {
    && (forall i :: 0 <= i < |r| ==> r[i].key in m && r[i].dist == d(m[r[i].key]))
    && (forall i, j :: 0 <= i < j < |r| ==> r[i].key != r[j].key && r[i].dist <= r[j].dist)
  }

  /** The k nearest of `m`; among records at equal distance any may be chosen and in any order. */
  ghost predicate NearestUpToTies(m: map<Id, Vector>, d: Vector -> real, k: nat, r: seq<Ranked>) {
    && Answers(m, d, r) && |r| == Min(k, |m|)
    && (forall id :: id in m && !Has(r, id) ==> NoneFarther(r, d(m[id])))
  }

  ghost predicate NoneFarther(r: seq<Ranked>, dist: real) { forall i :: 0 <= i < |r| ==> r[i].dist <= dist }

  lemma PrefixNearest(m: map<Id, Vector>, d: Vector -> real, full: seq<Ranked>, k: nat)
    requires Answers(m, d, full) && forall id :: id in m ==> Has(full, id)
    ensures NearestUpToTies(m, d, k, Take(full, k))
  {
    var r := Take(full, k);
    ListingSize(m, d, full);
    forall id | id in m && !Has(r, id) ensures NoneFarther(r, d(m[id])) {
      LeftOutIsFarther(m, d, full, k, id);
    }
  }

  lemma LeftOutIsFarther(m: map<Id, Vector>, d: Vector -> real, full: seq<Ranked>, k: nat, id: Id)
    requires Answers(m, d, full) && id in m && Has(full, id) && !Has(Take(full, k), id)
    ensures NoneFarther(Take(full, k), d(m[id]))
  {
    var r := Take(full, k);
    var i :| 0 <= i < |full| && full[i].key == id;
    TakeAt(full, k, i);
    forall j | 0 <= j < |r| ensures r[j].dist <= d(m[id]) {
      assert r[j] == full[j] && full[i].dist == d(m[id]);
    }
  }

  lemma TakeAt(full: seq<Ranked>, k: nat, i: nat)
    requires i < |full|
    ensures i < |Take(full, k)| ==> Take(full, k)[i] == full[i] && Has(Take(full, k), full[i].key)
  {
  }

  lemma HasGrows(r: seq<Ranked>, x: Ranked)
    ensures Has(r + [x], x.key) && forall id :: Has(r, id) ==> Has(r + [x], id)
  {
    assert (r + [x])[|r|] == x;
    forall id | Has(r, id) ensures Has(r + [x], id) {
      var i :| 0 <= i < |r| && r[i].key == id;
      assert (r + [x])[i].key == id;
    }
  }

  /** An answer has at most as many entries as there are records. */
  lemma AnswersFit(m: map<Id, Vector>, d: Vector -> real, r: seq<Ranked>)
    requires Answers(m, d, r)
    ensures |r| <= |m|
  {
    PrefixKeys(r, |r|);
    assert FirstKeys(r, |r|) <= m.Keys;
    SubsetSize(FirstKeys(r, |r|), m.Keys);
    assert |m.Keys| == |m|;
  }

  /** Same distances position by position: the answer differs from the exact one only inside ties. */
  lemma {:induction false} TiesOnly(m: map<Id, Vector>, d: Vector -> real, k: nat, r: seq<Ranked>, i: nat)
    requires NearestUpToTies(m, d, k, r) && i < |r|
    ensures |Exact(m, d, k)| == |r| && Exact(m, d, k)[i].dist == r[i].dist
  {
    ExactMeans(m, d, k);
    var e := Exact(m, d, k);
    ExactNearest(m, d, k);
    NotCloser(m, d, k, r, e, i);
    NotCloser(m, d, k, e, r, i);
  }

  /** Without ties there is only one answer: the exact one. */
  lemma TieFreeIsExact(m: map<Id, Vector>, d: Vector -> real, k: nat, r: seq<Ranked>)
    requires NearestUpToTies(m, d, k, r)
    requires forall a, b :: a in m && b in m && d(m[a]) == d(m[b]) ==> a == b
    ensures r == Exact(m, d, k)
  {
    var e := Exact(m, d, k);
    ExactMeans(m, d, k);
    forall i | 0 <= i < |r| ensures r[i] == e[i] {
      TiesOnly(m, d, k, r, i);
      assert d(m[r[i].key]) == d(m[e[i].key]);
    }
  }

  lemma ExactNearest(m: map<Id, Vector>, d: Vector -> real, k: nat)
    ensures NearestUpToTies(m, d, k, Exact(m, d, k))
  {
    ExactMeans(m, d, k);
    var e := Exact(m, d, k);
    SortedByDistance(e);
    forall id | id in m && !Has(e, id) ensures NoneFarther(e, d(m[id])) {
      NotListed(e, id, d(m[id]));
      NoneLess(e, Ranked(id, d(m[id])));
    }
  }

  lemma SortedByDistance(e: seq<Ranked>)
    requires Sorted(e)
    ensures forall i, j :: 0 <= i < j < |e| ==> e[i].dist <= e[j].dist
  {
    forall i, j | 0 <= i < j < |e| ensures e[i].dist <= e[j].dist {
      assert !Less(e[j], e[i]);
    }
  }

  lemma NotListed(e: seq<Ranked>, id: Id, dist: real)
    requires !Has(e, id)
    ensures Ranked(id, dist) !in e
  {
  }

  lemma NoneLess(e: seq<Ranked>, y: Ranked)
    requires forall x :: x in e ==> !Less(y, x)
    ensures NoneFarther(e, y.dist)
  {
    forall i | 0 <= i < |e| ensures e[i].dist <= y.dist {
      assert e[i] in e;
    }
  }

  /** No position of one answer is nearer than the same position of another. */
  lemma NotCloser(m: map<Id, Vector>, d: Vector -> real, k: nat, r: seq<Ranked>, e: seq<Ranked>, i: nat)
    requires NearestUpToTies(m, d, k, r) && NearestUpToTies(m, d, k, e) && i < |r|
    ensures r[i].dist >= e[i].dist
  {
    if r[i].dist < e[i].dist {
      PrefixInside(m, d, k, r, e, i);
      PrefixKeys(r, i + 1);
      PrefixKeys(e, i);
      SubsetSize(FirstKeys(r, i + 1), FirstKeys(e, i));
    }
  }

  lemma PrefixInside(m: map<Id, Vector>, d: Vector -> real, k: nat, r: seq<Ranked>, e: seq<Ranked>, i: nat)
    requires NearestUpToTies(m, d, k, r) && NearestUpToTies(m, d, k, e) && i < |r| && r[i].dist < e[i].dist
    ensures FirstKeys(r, i + 1) <= FirstKeys(e, i)
  {
    forall j | 0 <= j <= i ensures r[j].key in FirstKeys(e, i) {
      NearerIsInside(m, d, k, r, e, i, j);
    }
  }

  lemma NearerIsInside(m: map<Id, Vector>, d: Vector -> real, k: nat, r: seq<Ranked>, e: seq<Ranked>, i: nat, j: nat)
    requires NearestUpToTies(m, d, k, r) && NearestUpToTies(m, d, k, e) && i < |r| && r[i].dist < e[i].dist && j <= i
    ensures r[j].key in FirstKeys(e, i)
  {
    assert j < i ==> r[j].dist <= r[i].dist;
    assert !(e[i].dist <= r[j].dist);
    assert !NoneFarther(e, r[j].dist);
    assert Has(e, r[j].key);
    var l :| 0 <= l < |e| && e[l].key == r[j].key;
    assert e[l].dist == r[j].dist;
    assert !(l > i) && l != i;
    KeyAmongFirst(e, i, l);
  }

  lemma KeyAmongFirst(e: seq<Ranked>, n: nat, l: nat)
    requires l < n <= |e|
    ensures e[l].key in FirstKeys(e, n)
  {
  }

  ghost function FirstKeys(r: seq<Ranked>, n: nat): set<nat>
    requires n <= |r|
  {
    set j | 0 <= j < n :: r[j].key
  }

  lemma {:induction false} PrefixKeys(r: seq<Ranked>, n: nat)
    requires n <= |r| && forall i, j :: 0 <= i < j < |r| ==> r[i].key != r[j].key
    ensures |FirstKeys(r, n)| == n
  {
    if n > 0 {
      PrefixKeys(r, n - 1);
      assert FirstKeys(r, n) == FirstKeys(r, n - 1) + {r[n - 1].key};
    }
  }

  lemma SubsetSize(a: set<nat>, b: set<nat>)
    requires a <= b
    ensures |a| <= |b|
  {
    assert |b - a| == |b| - |a|;
  }

  /** Every stored vector is already in normal form. */
  ghost predicate Normalised(metric: Metric, data: seq<real>, dim: nat, n: nat)
    requires |data| == n * dim
  {
    forall s: nat :: s < n ==> NormalAt(metric, data, dim, n, s)
  }

  ghost predicate NormalAt(metric: Metric, data: seq<real>, dim: nat, n: nat, s: nat)
    requires |data| == n * dim && s < n
  {
    metric.normal(At(data, dim, n, s)) == At(data, dim, n, s)
  }

  ghost function LiveRecords(data: seq<real>, dim: nat, n: nat, slotOf: map<Id, nat>): map<Id, Vector>
    requires |data| == n * dim && forall id :: id in slotOf ==> slotOf[id] < n
  {
    map id | id in slotOf :: At(data, dim, n, slotOf[id])
  }

  /** Traversal statistics of a filtered search. */
  datatype FilterStats = FilterStats(visited: nat, admitted: nat, fallbackUsed: bool, budgetExhausted: bool)

  class HnswIndex {
    const dim: nat
    const metric: Metric
    const params: Params
    var data: seq<real>
    var ids: seq<Id>
    var slotOf: map<Id, nat>
    var links: Links
    var entry: Option<nat>
    var deleted: seq<bool>
    var deletedCount: nat

    ghost predicate Valid()
      reads this
    {
      && Sane(params) && Proper(metric)
      && |data| == |ids| * dim && |links| == |ids|
      && Table(ids, deleted, slotOf) && deletedCount == CountDeleted(deleted)
      && Shape(links) && Bounded(links, params.m, params.mMax0)
      && EntryOk(links, deleted, entry)
      && Normalised(metric, data, dim, |ids|)
      && (Small(|ids|) ==> Knit(links, deleted))
    }

    /** So few slots that no list is ever pruned and every insert finds the whole graph. */
    predicate Small(n: nat) { n <= Min(params.m, params.efConstruction) + 1 }

    /** The index as a map: its live records. */
    ghost function Contents(): map<Id, Vector>
      reads this
      requires Valid()
    {
      LiveRecords(data, dim, |ids|, slotOf)
    }

    constructor (dim: nat, metric: Metric, params: Params)
      requires Sane(params) && Proper(metric)
      ensures Valid() && Contents() == map[] && ids == []
      ensures this.dim == dim && this.metric == metric && this.params == params
    {
      this.dim, this.metric, this.params := dim, metric, params;
      data, ids, slotOf, links, entry, deleted, deletedCount := [], [], map[], [], None, [], 0;
      KnitEmpty();
    }

    function DistTo(q: Vector): nat -> real
      reads this
    {
      SlotDist(metric, data, dim, |ids|, q)
    }

    /** A level of the exponential distribution: any natural number. */
    method RandomLevel() returns (level: nat)
    {
      level := *;
    }

    /** The greedy step of width 1: the nearest slot the search on a layer finds. */
    method Nearest(q: Vector, ep: nat, level: nat) returns (best: nat)
      requires Shape(links) && OnLevel(links, level, ep)
      ensures OnLevel(links, level, best) && Step(links, level, DistTo(q), _ => true, ep, best)
    {
      ShapeClosed(links, level);
      ghost var seen;
      var out, v, a;
      out, v, a, seen := SearchLayer(links, DistTo(q), [ep], 1, level, _ => true, None);
      assert ep in [ep] && ep in seen;
      assert ep !in Keys(out) ==> |out| == 1;
      best := out[0].key;
      assert best in Keys(out);
      assert Answered(links, level, [ep], 1, DistTo(q), _ => true, out);
    }

    function Near(): (nat, nat) -> real
      reads this
    {
      SlotNear(metric, data, dim, |ids|)
    }

    /** The insert of `slot`, at `q`. */
    function JoinOf(slot: nat, q: Vector): Joining
      reads this
    {
      Joining(slot, Near(), DistTo(q), params.m, params.mMax0, params.efConstruction)
    }

    /** The degree limit of a level. */
    function Limit(level: nat): nat { MaxLinks(params.m, params.mMax0, level) }

    /** Prunes a neighbour list that exceeds its limit, with the heuristic over the nearest-first list. */
    method ShrinkLinks(node: nat, level: nat)
      requires Shape(links) && OnLevel(links, level, node)
      modifies this`links
      ensures links == SetList(old(links), node, level, Shrunk(Near(), node, old(links)[node][level], Limit(level)))
      ensures ListOk(old(links), node, level, links[node][level]) && |links[node][level]| <= Limit(level)
    {
      var limit := Limit(level);
      var list := links[node][level];
      assert ListOk(links, node, level, list);
      ShrunkMeans(Near(), node, list, limit);
      if |list| <= limit {
        assert links[node][level := list] == links[node];
        assert links == SetList(links, node, level, list);
        return;
      }
      var near := Near();
      var cands := Sort(Ranks(list, near, node));
      SortedList(list, near, node);
      assert DistinctKeys(cands);
      var chosen := SelectNeighbors(near, cands, limit);
      links := SetList(links, node, level, chosen);
    }

    /** Links the new node both ways to one neighbour and prunes that neighbour's list. */
    method LinkOne(slot: nat, level: nat, nb: nat, ghost done: seq<nat>, ghost before: Links)
      requires Shape(links) && Bounded(links, params.m, params.mMax0) && Linking(links, slot, level, done)
      requires OnLevel(links, level, nb) && nb != slot && nb !in done
      requires |done| < Limit(level) && Rewired(before, links, slot, level, Near(), Limit(level), done)
      modifies this`links
      ensures Shape(links) && Bounded(links, params.m, params.mMax0) && Linking(links, slot, level, done + [nb])
      ensures Rewired(before, links, slot, level, Near(), Limit(level), done + [nb])
    {
      hide Rewired, Shrunk, Bounded;
      ghost var (was, list) := (links, Shrunk(Near(), nb, links[nb][level] + [slot], Limit(level)));
      LinkedKeeps(links, slot, level, done, nb);
      links := Linked(links, slot, level, nb);
      ShrinkLinks(nb, level);
      assert links == SetList(Linked(was, slot, level, nb), nb, level, list);
      SetListAt(Linked(was, slot, level, nb), nb, level, list);
      ShrunkKeeps(was, slot, level, done, nb, list, params.m, params.mMax0);
      RewiredMore(before, was, slot, level, Near(), Limit(level), done, nb);
    }

    /** The wide search of a layer and the neighbours the heuristic picks from it. */
    method PickNeighbors(q: Vector, slot: nat, level: nat, eps: seq<nat>)
      returns (neighbors: seq<nat>, found: seq<Ranked>)
      requires Sane(params) && Shape(links) && Untouched(links, slot, level)
      requires 1 <= |eps| <= params.efConstruction && slot !in eps
      requires forall e :: e in eps ==> OnLevel(links, level, e)
      ensures 1 <= |found| <= params.efConstruction && NewTo(links, level, slot, KeysOf(found))
      ensures Answered(links, level, eps, params.efConstruction, DistTo(q), _ => true, found)
      ensures neighbors == KeysOf(Chosen(Near(), found, params.m))
      ensures |neighbors| <= params.m && Distinct(neighbors) && NewTo(links, level, slot, neighbors)
    {
      ShapeClosed(links, level);
      ghost var seen;
      var out, v, a;
      out, v, a, seen := SearchLayer(links, DistTo(q), eps, params.efConstruction, level, _ => true, None);
      NotFoundYet(links, level, eps, slot);
      FoundSlots(links, level, eps, params.efConstruction, DistTo(q), seen, out, slot);
      var near := Near();
      neighbors := SelectNeighbors(near, out, params.m);
      ChosenSlots(near, out, params.m);
      found := out;
    }

    /** Links the new node to each picked neighbour in turn. */
    method LinkAll(slot: nat, level: nat, neighbors: seq<nat>)
      requires Sane(params) && Shape(links) && Bounded(links, params.m, params.mMax0)
      requires OnLevel(links, level, slot) && Untouched(links, slot, level)
      requires |neighbors| <= params.m && Distinct(neighbors) && NewTo(links, level, slot, neighbors)
      modifies this`links
      ensures Shape(links) && Bounded(links, params.m, params.mMax0) && Untouched(links, slot, level as int - 1)
      ensures Rewired(old(links), links, slot, level, Near(), Limit(level), neighbors)
    {
      for j := 0 to |neighbors|
        invariant Shape(links) && Bounded(links, params.m, params.mMax0)
        invariant Linking(links, slot, level, neighbors[..j])
        invariant Rewired(old(links), links, slot, level, Near(), Limit(level), neighbors[..j])
      {
        assert neighbors[j] in neighbors;
        LinkOne(slot, level, neighbors[j], neighbors[..j], old(links));
        assert neighbors[..j + 1] == neighbors[..j] + [neighbors[j]];
      }
      assert neighbors[..|neighbors|] == neighbors;
    }

    /** Phase 1 of an insert and the descent of every search: greedy steps from `top` down to above `stop`. */
    method Descend(q: Vector, start: nat, top: nat, stop: nat) returns (ep: nat)
      requires Shape(links) && OnLevel(links, top, start)
      ensures OnLevel(links, if stop < top then stop else top, ep)
      ensures ep == start || exists l: nat :: stop < l <= top && OnLevel(links, l, ep)
      ensures Descent(links, top, stop, DistTo(q), _ => true, start, ep)
    {
      hide Descent, Step, Shape;
      ep := start;
      var lc := top;
      DescentStart(links, top, Max(top, stop), DistTo(q), _ => true, start);
      while lc > stop
        invariant lc >= stop || lc == top
        invariant lc <= top && OnLevel(links, lc, ep)
        invariant ep == start || exists l: nat :: stop < l <= top && OnLevel(links, l, ep)
        invariant Descent(links, top, Max(lc, stop), DistTo(q), _ => true, start, ep)
      {
        ghost var from := ep;
        ep := Nearest(q, ep, lc);
        DescentMore(links, top, lc - 1, DistTo(q), _ => true, start, from, ep);
        lc := lc - 1;
      }
    }

    /** Both phases of an insert for a node already appended with empty lists. */
    method LinkNode(q: Vector, slot: nat, level: nat, start: nat)
      requires Sane(params) && Shape(links) && Bounded(links, params.m, params.mMax0)
      requires slot < |links| && |links[slot]| == level + 1 && Untouched(links, slot, level)
      requires start < |links| && start != slot
      modifies this`links
      ensures Shape(links) && Bounded(links, params.m, params.mMax0) && SameLevels(old(links), links)
      ensures Joined(old(links), links, JoinOf(slot, q), start, level)
    {
      hide Rounds, Between, Descent, Bounded, Untouched, Joined;
      var top := |links[start]| - 1;
      var ep := Descend(q, start, top, level);
      assert ep != slot;
      ghost var a := links;
      var high := Min(level, top);
      NotTouchedBelow(a, slot, level, high);
      ghost var founds := LinkLayers(q, slot, high, ep);
      BetweenLast(a, links, JoinOf(slot, q), start, level, ep, founds);
    }

    /** The second phase: from level `high` down. */
    method LinkLayers(q: Vector, slot: nat, high: nat, ep: nat) returns (ghost founds: seq<seq<Ranked>>)
      requires Sane(params) && Shape(links) && Bounded(links, params.m, params.mMax0)
      requires OnLevel(links, high, slot) && Untouched(links, slot, high) && OnLevel(links, high, ep) && ep != slot
      modifies this`links
      ensures Shape(links) && Bounded(links, params.m, params.mMax0) && SameLevels(old(links), links)
      ensures Between(old(links), links, JoinOf(slot, q), high, -1, ep, founds)
    {
      hide Rounds, Between, Bounded, Untouched, Shape;
      var eps, lc := [ep], high;
      ghost var (a, j) := (links, JoinOf(slot, q));
      founds := [];
      BetweenFirst(a, j, high, ep);
      while lc >= 0
        invariant -1 <= lc <= high && Between(a, links, j, high, lc, ep, founds) && SameLevels(a, links)
        invariant Shape(links) && Bounded(links, params.m, params.mMax0) && Untouched(links, slot, lc)
        invariant lc >= 0 ==> Frontier(slot, lc, eps) && eps == Starts(ep, founds, |founds|)
      {
        hide Frontier;
        assert OnLevel(links, lc, slot);
        ghost var found;
        eps, found := LinkLevel(q, slot, lc, eps, a, high, ep, founds);
        founds := founds + [found];
        lc := lc - 1;
      }
    }

    /** Where the search on a level starts from. */
    ghost predicate Frontier(slot: nat, level: nat, eps: seq<nat>)
      reads this
    {
      1 <= |eps| <= params.efConstruction && NewTo(links, level, slot, eps)
    }

    /** One level of the second phase; the next starts from everything found. */
    method LinkLevel(q: Vector, slot: nat, lc: nat, eps: seq<nat>, ghost a: Links, ghost high: nat, ghost ep: nat,
                     ghost founds: seq<seq<Ranked>>)
      returns (next: seq<nat>, ghost found: seq<Ranked>)
      requires Sane(params) && Shape(links) && Bounded(links, params.m, params.mMax0) && Untouched(links, slot, lc)
      requires Frontier(slot, lc, eps) && eps == Starts(ep, founds, |founds|) && OnLevel(links, lc, slot)
      requires lc <= high && Between(a, links, JoinOf(slot, q), high, lc, ep, founds) && SameLevels(a, links)
      modifies this`links
      ensures Shape(links) && Bounded(links, params.m, params.mMax0) && Untouched(links, slot, lc - 1)
      ensures Between(a, links, JoinOf(slot, q), high, lc - 1, ep, founds + [found]) && SameLevels(a, links)
      ensures next == Starts(ep, founds + [found], |founds| + 1) && (lc > 0 ==> Frontier(slot, lc - 1, next))
    {
      hide Between, Descent, Answered, Rewired, Chosen, Bounded, Shape, Untouched;
      ghost var b := links;
      var neighbors, hits := PickNeighbors(q, slot, lc, eps);
      LinkAll(slot, lc, neighbors);
      RoundPassed(a, b, links, JoinOf(slot, q), high, lc, ep, founds, hits);
      next, found := KeysOf(hits), hits;
    }

    /** The tables and the block grow by one live record; the graph by one isolated node. */
    method AppendNode(id: Id, v: Vector) returns (slot: nat, level: nat)
      requires Valid() && id !in slotOf && |v| == dim && metric.normal(v) == v
      modifies this
      ensures slot == old(|ids|) == |links| - 1 && |links| == |ids| && |data| == |ids| * dim
      ensures Table(ids, deleted, slotOf) && deletedCount == CountDeleted(deleted)
      ensures LiveRecords(data, dim, |ids|, slotOf) == old(Contents())[id := v]
      ensures deleted == old(deleted) + [false] && entry == old(entry)
      ensures Normalised(metric, data, dim, |ids|) && deletedCount == old(deletedCount)
      ensures Shape(links) && Bounded(links, params.m, params.mMax0) && Untouched(links, slot, level)
      ensures |links[slot]| == level + 1 && forall t: nat :: t < slot ==> links[t] == old(links)[t]
      ensures links == AddNode(old(links), level)
    {
      slot := |ids|;
      AppendedRecord(data, dim, ids, deleted, slotOf, id, v);
      AppendedNormal(metric, data, dim, |ids|, v);
      data, ids, deleted, slotOf := data + v, ids + [id], deleted + [false], slotOf[id := slot];
      level := RandomLevel();
      AddNodeKeeps(links, level, params.m, params.mMax0);
      links := AddNode(links, level);
    }

    /** INSERT (Algorithm 1). The level is drawn at random. */
    method Insert(id: Id, vector: Vector) returns (r: Status)
      requires Valid()
      modifies this
      ensures Valid()
      ensures r == if |vector| != dim then DimensionMismatch
                   else if id in old(Contents()) then DuplicateId else Ok
      ensures Contents() == if r.Ok? then old(Contents())[id := metric.normal(vector)] else old(Contents())
      ensures deletedCount == old(deletedCount)
      ensures r.Ok? ==> Extends(old(links), links, old(entry), JoinOf(old(|ids|), metric.normal(vector)))
      ensures r.Ok? && Small(|ids|) && old(AllConnected(links)) ==>
        AllConnected(links) == (old(entry).Some? || old(ids) == [])
    {
      if |vector| != dim { return DimensionMismatch; }
      if id in slotOf { return DuplicateId; }
      AttachNode(id, metric.normal(vector));
      return Ok;
    }

    method AttachNode(id: Id, v: Vector)
      requires Valid() && id !in slotOf && |v| == dim && metric.normal(v) == v
      modifies this
      ensures Valid() && Contents() == old(Contents())[id := v] && deletedCount == old(deletedCount)
      ensures Extends(old(links), links, old(entry), JoinOf(old(|ids|), v))
      ensures Small(|ids|) && old(AllConnected(links)) ==>
        AllConnected(links) == (old(entry).Some? || old(ids) == [])
    {
      hide Shape, Bounded, Table, Normalised, Untouched, AllConnected, Knit, AddNode, Extends, Joined, EntryOk;
      ghost var links0, entry0 := links, entry;
      var slot, level := AppendNode(id, v);
      assert deleted[..slot] == old(deleted);
      if entry.None? {
        FirstNode(slot, links0);
      } else {
        JoinGraph(v, slot, level, links0);
      }
      Extended(slot, v, level, links0, entry0, old(deleted));
    }

    /** The graph with the new node, seen as a step from the one without. */
    lemma Extended(slot: nat, v: Vector, level: nat, links0: Links, entry0: Option<nat>, deleted0: seq<bool>)
      requires Sane(params) && slot == |links0| == |deleted0| && EntryOk(links0, deleted0, entry0)
      requires entry0.None? ==> links == AddNode(links0, level)
      requires entry0.Some? ==> Ready(AddNode(links0, level), links, JoinOf(slot, v), level)
      requires entry0.Some? ==> Joined(AddNode(links0, level), links, JoinOf(slot, v), entry0.value, level)
      requires Small(slot) ==> Knit(links0, deleted0)
      ensures Extends(links0, links, entry0, JoinOf(slot, v))
      ensures Small(slot + 1) ==> Knit(links, deleted0 + [false])
      ensures Small(slot + 1) && AllConnected(links0) ==>
        AllConnected(links) == (entry0.Some? || slot == 0)
    {
      hide Ready, Joined, Knit, AllConnected, LinkedFrom;
      if entry0.None? {
        FirstExtends(links0, JoinOf(slot, v), level);
        KnitAlone(links0, deleted0, level);
      } else {
        JoinExtends(links0, links, entry0.value, JoinOf(slot, v), level);
        if Small(slot + 1) {
          KnitJoins(links0, links, deleted0, entry0.value, JoinOf(slot, v), level);
        }
      }
    }

    /** The only live node is the entry. */
    method FirstNode(slot: nat, ghost links0: Links)
      requires entry.None? && |links| == |deleted| == slot + 1 && |links0| == slot && !deleted[slot]
      requires EntryOk(links0, deleted[..slot], entry) && forall t: nat :: t < slot ==> links[t] == links0[t]
      modifies this`entry
      ensures EntryOk(links, deleted, entry) && entry == Some(slot)
    {
      EntryGrows(links0, deleted[..slot], None, links, slot);
      assert deleted == deleted[..slot] + [false];
      entry := Some(slot);
    }

    /** The new node is linked in from the entry down; it becomes the entry when it is the tallest. */
    method JoinGraph(v: Vector, slot: nat, level: nat, ghost links0: Links)
      requires Sane(params) && Proper(metric) && |data| == |ids| * dim && |v| == dim
      requires Shape(links) && Bounded(links, params.m, params.mMax0) && Untouched(links, slot, level)
      requires |links| == |ids| == slot + 1 && |links[slot]| == level + 1
      requires |links0| == slot && forall t: nat :: t < slot ==> links[t] == links0[t]
      requires |deleted| == slot + 1 && !deleted[slot] && entry.Some? && EntryOk(links0, deleted[..slot], entry)
      modifies this`links, this`entry
      ensures Shape(links) && Bounded(links, params.m, params.mMax0) && |links| == |ids|
      ensures EntryOk(links, deleted, entry)
      ensures Ready(old(links), links, JoinOf(slot, v), level)
        && Joined(old(links), links, JoinOf(slot, v), old(entry).value, level)
      ensures level >= |links0[old(entry).value]| ==> entry == Some(slot)
      ensures level < |links0[old(entry).value]| ==> entry == old(entry)
    {
      hide Joined, Bounded, Shape, Untouched;
      var e := entry.value;
      var top := |links[e]| - 1;
      LinkNode(v, slot, level, e);
      EntryGrows(links0, deleted[..slot], Some(e), links, slot);
      assert deleted == deleted[..slot] + [false];
      if level > top { entry := Some(slot); }
    }

    /** The highest-level live node becomes the entry; the last one on a tie; none if nothing is live. */
    method PickNewEntry()
      requires |deleted| == |ids| == |links|
      modifies this`entry
      ensures EntryOk(links, deleted, entry)
      ensures entry.Some? ==> forall t: nat :: entry.value < t < |ids| && !deleted[t] ==>
        |links[t]| < |links[entry.value]|
    {
      entry := None;
      for s := 0 to |ids|
        invariant match entry
          case None => forall t: nat :: t < s ==> deleted[t]
          case Some(e) =>
            && e < s && !deleted[e] && (forall t: nat :: t < s && !deleted[t] ==> |links[t]| <= |links[e]|)
            && (forall t: nat :: e < t < s && !deleted[t] ==> |links[t]| < |links[e]|)
      {
        if !deleted[s] && (entry.None? || |links[s]| >= |links[entry.value]|) {
          entry := Some(s);
        }
      }
    }

    /** Marks one record dead; it stays in the graph as a waypoint. */
    method Tombstone(id: Id)
      requires Valid() && id in slotOf
      modifies this
      ensures Valid() && Contents() == old(Contents()) - {id} && |ids| == old(|ids|) > 0
      ensures ids == old(ids) && links == old(links) && deletedCount == old(deletedCount) + 1
    {
      hide Knit, Shape, Bounded, Normalised, EntryOk;
      var slot := slotOf[id];
      if Small(|ids|) { KnitKept(links, deleted, slot); }
      BuriedRecord(data, dim, ids, deleted, slotOf, id);
      slotOf := slotOf - {id};
      deleted := deleted[slot := true];
      deletedCount := deletedCount + 1;
      if entry == Some(slot) {
        PickNewEntry();
      } else {
        EntryKept(links, old(deleted), entry, slot);
      }
    }

    /** DELETE: a tombstone, then a rebuild when too much of the graph is dead. */
    method Delete(id: Id) returns (r: Status)
      requires Valid()
      modifies this
      ensures Valid()
      ensures r == if id in old(Contents()) then Ok else NotFound
      ensures Contents() == old(Contents()) - {id}
      ensures r.Ok? ==> old(|ids|) > 0 && (deletedCount > 0 ==> |ids| > 0)
      ensures r.Ok? && deletedCount > 0 ==> deletedCount as real / |ids| as real < params.tombstoneThreshold
      ensures r.Ok? && (old(deletedCount) + 1) as real / old(|ids|) as real < params.tombstoneThreshold ==>
        ids == old(ids) && links == old(links) && deletedCount == old(deletedCount) + 1
      ensures r.Ok? && (old(deletedCount) + 1) as real / old(|ids|) as real >= params.tombstoneThreshold ==>
        deletedCount == 0 && forall s: nat :: s < |ids| ==> !deleted[s]
      ensures !r.Ok? ==> ids == old(ids) && links == old(links) && deletedCount == old(deletedCount)
    {
      if id !in slotOf { return NotFound; }
      Tombstone(id);
      var ratio := deletedCount as real / |ids| as real;
      if ratio >= params.tombstoneThreshold { Compact(); }
      return Ok;
    }

    /** COMPACT: a fresh index of the live records takes this one's place. */
    method Compact()
      requires Valid()
      modifies this
      ensures Valid() && Contents() == old(Contents())
      ensures deletedCount == 0 && forall s: nat :: s < |ids| ==> !deleted[s]
    {
      var rebuilt := Rebuilt();
      data, ids, slotOf := rebuilt.data, rebuilt.ids, rebuilt.slotOf;
      links, entry := rebuilt.links, rebuilt.entry;
      deleted, deletedCount := rebuilt.deleted, rebuilt.deletedCount;
      NoneDeleted(deleted);
    }

    /** A new index holding the live records, inserted in slot order. */
    method Rebuilt() returns (r: HnswIndex)
      requires Valid()
      ensures fresh(r) && r.Valid() && r.Contents() == Contents() && r.deletedCount == 0
      ensures r.dim == dim && r.metric == metric && r.params == params
    {
      hide Extends, AllConnected, Shape, Bounded, EntryOk, Knit;
      r := new HnswIndex(dim, metric, params);
      for slot := 0 to |ids|
        invariant fresh(r) && r.Valid() && r.deletedCount == 0
        invariant r.dim == dim && r.metric == metric && r.params == params
        invariant r.Contents() == LiveBelow(data, dim, |ids|, slotOf, slot)
      {
        LiveBelowStep(data, dim, ids, deleted, slotOf, slot);
        if !deleted[slot] {
          var v := At(data, dim, |ids|, slot);
          assert NormalAt(metric, data, dim, |ids|, slot);
          var status := r.Insert(ids[slot], v);
        }
      }
      assert LiveBelow(data, dim, |ids|, slotOf, |ids|) == Contents();
    }

    /** Which live records a query may return. */
    ghost function Kept(allow: Id -> bool): map<Id, Vector>
      reads this
      requires Valid()
    {
      map id | id in Contents() && allow(id) :: Contents()[id]
    }

    /** The first `k` slots of a search as records. */
    function Records(found: seq<Ranked>, k: nat): (r: seq<Ranked>)
      reads this
      requires forall i :: 0 <= i < |found| ==> found[i].key < |ids|
      ensures |r| == Min(k, |found|)
      ensures forall i :: 0 <= i < |r| ==> r[i] == Ranked(ids[found[i].key], found[i].dist)
    {
      seq(Min(k, |found|), i requires 0 <= i < Min(k, |found|) reads this
                             requires forall j :: 0 <= j < |found| ==> found[j].key < |ids|
                             => Ranked(ids[found[i].key], found[i].dist))
    }

    /** Slots that are live and allowed become distinct live records with their true distances, nearest first. */
    lemma RecordsAnswer(query: Vector, k: nat, allow: Id -> bool, found: seq<Ranked>)
      requires Valid() && Heap(found, DistTo(metric.normal(query)))
      requires forall i :: 0 <= i < |found| ==>
        found[i].key < |ids| && !deleted[found[i].key] && allow(ids[found[i].key])
      ensures Answers(Kept(allow), To(metric, query), Records(found, k))
    {
      var d := DistTo(metric.normal(query));
      var r := Records(found, k);
      forall i | 0 <= i < |r| ensures r[i].key in Kept(allow) && r[i].dist == To(metric, query)(Kept(allow)[r[i].key]) {
        assert found[i].dist == d(found[i].key);
        assert slotOf[ids[found[i].key]] == found[i].key;
      }
      forall i, j | 0 <= i < j < |r| ensures r[i].key != r[j].key && r[i].dist <= r[j].dist {
        assert found[i].key != found[j].key && !Less(found[j], found[i]);
        assert slotOf[ids[found[i].key]] == found[i].key && slotOf[ids[found[j].key]] == found[j].key;
      }
    }

    /** If the search found every allowed live slot, its first `k` records are the k nearest. */
    lemma RecordsNearest(query: Vector, k: nat, allow: Id -> bool, found: seq<Ranked>)
      requires Valid() && Heap(found, DistTo(metric.normal(query)))
      requires forall i :: 0 <= i < |found| ==>
        found[i].key < |ids| && !deleted[found[i].key] && allow(ids[found[i].key])
      requires forall s: nat :: s < |ids| && !deleted[s] && allow(ids[s]) ==> s in Keys(found)
      ensures NearestUpToTies(Kept(allow), To(metric, query), k, Records(found, k))
    {
      RecordsAnswer(query, |found|, allow, found);
      var full, m := Records(found, |found|), Kept(allow);
      forall id | id in m ensures Has(full, id) {
        assert slotOf[id] in Keys(found);
        var i :| 0 <= i < |found| && found[i].key == slotOf[id];
        assert full[i].key == id;
      }
      PrefixNearest(m, To(metric, query), full, k);
      assert Records(found, k) == Take(full, k);
    }

    /** The start of the base-layer search: greedy descent from the entry. */
    method FindStart(q: Vector, e: nat) returns (start: nat)
      requires Valid() && e < |links|
      ensures OnLevel(links, 0, start)
      ensures Descent(links, |links[e]| - 1, 0, DistTo(q), _ => true, e, start)
    {
      start := Descend(q, e, |links[e]| - 1, 0);
    }

    /** The live slots whose records are allowed. */
    function Admit(allow: Id -> bool): nat -> bool
      reads this
    {
      var (ids, deleted) := (this.ids, this.deleted);
      (s: nat) => s < |ids| && s < |deleted| && !deleted[s] && allow(ids[s])
    }

    /** Where a search starts on the base layer: the end of a greedy descent from the entry. */
    ghost predicate Start(q: Vector, start: nat)
      reads this
    {
      entry.Some? && entry.value < |links| && |links[entry.value]| >= 1
      && Descent(links, |links[entry.value]| - 1, 0, DistTo(q), _ => true, entry.value, start)
    }

    /** The first `k` records of what a search of this width finds on the base layer from the end of the descent. */
    ghost predicate Explores(q: Vector, width: nat, allow: Id -> bool, budget: Option<nat>, visits: nat, k: nat,
                             r: seq<Ranked>)
      reads this
    {
      exists start: nat, found: seq<Ranked> ::
        Start(q, start) && FoundFrom(q, width, allow, budget, visits, start, found) && r == Records(found, k)
    }

    /** The same for a search over everything that nothing cuts short. */
    ghost predicate Covers(q: Vector, width: nat, k: nat, r: seq<Ranked>)
      reads this
    {
      exists start: nat, found: seq<Ranked> ::
        Start(q, start) && FoundAround(q, width, start, found) && r == Records(found, k)
    }

    ghost predicate FoundAround(q: Vector, width: nat, start: nat, found: seq<Ranked>)
      reads this
    {
      && Answered(links, 0, [start], width, DistTo(q), Admit(_ => true), found)
      && forall i :: 0 <= i < |found| ==> found[i].key < |ids|
    }

    ghost predicate FoundFrom(q: Vector, width: nat, allow: Id -> bool, budget: Option<nat>, visits: nat, start: nat,
                              found: seq<Ranked>)
      reads this
    {
      && AnsweredWithin(links, 0, [start], width, DistTo(q), Admit(allow), budget, visits, found)
      && forall i :: 0 <= i < |found| ==> found[i].key < |ids|
    }

    /** The same, or so few slots that an insert always finds and links them all. */
    ghost predicate Spanned(width: nat)
      reads this
    {
      Spans(width) || (Small(|ids|) && |ids| <= width)
    }

    /** What a width spans is no more than it. */
    lemma SpansAll(width: nat)
      requires Valid() && Spanned(width)
      ensures |Contents()| <= width
    {
      if !Spans(width) {
        SlotsSize(|ids|);
        LiveInReach(Slots(|ids|));
      } else if |links| == 0 {
        assert Contents() == map[];
      } else {
        assert SpansFrom(0, width);
        LiveInReach(Reach(links, 0, [0]));
      }
    }

    lemma LiveInReach(reach: set<nat>)
      requires Valid() && forall s: nat :: s < |ids| && !deleted[s] ==> s in reach
      ensures |Contents()| <= |reach|
    {
      InjectiveSize(slotOf);
      SubsetSize(slotOf.Values, reach);
      assert Contents().Keys == slotOf.Keys;
      assert |Contents().Keys| == |Contents()| && |slotOf.Keys| == |slotOf|;
    }

    /** In a small index a search of this width covers everything. */
    lemma SmallSpans(q: Vector, start: nat, width: nat)
      requires Valid() && Start(q, start) && Small(|ids|) && |ids| <= width
      ensures SpansFrom(start, width)
    {
      hide Descent;
      MeshReach(links, deleted, DistTo(q), entry.value, start);
    }

    /** From wherever the descent ends, a search of this width covers the base layer and every live slot. */
    ghost predicate Spans(width: nat)
      reads this
    {
      forall e: nat :: e < |links| ==> SpansFrom(e, width)
    }

    ghost predicate SpansFrom(e: nat, width: nat)
      reads this
    {
      && |Reach(links, 0, [e])| <= width
      && forall s: nat :: s < |ids| && s < |deleted| && !deleted[s] ==> Reachable(links, 0, [e], s)
    }

    /** K-NN-SEARCH (Algorithm 5). `start` is where the base-layer search began. */
    method SearchWithEf(query: Vector, k: nat, ef: nat) returns (r: seq<Ranked>, ghost start: nat)
      requires Valid()
      ensures |r| <= k && Answers(Contents(), To(metric, query), r)
      ensures k > 0 && |Reach(links, 0, [start])| <= Max(ef, k)
        && (forall s: nat :: s < |ids| && !deleted[s] ==> Reachable(links, 0, [start], s))
        ==> NearestUpToTies(Contents(), To(metric, query), k, r)
      ensures Spanned(Max(ef, k)) ==> NearestUpToTies(Contents(), To(metric, query), k, r)
      ensures entry.Some? && k > 0 ==> Covers(metric.normal(query), Max(ef, k), k, r)
    {
      start := 0;
      if entry.None? {
        assert Contents() == map[];
        return [], 0;
      }
      if k == 0 { return [], 0; }
      var base := FindStart(metric.normal(query), entry.value);
      start := base;
      assert Start(metric.normal(query), start);
      CoveredFrom(metric.normal(query), start, Max(ef, k));
      r := SearchFrom(query, base, k, Max(ef, k));
    }

    /** The base-layer part of it, from where the descent ended. */
    method SearchFrom(query: Vector, start: nat, k: nat, width: nat) returns (r: seq<Ranked>)
      requires Valid() && OnLevel(links, 0, start) && 0 < k <= width && Start(metric.normal(query), start)
      ensures |r| <= k && Answers(Contents(), To(metric, query), r)
      ensures SpansFrom(start, width) ==> NearestUpToTies(Contents(), To(metric, query), k, r)
      ensures Covers(metric.normal(query), width, k, r)
    {
      hide Valid, LiveFound, Spanned, SpansFrom, FoundFrom, Start, Answers, Heap, Covers, Explores;
      var everyone: Id -> bool := _ => true;
      assert Kept(everyone) == Contents();
      var found, visits, admissions, seen := SearchBase(metric.normal(query), start, width, everyone, None);
      r := FirstRecords(query, start, k, width, everyone, None, visits, found);
      Uncut(metric.normal(query), width, visits, k, r);
    }

    /** Without a budget nothing cuts the search short. */
    lemma Uncut(q: Vector, width: nat, visits: nat, k: nat, r: seq<Ranked>)
      requires Explores(q, width, _ => true, None, visits, k, r)
      ensures Covers(q, width, k, r)
    {
      var start: nat, found: seq<Ranked> :|
        Start(q, start) && FoundFrom(q, width, _ => true, None, visits, start, found) && r == Records(found, k);
      assert FoundAround(q, width, start, found);
    }

    /** Distinct live slots that are allowed, with their distances, nearest first. */
    ghost predicate LiveFound(q: Vector, allow: Id -> bool, found: seq<Ranked>)
      reads this
      requires Valid()
    {
      && Heap(found, DistTo(q))
      && forall i :: 0 <= i < |found| ==>
           found[i].key < |ids| && !deleted[found[i].key] && allow(ids[found[i].key])
    }

    /** The wide search on the base layer: dead and disallowed slots are crossed but not returned. */
    method SearchBase(q: Vector, start: nat, ef: nat, allow: Id -> bool, budget: Option<nat>)
      returns (found: seq<Ranked>, visits: nat, admissions: nat, ghost seen: set<nat>)
      requires Valid() && OnLevel(links, 0, start) && ef >= 1
      ensures LiveFound(q, allow, found) && |found| <= ef
      ensures FoundFrom(q, ef, allow, budget, visits, start, found) && admissions <= visits
    {
      ShapeClosed(links, 0);
      found, visits, admissions, seen := SearchLayer(links, DistTo(q), [start], ef, 0, Admit(allow), budget);
      assert forall i :: 0 <= i < |found| ==> found[i].key in Keys(found);
    }

    /** The filtered search; without a budget it falls back to a linear scan when the graph yields fewer than `k`. */
    method SearchFiltered(query: Vector, k: nat, ef: nat, allow: Id -> bool, budget: Option<nat>)
      returns (r: seq<Ranked>, stats: FilterStats)
      requires Valid()
      ensures |r| <= k && Answers(Kept(allow), To(metric, query), r)
      ensures !stats.budgetExhausted ==> |r| == Min(k, |Kept(allow)|)
      ensures stats.budgetExhausted <==> entry.Some? && k > 0 && budget.Some? && stats.visited >= budget.value
      ensures stats.fallbackUsed ==> r == Exact(Kept(allow), To(metric, query), k)
      ensures budget.None? && Spanned(Max(ef, k)) ==> NearestUpToTies(Kept(allow), To(metric, query), k, r)
      ensures entry.Some? && k > 0 && !stats.fallbackUsed ==>
        Explores(metric.normal(query), Max(ef, k), allow, budget, stats.visited, k, r)
    {
      stats := FilterStats(0, 0, false, false);
      if entry.None? {
        assert Kept(allow) == map[];
        return [], stats;
      }
      if k == 0 { return [], stats; }
      var start := FindStart(metric.normal(query), entry.value);
      r, stats := FilteredFrom(query, start, k, ef, allow, budget);
    }

    /** The base-layer part of it, from where the descent ended. */
    method FilteredFrom(query: Vector, start: nat, k: nat, ef: nat, allow: Id -> bool, budget: Option<nat>)
      returns (r: seq<Ranked>, stats: FilterStats)
      requires Valid() && OnLevel(links, 0, start) && k > 0 && Start(metric.normal(query), start)
      ensures |r| <= k && Answers(Kept(allow), To(metric, query), r)
      ensures !stats.budgetExhausted ==> |r| == Min(k, |Kept(allow)|)
      ensures stats.budgetExhausted <==> budget.Some? && stats.visited >= budget.value
      ensures stats.fallbackUsed ==> r == Exact(Kept(allow), To(metric, query), k)
      ensures budget.None? && Spanned(Max(ef, k)) ==> NearestUpToTies(Kept(allow), To(metric, query), k, r)
      ensures !stats.fallbackUsed ==>
        Explores(metric.normal(query), Max(ef, k), allow, budget, stats.visited, k, r)
    {
      hide Valid, LiveFound, Explores, Spanned, SpansFrom, FoundFrom, Start, Answers, Heap;
      CoveredFrom(metric.normal(query), start, Max(ef, k));
      var found, visits, admissions, seen := SearchBase(metric.normal(query), start, Max(ef, k), allow, budget);
      stats := FilterStats(visits, admissions, false, budget.Some? && visits >= budget.value);
      if stats.budgetExhausted || |found| >= k {
        r := FirstRecords(query, start, k, ef, allow, budget, visits, found);
        return;
      }
      stats := stats.(fallbackUsed := true);
      r := ScanLive(query, k, allow);
      ExactNearest(Kept(allow), To(metric, query), k);
    }

    lemma CoveredFrom(q: Vector, start: nat, width: nat)
      requires Valid() && OnLevel(links, 0, start) && Start(q, start)
      ensures Spanned(width) ==> SpansFrom(start, width)
    {
      hide Descent, SpansFrom;
      if Small(|ids|) && |ids| <= width { SmallSpans(q, start, width); }
    }

    /** The first `k` of what a filtered search found. */
    method FirstRecords(query: Vector, ghost start: nat, k: nat, ghost ef: nat, ghost allow: Id -> bool,
                        ghost budget: Option<nat>, ghost visits: nat, found: seq<Ranked>)
      returns (r: seq<Ranked>)
      requires Valid() && Start(metric.normal(query), start) && k > 0
      requires LiveFound(metric.normal(query), allow, found)
      requires FoundFrom(metric.normal(query), Max(ef, k), allow, budget, visits, start, found)
      ensures |r| == Min(k, |found|) && Answers(Kept(allow), To(metric, query), r)
      ensures |found| >= k ==> |r| == Min(k, |Kept(allow)|)
      ensures budget.None? && SpansFrom(start, Max(ef, k)) ==> NearestUpToTies(Kept(allow), To(metric, query), k, r)
      ensures Explores(metric.normal(query), Max(ef, k), allow, budget, visits, k, r)
    {
      hide Descent, Shape, Bounded, Start, Knit, SpansFrom;
      RecordsAnswer(query, k, allow, found);
      r := Records(found, k);
      AnswersFit(Kept(allow), To(metric, query), r);
      if budget.None? && SpansFrom(start, Max(ef, k)) {
        FoundAll(metric.normal(query), Max(ef, k), allow, visits, start, found);
        RecordsNearest(query, k, allow, found);
      }
    }

    /** A width that covers the base layer finds every live slot that is allowed. */
    lemma FoundAll(q: Vector, width: nat, allow: Id -> bool, visits: nat, start: nat, found: seq<Ranked>)
      requires Valid() && FoundFrom(q, width, allow, None, visits, start, found) && SpansFrom(start, width)
      ensures forall s: nat :: s < |ids| && !deleted[s] && allow(ids[s]) ==> s in Keys(found)
    {
      AnsweredAll(links, 0, [start], width, DistTo(q), Admit(allow), found);
    }

    /** The fallback: rank every allowed live slot, sort, truncate. */
    method ScanLive(query: Vector, k: nat, allow: Id -> bool) returns (r: seq<Ranked>)
      requires Valid()
      ensures r == Exact(Kept(allow), To(metric, query), k) && |r| == Min(k, |Kept(allow)|)
      ensures Answers(Kept(allow), To(metric, query), r)
    {
      var d := To(metric, query);
      var all: seq<Ranked> := [];
      for s := 0 to |ids|
        invariant forall i :: 0 <= i < |all| ==>
          all[i].key in slotOf && slotOf[all[i].key] < s && allow(all[i].key)
          && all[i].dist == d(At(data, dim, |ids|, slotOf[all[i].key]))
        invariant forall i, j :: 0 <= i < j < |all| ==> all[i].key != all[j].key
        invariant forall t: nat :: t < s && !deleted[t] && allow(ids[t]) ==> Has(all, ids[t])
      {
        if !deleted[s] && allow(ids[s]) {
          HasGrows(all, Ranked(ids[s], d(At(data, dim, |ids|, s))));
          all := all + [Ranked(ids[s], d(At(data, dim, |ids|, s)))];
        }
      }
      forall id | id in Kept(allow) ensures exists i :: 0 <= i < |all| && all[i].key == id {
        assert Has(all, ids[slotOf[id]]);
      }
      AnyListing(Kept(allow), d, all, k);
      ExactNearest(Kept(allow), d, k);
      r := Take(Sort(all), k);
    }
  }

  /** Different ids in different slots. */
  lemma {:induction false} InjectiveSize(slotOf: map<Id, nat>)
    requires forall a, b :: a in slotOf && b in slotOf && slotOf[a] == slotOf[b] ==> a == b
    ensures |slotOf.Values| == |slotOf|
  {
    if |slotOf| > 0 {
      var id :| id in slotOf;
      var rest := slotOf - {id};
      InjectiveSize(rest);
      assert slotOf == rest[id := slotOf[id]];
      assert slotOf.Values == rest.Values + {slotOf[id]};
      assert slotOf[id] !in rest.Values;
    }
  }

  lemma {:induction false} CountFlip(deleted: seq<bool>, slot: nat)
    requires slot < |deleted| && !deleted[slot]
    ensures CountDeleted(deleted[slot := true]) == CountDeleted(deleted) + 1
  {
    var n := |deleted| - 1;
    if slot == n {
      assert deleted[slot := true][..n] == deleted[..n];
    } else {
      assert deleted[slot := true][..n] == deleted[..n][slot := true];
      CountFlip(deleted[..n], slot);
    }
  }

  lemma {:induction false} NoneDeleted(deleted: seq<bool>)
    ensures CountDeleted(deleted) == 0 ==> forall s: nat :: s < |deleted| ==> !deleted[s]
  {
    if |deleted| > 0 { NoneDeleted(deleted[..|deleted| - 1]); }
  }

  lemma AppendedNormal(metric: Metric, data: seq<real>, dim: nat, n: nat, v: Vector)
    requires |data| == n * dim && |v| == dim && Normalised(metric, data, dim, n) && metric.normal(v) == v
    ensures |data + v| == (n + 1) * dim && Normalised(metric, data + v, dim, n + 1)
  {
    RowAppend(data, dim, n, v, n);
    var grown, rows := data + v, n + 1;
    forall s: nat | s < rows ensures NormalAt(metric, grown, dim, rows, s) {
      RowAppend(data, dim, n, v, s);
      if s < n { assert NormalAt(metric, data, dim, n, s) && At(grown, dim, rows, s) == At(data, dim, n, s); }
    }
  }

  /** The live records among the first `k` slots. */
  ghost function LiveBelow(data: seq<real>, dim: nat, n: nat, slotOf: map<Id, nat>, k: nat): map<Id, Vector>
    requires |data| == n * dim && forall id :: id in slotOf ==> slotOf[id] < n
  {
    map id | id in slotOf && slotOf[id] < k :: At(data, dim, n, slotOf[id])
  }

  lemma LiveBelowStep(data: seq<real>, dim: nat, ids: seq<Id>, deleted: seq<bool>, slotOf: map<Id, nat>, k: nat)
    requires |data| == |ids| * dim && Table(ids, deleted, slotOf) && k < |ids|
    ensures var m := LiveBelow(data, dim, |ids|, slotOf, k);
      && (!deleted[k] ==> ids[k] !in m)
      && LiveBelow(data, dim, |ids|, slotOf, k + 1) == if deleted[k] then m else m[ids[k] := At(data, dim, |ids|, k)]
  {
  }

  /** Removing one live record from the tables. */
  lemma BuriedRecord(data: seq<real>, dim: nat, ids: seq<Id>, deleted: seq<bool>, slotOf: map<Id, nat>, id: Id)
    requires |data| == |ids| * dim && Table(ids, deleted, slotOf) && id in slotOf
    ensures Table(ids, deleted[slotOf[id] := true], slotOf - {id})
    ensures CountDeleted(deleted[slotOf[id] := true]) == CountDeleted(deleted) + 1
    ensures LiveRecords(data, dim, |ids|, slotOf - {id}) == LiveRecords(data, dim, |ids|, slotOf) - {id}
  {
    CountFlip(deleted, slotOf[id]);
  }

  lemma EntryKept(links: Links, deleted: seq<bool>, entry: Option<nat>, slot: nat)
    requires EntryOk(links, deleted, entry) && slot < |deleted| && entry != Some(slot)
    ensures EntryOk(links, deleted[slot := true], entry)
  {
  }

  /** The entry after a node of `slot`'s height joined. */
  lemma EntryGrows(before: Links, deleted: seq<bool>, entry: Option<nat>, links: Links, slot: nat)
    requires |deleted| == |before| == slot && EntryOk(before, deleted, entry)
    requires |links| == slot + 1 && forall t: nat :: t < slot ==> |links[t]| == |before[t]|
    ensures EntryOk(links, deleted + [false],
      if entry.None? || |links[slot]| > |before[entry.value]| then Some(slot) else entry)
  {
  }

  /** Appending one live record to the block and the tables. */
  lemma AppendedRecord(data: seq<real>, dim: nat, ids: seq<Id>, deleted: seq<bool>, slotOf: map<Id, nat>,
                       id: Id, v: Vector)
    requires |data| == |ids| * dim && Table(ids, deleted, slotOf) && id !in slotOf && |v| == dim
    ensures |data + v| == |ids + [id]| * dim && Table(ids + [id], deleted + [false], slotOf[id := |ids|])
    ensures CountDeleted(deleted + [false]) == CountDeleted(deleted)
    ensures LiveRecords(data + v, dim, |ids| + 1, slotOf[id := |ids|])
         == LiveRecords(data, dim, |ids|, slotOf)[id := v]
  {
    RowAppend(data, dim, |ids|, v, |ids|);
    forall k | k in slotOf ensures At(data + v, dim, |ids| + 1, slotOf[k]) == At(data, dim, |ids|, slotOf[k]) {
      RowAppend(data, dim, |ids|, v, slotOf[k]);
    }
    assert (deleted + [false])[..|deleted|] == deleted;
  }

  /** Slots of a level other than `slot`. */
  ghost predicate NewTo(links: Links, level: nat, slot: nat, s: seq<nat>) {
    forall e :: e in s ==> OnLevel(links, level, e) && e != slot
  }

  /** An edit that keeps every node and its height. */
  ghost predicate SameLevels(a: Links, b: Links) {
    |a| == |b| && forall t: nat :: t < |a| ==> |a[t]| == |b[t]|
  }

  lemma FoundSlots(links: Links, level: nat, eps: seq<nat>, ef: nat, d: nat -> real,
                   seen: set<nat>, out: seq<Ranked>, slot: nat)
    requires |eps| >= 1 && ef >= 1 && !Reachable(links, level, eps, slot)
    requires Found(links, level, eps, ef, d, _ => true, seen, out)
    requires |eps| <= ef && Optimal(links, level, ef, d, _ => true, seen, out)
    ensures 1 <= |out| <= ef && DistinctKeys(out)
    ensures forall i :: 0 <= i < |out| ==> OnLevel(links, level, out[i].key) && out[i].key != slot
  {
    assert eps[0] in eps && eps[0] in seen;
    assert eps[0] !in Keys(out) ==> |out| == ef;
    forall i | 0 <= i < |out| ensures OnLevel(links, level, out[i].key) && out[i].key != slot {
      assert out[i].key in Keys(out);
    }
  }
}
