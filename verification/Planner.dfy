/**
 * Filtered search: the cardinality estimate, the choice of an arm, the exact scan over the layers of
 * the store, and what each arm's answer is worth.
 */
module Planner {
  import opened Prelude
  import opened Meta
  import opened TopK
  import opened ExactSearch
  import opened Store
  import opened StoreInvariants
  import opened StoreWorkers
  import opened StoreHiding
  import opened StoreReads
  import opened SourceSearch
  import H = Hnsw
  import MS = MetaStore
  import Numeric
  import opened Derived

  /** Planner thresholds. */
  datatype Config = Config(scanFactor: nat, scanFraction: real, overfetchBeta: real, overfetchCap: nat)

  const DEFAULT: Config := Config(16, 0.05, 5.0, 8)

  /** Fractions are not negative and the cap leaves room for the minimum width. */
  predicate Sensible(c: Config) { c.scanFraction >= 0.0 && c.overfetchBeta >= 0.0 && c.overfetchCap >= 1 }

  /** The width of the over-fetching graph search: inversely proportional to the estimated share, within bounds. */
  function Width(c: Config, efSearch: nat, k: nat, sHat: real): (ef: nat)
    requires Sensible(c) && sHat > 0.0
    ensures 2 * k <= ef && efSearch <= ef <= Max(c.overfetchCap * efSearch, 4 * k)
    ensures ef <= Max(efSearch, 2 * k) || ef as real <= c.overfetchBeta * k as real / sHat
    ensures ef >= Max(c.overfetchCap * efSearch, 4 * k) || c.overfetchBeta * k as real / sHat < ef as real + 1.0
  {
    var low, high := Max(efSearch, 2 * k), Max(c.overfetchCap * efSearch, 4 * k);
    CapLeavesRoom(efSearch, c.overfetchCap);
    Min(Max((c.overfetchBeta * k as real / sHat).Floor, low), high)
  }

  lemma CapLeavesRoom(width: nat, cap: nat)
    requires cap >= 1
    ensures width <= cap * width
  {
  }

  datatype Fallback = Ids(ids: seq<Id>) | RangeOf(key: string, lo: Bound, hi: Bound)

  datatype Arm = Empty | Scan(ids: seq<Id>) | Post(sHat: real, fallback: Fallback) | Legacy

  /** Range endpoints are in order; the range walk of the ordered map demands it. */
  ghost predicate OrderedRanges(f: Filter) {
    forall i :: 0 <= i < |f| && f[i].Range? ==> Le(f[i].min, f[i].max)
  }

  /** Integers convert to floating point exactly. */
  ghost predicate ExactData(metas: map<Id, Metadata>, f: Filter) {
    && (forall id, k :: id in metas && k in metas[id] ==> Meta.Exact(metas[id][k]))
    && (forall i :: 0 <= i < |f| && f[i].Eq? ==> Meta.Exact(f[i].value))
  }

  ghost predicate NoRepeats(ids: seq<Id>) {
    forall i, j :: 0 <= i < j < |ids| ==> ids[i] != ids[j]
  }

  /** The ids satisfying predicate `p`, as a duplicate-free list. */
  ghost predicate ListsMatches(metas: map<Id, Metadata>, p: Predicate, ids: seq<Id>) {
    NoRepeats(ids) && forall id :: id in ids <==> id in metas && Satisfies(p, FieldOf(metas[id], p.key))
  }

  /** `ids` lists what one Eq predicate matches in the posting lists, or one Range in the numeric fields. */
  ghost predicate OffersEq(posted: map<Id, Metadata>, f: Filter, ids: seq<Id>) {
    exists i :: 0 <= i < |f| && f[i].Eq? && ListsMatches(posted, f[i], ids)
  }

  ghost predicate OffersRange(ranged: map<Id, Metadata>, f: Filter, ids: seq<Id>) {
    exists i :: 0 <= i < |f| && f[i].Range? && ListsMatches(ranged, f[i], ids)
  }

  /** A candidate list; posting lists and numeric fields may be out of step while a record is written. */
  ghost predicate Offers(posted: map<Id, Metadata>, ranged: map<Id, Metadata>, f: Filter, ids: seq<Id>) {
    OffersEq(posted, f, ids) || OffersRange(ranged, f, ids)
  }

  lemma EqList(postings: map<PostingKey, seq<Id>>, metas: map<Id, Metadata>, f: Filter, i: nat)
    requires PostingsOk(postings, metas) && ExactData(metas, f) && i < |f| && f[i].Eq?
    ensures ListsMatches(metas, f[i], ListOf(postings, (f[i].key, Key(f[i].value))))
  {
    var k: PostingKey := (f[i].key, Key(f[i].value));
    assert Ascending(ListOf(postings, k));
    forall id ensures id in ListOf(postings, k) <==> id in metas && Satisfies(f[i], FieldOf(metas[id], f[i].key)) {
      assert id in ListOf(postings, k) <==> Belongs(metas, k, id);
      if id in metas && f[i].key in metas[id] { KeyIsEquality(metas[id][f[i].key], f[i].value); }
    }
  }

  lemma {:induction false} MatchingDistinct(s: seq<Numeric.Entry>, lo: Bound, hi: Bound)
    requires forall i, j :: 0 <= i < j < |s| ==> s[i].id != s[j].id
    ensures NoRepeats(Numeric.Matching(s, lo, hi))
  {
    if |s| > 0 {
      var n := |s| - 1;
      MatchingDistinct(s[..n], lo, hi);
      Numeric.MatchingMembers(s[..n], lo, hi, s[n].id);
    }
  }

  lemma Once(s: seq<Numeric.Entry>, i: nat, j: nat)
    requires i < j < |s| && multiset(s)[s[i]] <= 1
    ensures s[i] != s[j]
  {
    assert s == s[..j] + s[j..];
    assert s[i] == s[..j][i] && s[j] == s[j..][0];
    assert s[i] in s[..j] && s[j] in s[j..];
  }

  lemma RangeList(s: seq<Numeric.Entry>, metas: map<Id, Metadata>, f: Filter, i: nat)
    requires i < |f| && f[i].Range? && PairsOk(multiset(s), metas, f[i].key)
    ensures ListsMatches(metas, f[i], Numeric.Matching(s, f[i].min, f[i].max))
  {
    var p := f[i];
    forall a, b | 0 <= a < b < |s| ensures s[a].id != s[b].id {
      assert s[a] in multiset(s) && s[b] in multiset(s);
      assert Carries(metas, p.key, s[a]) && Carries(metas, p.key, s[b]);
      Once(s, a, b);
    }
    MatchingDistinct(s, p.min, p.max);
    forall id ensures id in Numeric.Matching(s, p.min, p.max)
      <==> id in metas && Satisfies(p, FieldOf(metas[id], p.key))
    {
      Numeric.MatchingMembers(s, p.min, p.max, id);
      if id in metas && Satisfies(p, FieldOf(metas[id], p.key)) {
        var e := Numeric.Entry(AsNumber(metas[id][p.key]).value, id);
        assert Carries(metas, p.key, e);
        assert e in multiset(s);
        assert e in s;
      }
      if e :| e in s && e.id == id && In(e.value, p.min, p.max) {
        assert e in multiset(s);
        assert Carries(metas, p.key, e);
      }
    }
  }

  /** The smallest posting list among the Eq predicates; an Eq value nobody has makes it empty. */
  method Estimate(ix: MetadataIndex, f: Filter) returns (r: Option<seq<Id>>)
    requires ix.Valid() && ExactData(ix.posted, f)
    ensures r.None? <==> forall i :: 0 <= i < |f| ==> f[i].Range?
    ensures r.Some? ==> OffersEq(ix.posted, f, r.value)
    ensures r.Some? ==> forall i :: 0 <= i < |f| && f[i].Eq? ==> |r.value| <= |Carriers(ix.posted, f[i])|
  {
    r := None;
    for i := 0 to |f|
      invariant r.None? <==> forall j :: 0 <= j < i ==> f[j].Range?
      invariant r.Some? ==> OffersEq(ix.posted, f, r.value)
      invariant r.Some? ==> forall j :: 0 <= j < i && f[j].Eq? ==> |r.value| <= |Carriers(ix.posted, f[j])|
    {
      if f[i].Eq? {
        var k := (f[i].key, Key(f[i].value));
        EqList(ix.postings, ix.posted, f, i);
        MatchesSize(ix.posted, f[i], ListOf(ix.postings, k));
        if k !in ix.postings {
          assert f[i].Eq?;
          return Some([]);
        }
        if r.None? || |ix.postings[k]| < |r.value| {
          r := Some(ix.postings[k]);
        }
      }
    }
  }

  /** `(fraction * n) as usize`. */
  function Share(fraction: real, n: nat): (r: nat)
    requires fraction >= 0.0
    ensures r as real <= fraction * n as real < r as real + 1.0
  {
    (fraction * n as real).Floor
  }

  function Clamp(x: real, lo: real, hi: real): real { if x < lo then lo else if x > hi then hi else x }

  /** Up to so many candidates are scanned. */
  function ScanLimit(config: Config, k: nat, n: nat): nat
    requires Sensible(config)
  {
    Max(config.scanFactor * k, Share(config.scanFraction, n))
  }

  /** A predicate whose matches can be counted: an Eq, or a Range on an indexed field. */
  ghost predicate Countable(ix: MetadataIndex, f: Filter, i: nat)
    reads ix
  {
    i < |f| && (f[i].Eq? || Indexed(ix, f, i))
  }

  /** How many records it matches. */
  ghost function MatchCount(ix: MetadataIndex, f: Filter, i: nat): nat
    requires i < |f|
    reads ix
  {
    |Carriers(if f[i].Eq? then ix.posted else ix.ranged, f[i])|
  }

  /**
   * The decision is exact: scanned are at most `limit` candidates, and only when every countable predicate
   * matches more is the graph searched. The assumed share is no less than that of the rarest countable
   * predicate, and no more than that of any Eq.
   */
  ghost predicate Decided(ix: MetadataIndex, f: Filter, limit: nat, n: nat, arm: Arm)
    requires n > 0
    reads ix
  {
    match arm
    case Empty => true
    case Scan(ids) => |ids| <= limit
    case Post(sHat, _) =>
      (forall i: nat :: Countable(ix, f, i) ==> MatchCount(ix, f, i) > limit) && ShareWithin(ix, f, n, sHat)
    case Legacy => forall i: nat :: !Countable(ix, f, i)
  }

  /** No less than the share of some countable predicate, and no more than that of any Eq. */
  ghost predicate ShareWithin(ix: MetadataIndex, f: Filter, n: nat, sHat: real)
    requires n > 0
    reads ix
  {
    && (exists i: nat :: Countable(ix, f, i) && ShareOf(MatchCount(ix, f, i), n) <= sHat)
    && (forall i: nat :: i < |f| && f[i].Eq? ==> sHat <= ShareOf(MatchCount(ix, f, i), n))
  }

  /** The width follows from such a share. */
  ghost predicate FitsShare(ix: MetadataIndex, f: Filter, n: nat, config: Config, efSearch: nat, k: nat, ef: nat)
    reads ix
  {
    n > 0 && Sensible(config)
    && exists sHat: real :: sHat > 0.0 && ShareWithin(ix, f, n, sHat) && ef == Width(config, efSearch, k, sHat)
  }

  /** A share of `n`, kept away from zero. */
  function ShareOf(count: nat, n: nat): real
    requires n > 0
  {
    Clamp(count as real / n as real, 0.000001, 1.0)
  }

  lemma ShareGrows(a: nat, b: nat, n: nat)
    requires n > 0 && a <= b
    ensures ShareOf(a, n) <= ShareOf(b, n)
  {
    Numeric.Monotone(n as real, a as real, b as real);
  }

  lemma MatchesSize(metas: map<Id, Metadata>, p: Predicate, ids: seq<Id>)
    requires ListsMatches(metas, p, ids)
    ensures |ids| == |Carriers(metas, p)|
  {
    ListSize(ids, Carriers(metas, p));
  }

  /** A range predicate on an indexed field, with its upper estimate. */
  datatype RangeSource = RangeSource(index: nat, upper: nat)

  ghost predicate Indexed(ix: MetadataIndex, f: Filter, i: nat)
    reads ix
  {
    i < |f| && f[i].Range? && f[i].key in ix.numeric
  }

  /** The upper bound of a range estimate is zero only when nothing matches. */
  lemma NothingInRange(s: seq<Numeric.Entry>, metas: map<Id, Metadata>, f: Filter, i: nat)
    requires i < |f| && f[i].Range? && PairsOk(multiset(s), metas, f[i].key)
    requires Numeric.Count(s, Numeric.InRange(f[i].min, f[i].max)) == 0
    ensures OffersRange(metas, f, [])
  {
    RangeList(s, metas, f, i);
    Numeric.MatchingCounts(s, f[i].min, f[i].max);
  }

  /** What one range predicate contributes: an upper bound, and the exact ids when they are few. */
  method AskRange(ix: MetadataIndex, f: Filter, i: nat, limit: nat, wanted: bool)
    returns (upper: nat, ids: Option<seq<Id>>)
    requires ix.Valid() && OrderedRanges(f) && Indexed(ix, f, i)
    ensures upper == 0 ==> OffersRange(ix.ranged, f, [])
    ensures ids.Some? ==> OffersRange(ix.ranged, f, ids.value) && |ids.value| <= limit
    ensures MatchCount(ix, f, i) <= upper && (wanted && ids.None? && upper > 0 ==> MatchCount(ix, f, i) > limit)
  {
    var p := f[i];
    var fi := ix.numeric[p.key];
    ghost var s := Numeric.Flat(fi.sorted);
    assert PairsOk(ix.Bag(p.key), ix.ranged, p.key);
    RangeList(s, ix.ranged, f, i);
    MatchesSize(ix.ranged, p, Numeric.Matching(s, p.min, p.max));
    Numeric.MatchingCounts(s, p.min, p.max);
    var lower;
    lower, upper := fi.Estimate(p.min, p.max);
    ids := None;
    if upper == 0 {
      NothingInRange(s, ix.ranged, f, i);
    } else if wanted && lower <= limit {
      ids := fi.EnumerateUpTo(p.min, p.max, limit);
    }
  }

  /** What an arm promises about its candidates. */
  ghost predicate Sound(ix: MetadataIndex, f: Filter, arm: Arm)
    reads ix
  {
    match arm
    case Empty => Offers(ix.posted, ix.ranged, f, [])
    case Scan(ids) => Offers(ix.posted, ix.ranged, f, ids)
    case Post(sHat, Ids(ids)) => 0.0 < sHat <= 1.0 && Offers(ix.posted, ix.ranged, f, ids)
    case Post(sHat, RangeOf(key, lo, hi)) => 0.0 < sHat <= 1.0 && key in ix.numeric && Range(key, lo, hi) in f
    case Legacy => forall i :: 0 <= i < |f| ==> f[i].Range? && f[i].key !in ix.numeric
  }

  /** What has been learnt from the estimate and the first `i` predicates. */
  datatype Facts = Facts(upper: Option<nat>, small: Option<seq<Id>>, fallback: Option<RangeSource>)

  ghost predicate FactsOk(ix: MetadataIndex, f: Filter, i: nat, limit: nat, eq: bool, facts: Facts)
    requires i <= |f|
    reads ix
  {
    && (facts.small.Some? ==> Offers(ix.posted, ix.ranged, f, facts.small.value) && |facts.small.value| <= limit)
    && (facts.small.None? ==> AllLarge(ix, f, i, limit))
    && (facts.upper.Some? ==> SomeWithin(ix, f, facts.upper.value) && EqAbove(ix, f, facts.upper.value))
    && (facts.upper.None? ==> forall j :: 0 <= j < |f| ==> f[j].Range?)
    && (facts.fallback.Some? ==> Indexed(ix, f, facts.fallback.value.index))
    && (facts.upper.Some? ==> eq || facts.fallback.Some?)
    && (facts.upper.None? ==> !eq && forall j :: 0 <= j < i ==> !Indexed(ix, f, j))
  }

  /** Every Eq, and every countable predicate among the first `i`, matches more than `limit`. */
  ghost predicate AllLarge(ix: MetadataIndex, f: Filter, i: nat, limit: nat)
    reads ix
  {
    forall j: nat :: Countable(ix, f, j) && (j < i || f[j].Eq?) ==> MatchCount(ix, f, j) > limit
  }

  /** Some countable predicate matches at most `upper`. */
  ghost predicate SomeWithin(ix: MetadataIndex, f: Filter, upper: nat)
    reads ix
  {
    exists j: nat :: Countable(ix, f, j) && MatchCount(ix, f, j) <= upper
  }

  /** Every Eq matches at least `upper`. */
  ghost predicate EqAbove(ix: MetadataIndex, f: Filter, upper: nat)
    reads ix
  {
    forall j: nat :: j < |f| && f[j].Eq? ==> upper <= MatchCount(ix, f, j)
  }

  /** The walk over the range predicates; `None` when one of them matches nothing. */
  method AskRanges(ix: MetadataIndex, f: Filter, limit: nat, eq: bool, first: Facts) returns (r: Option<Facts>)
    requires ix.Valid() && OrderedRanges(f) && FactsOk(ix, f, 0, limit, eq, first)
    ensures r.None? ==> Offers(ix.posted, ix.ranged, f, [])
    ensures r.Some? ==> FactsOk(ix, f, |f|, limit, eq, r.value)
  {
    var facts := first;
    for i := 0 to |f|
      invariant FactsOk(ix, f, i, limit, eq, facts)
    {
      hide FactsOk;
      var next := AskNext(ix, f, i, limit, eq, facts);
      if next.None? { return None; }
      facts := next.value;
    }
    r := Some(facts);
  }

  /** One predicate of the walk. */
  method AskNext(ix: MetadataIndex, f: Filter, i: nat, limit: nat, ghost eq: bool,
                 facts: Facts) returns (r: Option<Facts>)
    requires ix.Valid() && OrderedRanges(f) && i < |f| && FactsOk(ix, f, i, limit, eq, facts)
    ensures r.None? ==> Offers(ix.posted, ix.ranged, f, [])
    ensures r.Some? ==> FactsOk(ix, f, i + 1, limit, eq, r.value)
  {
    hide OffersRange, MatchCount;
    if !f[i].Range? || f[i].key !in ix.numeric {
      assert !Indexed(ix, f, i);
      return Some(facts);
    }
    assert Indexed(ix, f, i) && Countable(ix, f, i);
    var upper, ids := AskRange(ix, f, i, limit, facts.small.None?);
    r := if upper == 0 then None else Some(Learn(facts, i, upper, ids));
    if upper > 0 { Learnt(ix, f, i, limit, facts, upper, ids); }
  }

  lemma Learnt(ix: MetadataIndex, f: Filter, i: nat, limit: nat, facts: Facts, upper: nat, ids: Option<seq<Id>>)
    requires Countable(ix, f, i) && f[i].Range? && MatchCount(ix, f, i) <= upper
    requires facts.small.None? ==> AllLarge(ix, f, i, limit)
    requires facts.upper.Some? ==> SomeWithin(ix, f, facts.upper.value) && EqAbove(ix, f, facts.upper.value)
    requires facts.upper.None? ==> forall j: nat :: j < |f| ==> f[j].Range?
    requires facts.small.None? && ids.None? ==> MatchCount(ix, f, i) > limit
    ensures var more := Learn(facts, i, upper, ids);
      && (more.small.None? ==> AllLarge(ix, f, i + 1, limit))
      && SomeWithin(ix, f, more.upper.value) && EqAbove(ix, f, more.upper.value)
  {
    hide MatchCount, Countable;
    assert SomeWithin(ix, f, upper);
  }

  /** The least upper bound, the exact ids if they came out, and the tightest range so far. */
  function Learn(facts: Facts, i: nat, upper: nat, ids: Option<seq<Id>>): Facts {
    Facts(
      if facts.upper.None? || upper < facts.upper.value then Some(upper) else facts.upper,
      if ids.Some? then ids else facts.small,
      if facts.fallback.None? || upper < facts.fallback.value.upper then Some(RangeSource(i, upper))
      else facts.fallback)
  }

  /** The arm decision: small is decided by counting, never by an estimate. */
  method Plan(ix: MetadataIndex, f: Filter, k: nat, len: nat, config: Config) returns (arm: Arm)
    requires ix.Valid() && OrderedRanges(f) && ExactData(ix.posted, f) && Sensible(config)
    ensures Sound(ix, f, arm) && Decided(ix, f, ScanLimit(config, k, Max(len, 1)), Max(len, 1), arm)
  {
    hide Decided, Sound, FactsOk, OrderedRanges, ExactData;
    var n := Max(len, 1);
    var limit := ScanLimit(config, k, n);
    var eq := Estimate(ix, f);
    if eq.Some? && |eq.value| == 0 {
      EmptyArm(ix, f, limit, n);
      return Arm.Empty;
    }
    var first := Facts(if eq.Some? then Some(|eq.value|) else None,
                       if eq.Some? && |eq.value| <= limit then eq else None, None);
    FirstFacts(ix, f, limit, eq, first);
    var asked := AskRanges(ix, f, limit, eq.Some?, first);
    if asked.None? {
      EmptyArm(ix, f, limit, n);
      return Arm.Empty;
    }
    arm := Choose(ix, f, limit, n, eq, asked.value);
  }

  lemma EmptyArm(ix: MetadataIndex, f: Filter, limit: nat, n: nat)
    requires n > 0 && Offers(ix.posted, ix.ranged, f, [])
    ensures Sound(ix, f, Arm.Empty) && Decided(ix, f, limit, n, Arm.Empty)
  {
  }

  /** What the estimate alone says. */
  lemma FirstFacts(ix: MetadataIndex, f: Filter, limit: nat, eq: Option<seq<Id>>, first: Facts)
    requires eq.None? <==> forall i :: 0 <= i < |f| ==> f[i].Range?
    requires eq.Some? ==> OffersEq(ix.posted, f, eq.value)
    requires eq.Some? ==> forall i :: 0 <= i < |f| && f[i].Eq? ==> |eq.value| <= |Carriers(ix.posted, f[i])|
    requires first == Facts(if eq.Some? then Some(|eq.value|) else None,
                            if eq.Some? && |eq.value| <= limit then eq else None, None)
    ensures FactsOk(ix, f, 0, limit, eq.Some?, first)
  {
    if eq.Some? {
      var i: nat :| i < |f| && f[i].Eq? && ListsMatches(ix.posted, f[i], eq.value);
      MatchesSize(ix.posted, f[i], eq.value);
      assert Countable(ix, f, i) && MatchCount(ix, f, i) <= |eq.value|;
    }
  }

  method Choose(ix: MetadataIndex, f: Filter, ghost limit: nat, n: nat, eq: Option<seq<Id>>, facts: Facts)
    returns (arm: Arm)
    requires ix.Valid() && n > 0 && FactsOk(ix, f, |f|, limit, eq.Some?, facts)
    requires eq.Some? ==> OffersEq(ix.posted, f, eq.value)
    requires eq.None? ==> forall i :: 0 <= i < |f| ==> f[i].Range?
    ensures Sound(ix, f, arm) && Decided(ix, f, limit, n, arm)
  {
    hide MatchCount, MetadataIndex.Valid, OffersEq, OffersRange;
    if facts.small.Some? { return Arm.Scan(facts.small.value); }
    if facts.upper.None? {
      forall i | 0 <= i < |f| ensures f[i].key !in ix.numeric {
        assert f[i].Range? && !Indexed(ix, f, i);
      }
      return Legacy;
    }
    var sHat := ShareOf(facts.upper.value, n);
    SharesBound(ix, f, n, facts.upper.value);
    if eq.Some? { return Post(sHat, Ids(eq.value)); }
    var p := f[facts.fallback.value.index];
    arm := Post(sHat, RangeOf(p.key, p.min, p.max));
  }

  lemma SharesBound(ix: MetadataIndex, f: Filter, n: nat, upper: nat)
    requires n > 0 && SomeWithin(ix, f, upper) && EqAbove(ix, f, upper)
    ensures exists i: nat :: Countable(ix, f, i) && ShareOf(MatchCount(ix, f, i), n) <= ShareOf(upper, n)
    ensures forall i: nat :: i < |f| && f[i].Eq? ==> ShareOf(upper, n) <= ShareOf(MatchCount(ix, f, i), n)
  {
    hide MatchCount;
    var j: nat :| Countable(ix, f, j) && MatchCount(ix, f, j) <= upper;
    ShareGrows(MatchCount(ix, f, j), upper, n);
    forall i: nat | i < |f| && f[i].Eq? ensures ShareOf(upper, n) <= ShareOf(MatchCount(ix, f, i), n) {
      ShareGrows(upper, MatchCount(ix, f, i), n);
    }
  }

  // ---- The exact scan ----

  /** The answers already seen: each a candidate read at its newest source, none twice. */
  ghost predicate SeenOk(ls: seq<Source>, d: Vector -> real, ids: seq<Id>, seen: seq<Ranked>) {
    && (forall i, j :: 0 <= i < j < |seen| ==> seen[i].key != seen[j].key)
    && (forall x :: x in seen ==>
          x.key in ids && Lookup(ls, x.key).Some? && x.dist == d(Lookup(ls, x.key).value))
  }

  /** Every candidate is still to be looked for in the older sources, has been seen, or is not readable. */
  ghost predicate ScanState(ls: seq<Source>, d: Vector -> real, ids: seq<Id>, n: nat, remaining: seq<Id>,
                            seen: seq<Ranked>)
    requires n <= |ls|
  {
    && SeenOk(ls, d, ids, seen) && NoRepeats(remaining)
    && (forall id :: id in remaining ==> id in ids && !Has(seen, id) && forall j :: n <= j < |ls| ==> id !in ls[j].data)
    && (forall id :: id in ids ==> id in remaining || Has(seen, id) || Lookup(ls, id).None?)
  }

  lemma NewestNowhere(ls: seq<Source>, id: Id)
    requires forall j :: 0 <= j < |ls| ==> id !in ls[j].data
    ensures Lookup(ls, id).None?
  {
  }

  /** One source: every candidate it contains is settled here, live or shadowed. */
  method ScanSource(ghost ls: seq<Source>, ghost ids: seq<Id>, ghost n: nat, x: Source, d: Vector -> real, k: nat,
                    remaining: seq<Id>, heap: seq<Ranked>, ghost seen: seq<Ranked>)
    returns (rest: seq<Id>, heap': seq<Ranked>, ghost seen': seq<Ranked>)
    requires n < |ls| && ls[n] == x && ScanState(ls, d, ids, n + 1, remaining, seen) && heap == Best(seen, k)
    ensures ScanState(ls, d, ids, n, rest, seen') && heap' == Best(seen', k)
  {
    rest, heap', seen' := [], heap, seen;
    for i := 0 to |remaining|
      invariant Halfway(ls, d, ids, n, remaining, i, rest, seen') && heap' == Best(seen', k)
    {
      var id := remaining[i];
      ghost var before, kept := seen', rest;
      if id in x.data {
        NewestHere(ls, n, id);
        if id !in x.tombs {
          var c := Ranked(id, d(x.data[id]));
          OfferAll(seen', c, k);
          heap' := Offer(heap', k, c);
          seen' := seen' + [c];
        }
      } else {
        rest := rest + [id];
      }
      HalfwayStep(ls, d, ids, n, remaining, i, kept, before, rest, seen');
    }
    assert remaining[|remaining|..] == [];
  }

  /** Between two candidates of a source: the rest of the list is untouched, what was kept lies deeper. */
  ghost predicate Halfway(ls: seq<Source>, d: Vector -> real, ids: seq<Id>, n: nat, remaining: seq<Id>, i: nat,
                          rest: seq<Id>, seen: seq<Ranked>)
    requires n < |ls| && i <= |remaining|
  {
    && SeenOk(ls, d, ids, seen) && NoRepeats(remaining) && NoRepeats(rest)
    && (forall id :: id in remaining ==> id in ids && forall j :: n < j < |ls| ==> id !in ls[j].data)
    && (forall j :: i <= j < |remaining| ==> !Has(seen, remaining[j]) && remaining[j] !in rest)
    && (forall id :: id in rest ==> id in ids && !Has(seen, id) && forall j :: n <= j < |ls| ==> id !in ls[j].data)
    && (forall id :: id in ids ==>
          id in remaining[i..] || id in rest || Has(seen, id) || Lookup(ls, id).None?)
  }

  lemma HalfwayStep(ls: seq<Source>, d: Vector -> real, ids: seq<Id>, n: nat, remaining: seq<Id>, i: nat,
                    rest: seq<Id>, seen: seq<Ranked>, rest': seq<Id>, seen': seq<Ranked>)
    requires n < |ls| && i < |remaining| && Halfway(ls, d, ids, n, remaining, i, rest, seen)
    requires var id := remaining[i];
      if id in ls[n].data then
        && Newest(ls, id) == n && rest' == rest
        && seen' == if id in ls[n].tombs then seen else seen + [Ranked(id, d(ls[n].data[id]))]
      else seen' == seen && rest' == rest + [id]
    ensures Halfway(ls, d, ids, n, remaining, i + 1, rest', seen')
  {
    if remaining[i] !in ls[n].data {
      KeptStep(ls, d, ids, n, remaining, i, rest, seen);
    } else if seen' == seen {
      ShadowedStep(ls, d, ids, n, remaining, i, rest, seen);
    } else {
      FoundStep(ls, d, ids, n, remaining, i, rest, seen, seen'[|seen|]);
    }
  }

  lemma KeptStep(ls: seq<Source>, d: Vector -> real, ids: seq<Id>, n: nat, remaining: seq<Id>, i: nat,
                 rest: seq<Id>, seen: seq<Ranked>)
    requires n < |ls| && i < |remaining| && Halfway(ls, d, ids, n, remaining, i, rest, seen)
    requires remaining[i] !in ls[n].data
    ensures Halfway(ls, d, ids, n, remaining, i + 1, rest + [remaining[i]], seen)
  {
    var id := remaining[i];
    assert id in remaining && !Has(seen, id);
    assert forall x :: x in remaining[i..] <==> x == id || x in remaining[i + 1..];
  }

  lemma ShadowedStep(ls: seq<Source>, d: Vector -> real, ids: seq<Id>, n: nat, remaining: seq<Id>, i: nat,
                     rest: seq<Id>, seen: seq<Ranked>)
    requires n < |ls| && i < |remaining| && Halfway(ls, d, ids, n, remaining, i, rest, seen)
    requires Newest(ls, remaining[i]) == n && remaining[i] in ls[n].tombs
    ensures Halfway(ls, d, ids, n, remaining, i + 1, rest, seen)
  {
    var id := remaining[i];
    assert Lookup(ls, id).None?;
    assert forall x :: x in remaining[i..] <==> x == id || x in remaining[i + 1..];
  }

  lemma FoundStep(ls: seq<Source>, d: Vector -> real, ids: seq<Id>, n: nat, remaining: seq<Id>, i: nat,
                  rest: seq<Id>, seen: seq<Ranked>, x: Ranked)
    requires n < |ls| && i < |remaining| && Halfway(ls, d, ids, n, remaining, i, rest, seen)
    requires Newest(ls, remaining[i]) == n && remaining[i] !in ls[n].tombs
    requires x == Ranked(remaining[i], d(ls[n].data[remaining[i]]))
    ensures Halfway(ls, d, ids, n, remaining, i + 1, rest, seen + [x])
  {
    var id := remaining[i];
    assert id in remaining && !Has(seen, id) && id !in rest;
    HasMore(seen, seen + [x]);
    assert forall y :: y in remaining[i..] <==> y == id || y in remaining[i + 1..];
    SeenMore(ls, d, ids, seen, x);
  }

  lemma SeenMore(ls: seq<Source>, d: Vector -> real, ids: seq<Id>, seen: seq<Ranked>, x: Ranked)
    requires SeenOk(ls, d, ids, seen) && !Has(seen, x.key)
    requires x.key in ids && Lookup(ls, x.key).Some? && x.dist == d(Lookup(ls, x.key).value)
    ensures SeenOk(ls, d, ids, seen + [x])
  {
  }

  lemma HasMore(seen: seq<Ranked>, seen': seq<Ranked>)
    requires seen <= seen' && |seen'| <= |seen| + 1
    ensures forall x :: Has(seen', x) <==> Has(seen, x) || (|seen'| > |seen| && x == seen'[|seen|].key)
  {
    forall x ensures Has(seen', x) <==> Has(seen, x) || (|seen'| > |seen| && x == seen'[|seen|].key) {
      if i :| 0 <= i < |seen| && seen[i].key == x { assert seen'[i].key == x; }
      if |seen'| > |seen| && x == seen'[|seen|].key { assert Has(seen', x); }
      if i :| 0 <= i < |seen'| && seen'[i].key == x { assert i < |seen| ==> seen[i].key == x; }
    }
  }

  /** The live records among `ids`. */
  ghost function Among(m: map<Id, Vector>, ids: seq<Id>): map<Id, Vector> {
    map id | id in m && id in ids :: m[id]
  }

  /** What can be read of a source list by stopping at the newest source that contains an id. */
  ghost function Readable(ls: seq<Source>): map<Id, Floats> {
    map id | id in LiveMap(ls) && Lookup(ls, id).Some? :: Lookup(ls, id).value
  }

  /** That is everything alive if and only if the newest copy decides. */
  lemma ReadableIff(ls: seq<Source>)
    requires UniqueLive(ls)
    ensures Readable(ls) == LiveMap(ls) <==> NewestLive(ls)
  {
    LookupExactIff(ls);
    if Readable(ls) == LiveMap(ls) {
      forall id ensures Lookup(ls, id) == Get(LiveMap(ls), id) {
        LookupIsLive(ls, id);
        assert id in LiveMap(ls) ==> id in Readable(ls);
      }
    } else if NewestLive(ls) {
      assert forall id :: Lookup(ls, id) == Get(LiveMap(ls), id);
    }
  }

  lemma SeenLists(ls: seq<Source>, d: Vector -> real, ids: seq<Id>, seen: seq<Ranked>)
    requires SeenOk(ls, d, ids, seen)
    requires forall id :: id in ids ==> Has(seen, id) || Lookup(ls, id).None?
    ensures Lists(Among(Readable(ls), ids), d, seen)
  {
    var m := Among(Readable(ls), ids);
    forall i | 0 <= i < |seen| ensures seen[i].key in m && seen[i].dist == d(m[seen[i].key]) {
      assert seen[i] in seen;
      LookupIsLive(ls, seen[i].key);
    }
    forall id | id in m ensures exists i :: 0 <= i < |seen| && seen[i].key == id {
      assert Has(seen, id);
    }
  }

  /**
   * The scan arm over the layers, newest first, dropping a candidate at the first source that knows it:
   * the exact top-k of the candidates that can be read.
   */
  method ScanLayers(ls: seq<Source>, d: Vector -> real, k: nat, ids: seq<Id>) returns (out: seq<Ranked>)
    requires NoRepeats(ids)
    ensures out == ExactSearch.Exact(Among(Readable(ls), ids), d, k)
    ensures UniqueLive(ls) && NewestLive(ls) ==> out == ExactSearch.Exact(Among(LiveMap(ls), ids), d, k)
  {
    var remaining, heap := ids, [];
    ghost var seen: seq<Ranked> := [];
    var n := |ls|;
    while n > 0 && |remaining| > 0
      invariant 0 <= n <= |ls| && ScanState(ls, d, ids, n, remaining, seen) && heap == Best(seen, k)
    {
      n := n - 1;
      remaining, heap, seen := ScanSource(ls, ids, n, ls[n], d, k, remaining, heap, seen);
    }
    forall id | id in ids ensures Has(seen, id) || Lookup(ls, id).None? {
      if id in remaining { NewestNowhere(ls, id); }
    }
    SeenLists(ls, d, ids, seen);
    AnyListing(Among(Readable(ls), ids), d, seen, k);
    if UniqueLive(ls) { ReadableIff(ls); }
    out := heap;
  }

  // ---- Filtered search ----

  /** What a filtered search is about: the live records whose metadata satisfies the filter. */
  ghost function Targets(m: map<Id, Vector>, metas: map<Id, Metadata>, f: Filter): map<Id, Vector> {
    map id | id in m && MatchesId(f, metas, id) :: m[id]
  }

  /** What the posting lists, the numeric fields and the metadata store stand for. */
  datatype Sides = Sides(posted: map<Id, Metadata>, ranged: map<Id, Metadata>, metas: map<Id, Metadata>)

  /** One of the two knows more records than the other, and says the same about those they share. */
  ghost predicate Nested(a: map<Id, Metadata>, b: map<Id, Metadata>) {
    (forall id :: id in a ==> id in b && a[id] == b[id]) || (forall id :: id in b ==> id in a && a[id] == b[id])
  }

  /** The three differ by records on their way in or out only. */
  ghost predicate InStep(sides: Sides) {
    Nested(sides.posted, sides.metas) && Nested(sides.ranged, sides.metas)
  }

  ghost predicate OneOf(version: map<Id, Metadata>, sides: Sides) {
    version == sides.posted || version == sides.ranged || version == sides.metas
  }

  /**
   * A candidate list, filtered if the filter has more predicates than the one behind it, is the match set
   * of one version of the metadata: with the record on its way, or without it.
   */
  lemma OfferedTargets(sides: Sides, f: Filter, candidates: seq<Id>, ids: seq<Id>)
    returns (version: map<Id, Metadata>)
    requires f != [] && Offers(sides.posted, sides.ranged, f, candidates) && InStep(sides)
    requires if |f| == 1 then ids == candidates
             else forall id :: id in ids <==> id in candidates && MatchesId(f, sides.metas, id)
    ensures OneOf(version, sides) && forall id :: id in ids <==> MatchesId(f, version, id)
  {
    hide ListsMatches, MatchesId;
    var i: nat, side := 0, sides.posted;
    if OffersEq(sides.posted, f, candidates) {
      i :| 0 <= i < |f| && f[i].Eq? && ListsMatches(sides.posted, f[i], candidates);
    } else {
      side := sides.ranged;
      i :| 0 <= i < |f| && f[i].Range? && ListsMatches(sides.ranged, f[i], candidates);
    }
    var fewer := forall id :: id in side ==> id in sides.metas && side[id] == sides.metas[id];
    version := if |f| == 1 || fewer then side else sides.metas;
    ListedTargets(f, i, side, sides.metas, version, candidates, ids);
  }

  lemma AmongTargets(m: map<Id, Floats>, ids: seq<Id>, version: map<Id, Metadata>, f: Filter)
    requires forall id :: id in ids <==> MatchesId(f, version, id)
    ensures Among(m, ids) == Targets(m, version, f)
  {
  }

  lemma ListedTargets(f: Filter, i: nat, side: map<Id, Metadata>, metas: map<Id, Metadata>,
                      version: map<Id, Metadata>, candidates: seq<Id>, ids: seq<Id>)
    requires i < |f| && ListsMatches(side, f[i], candidates)
    requires if |f| == 1 then ids == candidates && version == side
             else forall id :: id in ids <==> id in candidates && MatchesId(f, metas, id)
    requires |f| > 1 ==>
      (version == side && forall id :: id in side ==> id in metas && side[id] == metas[id])
      || (version == metas && forall id :: id in metas ==> id in side && side[id] == metas[id])
    ensures forall id :: id in ids <==> MatchesId(f, version, id)
  {
    forall id ensures id in ids <==> MatchesId(f, version, id) {
      if |f| == 1 {
        assert id in version ==> (Matches(f, version[id]) <==> Satisfies(f[0], FieldOf(version[id], f[0].key)));
      }
    }
  }

  /** The candidates that satisfy the whole filter, in order. */
  method Filtered(store: MS.MetaStore, candidates: seq<Id>, f: Filter) returns (ids: seq<Id>)
    requires store.Valid() && NoRepeats(candidates)
    ensures NoRepeats(ids) && forall id :: id in ids <==> id in candidates && MatchesId(f, store.Contents(), id)
  {
    ids := [];
    for i := 0 to |candidates|
      invariant NoRepeats(ids)
      invariant forall id :: id in ids <==> id in candidates[..i] && MatchesId(f, store.Contents(), id)
    {
      var ok := store.MatchesById(f, candidates[i]);
      assert candidates[..i + 1] == candidates[..i] + [candidates[i]];
      if ok { ids := ids + [candidates[i]]; }
    }
    assert candidates[..|candidates|] == candidates;
  }

  /** What an index stands for. */
  ghost function SidesOf(ix: MetadataIndex): Sides
    requires ix.metadata.Valid()
    reads ix, ix.metadata
  {
    Sides(ix.posted, ix.ranged, ix.Metas())
  }

  /** The index is in order, stands for `sides`, and the filter is one the planner takes. */
  ghost predicate Knows(ix: MetadataIndex, sides: Sides, f: Filter)
    reads ix, ix.metadata, ix.numeric.Values
  {
    && ix.Valid() && sides == SidesOf(ix) && InStep(sides)
    && OrderedRanges(f) && ExactData(sides.posted, f)
  }

  /** The exact top-k of the matches among `m`, under one version of the metadata. */
  ghost predicate ExactFor(sides: Sides, m: map<Id, Floats>, f: Filter, d: Vector -> real, k: nat, out: seq<Ranked>) {
    exists version :: OneOf(version, sides) && out == ExactSearch.Exact(Targets(m, version, f), d, k)
  }

  /** `scan_candidates` over a source list: a single predicate's list is already exact, others are filtered. */
  method ScanList(ix: MetadataIndex, ghost sides: Sides, ls: seq<Source>, d: Vector -> real, k: nat,
                  candidates: seq<Id>, f: Filter)
    returns (out: seq<Ranked>)
    requires Knows(ix, sides, f) && f != [] && Offers(sides.posted, sides.ranged, f, candidates)
    ensures ExactFor(sides, Readable(ls), f, d, k, out)
  {
    var ids := candidates;
    if |f| > 1 { ids := Filtered(ix.metadata, candidates, f); }
    ghost var version := OfferedTargets(sides, f, candidates, ids);
    AmongTargets(Readable(ls), ids, version, f);
    out := ScanLayers(ls, d, k, ids);
  }

  /** What the readers see of a state: everything alive, apart from records just being handed over. */
  ghost function Seen(s: State): map<Id, Floats> { View(s) - Taken(s).Keys }

  /**
   * `scan_candidates` in any state of the store, over the places a reader sees: the exact top-k of the
   * matches that can be read, which is all that are seen when the newest copy decides.
   */
  method ScanCandidates(ix: MetadataIndex, s: State, d: Vector -> real, k: nat, candidates: seq<Id>, f: Filter)
    returns (out: seq<Ranked>)
    requires ix.Valid() && Knows(ix, SidesOf(ix), f) && f != []
    requires Offers(ix.posted, ix.ranged, f, candidates) && Inv(s)
    ensures ExactFor(SidesOf(ix), Readable(Visible(s)), f, d, k, out)
    ensures NewestLive(Layers(s)) ==> ExactFor(SidesOf(ix), Seen(s), f, d, k, out)
    ensures !s.pc.SealPush? ==> Seen(s) == View(s)
  {
    VisibleMap(s);
    NothingTaken(s);
    ReadableIff(Visible(s));
    out := ScanList(ix, SidesOf(ix), Visible(s), d, k, candidates, f);
  }

  lemma NothingTaken(s: State)
    ensures !s.pc.SealPush? ==> Seen(s) == View(s)
  {
  }

  /** The candidates of the post arm's fallback. */
  method FallbackIds(ix: MetadataIndex, f: Filter, arm: Arm) returns (ids: seq<Id>)
    requires ix.Valid() && OrderedRanges(f) && Sound(ix, f, arm) && arm.Post?
    ensures Offers(ix.posted, ix.ranged, f, ids)
  {
    match arm.fallback {
      case Ids(list) => ids := list;
      case RangeOf(key, lo, hi) =>
        ghost var i :| 0 <= i < |f| && f[i] == Range(key, lo, hi);
        assert PairsOk(ix.Bag(key), ix.ranged, key);
        RangeList(Numeric.Flat(ix.numeric[key].sorted), ix.ranged, f, i);
        ids := ix.numeric[key].EnumerateAll(lo, hi);
    }
  }

  /** How an answer came about. */
  datatype How = Unfiltered | Nothing | Scanned | OverFetched(ef: nat) | Traversed

  /** How the sources were walked. */
  function ModeOf(how: How, k: nat, efSearch: nat): Mode {
    match how
    case Unfiltered => Plain(k, efSearch)
    case OverFetched(ef) => Wide(ef)
    case Traversed => Walking(k, efSearch)
    case _ => Wide(0)
  }

  /** Sorted by (distance, id), each id once. */
  ghost predicate Tidy(out: seq<Ranked>) {
    TopK.Sorted(out) && forall i, j :: 0 <= i < j < |out| ==> out[i].key != out[j].key
  }

  /** `sort`, then keep the first hit of every id. */
  method SortAndDedupe(hits: seq<Ranked>) returns (out: seq<Ranked>)
    ensures Tidy(out) && forall x :: x in out ==> x in hits
    ensures forall x :: x in hits ==> Has(out, x.key)
  {
    var s := Sort(hits);
    assert forall x :: x in s <==> x in multiset(s);
    assert forall x :: x in hits <==> x in multiset(hits);
    out := FirstOfEach(s);
    forall x | x in hits ensures Has(out, x.key) {
      var i :| 0 <= i < |s| && s[i] == x;
    }
  }

  /** `retain(|r| seen.insert(r.id))` over a sorted list. */
  method FirstOfEach(s: seq<Ranked>) returns (out: seq<Ranked>)
    requires TopK.Sorted(s)
    ensures Tidy(out) && (forall x :: x in out ==> x in s) && forall j :: 0 <= j < |s| ==> Has(out, s[j].key)
  {
    out := [];
    var seen: set<Id> := {};
    for i := 0 to |s|
      invariant Tidy(out) && (forall x :: x in out ==> x in s[..i])
      invariant forall id :: id in seen <==> Has(out, id)
      invariant forall j :: 0 <= j < i ==> s[j].key in seen
    {
      if s[i].key !in seen {
        Latest(s, i, out);
        HasMore(out, out + [s[i]]);
        out := out + [s[i]];
        seen := seen + {s[i].key};
      }
      assert s[..i + 1] == s[..i] + [s[i]];
    }
  }

  lemma Latest(s: seq<Ranked>, i: nat, out: seq<Ranked>)
    requires TopK.Sorted(s) && i < |s| && Tidy(out) && (forall x :: x in out ==> x in s[..i])
    requires !Has(out, s[i].key)
    ensures Tidy(out + [s[i]])
  {
    forall j | 0 <= j < |out| ensures !Less(s[i], out[j]) {
      assert out[j] in s[..i];
    }
  }

  ghost predicate Distinctly(s: seq<Ranked>) { forall i, j :: 0 <= i < j < |s| ==> s[i].key != s[j].key }

  /** A tidied list of distinct hits has lost none. */
  lemma NoneLost(hits: seq<Ranked>, out: seq<Ranked>)
    requires Distinctly(hits) && Tidy(out)
    requires (forall x :: x in out ==> x in hits) && forall x :: x in hits ==> Has(out, x.key)
    ensures |out| == |hits|
  {
    H.PrefixKeys(hits, |hits|);
    H.PrefixKeys(out, |out|);
    var a, b := H.FirstKeys(hits, |hits|), H.FirstKeys(out, |out|);
    forall key | key in a ensures key in b {
      var i :| 0 <= i < |hits| && hits[i].key == key;
      assert hits[i] in hits;
    }
    forall key | key in b ensures key in a {
      var i :| 0 <= i < |out| && out[i].key == key;
      assert out[i] in hits;
    }
    assert a == b;
  }

  lemma GathersFit(m: map<Id, Vector>, d: Vector -> real, hits: seq<Ranked>)
    requires Gathers(m, d, hits)
    ensures |hits| <= |m|
  {
    H.PrefixKeys(hits, |hits|);
    assert H.FirstKeys(hits, |hits|) <= m.Keys;
    H.SubsetSize(H.FirstKeys(hits, |hits|), m.Keys);
    assert |m.Keys| == |m|;
  }

  lemma GathersPart(m: map<Id, Vector>, d: Vector -> real, hits: seq<Ranked>, out: seq<Ranked>)
    requires Gathers(m, d, hits) && Distinctly(out) && forall x :: x in out ==> x in hits
    ensures Gathers(m, d, out)
  {
    forall i | 0 <= i < |out| ensures out[i].key in m && out[i].dist == d(m[out[i].key]) {
      assert out[i] in hits;
    }
  }

  /** A tidy list of distinct records of `m` at their true distances. */
  ghost predicate Ranks(m: map<Id, Vector>, d: Vector -> real, out: seq<Ranked>) { Tidy(out) && Gathers(m, d, out) }

  /** Sorted and deduplicated: still distinct live records, and the same ones. */
  method Ranking(hits: seq<Ranked>, ghost m: map<Id, Vector>, ghost d: Vector -> real) returns (all: seq<Ranked>)
    requires Gathers(m, d, hits)
    ensures Ranks(m, d, all) && |all| == |hits| && forall x :: x in all <==> x in hits
  {
    all := SortAndDedupe(hits);
    NoneLost(hits, all);
    SameHits(hits, all);
    GathersPart(m, d, hits, all);
  }

  lemma SameHits(hits: seq<Ranked>, all: seq<Ranked>)
    requires Distinctly(hits) && (forall x :: x in all ==> x in hits) && forall x :: x in hits ==> Has(all, x.key)
    ensures forall x :: x in hits ==> x in all
  {
    forall x | x in hits ensures x in all {
      var i :| 0 <= i < |all| && all[i].key == x.key;
      var a :| 0 <= a < |hits| && hits[a] == x;
      assert all[i] in hits;
      var b :| 0 <= b < |hits| && hits[b] == all[i];
    }
  }

  /** The best `k` of the hits: nothing left out ranks before anything kept. */
  ghost predicate Foremost(hits: seq<Ranked>, k: nat, out: seq<Ranked>) {
    && |out| == Min(k, |hits|) && (forall x :: x in out ==> x in hits)
    && forall x, y :: x in hits && x !in out && y in out ==> !Less(x, y)
  }

  /** A record of `m` is left out of a full answer alone, and only when nothing in it is farther. */
  ghost predicate Settles(m: map<Id, Vector>, d: Vector -> real, k: nat, out: seq<Ranked>) {
    forall id :: id in m && !Has(out, id) ==> |out| == k && H.NoneFarther(out, d(m[id]))
  }

  /** The best of hits that back a record settle it. */
  lemma ForemostSettles(m: map<Id, Vector>, part: map<Id, Vector>, d: Vector -> real, k: nat, hits: seq<Ranked>,
                        out: seq<Ranked>)
    requires Gathers(m, d, hits) && Backed(part, d, k, hits) && Foremost(hits, k, out) && Distinctly(out)
    requires forall id :: id in part ==> id in m && m[id] == part[id]
    ensures Settles(part, d, k, out)
  {
    forall id | id in part && !Has(out, id) ensures |out| == k && H.NoneFarther(out, d(part[id])) {
      if i :| 0 <= i < |hits| && hits[i].key == id {
        HitSettled(hits, k, out, hits[i]);
      } else {
        BackedSettled(hits, k, out, d(part[id]));
      }
    }
  }

  lemma HitSettled(hits: seq<Ranked>, k: nat, out: seq<Ranked>, x: Ranked)
    requires Foremost(hits, k, out) && Distinctly(hits) && Distinctly(out) && x in hits && !Has(out, x.key)
    ensures |out| == k && H.NoneFarther(out, x.dist)
  {
    if x in out { InIsHas(out, x); }
    if |out| >= |hits| { FullHasAll(hits, out, x); }
    forall i | 0 <= i < |out| ensures out[i].dist <= x.dist { assert out[i] in out && !Less(x, out[i]); }
  }

  lemma FullHasAll(hits: seq<Ranked>, out: seq<Ranked>, x: Ranked)
    requires Distinctly(hits) && Distinctly(out) && (forall y :: y in out ==> y in hits) && |out| >= |hits|
    requires x in hits
    ensures Has(out, x.key)
  {
    H.PrefixKeys(hits, |hits|);
    H.PrefixKeys(out, |out|);
    var a, b := H.FirstKeys(hits, |hits|), H.FirstKeys(out, |out|);
    KeysInside(out, hits);
    SubsetOfSize(b, a);
    var i :| 0 <= i < |hits| && hits[i] == x;
    assert x.key in a && x.key in b;
    var j :| 0 <= j < |out| && out[j].key == x.key;
  }

  lemma KeysInside(out: seq<Ranked>, hits: seq<Ranked>)
    requires forall x :: x in out ==> x in hits
    ensures H.FirstKeys(out, |out|) <= H.FirstKeys(hits, |hits|)
  {
    forall key | key in H.FirstKeys(out, |out|) ensures key in H.FirstKeys(hits, |hits|) {
      var i :| 0 <= i < |out| && out[i].key == key;
      assert out[i] in hits;
      var j :| 0 <= j < |hits| && hits[j] == out[i];
    }
  }

  lemma BackedSettled(hits: seq<Ranked>, k: nat, out: seq<Ranked>, dist: real)
    requires Foremost(hits, k, out) && Distinctly(hits) && Distinctly(out) && |Close(hits, dist)| >= k
    ensures |out| == k && H.NoneFarther(out, dist)
  {
    H.PrefixKeys(hits, |hits|);
    assert Close(hits, dist) <= H.FirstKeys(hits, |hits|);
    H.SubsetSize(Close(hits, dist), H.FirstKeys(hits, |hits|));
    forall i | 0 <= i < |out| ensures out[i].dist <= dist {
      if out[i].dist > dist { FartherIsLast(hits, out, dist, i); }
    }
  }

  /** With one entry farther than `dist` in the answer, all hits within it are there as well. */
  lemma FartherIsLast(hits: seq<Ranked>, out: seq<Ranked>, dist: real, i: nat)
    requires i < |out| && out[i].dist > dist && Distinctly(out)
    requires forall x, y :: x in hits && x !in out && y in out ==> !Less(x, y)
    ensures |Close(hits, dist)| < |out|
  {
    H.PrefixKeys(out, |out|);
    var keys := H.FirstKeys(out, |out|);
    forall key | key in Close(hits, dist) ensures key in keys - {out[i].key} {
      var j :| 0 <= j < |hits| && hits[j].dist <= dist && hits[j].key == key;
      assert hits[j] in hits && out[i] in out && Less(hits[j], out[i]);
      assert hits[j] in out;
      var l :| 0 <= l < |out| && out[l] == hits[j];
      assert out[l].key in keys;
    }
    assert out[i].key in keys;
    H.SubsetSize(Close(hits, dist), keys - {out[i].key});
  }

  /** When everything must be found, what settles it is the `k` nearest. */
  lemma SettledIsNearest(m: map<Id, Vector>, d: Vector -> real, k: nat, out: seq<Ranked>)
    requires Ranks(m, d, out) && |out| <= k && Settles(m, d, k, out)
    ensures H.NearestUpToTies(m, d, k, out)
  {
    GathersFit(m, d, out);
    H.SortedByDistance(out);
    if |out| < k { AllHasSize(m, out); }
  }

  lemma AllHasSize(m: map<Id, Vector>, out: seq<Ranked>)
    requires Distinctly(out) && forall id :: id in m ==> Has(out, id)
    ensures |out| >= |m|
  {
    H.PrefixKeys(out, |out|);
    var keys := H.FirstKeys(out, |out|);
    forall id | id in m ensures id in keys {
      var i :| 0 <= i < |out| && out[i].key == id;
    }
    H.SubsetSize(m.Keys, keys);
    assert |m.Keys| == |m|;
  }

  lemma FirstOnes(all: seq<Ranked>, k: nat, m: map<Id, Vector>, d: Vector -> real)
    requires Ranks(m, d, all)
    ensures Ranks(m, d, Take(all, k)) && Foremost(all, k, Take(all, k))
  {
    var out := Take(all, k);
    TidyPrefix(all, |out|);
    GathersPart(m, d, all, out);
    forall x, y | x in all && x !in out && y in out ensures !Less(x, y) {
      var i :| 0 <= i < |all| && all[i] == x;
      var j :| 0 <= j < |out| && out[j] == y;
      assert i >= |out| && all[j] == y;
    }
  }

  /** `truncate(k)`. */
  method Truncated(all: seq<Ranked>, k: nat, ghost m: map<Id, Vector>, ghost d: Vector -> real)
    returns (out: seq<Ranked>)
    requires Ranks(m, d, all)
    ensures Ranks(m, d, out) && Foremost(all, k, out)
  {
    hide Ranks, Foremost;
    FirstOnes(all, k, m, d);
    out := Take(all, k);
  }

  /** Sorted, deduplicated and truncated: the first `k` of the hits. */
  method Leading(hits: seq<Ranked>, k: nat, ghost m: map<Id, Vector>, ghost d: Vector -> real)
    returns (out: seq<Ranked>)
    requires Gathers(m, d, hits)
    ensures Ranks(m, d, out) && Foremost(hits, k, out)
  {
    hide Ranks, Gathers;
    var all := Ranking(hits, m, d);
    out := Truncated(all, k, m, d);
  }

  /** The hits on `targets`, a part of `m`, include all that the index of any source answered about it. */
  ghost predicate HandedIn(parts: Parts, ls: seq<Source>, metric: Metric, query: Vector, mode: Mode,
                           m: map<Id, Vector>, targets: map<Id, Vector>, hits: seq<Ranked>)
    reads parts.graphs, parts.flats
  {
    exists allowed: set<Id> ::
      Restrict(m, allowed) == targets && OfferedBelow(parts, ls, |ls|, metric, query, mode, allowed, hits)
  }

  /** The best `k` of such hits: what the indexes answered is left out for something better alone. */
  ghost predicate BestOf(parts: Parts, ls: seq<Source>, metric: Metric, query: Vector, mode: Mode,
                         m: map<Id, Vector>, targets: map<Id, Vector>, d: Vector -> real, k: nat, out: seq<Ranked>)
    reads parts.graphs, parts.flats
  {
    exists hits: seq<Ranked> ::
      HandedIn(parts, ls, metric, query, mode, m, targets, hits) && Gathers(targets, d, hits) && Foremost(hits, k, out)
  }

  lemma BestBy(parts: Parts, ls: seq<Source>, metric: Metric, query: Vector, mode: Mode, m: map<Id, Vector>,
               targets: map<Id, Vector>, d: Vector -> real, k: nat, out: seq<Ranked>, allowed: set<Id>,
               hits: seq<Ranked>)
    requires Restrict(m, allowed) == targets && OfferedBelow(parts, ls, |ls|, metric, query, mode, allowed, hits)
    requires Gathers(targets, d, hits) && Foremost(hits, k, out)
    ensures BestOf(parts, ls, metric, query, mode, m, targets, d, k, out)
  {
    hide OfferedBelow, Gathers, Foremost, Restrict;
    assert HandedIn(parts, ls, metric, query, mode, m, targets, hits);
  }

  lemma AllAllowed(m: map<Id, Vector>)
    ensures Restrict(m, m.Keys) == m
  {
  }

  /**
   * `search_shared` as one step: at most `k` live records at their true distances, in order. A record of a source
   * seen in full is missing only from a full answer without anything farther; when every source is seen in full,
   * these are the `k` nearest.
   */
  method SearchShared(parts: Parts, ls: seq<Source>, metric: Metric, query: Vector, k: nat, ef: nat)
    returns (out: seq<Ranked>)
    requires AllServe(parts, ls, metric) && UniqueLive(ls)
    ensures Ranks(LiveMap(ls), Dist(metric, query), out) && |out| <= k
    ensures Settles(Restrict(LiveMap(ls), Sure(parts, ls, Plain(k, ef))), Dist(metric, query), k, out)
    ensures Sure(parts, ls, Plain(k, ef)) == LiveMap(ls).Keys ==>
      H.NearestUpToTies(LiveMap(ls), Dist(metric, query), k, out)
    ensures k > 0 ==>
      BestOf(parts, ls, metric, query, Plain(k, ef), LiveMap(ls), LiveMap(ls), Dist(metric, query), k, out)
  {
    hide BestOf, OfferedBelow, Restrict;
    hide Dist, Sure, Gathers, Backed, Settles, Foremost, Ranks, H.NearestUpToTies, AllServe, UniqueLive;
    if k == 0 {
      NoneWanted(LiveMap(ls), Sure(parts, ls, Plain(k, ef)), Dist(metric, query));
      return [];
    }
    var hits := SearchAll(parts, ls, metric, query, k, ef, LiveMap(ls).Keys);
    out := Leading(hits, k, LiveMap(ls), Dist(metric, query));
    SharedSettles(LiveMap(ls), Sure(parts, ls, Plain(k, ef)), Dist(metric, query), k, hits, out);
    ForemostSize(hits, k, out);
    AllAllowed(LiveMap(ls));
    BestBy(parts, ls, metric, query, Plain(k, ef), LiveMap(ls), LiveMap(ls), Dist(metric, query), k, out,
           LiveMap(ls).Keys, hits);
  }

  lemma NoneWanted(m: map<Id, Vector>, sure: set<Id>, d: Vector -> real)
    ensures Ranks(m, d, []) && Settles(Restrict(m, sure), d, 0, []) && H.NearestUpToTies(m, d, 0, [])
  {
  }

  lemma SharedSettles(m: map<Id, Vector>, sure: set<Id>, d: Vector -> real, k: nat, hits: seq<Ranked>,
                      out: seq<Ranked>)
    requires Gathers(m, d, hits) && Backed(Restrict(m, sure), d, k, hits) && Foremost(hits, k, out) && Ranks(m, d, out)
    ensures Settles(Restrict(m, sure), d, k, out)
    ensures m.Keys <= sure ==> H.NearestUpToTies(m, d, k, out)
  {
    ForemostSettles(m, Restrict(m, sure), d, k, hits, out);
    if m.Keys <= sure {
      assert Restrict(m, sure) == m;
      SettledIsNearest(m, d, k, out);
    }
  }

  /** The ids that satisfy the filter: what the arms' closure answers, worked out beforehand. */
  method Allowed(store: MS.MetaStore, f: Filter) returns (allowed: set<Id>)
    requires store.Valid() && f != []
    ensures forall id :: id in allowed <==> MatchesId(f, store.Contents(), id)
  {
    allowed := {};
    var rest := store.records.Keys;
    while rest != {}
      invariant rest <= store.records.Keys
      invariant forall id :: id in allowed <==> id !in rest && MatchesId(f, store.Contents(), id)
      decreases |rest|
    {
      var id :| id in rest;
      var ok := store.MatchesById(f, id);
      rest := rest - {id};
      if ok { allowed := allowed + {id}; }
    }
  }

  lemma AllowedTargets(m: map<Id, Vector>, metas: map<Id, Metadata>, f: Filter, allowed: set<Id>)
    requires forall id :: id in allowed <==> MatchesId(f, metas, id)
    ensures Restrict(m, allowed) == Targets(m, metas, f)
  {
  }

  /** The same for the index's metadata, known by value. */
  method AllowedIds(ix: MetadataIndex, ghost sides: Sides, f: Filter, ghost m: map<Id, Floats>)
    returns (allowed: set<Id>)
    requires Knows(ix, sides, f) && f != []
    ensures Restrict(m, allowed) == Targets(m, sides.metas, f)
  {
    allowed := Allowed(ix.metadata, f);
    AllowedTargets(m, sides.metas, f, allowed);
  }

  /** What there is to find: the records a reader sees, and those a scan can read. */
  datatype Sight = Sight(seen: map<Id, Floats>, read: map<Id, Floats>)

  /** What an answer is worth, by the way it came about; `sure` are the records of the sources seen in full. */
  ghost predicate Justified(sight: Sight, version: map<Id, Metadata>, f: Filter, d: Vector -> real, k: nat,
                            out: seq<Ranked>, how: How, sure: set<Id>) {
    var targets := Targets(sight.seen, version, f);
    match how
    case Unfiltered => Ranks(sight.seen, d, out) && |out| <= k && Settles(Restrict(sight.seen, sure), d, k, out)
    case Nothing => out == ExactSearch.Exact(targets, d, k) == []
    case Scanned => out == ExactSearch.Exact(Targets(sight.read, version, f), d, k)
    case OverFetched(_) =>
      Ranks(targets, d, out) && |out| == Min(k, |targets|) == k && Settles(Restrict(targets, sure), d, k, out)
    case Traversed =>
      Ranks(targets, d, out) && |out| == Min(k, |targets|) && Settles(Restrict(targets, sure), d, k, out)
  }

  /** When every record wanted is in full view, whatever graph arm answered, the answer is the `k` nearest. */
  lemma FullViewIsNearest(sight: Sight, version: map<Id, Metadata>, f: Filter, d: Vector -> real, k: nat,
                          out: seq<Ranked>, how: How, sure: set<Id>)
    requires Justified(sight, version, f, d, k, out, how, sure) && !how.Nothing? && !how.Scanned?
    ensures how.Unfiltered? && sight.seen.Keys <= sure ==> H.NearestUpToTies(sight.seen, d, k, out)
    ensures !how.Unfiltered? && Targets(sight.seen, version, f).Keys <= sure ==>
      H.NearestUpToTies(Targets(sight.seen, version, f), d, k, out)
  {
    var m := if how.Unfiltered? then sight.seen else Targets(sight.seen, version, f);
    if m.Keys <= sure {
      assert Restrict(m, sure) == m;
      SettledIsNearest(m, d, k, out);
    }
  }

  /** When every source is seen in full, so is everything a search is about. */
  lemma AllSeenIsNearest(parts: Parts, ls: seq<Source>, sight: Sight, version: map<Id, Metadata>, f: Filter,
                         d: Vector -> real, k: nat, out: seq<Ranked>, how: How, efSearch: nat)
    requires Holds(ls, sight) && !how.Nothing? && !how.Scanned?
    requires forall i: nat :: i < |ls| ==> SeesAt(parts, ls, ModeOf(how, k, efSearch), i)
    requires Justified(sight, version, f, d, k, out, how, Sure(parts, ls, ModeOf(how, k, efSearch)))
    ensures how.Unfiltered? ==> H.NearestUpToTies(sight.seen, d, k, out)
    ensures !how.Unfiltered? ==> H.NearestUpToTies(Targets(sight.seen, version, f), d, k, out)
  {
    hide Justified, Sure, SeesAt, H.NearestUpToTies;
    AllSure(parts, ls, ModeOf(how, k, efSearch));
    FullViewIsNearest(sight, version, f, d, k, out, how, Sure(parts, ls, ModeOf(how, k, efSearch)));
  }

  /** What an answer that came about like this is about. */
  ghost function Found(sight: Sight, how: How): map<Id, Floats> { if how.Scanned? then sight.read else sight.seen }

  /** Every planned answer to a filter is complete: k of the matches, or all of them. */
  lemma PlannedIsComplete(sight: Sight, version: map<Id, Metadata>, f: Filter, d: Vector -> real, k: nat,
                          out: seq<Ranked>, how: How, sure: set<Id>)
    requires Justified(sight, version, f, d, k, out, how, sure) && !how.Unfiltered?
    ensures var targets := Targets(Found(sight, how), version, f);
      |out| == Min(k, |targets|) && Tidy(out) && Gathers(targets, d, out)
  {
    ExactMeans(Targets(Found(sight, how), version, f), d, k);
  }

  /**
   * What a search promises, under one version of the metadata: a justified answer and, unless the filter was
   * skipped, a complete one -- k of the matches or all of them.
   */
  ghost predicate Answers(sides: Sides, sight: Sight, f: Filter, d: Vector -> real, k: nat, out: seq<Ranked>,
                          how: How, sure: set<Id>) {
    exists version :: OneOf(version, sides) && Justified(sight, version, f, d, k, out, how, sure)
      && (!how.Unfiltered? ==> |out| == Min(k, |Targets(Found(sight, how), version, f)|))
  }

  lemma AnswersBy(sides: Sides, version: map<Id, Metadata>, sight: Sight, f: Filter, d: Vector -> real, k: nat,
                  out: seq<Ranked>, how: How, sure: set<Id>)
    requires OneOf(version, sides) && Justified(sight, version, f, d, k, out, how, sure)
    ensures Answers(sides, sight, f, d, k, out, how, sure)
  {
    hide Justified;
    if !how.Unfiltered? { PlannedIsComplete(sight, version, f, d, k, out, how, sure); }
  }

  /** The over-fetching arm keeps the best `k` of the matches it collected, of which there were twice as many. */
  ghost predicate Picked(sides: Sides, seen: map<Id, Floats>, f: Filter, d: Vector -> real, k: nat,
                         collected: seq<Ranked>, out: seq<Ranked>, how: How) {
    how.OverFetched? ==>
      && Gathers(Targets(seen, sides.metas, f), d, collected) && |collected| >= 2 * k
      && Foremost(collected, k, out)
  }

  /** A graph arm returns the best of all that the indexes answered about the records wanted. */
  ghost predicate Harvested(parts: Parts, ls: seq<Source>, metric: Metric, query: Vector, seen: map<Id, Floats>,
                            sides: Sides, f: Filter, d: Vector -> real, k: nat, efSearch: nat, out: seq<Ranked>,
                            how: How)
    reads parts.graphs, parts.flats
  {
    k > 0 && !how.Nothing? && !how.Scanned? ==>
      var targets := if how.Unfiltered? then seen else Targets(seen, sides.metas, f);
      BestOf(parts, ls, metric, query, ModeOf(how, k, efSearch), seen, targets, d, k, out)
  }

  /** An over-fetching arm has a share to go by. */
  ghost predicate SharedBy(ix: MetadataIndex, f: Filter, n: nat, arm: Arm)
    reads ix
  {
    n > 0 && (arm.Post? ==> ShareWithin(ix, f, n, arm.sHat))
  }

  /** An arm that keeps its promises. */
  ghost predicate Chosen(ix: MetadataIndex, sides: Sides, f: Filter, arm: Arm)
    reads ix, ix.metadata, ix.numeric.Values
  {
    Knows(ix, sides, f) && Sound(ix, f, arm)
  }

  /** The filter leaves nothing out. */
  ghost predicate AllWanted(m: map<Id, Floats>, metas: map<Id, Metadata>, f: Filter) { Targets(m, metas, f) == m }

  /** A source list to search, and what it holds. */
  ghost predicate Holds(ls: seq<Source>, sight: Sight) {
    UniqueLive(ls) && sight == Sight(LiveMap(ls), Readable(ls))
  }

  /** The posting lists name seen records only, and `len` counts these. */
  ghost predicate Tallies(m: map<Id, Floats>, posted: map<Id, Metadata>, len: nat) {
    posted.Keys <= m.Keys && len == |m|
  }

  /** No range predicate of the filter is on an indexed field, and there are no others. */
  ghost predicate Unindexed(ix: MetadataIndex, f: Filter)
    reads ix
  {
    forall i :: 0 <= i < |f| ==> f[i].Range? && f[i].key !in ix.numeric
  }

  /**
   * `search_filtered` as one step, at any moment. It is about the records the readers see -- a scan about
   * those among them it can read, which are all if the newest copy decides -- and about the metadata with or
   * without the record that is just being written or deleted. The shortcut alone can go wrong: when the
   * posting lists still name a record that is not seen.
   */
  method SearchFiltered(ix: MetadataIndex, s: State, parts: Parts, metric: Metric, query: Vector, d: Vector -> real,
                        k: nat, f: Filter, config: Config, efSearch: nat)
    returns (out: seq<Ranked>, how: How, ghost collected: seq<Ranked>)
    requires ix.Valid() && Knows(ix, SidesOf(ix), f) && Sensible(config)
    requires Inv(s) && AllServe(parts, Visible(s), metric) && d == Dist(metric, query)
    ensures var sure := Sure(parts, Visible(s), ModeOf(how, k, efSearch));
      Answers(SidesOf(ix), Sight(Seen(s), Readable(Visible(s))), f, d, k, out, how, sure)
    ensures how.OverFetched? ==> FitsShare(ix, f, Max(CountAll(Visible(s)), 1), config, efSearch, k, how.ef)
    ensures Picked(SidesOf(ix), Seen(s), f, d, k, collected, out, how)
    ensures Harvested(parts, Visible(s), metric, query, Seen(s), SidesOf(ix), f, d, k, efSearch, out, how)
    ensures how.Unfiltered? && (f == [] || ix.posted.Keys <= Seen(s).Keys) ==> AllWanted(Seen(s), ix.posted, f)
    ensures (NewestLive(Layers(s)) ==> Readable(Visible(s)) == Seen(s)) && (!s.pc.SealPush? ==> Seen(s) == View(s))
    ensures how.Traversed? ==> Unindexed(ix, f)
  {
    hide Knows, Dist, Justified, AllServe, Targets, Sure, Picked, Answers, FitsShare, Harvested;
    ghost var sides, sight := SidesOf(ix), Sight(Seen(s), Readable(Visible(s)));
    ReadersSee(s, sides.posted);
    out, how, collected := SearchList(ix, sides, Visible(s), sight, parts, metric, query, d, k, f, config, efSearch,
                                      CountAll(Visible(s)));
  }

  /** The length the program counts is the number of records seen. */
  lemma CountsSeen(s: State)
    requires Inv(s)
    ensures CountAll(Visible(s)) == |Seen(s)|
  {
    VisibleMap(s);
    LenIsViewSize(s);
    CutSize(View(s), Taken(s));
  }

  /** What a search finds when it walks the sources, and how far its count can be trusted. */
  lemma ReadersSee(s: State, posted: map<Id, Metadata>)
    requires Inv(s)
    ensures Holds(Visible(s), Sight(Seen(s), Readable(Visible(s)))) && CountAll(Visible(s)) >= 0
    ensures posted.Keys <= Seen(s).Keys ==> Tallies(Seen(s), posted, CountAll(Visible(s)))
    ensures (NewestLive(Layers(s)) ==> Readable(Visible(s)) == Seen(s)) && (!s.pc.SealPush? ==> Seen(s) == View(s))
  {
    VisibleMap(s);
    NothingTaken(s);
    CountsSeen(s);
    ReadableIff(Visible(s));
  }

  /** The trivial cases first. */
  method SearchList(ix: MetadataIndex, ghost sides: Sides, ls: seq<Source>, ghost sight: Sight, parts: Parts,
                    metric: Metric, query: Vector, d: Vector -> real, k: nat, f: Filter, config: Config,
                    efSearch: nat, len: nat)
    returns (out: seq<Ranked>, how: How, ghost collected: seq<Ranked>)
    requires Knows(ix, sides, f) && Sensible(config) && Holds(ls, sight)
    requires AllServe(parts, ls, metric) && d == Dist(metric, query)
    ensures Answers(sides, sight, f, d, k, out, how, Sure(parts, ls, ModeOf(how, k, efSearch)))
    ensures how.Unfiltered? && (f == [] || Tallies(sight.seen, sides.posted, len)) ==>
      AllWanted(sight.seen, sides.posted, f)
    ensures how.Traversed? ==> Unindexed(ix, f)
    ensures how.OverFetched? ==> FitsShare(ix, f, Max(len, 1), config, efSearch, k, how.ef)
    ensures Picked(sides, sight.seen, f, d, k, collected, out, how)
    ensures Harvested(parts, ls, metric, query, sight.seen, sides, f, d, k, efSearch, out, how)
  {
    hide Knows, Holds, Dist, Justified, AllServe, Answers, Sure, FitsShare, BestOf;
    collected := [];
    if |f| == 0 {
      EmptyFilter(sight.seen, sides.posted, f);
      out := RunUnfiltered(parts, ls, sight, metric, query, d, k, efSearch, sides.posted, f);
      how := Unfiltered;
      AnswersBy(sides, sides.posted, sight, f, d, k, out, how, Sure(parts, ls, ModeOf(how, k, efSearch)));
    } else if k == 0 {
      out, how := [], Nothing;
      NothingAsked(sight, sides.metas, f, d, Sure(parts, ls, ModeOf(how, k, efSearch)));
      AnswersBy(sides, sides.metas, sight, f, d, k, out, how, Sure(parts, ls, ModeOf(how, k, efSearch)));
    } else {
      out, how, collected :=
        SearchPlanned(ix, sides, ls, sight, parts, metric, query, d, k, f, config, efSearch, len);
    }
  }

  /** The shortcut, then the planned arm. */
  method SearchPlanned(ix: MetadataIndex, ghost sides: Sides, ls: seq<Source>, ghost sight: Sight, parts: Parts,
                       metric: Metric, query: Vector, d: Vector -> real, k: nat, f: Filter, config: Config,
                       efSearch: nat, len: nat)
    returns (out: seq<Ranked>, how: How, ghost collected: seq<Ranked>)
    requires Knows(ix, sides, f) && Sensible(config) && f != [] && Holds(ls, sight)
    requires AllServe(parts, ls, metric) && d == Dist(metric, query)
    ensures Answers(sides, sight, f, d, k, out, how, Sure(parts, ls, ModeOf(how, k, efSearch)))
    ensures how.Unfiltered? && Tallies(sight.seen, sides.posted, len) ==> AllWanted(sight.seen, sides.posted, f)
    ensures how.Traversed? ==> Unindexed(ix, f)
    ensures how.OverFetched? ==> FitsShare(ix, f, Max(len, 1), config, efSearch, k, how.ef)
    ensures Picked(sides, sight.seen, f, d, k, collected, out, how)
    ensures Harvested(parts, ls, metric, query, sight.seen, sides, f, d, k, efSearch, out, how)
  {
    hide Knows, Chosen, Holds, Dist, Justified, AllServe, Tallies, AllWanted, Answers, Sure, FitsShare, SharedBy;
    hide BestOf;
    collected := [];
    var arm := Decide(ix, sides, sight.seen, f, k, len, config);
    if arm.None? {
      out := RunUnfiltered(parts, ls, sight, metric, query, d, k, efSearch, sides.posted, f);
      how := Unfiltered;
      AnswersBy(sides, sides.posted, sight, f, d, k, out, how, Sure(parts, ls, ModeOf(how, k, efSearch)));
    } else {
      out, how, collected :=
        RunArm(ix, sides, ls, sight, parts, metric, query, d, k, f, arm.value, config, efSearch, Max(len, 1));
    }
  }

  /** The plain search. */
  method RunUnfiltered(parts: Parts, ls: seq<Source>, ghost sight: Sight, metric: Metric, query: Vector,
                       d: Vector -> real, k: nat, efSearch: nat, ghost version: map<Id, Metadata>, f: Filter)
    returns (out: seq<Ranked>)
    requires Holds(ls, sight) && AllServe(parts, ls, metric) && d == Dist(metric, query)
    ensures Justified(sight, version, f, d, k, out, Unfiltered, Sure(parts, ls, Plain(k, efSearch)))
    ensures k > 0 ==> BestOf(parts, ls, metric, query, Plain(k, efSearch), sight.seen, sight.seen, d, k, out)
  {
    hide BestOf;
    hide Dist, AllServe, Ranks, Sure, Settles;
    out := SearchShared(parts, ls, metric, query, k, efSearch);
  }

  /** No arm when the filter turns out to be empty. */
  method Decide(ix: MetadataIndex, ghost sides: Sides, ghost m: map<Id, Floats>, f: Filter, k: nat, len: nat,
                config: Config)
    returns (arm: Option<Arm>)
    requires Knows(ix, sides, f) && Sensible(config) && f != []
    ensures arm.None? && Tallies(m, sides.posted, len) ==> AllWanted(m, sides.posted, f)
    ensures arm.Some? ==> Chosen(ix, sides, f, arm.value) && SharedBy(ix, f, Max(len, 1), arm.value)
  {
    var everyone := MatchedByAll(ix, m, f, len);
    if everyone { return None; }
    var chosen := Plan(ix, f, k, len, config);
    arm := Some(chosen);
  }

  lemma NothingAsked(sight: Sight, version: map<Id, Metadata>, f: Filter, d: Vector -> real, sure: set<Id>)
    ensures Justified(sight, version, f, d, 0, [], Nothing, sure)
  {
    ExactMeans(Targets(sight.seen, version, f), d, 0);
  }

  lemma EmptyFilter(m: map<Id, Floats>, metas: map<Id, Metadata>, f: Filter)
    requires f == []
    ensures AllWanted(m, metas, f)
  {
  }

  /** A single Eq that at least as many records carry as are alive filters nothing out. */
  method MatchedByAll(ix: MetadataIndex, ghost m: map<Id, Floats>, f: Filter, len: nat) returns (all: bool)
    requires ix.Valid() && ExactData(ix.posted, f)
    ensures all == Fires(ix.posted, f, len)
    ensures all && Tallies(m, ix.posted, len) ==> AllWanted(m, ix.posted, f)
  {
    if |f| != 1 { return false; }
    var est := Estimate(ix, f);
    all := est.Some? && |est.value| >= Max(len, 1);
    if est.Some? { ListedCarriers(ix.posted, f, est.value); }
    if all && Tallies(m, ix.posted, len) { EveryoneMatches(m, ix.posted, f, len); }
  }

  /** Carrying out the chosen arm. */
  method RunArm(ix: MetadataIndex, ghost sides: Sides, ls: seq<Source>, ghost sight: Sight, parts: Parts,
                metric: Metric, query: Vector, d: Vector -> real, k: nat, f: Filter, arm: Arm, config: Config,
                efSearch: nat, ghost n: nat)
    returns (out: seq<Ranked>, how: How, ghost collected: seq<Ranked>)
    requires SharedBy(ix, f, n, arm)
    requires Chosen(ix, sides, f, arm) && f != [] && Sensible(config) && Holds(ls, sight)
    requires AllServe(parts, ls, metric) && d == Dist(metric, query)
    ensures Answers(sides, sight, f, d, k, out, how, Sure(parts, ls, ModeOf(how, k, efSearch))) && !how.Unfiltered?
    ensures how.Traversed? ==> Unindexed(ix, f)
    ensures how.OverFetched? ==> FitsShare(ix, f, n, config, efSearch, k, how.ef)
    ensures Picked(sides, sight.seen, f, d, k, collected, out, how)
    ensures Harvested(parts, ls, metric, query, sight.seen, sides, f, d, k, efSearch, out, how)
  {
    hide Knows, Chosen, Holds, Dist, Justified, AllServe, Offers, Answers, Sure, ShareWithin, Width, MatchCount;
    hide BestOf, Targets;
    ArmPromises(ix, sides, f, arm);
    collected := [];
    match arm {
      case Empty =>
        out, how := [], Nothing;
        NoTargets(sight, sides, f, d, k, Sure(parts, ls, Wide(0)));
      case Scan(ids) =>
        out := RunScan(ix, sides, ls, sight, d, k, ids, f, Sure(parts, ls, Wide(0)));
        how := Scanned;
      case Post(sHat, _) =>
        out, how, collected :=
          RunPost(ix, sides, ls, sight, parts, metric, query, d, k, f, arm, Width(config, efSearch, k, sHat), efSearch);
      case Legacy =>
        out := RunLegacy(ix, sides, ls, sight, parts, metric, query, d, k, f, efSearch);
        how := How.Traversed;
        AnswersBy(sides, sides.metas, sight, f, d, k, out, how, Sure(parts, ls, ModeOf(how, k, efSearch)));
    }
  }

  lemma ArmPromises(ix: MetadataIndex, sides: Sides, f: Filter, arm: Arm)
    requires Chosen(ix, sides, f, arm)
    ensures Knows(ix, sides, f) && InStep(sides)
    ensures arm.Empty? ==> Offers(sides.posted, sides.ranged, f, [])
    ensures arm.Scan? ==> Offers(sides.posted, sides.ranged, f, arm.ids)
    ensures arm.Post? ==> arm.sHat > 0.0
    ensures arm.Legacy? ==> Unindexed(ix, f)
  {
  }

  method RunScan(ix: MetadataIndex, ghost sides: Sides, ls: seq<Source>, ghost sight: Sight, d: Vector -> real,
                 k: nat, candidates: seq<Id>, f: Filter, ghost sure: set<Id>)
    returns (out: seq<Ranked>)
    requires Knows(ix, sides, f) && f != [] && Offers(sides.posted, sides.ranged, f, candidates) && Holds(ls, sight)
    ensures Answers(sides, sight, f, d, k, out, Scanned, sure)
  {
    hide Knows, Offers, UniqueLive, Answers;
    out := ScanList(ix, sides, ls, d, k, candidates, f);
    ghost var version :| OneOf(version, sides) && out == ExactSearch.Exact(Targets(sight.read, version, f), d, k);
    AnswersBy(sides, version, sight, f, d, k, out, Scanned, sure);
  }

  /** Over-fetch, filter, and fall back to the exact scan when fewer than 2k matches came out. */
  method RunPost(ix: MetadataIndex, ghost sides: Sides, ls: seq<Source>, ghost sight: Sight, parts: Parts,
                 metric: Metric, query: Vector, d: Vector -> real, k: nat, f: Filter, arm: Arm, ef: nat,
                 ghost efSearch: nat)
    returns (out: seq<Ranked>, how: How, ghost collected: seq<Ranked>)
    requires Chosen(ix, sides, f, arm) && f != [] && arm.Post? && Holds(ls, sight)
    requires AllServe(parts, ls, metric) && d == Dist(metric, query)
    ensures Answers(sides, sight, f, d, k, out, how, Sure(parts, ls, ModeOf(how, k, efSearch)))
    ensures how.Scanned? || how == How.OverFetched(ef)
    ensures Picked(sides, sight.seen, f, d, k, collected, out, how)
    ensures Harvested(parts, ls, metric, query, sight.seen, sides, f, d, k, efSearch, out, how)
  {
    hide Knows, Chosen, Holds, Dist, Justified, AllServe, Ranks, Targets, Answers, Sure, Backed, Foremost, HandedIn;
    ArmPromises(ix, sides, f, arm);
    var all := OverFetchRanked(ix, sides, ls, sight, parts, metric, query, d, k, f, ef);
    collected := all;
    if |all| < 2 * k {
      out := RunFallback(ix, sides, ls, sight, d, k, f, arm, Sure(parts, ls, Wide(0)));
      how := Scanned;
    } else {
      out := FirstK(all, k, ef, sight, sides.metas, f, d, Sure(parts, ls, Wide(ef)));
      how := How.OverFetched(ef);
      AnswersBy(sides, sides.metas, sight, f, d, k, out, how, Sure(parts, ls, Wide(ef)));
      RanksGather(Targets(sight.seen, sides.metas, f), d, all);
      assert BestOf(parts, ls, metric, query, Wide(ef), sight.seen, Targets(sight.seen, sides.metas, f), d, k, out);
    }
  }

  lemma RanksGather(m: map<Id, Vector>, d: Vector -> real, all: seq<Ranked>)
    requires Ranks(m, d, all)
    ensures Gathers(m, d, all)
  {
  }

  /** More than enough matches were found: the first `k` of them. */
  method FirstK(all: seq<Ranked>, k: nat, ghost ef: nat, ghost sight: Sight, ghost version: map<Id, Metadata>,
                ghost f: Filter, ghost d: Vector -> real, ghost sure: set<Id>)
    returns (out: seq<Ranked>)
    requires Ranks(Targets(sight.seen, version, f), d, all) && |all| >= 2 * k
    requires Backed(Restrict(Targets(sight.seen, version, f), sure), d, k, all)
    ensures Justified(sight, version, f, d, k, out, How.OverFetched(ef), sure) && Foremost(all, k, out)
  {
    hide Backed, Foremost, Settles, Targets;
    ghost var m := Targets(sight.seen, version, f);
    GathersFit(m, d, all);
    out := Truncated(all, k, m, d);
    SharedSettles(m, sure, d, k, all, out);
    ForemostSize(all, k, out);
  }

  lemma ForemostSize(hits: seq<Ranked>, k: nat, out: seq<Ranked>)
    requires Foremost(hits, k, out)
    ensures |out| == Min(k, |hits|)
  {
  }

  method RunFallback(ix: MetadataIndex, ghost sides: Sides, ls: seq<Source>, ghost sight: Sight, d: Vector -> real,
                     k: nat, f: Filter, arm: Arm, ghost sure: set<Id>)
    returns (out: seq<Ranked>)
    requires Chosen(ix, sides, f, arm) && f != [] && arm.Post? && Holds(ls, sight)
    ensures Answers(sides, sight, f, d, k, out, Scanned, sure)
  {
    hide Holds, Answers;
    var ids := FallbackIds(ix, f, arm);
    out := RunScan(ix, sides, ls, sight, d, k, ids, f, sure);
  }

  method OverFetchRanked(ix: MetadataIndex, ghost sides: Sides, ls: seq<Source>, ghost sight: Sight, parts: Parts,
                         metric: Metric, query: Vector, d: Vector -> real, k: nat, f: Filter, ef: nat)
    returns (all: seq<Ranked>)
    requires Knows(ix, sides, f) && f != [] && Holds(ls, sight)
    requires AllServe(parts, ls, metric) && d == Dist(metric, query)
    ensures Ranks(Targets(sight.seen, sides.metas, f), d, all)
    ensures Backed(Restrict(Targets(sight.seen, sides.metas, f), Sure(parts, ls, Wide(ef))), d, k, all)
    ensures HandedIn(parts, ls, metric, query, Wide(ef), sight.seen, Targets(sight.seen, sides.metas, f), all)
  {
    hide OfferedBelow;
    hide Knows, Dist, AllServe, Ranks, Gathers, UniqueLive, Backed, Sure;
    var allowed := AllowedIds(ix, sides, f, sight.seen);
    var hits := OverFetchAll(parts, ls, metric, query, k, ef, allowed);
    all := Ranking(hits, Targets(sight.seen, sides.metas, f), d);
    BackedGrows(Restrict(Targets(sight.seen, sides.metas, f), Sure(parts, ls, Wide(ef))), d, k, hits, all);
    OfferedBelowGrows(parts, ls, |ls|, metric, query, Wide(ef), allowed, hits, all);
  }

  /** The graphs are walked under the filter; every source gives `k` matches or all it has. */
  method RunLegacy(ix: MetadataIndex, ghost sides: Sides, ls: seq<Source>, ghost sight: Sight, parts: Parts,
                   metric: Metric, query: Vector, d: Vector -> real, k: nat, f: Filter, efSearch: nat)
    returns (out: seq<Ranked>)
    requires Knows(ix, sides, f) && f != [] && Holds(ls, sight)
    requires AllServe(parts, ls, metric) && d == Dist(metric, query)
    ensures Justified(sight, sides.metas, f, d, k, out, How.Traversed, Sure(parts, ls, Walking(k, efSearch)))
    ensures var targets := Targets(sight.seen, sides.metas, f);
      BestOf(parts, ls, metric, query, Walking(k, efSearch), sight.seen, targets, d, k, out)
  {
    hide Knows, Dist, AllServe, UniqueLive, Sure, Backed, Justified, BestOf, OfferedBelow, Foremost, Gathers, Plenty;
    var allowed := AllowedIds(ix, sides, f, sight.seen);
    var hits := TraverseAll(parts, ls, metric, query, k, efSearch, allowed);
    out := FirstOfPlenty(hits, k, sight, sides.metas, f, d, Sure(parts, ls, Walking(k, efSearch)));
    BestBy(parts, ls, metric, query, Walking(k, efSearch), sight.seen, Targets(sight.seen, sides.metas, f), d, k, out,
           allowed, hits);
  }

  method FirstOfPlenty(hits: seq<Ranked>, k: nat, ghost sight: Sight, ghost version: map<Id, Metadata>,
                       ghost f: Filter, ghost d: Vector -> real, ghost sure: set<Id>)
    returns (out: seq<Ranked>)
    requires Gathers(Targets(sight.seen, version, f), d, hits) && Plenty(Targets(sight.seen, version, f), k, hits)
    requires Backed(Restrict(Targets(sight.seen, version, f), sure), d, k, hits)
    ensures Justified(sight, version, f, d, k, out, How.Traversed, sure) && Foremost(hits, k, out)
  {
    hide Backed, Foremost, Settles, Targets;
    ghost var m := Targets(sight.seen, version, f);
    GathersFit(m, d, hits);
    out := Leading(hits, k, m, d);
    SharedSettles(m, sure, d, k, hits, out);
    ForemostSize(hits, k, out);
  }

  lemma TidyPrefix(all: seq<Ranked>, n: nat)
    requires Tidy(all) && n <= |all|
    ensures Tidy(all[..n]) && forall x :: x in all[..n] ==> x in all
  {
  }

  lemma NoTargets(sight: Sight, sides: Sides, f: Filter, d: Vector -> real, k: nat, sure: set<Id>)
    requires f != [] && Offers(sides.posted, sides.ranged, f, []) && InStep(sides)
    ensures Answers(sides, sight, f, d, k, [], Nothing, sure)
  {
    hide Answers;
    var version := OfferedTargets(sides, f, [], []);
    AmongTargets(sight.seen, [], version, f);
    assert Targets(sight.seen, version, f) == map[];
    ExactMeans(Targets(sight.seen, version, f), d, k);
    AnswersBy(sides, version, sight, f, d, k, [], Nothing, sure);
  }

  /** The ids that satisfy one predicate. */
  ghost function Carriers(metas: map<Id, Metadata>, p: Predicate): set<Id> {
    set id | id in metas && Satisfies(p, FieldOf(metas[id], p.key))
  }

  /** The shortcut's test: a single Eq, carried by at least as many records as there are. */
  ghost predicate Fires(posted: map<Id, Metadata>, f: Filter, len: int) {
    |f| == 1 && f[0].Eq? && |Carriers(posted, f[0])| >= Max(len, 1)
  }

  lemma {:induction false} ListSize(ids: seq<Id>, s: set<Id>)
    requires NoRepeats(ids) && forall id :: id in ids <==> id in s
    ensures |ids| == |s|
  {
    if |ids| > 0 {
      var n := |ids| - 1;
      var x := ids[n];
      assert x in ids && forall id :: id in ids <==> id in ids[..n] || id == x;
      ListSize(ids[..n], s - {x});
      assert |s - {x}| == |s| - 1;
    } else {
      assert s == {};
    }
  }

  lemma ListedCarriers(metas: map<Id, Metadata>, f: Filter, ids: seq<Id>)
    requires |f| == 1 && OffersEq(metas, f, ids)
    ensures |ids| == |Carriers(metas, f[0])| && f[0].Eq?
  {
    assert ListsMatches(metas, f[0], ids);
    ListSize(ids, Carriers(metas, f[0]));
  }

  /** When the posting lists name seen records only, the shortcut fires only if every seen record matches. */
  lemma EveryoneMatches(m: map<Id, Floats>, posted: map<Id, Metadata>, f: Filter, len: nat)
    requires Fires(posted, f, len) && Tallies(m, posted, len)
    ensures AllWanted(m, posted, f)
  {
    var all := Carriers(posted, f[0]);
    assert |m.Keys| == |m|;
    SubsetOfSize(all, m.Keys);
  }

  lemma SubsetOfSize(a: set<Id>, b: set<Id>)
    requires a <= b && |a| >= |b|
    ensures a == b
  {
    assert |b - a| == |b| - |a|;
  }
}
