/**
 * Metadata values, their posting-list keys, filters, and the dictionary-coded metadata store.
 * Numbers are reals; the comparisons agree with the program's `f64` ones as long as every integer
 * converts exactly (see `Exact`).
 */
module Meta {
  import opened Prelude

  datatype MetaValue = Bool(b: bool) | Int(i: int) | Float(x: Double) | Str(s: string)

  /** Field name -> value; what a client sends and what the store must give back. */
  type Metadata = map<string, MetaValue>

  const I64_LIMIT: int := 0x8000_0000_0000_0000
  const F64_EXACT: int := 0x20_0000_0000_0000

  function AsNumber(v: MetaValue): Option<real> {
    match v case Int(i) => Some(i as real) case Float(x) => Some(x) case _ => None
  }

  /** Filter equality: numbers by value across the two numeric kinds, everything else structurally. */
  predicate Equals(a: MetaValue, b: MetaValue) {
    match (AsNumber(a), AsNumber(b))
    case (Some(x), Some(y)) => x == y
    case _ => a == b
  }

  /** Posting-list keys. A float that is not folded into `KInt` is kept as it is (its bit pattern). */
  datatype MetaKey = KBool(b: bool) | KInt(i: int) | KFloat(x: real) | KStr(s: string)

  predicate Whole(x: real) { x == x.Floor as real }

  predicate Foldable(x: real) { Whole(x) && -(I64_LIMIT as real) < x < I64_LIMIT as real }

  function Key(v: MetaValue): MetaKey {
    match v
    case Bool(b) => KBool(b)
    case Int(i) => KInt(i)
    case Float(x) => if Foldable(x) then KInt(x.Floor) else KFloat(x)
    case Str(s) => KStr(s)
  }

  /** An integer that `f64` represents exactly (and so do all smaller ones). */
  predicate Exact(v: MetaValue) { v.Int? ==> -F64_EXACT <= v.i <= F64_EXACT }

  /** Posting lists and predicates agree on what "equal" means. */
  lemma KeyIsEquality(a: MetaValue, b: MetaValue)
    requires Exact(a) && Exact(b)
    ensures Key(a) == Key(b) <==> Equals(a, b)
  {
    if a.Float? && b.Int? { IntKey(b.i, a.x); }
    if a.Int? && b.Float? { IntKey(a.i, b.x); }
    if a.Float? && b.Float? && Foldable(a.x) && Foldable(b.x) {
      assert a.x == b.x <==> a.x.Floor == b.x.Floor;
    }
  }

  lemma IntKey(i: int, x: real)
    requires -F64_EXACT <= i <= F64_EXACT
    ensures (Foldable(x) && x.Floor == i) <==> x == i as real
  {
  }

  /** The smallest i64 as a float. */
  const SMALLEST: Double := (LimitIsDouble(); -(I64_LIMIT as real))

  lemma LimitIsDouble()
    ensures IsDouble(-(I64_LIMIT as real))
  {
    assert Pow2(4) == 16.0 by { assert Pow2(2) == 4.0; }
    assert Pow2(8) == 256.0 by { assert Pow2(6) == 64.0; }
    assert Pow2(12) == 4096.0 by { assert Pow2(10) == 1024.0; }
    assert Scaled(-(I64_LIMIT as real), -0x8_0000_0000_0000, 12);
  }

  /** Outside that range they do not: the smallest i64 equals its float, but the keys differ. */
  lemma KeyMissesSmallestInt()
    ensures Equals(Int(-I64_LIMIT), Float(SMALLEST))
    ensures Key(Int(-I64_LIMIT)) != Key(Float(SMALLEST))
  {
    assert !Foldable(SMALLEST);
  }

  // ---- Filters ----

  /** A range endpoint; infinite for a one-sided range. */
  datatype Bound = NegInf | Fin(r: real) | PosInf

  predicate Le(a: Bound, b: Bound) {
    a.NegInf? || b.PosInf? || (a.Fin? && b.Fin? && a.r <= b.r)
  }

  predicate In(x: real, lo: Bound, hi: Bound) { Le(lo, Fin(x)) && Le(Fin(x), hi) }

  datatype Predicate = Eq(key: string, value: MetaValue) | Range(key: string, min: Bound, max: Bound)

  /** A conjunction; empty means "everything". */
  type Filter = seq<Predicate>

  predicate Satisfies(p: Predicate, found: Option<MetaValue>) {
    match p
    case Eq(_, value) => found.Some? && Equals(found.value, value)
    case Range(_, min, max) =>
      found.Some? && AsNumber(found.value).Some? && In(AsNumber(found.value).value, min, max)
  }

  function FieldOf(m: Metadata, key: string): Option<MetaValue> {
    if key in m then Some(m[key]) else None
  }

  predicate Matches(f: Filter, m: Metadata) {
    forall i :: 0 <= i < |f| ==> Satisfies(f[i], FieldOf(m, f[i].key))
  }

  /** Matching by id: a record without metadata passes only the empty filter. */
  predicate MatchesId(f: Filter, metas: map<Id, Metadata>, id: Id) {
    f == [] || (id in metas && Matches(f, metas[id]))
  }

  /** What a range accepts: numbers of either kind within its endpoints, and nothing else. */
  lemma RangeMeans(key: string, a: real, b: real, i: int, x: Double, t: bool, s: string)
    ensures Satisfies(Range(key, Fin(a), Fin(b)), Some(Int(i))) <==> a <= i as real <= b
    ensures Satisfies(Range(key, Fin(a), Fin(b)), Some(Float(x))) <==> a <= x <= b
    ensures Satisfies(Range(key, NegInf, Fin(b)), Some(Int(i))) <==> i as real <= b
    ensures Satisfies(Range(key, NegInf, Fin(b)), Some(Float(x))) <==> x <= b
    ensures Satisfies(Range(key, Fin(a), PosInf), Some(Int(i))) <==> a <= i as real
    ensures Satisfies(Range(key, Fin(a), PosInf), Some(Float(x))) <==> a <= x
    ensures Satisfies(Range(key, NegInf, PosInf), Some(Int(i))) && Satisfies(Range(key, NegInf, PosInf), Some(Float(x)))
    ensures forall lo, hi :: !Satisfies(Range(key, lo, hi), None)
    ensures forall lo, hi :: !Satisfies(Range(key, lo, hi), Some(Bool(t)))
    ensures forall lo, hi :: !Satisfies(Range(key, lo, hi), Some(Str(s)))
  {
  }

  /** A filter is the conjunction of its predicates; records without metadata pass only the empty one. */
  lemma MatchesMeans(f: Filter, g: Filter, p: Predicate, metas: map<Id, Metadata>, id: Id)
    ensures MatchesId([], metas, id)
    ensures MatchesId([p], metas, id) <==>
      id in metas && p.key in metas[id] && Satisfies(p, Some(metas[id][p.key]))
    ensures MatchesId(f + g, metas, id) <==> MatchesId(f, metas, id) && MatchesId(g, metas, id)
  {
    if id in metas {
      var m, h := metas[id], f + g;
      assert forall i :: 0 <= i < |f| ==> h[i] == f[i];
      assert forall i :: 0 <= i < |g| ==> h[|f| + i] == g[i];
      assert [p][0] == p;
    }
  }

  /** What an equality accepts: the same number in either kind, or the same value. */
  lemma EqMeans(key: string, i: int, j: int, x: Double, y: Double, t: bool, u: bool, r: string, s: string)
    ensures Satisfies(Eq(key, Int(i)), Some(Int(j))) <==> i == j
    ensures Satisfies(Eq(key, Float(x)), Some(Float(y))) <==> x == y
    ensures Satisfies(Eq(key, Int(i)), Some(Float(x))) <==> i as real == x
    ensures Satisfies(Eq(key, Float(x)), Some(Int(i))) <==> i as real == x
    ensures Satisfies(Eq(key, Bool(t)), Some(Bool(u))) <==> t == u
    ensures Satisfies(Eq(key, Str(r)), Some(Str(s))) <==> r == s
    ensures forall v: MetaValue :: !Satisfies(Eq(key, v), None)
    ensures forall v: MetaValue :: !v.Bool? ==> !Satisfies(Eq(key, Bool(t)), Some(v))
    ensures forall v: MetaValue :: !v.Bool? ==> !Satisfies(Eq(key, v), Some(Bool(t)))
    ensures forall v: MetaValue :: !v.Str? ==> !Satisfies(Eq(key, Str(s)), Some(v))
    ensures forall v: MetaValue :: !v.Str? ==> !Satisfies(Eq(key, v), Some(Str(s)))
  {
  }

  // ---- The order-preserving projection of f64 bit patterns ----

  const SIGN: int := 0x8000_0000_0000_0000

  /** A 64-bit pattern: sign bit, then magnitude. */
  type Bits = b: int | 0 <= b < 2 * SIGN

  predicate Negative(b: Bits) { b >= SIGN }

  function Magnitude(b: Bits): int { if Negative(b) then b - SIGN else b }

  /** The value of a pattern, for any reading of magnitudes that grows with the bits. */
  function ValueOf(mag: int -> real, b: Bits): real {
    if Negative(b) then -mag(Magnitude(b)) else mag(Magnitude(b))
  }

  ghost predicate Growing(mag: int -> real) {
    mag(0) == 0.0 && forall m, n :: 0 <= m < n < SIGN ==> mag(m) < mag(n)
  }

  function OrderedBits(b: Bits): Bits { if Negative(b) then 2 * SIGN - 1 - b else b + SIGN }

  function BitsToFloat(o: Bits): Bits { if o >= SIGN then o - SIGN else 2 * SIGN - 1 - o }

  /** The projection sorts exactly like the values it stands for, apart from the two zeros, and inverts. */
  lemma OrderedBitsOrder(mag: int -> real, a: Bits, b: Bits)
    requires Growing(mag)
    ensures BitsToFloat(OrderedBits(a)) == a
    ensures OrderedBits(a) < OrderedBits(b) <==>
      ValueOf(mag, a) < ValueOf(mag, b) || (a == SIGN && b == 0)
  {
    var m, n := Magnitude(a), Magnitude(b);
    assert m > 0 ==> mag(0) < mag(m);
    assert n > 0 ==> mag(0) < mag(n);
    assert m < n ==> mag(m) < mag(n);
    assert n < m ==> mag(n) < mag(m);
  }
}
