/**
 * The scalar quantizer over the reals, and the frozen index that searches its codes. `f32` rounding is
 * not modelled: the bounds below are those of exact arithmetic.
 */
module Quant {
  import opened Prelude
  import opened Meta

  /** An 8-bit code. */
  type Code = c: int | 0 <= c <= 255

  /** `f32::round`: to the nearest integer, halves away from zero. */
  function Round(x: real): int { if x >= 0.0 then (x + 0.5).Floor else -((-x + 0.5).Floor) }

  function ClampCode(n: int): Code { if n < 0 then 0 else if n > 255 then 255 else n }

  /** One dimension: `value ~ lo + scale * code`. */
  function EncodeOne(lo: real, scale: real, x: real): Code {
    if scale == 0.0 then 0 else ClampCode(Round((x - lo) / scale))
  }

  function DecodeOne(lo: real, scale: real, c: Code): real { lo + scale * c as real }

  function Abs(x: real): real { if x < 0.0 then -x else x }

  lemma RoundIsNear(x: real)
    ensures Abs(Round(x) as real - x) <= 0.5
  {
  }

  lemma Scaled(scale: real, a: real, b: real)
    requires scale > 0.0 && Abs(a) <= b
    ensures Abs(scale * a) <= scale * b
  {
    NonNegative(scale, b - a);
    NonNegative(scale, b + a);
    assert scale * (b - a) == scale * b - scale * a && scale * (b + a) == scale * b + scale * a;
  }

  lemma Quotient(d: real, x: real, bound: real)
    requires d > 0.0 && 0.0 <= x <= bound * d
    ensures 0.0 <= x / d <= bound && x == d * (x / d)
  {
    var q := x / d;
    assert x == d * q;
    assert q < 0.0 ==> d * q < 0.0;
    assert q > bound ==> d * (q - bound) > 0.0;
  }

  /** A calibrated value comes back within half a step; a constant dimension comes back exactly. */
  lemma HalfStep(lo: real, scale: real, x: real)
    requires scale >= 0.0 && lo <= x <= lo + 255.0 * scale
    ensures Abs(DecodeOne(lo, scale, EncodeOne(lo, scale, x)) - x) <= scale / 2.0
    ensures scale == 0.0 ==> DecodeOne(lo, scale, EncodeOne(lo, scale, x)) == x
  {
    if scale > 0.0 {
      Quotient(scale, x - lo, 255.0);
      NearestStep(lo, scale, x, (x - lo) / scale);
    }
  }

  lemma NearestStep(lo: real, scale: real, x: real, q: real)
    requires scale > 0.0 && 0.0 <= q <= 255.0 && x - lo == scale * q
    ensures 0 <= Round(q) <= 255 && Abs(DecodeOne(lo, scale, Round(q)) - x) <= scale / 2.0
  {
    RoundIsNear(q);
    var c := Round(q) as real;
    var rest := c - q;
    var miss := scale * rest;
    Scaled(scale, rest, 0.5);
    assert Abs(miss) <= scale * 0.5;
    Distribute(scale, c, q);
    MissedBy(lo, x, scale * c, scale * q, miss, scale);
  }

  lemma MissedBy(lo: real, x: real, step: real, offset: real, miss: real, scale: real)
    requires x - lo == offset && miss == step - offset && Abs(miss) <= scale * 0.5
    ensures Abs(lo + step - x) <= scale / 2.0
  {
  }

  lemma Distribute(s: real, a: real, b: real)
    ensures s * (a - b) == s * a - s * b
  {
  }

  /** A value outside the calibrated range goes to the nearer end. */
  lemma OutsideClamps(lo: real, scale: real, x: real)
    requires scale > 0.0 && (x < lo || x > lo + 255.0 * scale)
    ensures EncodeOne(lo, scale, x) == if x < lo then 0 else 255
  {
    var q := (x - lo) / scale;
    assert x - lo == scale * q;
    assert q >= 0.0 ==> scale * q >= 0.0;
    assert q <= 255.0 ==> scale * (255.0 - q) >= 0.0;
  }

  // ---- Sums over dimensions ----

  function Sum(t: seq<real>): real {
    if |t| == 0 then 0.0 else Sum(t[..|t| - 1]) + t[|t| - 1]
  }

  lemma {:induction false} SumConcat(a: seq<real>, b: seq<real>)
    ensures Sum(a + b) == Sum(a) + Sum(b)
  {
    if |b| == 0 {
      assert a + b == a;
    } else {
      assert (a + b)[..|a + b| - 1] == a + b[..|b| - 1];
      SumConcat(a, b[..|b| - 1]);
    }
  }

  lemma {:induction false} SumBelow(a: seq<real>, b: seq<real>)
    requires |a| == |b| && forall i :: 0 <= i < |a| ==> a[i] <= b[i]
    ensures Sum(a) <= Sum(b)
  {
    if |a| > 0 { SumBelow(a[..|a| - 1], b[..|b| - 1]); }
  }

  lemma {:induction false} SumPairwise(a: seq<real>, b: seq<real>, c: seq<real>)
    requires |a| == |b| == |c| && forall i :: 0 <= i < |a| ==> c[i] == a[i] + b[i]
    ensures Sum(c) == Sum(a) + Sum(b)
  {
    if |a| > 0 { SumPairwise(a[..|a| - 1], b[..|b| - 1], c[..|c| - 1]); }
  }

  lemma {:induction false} SumZero(a: seq<real>)
    requires forall i :: 0 <= i < |a| ==> a[i] == 0.0
    ensures Sum(a) == 0.0
  {
    if |a| > 0 { SumZero(a[..|a| - 1]); }
  }

  // ---- The quantizer ----

  const LANES: nat := 8

  /** Calibration of one dimension: a lower end and a step; `mins[d] + 255 * scales[d]` is the upper end. */
  datatype ScalarQuantizer = ScalarQuantizer(mins: seq<real>, scales: seq<real>) {
    ghost predicate Valid() {
      |mins| == |scales| && forall j :: 0 <= j < |scales| ==> scales[j] >= 0.0
    }

    /** `v` lies within the calibrated range in every dimension. */
    ghost predicate Covers(v: Vector) {
      |v| == |mins| == |scales| && forall j :: 0 <= j < |v| ==> mins[j] <= v[j] <= mins[j] + 255.0 * scales[j]
    }

    function Codes(v: Vector): (c: seq<Code>)
      requires |v| == |mins| == |scales|
      ensures |c| == |v| && forall j :: 0 <= j < |v| ==> c[j] == EncodeOne(mins[j], scales[j], v[j])
    {
      seq(|v|, j requires 0 <= j < |v| => EncodeOne(mins[j], scales[j], v[j]))
    }

    function Decoded(c: seq<Code>): (v: Vector)
      requires |c| == |mins| == |scales|
      ensures |v| == |c| && forall j :: 0 <= j < |c| ==> v[j] == DecodeOne(mins[j], scales[j], c[j])
    {
      seq(|c|, j requires 0 <= j < |c| => DecodeOne(mins[j], scales[j], c[j]))
    }
  }

  function MinBound(b: Bound, x: real): Bound { if b.Fin? && b.r < x then b else Fin(x) }

  function MaxBound(b: Bound, x: real): Bound { if b.Fin? && b.r > x then b else Fin(x) }

  /** The least and greatest coordinate `j` seen so far; infinite while nothing was seen. */
  ghost predicate Extremes(vectors: seq<Vector>, n: nat, j: nat, lo: Bound, hi: Bound)
    requires n <= |vectors| && forall i :: 0 <= i < |vectors| ==> j < |vectors[i]|
  {
    if n == 0 then lo == PosInf && hi == NegInf
    else
      && lo.Fin? && hi.Fin?
      && (forall i :: 0 <= i < n ==> lo.r <= vectors[i][j] <= hi.r)
      && (exists i :: 0 <= i < n && vectors[i][j] == lo.r) && (exists i :: 0 <= i < n && vectors[i][j] == hi.r)
  }

  lemma ExtremesStep(vectors: seq<Vector>, n: nat, j: nat, lo: Bound, hi: Bound)
    requires n < |vectors| && forall i :: 0 <= i < |vectors| ==> j < |vectors[i]|
    requires Extremes(vectors, n, j, lo, hi)
    ensures Extremes(vectors, n + 1, j, MinBound(lo, vectors[n][j]), MaxBound(hi, vectors[n][j]))
  {
    if n > 0 {
      var a :| 0 <= a < n && vectors[a][j] == lo.r;
      var b :| 0 <= b < n && vectors[b][j] == hi.r;
    }
  }

  /** What calibration guarantees: the fitted data spans exactly the calibrated range, dimension by dimension. */
  ghost predicate Fits(q: ScalarQuantizer, vectors: seq<Vector>, dim: nat) {
    && q.Valid() && |q.mins| == dim
    && (forall i :: 0 <= i < |vectors| ==> |vectors[i]| == dim && q.Covers(vectors[i]))
    && (forall j :: 0 <= j < dim && vectors != [] ==> Attained(q, vectors, j))
  }

  /** Both ends of dimension `j` are values of the data. */
  ghost predicate Attained(q: ScalarQuantizer, vectors: seq<Vector>, j: nat)
    requires q.Valid() && j < |q.mins| && forall i :: 0 <= i < |vectors| ==> |vectors[i]| == |q.mins|
  {
    && (exists i :: 0 <= i < |vectors| && vectors[i][j] == q.mins[j])
    && (exists i :: 0 <= i < |vectors| && vectors[i][j] == q.mins[j] + 255.0 * q.scales[j])
  }

  method Fit(vectors: seq<Vector>, dim: nat) returns (q: ScalarQuantizer)
    requires forall i :: 0 <= i < |vectors| ==> |vectors[i]| == dim
    ensures Fits(q, vectors, dim)
  {
    var mins, maxs := seq(dim, _ => PosInf), seq(dim, _ => NegInf);
    for n := 0 to |vectors|
      invariant |mins| == |maxs| == dim
      invariant forall j :: 0 <= j < dim ==> Extremes(vectors, n, j, mins[j], maxs[j])
    {
      var v := vectors[n];
      ghost var oldMins, oldMaxs := mins, maxs;
      for j := 0 to dim
        invariant |mins| == |maxs| == dim
        invariant forall i :: 0 <= i < j ==> mins[i] == MinBound(oldMins[i], v[i]) && maxs[i] == MaxBound(oldMaxs[i], v[i])
        invariant forall i :: j <= i < dim ==> mins[i] == oldMins[i] && maxs[i] == oldMaxs[i]
      {
        mins := mins[j := MinBound(mins[j], v[j])];
        maxs := maxs[j := MaxBound(maxs[j], v[j])];
      }
      forall j | 0 <= j < dim ensures Extremes(vectors, n + 1, j, mins[j], maxs[j]) {
        ExtremesStep(vectors, n, j, oldMins[j], oldMaxs[j]);
      }
    }
    if |vectors| == 0 {
      mins, maxs := seq(dim, _ => Fin(0.0)), seq(dim, _ => Fin(0.0));
    }
    q := ScalarQuantizer(
      seq(dim, j requires 0 <= j < dim && mins[j].Fin? => mins[j].r),
      seq(dim, j requires 0 <= j < dim && mins[j].Fin? && maxs[j].Fin? => (maxs[j].r - mins[j].r) / 255.0));
    forall j | 0 <= j < dim ensures 255.0 * q.scales[j] == maxs[j].r - mins[j].r && q.scales[j] >= 0.0 {
      var i := if |vectors| > 0 then vectors[0][j] else 0.0;
      assert mins[j].r <= i <= maxs[j].r;
      Quotient(255.0, maxs[j].r - mins[j].r, maxs[j].r - mins[j].r);
      assert |vectors| > 0 ==> Extremes(vectors, |vectors|, j, mins[j], maxs[j]);
    }
    forall j | 0 <= j < dim && vectors != [] ensures Attained(q, vectors, j) {
      assert Extremes(vectors, |vectors|, j, mins[j], maxs[j]);
    }
  }

  /** Appends the codes of `v` to a code buffer. */
  method Encode(q: ScalarQuantizer, v: Vector, out: seq<Code>) returns (r: seq<Code>)
    requires |v| == |q.mins| == |q.scales|
    ensures r == out + q.Codes(v)
  {
    r := out;
    for j := 0 to |v|
      invariant r == out + q.Codes(v)[..j]
    {
      r := r + [EncodeOne(q.mins[j], q.scales[j], v[j])];
    }
    assert q.Codes(v)[..|v|] == q.Codes(v);
  }

  // ---- Asymmetric distance ----

  function Square(x: real): real { x * x }

  /** What one dimension adds: a squared difference for L2, a product otherwise. */
  function Term(l2: bool, x: real, y: real): real { if l2 then Square(x - y) else x * y }

  function Terms(l2: bool, query: Vector, stored: Vector): (t: seq<real>)
    requires |query| == |stored|
    ensures |t| == |query| && forall j :: 0 <= j < |t| ==> t[j] == Term(l2, query[j], stored[j])
  {
    seq(|query|, j requires 0 <= j < |query| => Term(l2, query[j], stored[j]))
  }

  /** The distance of an exact query to a stored vector: L2 squared, or the negated dot product. */
  function Distance(l2: bool, query: Vector, stored: Vector): real
    requires |query| == |stored|
  {
    if l2 then Sum(Terms(l2, query, stored)) else -Sum(Terms(l2, query, stored))
  }

  // What the distance is, in one dimension, over more of them, and from one metric to the other.

  lemma DistanceOne(a: real, b: real)
    ensures Distance(false, [a], [b]) == -(a * b) && Distance(true, [a], [b]) == (a - b) * (a - b)
  {
    SumOne(false, a, b);
    SumOne(true, a, b);
  }

  lemma SumOne(l2: bool, a: real, b: real)
    ensures Sum(Terms(l2, [a], [b])) == Term(l2, a, b)
  {
    var t := Terms(l2, [a], [b]);
    assert t == [Term(l2, a, b)] && t[..0] == [];
  }

  /** Dimensions add up. */
  lemma DistanceConcat(l2: bool, q: Vector, x: Vector, p: Vector, y: Vector)
    requires |q| == |x| && |p| == |y|
    ensures Distance(l2, q + p, x + y) == Distance(l2, q, x) + Distance(l2, p, y)
  {
    assert Terms(l2, q + p, x + y) == Terms(l2, q, x) + Terms(l2, p, y);
    SumConcat(Terms(l2, q, x), Terms(l2, p, y));
  }

  lemma DistanceSplit(l2: bool, q: Vector, x: Vector)
    requires |q| == |x| > 0
    ensures var n := |q| - 1;
      Distance(l2, q, x) == Distance(l2, q[..n], x[..n]) + Distance(l2, [q[n]], [x[n]])
  {
    var n := |q| - 1;
    DistanceConcat(l2, q[..n], x[..n], [q[n]], [x[n]]);
    assert q[..n] + [q[n]] == q && x[..n] + [x[n]] == x;
  }

  lemma DistanceNone(l2: bool)
    ensures Distance(l2, [], []) == 0.0
  {
  }

  /** The L2 distance from dot products alone. */
  lemma {:induction false} Polarised(q: Vector, x: Vector)
    requires |q| == |x|
    ensures Distance(true, q, x) == -Distance(false, q, q) - Distance(false, x, x) + 2.0 * Distance(false, q, x)
  {
    if |q| == 0 {
      DistanceNone(true);
      DistanceNone(false);
    } else {
      var n := |q| - 1;
      Polarised(q[..n], x[..n]);
      DistanceSplit(true, q, x);
      DistanceSplit(false, q, q);
      DistanceSplit(false, x, x);
      DistanceSplit(false, q, x);
      PolarisedOne(q[n], x[n]);
    }
  }

  lemma PolarisedOne(a: real, b: real)
    ensures Distance(true, [a], [b]) ==
      -Distance(false, [a], [a]) - Distance(false, [b], [b]) + 2.0 * Distance(false, [a], [b])
  {
    DistanceOne(a, b);
    DistanceOne(a, a);
    DistanceOne(b, b);
    assert (a - b) * (a - b) == a * a - 2.0 * (a * b) + b * b;
  }

  ghost predicate Unit(v: Vector) { Distance(false, v, v) == -1.0 }

  /** Among unit vectors, as the cosine metric stores them, both metrics rank alike. */
  lemma UnitsRankAlike(q: Vector, x: Vector, y: Vector)
    requires |q| == |x| == |y| && Unit(x) && Unit(y)
    ensures Distance(true, q, x) <= Distance(true, q, y) <==> Distance(false, q, x) <= Distance(false, q, y)
  {
    Polarised(q, x);
    Polarised(q, y);
  }

  /** L2 distances are not negative, and zero exactly between equal vectors. */
  lemma {:induction false} ZeroIffEqual(q: Vector, x: Vector)
    requires |q| == |x|
    ensures Distance(true, q, x) >= 0.0 && (Distance(true, q, x) == 0.0 <==> q == x)
  {
    if |q| == 0 {
      DistanceNone(true);
    } else {
      var n := |q| - 1;
      ZeroIffEqual(q[..n], x[..n]);
      DistanceSplit(true, q, x);
      DistanceOne(q[n], x[n]);
      SquareZero(q[n] - x[n], q[n] - x[n], Distance(true, [q[n]], [x[n]]));
      assert q == q[..n] + [q[n]] && x == x[..n] + [x[n]];
    }
  }

  /** `s` is the square of `a`, which is also called `b`. */
  lemma SquareZero(a: real, b: real, s: real)
    requires a == b && s == a * b
    ensures s >= 0.0 && (s == 0.0 <==> a == 0.0)
  {
    if a < 0.0 {
      PositiveTimes(-a, -b);
    } else if a > 0.0 {
      PositiveTimes(a, b);
    } else {
      TimesZero(a, b);
    }
  }

  lemma TimesZero(a: real, b: real)
    requires a == 0.0
    ensures a * b == 0.0
  {
  }

  lemma PositiveTimes(a: real, b: real)
    requires a > 0.0 && b > 0.0
    ensures a * b > 0.0
  {
  }

  /** One chunk, a term to each lane. */
  method AddChunk(q: ScalarQuantizer, l2: bool, query: Vector, code: seq<Code>, i: nat, lanes: seq<real>,
                  ghost t: seq<real>)
    returns (next: seq<real>)
    requires |query| == |code| == |q.mins| == |q.scales| && i + LANES <= |code| && |lanes| == LANES
    requires t == Terms(l2, query, q.Decoded(code)) && Sum(lanes) == Sum(t[..i])
    ensures |next| == LANES && Sum(next) == Sum(t[..i + LANES])
  {
    next := seq(LANES, j requires 0 <= j < LANES && i + LANES <= |code| && |lanes| == LANES =>
      lanes[j] + Term(l2, query[i + j], DecodeOne(q.mins[i + j], q.scales[i + j], code[i + j])));
    forall j: nat | j < LANES ensures next[j] == lanes[j] + t[i..i + LANES][j] {
      assert t[i..i + LANES][j] == t[i + j];
    }
    SumPairwise(lanes, t[i..i + LANES], next);
    SumConcat(t[..i], t[i..i + LANES]);
    assert t[..i + LANES] == t[..i] + t[i..i + LANES];
  }

  /** The kernel: eight lanes over whole chunks, then the remainder; it is the distance to the decoded vector. */
  method Dist(q: ScalarQuantizer, l2: bool, query: Vector, code: seq<Code>) returns (r: real)
    requires |query| == |code| == |q.mins| == |q.scales|
    ensures r == Distance(l2, query, q.Decoded(code))
  {
    ghost var t := Terms(l2, query, q.Decoded(code));
    var lanes := seq(LANES, _ => 0.0);
    SumZero(lanes);
    var i := 0;
    while i + LANES <= |code|
      invariant 0 <= i <= |code| && |lanes| == LANES && Sum(lanes) == Sum(t[..i])
    {
      lanes := AddChunk(q, l2, query, code, i, lanes, t);
      i := i + LANES;
    }
    var sum := Sum(lanes);
    while i < |code|
      invariant 0 <= i <= |code| && sum == Sum(t[..i])
    {
      assert t[..i + 1][..i] == t[..i];
      sum := sum + Term(l2, query[i], DecodeOne(q.mins[i], q.scales[i], code[i]));
      i := i + 1;
    }
    assert t[..i] == t;
    r := if l2 then sum else -sum;
  }

  function HalfSteps(q: ScalarQuantizer): (t: seq<real>)
    ensures |t| == |q.scales| && forall j :: 0 <= j < |t| ==> t[j] == Square(q.scales[j] / 2.0)
  {
    seq(|q.scales|, j requires 0 <= j < |q.scales| => Square(q.scales[j] / 2.0))
  }

  lemma SquareMonotone(a: real, b: real)
    requires Abs(a) <= b
    ensures Square(a) <= Square(b)
  {
    NonNegative(b - a, b + a);
    assert (b - a) * (b + a) == b * b - a * a;
  }

  lemma NonNegative(x: real, y: real)
    requires x >= 0.0 && y >= 0.0
    ensures x * y >= 0.0
  {
  }

  /** Decoding an encoded vector misses it by at most half a step in each dimension. */
  lemma DecodeEncode(q: ScalarQuantizer, v: Vector, j: nat)
    requires q.Valid() && q.Covers(v) && j < |v|
    ensures Abs(q.Decoded(q.Codes(v))[j] - v[j]) <= q.scales[j] / 2.0
    ensures q.scales[j] == 0.0 ==> q.Decoded(q.Codes(v))[j] == v[j]
  {
    HalfStep(q.mins[j], q.scales[j], v[j]);
  }

  /** So the asymmetric L2 distance of a fitted vector to its own code is at most the sum of (step / 2)^2. */
  lemma SelfDistance(q: ScalarQuantizer, vectors: seq<Vector>, dim: nat, i: nat)
    requires Fits(q, vectors, dim) && i < |vectors|
    ensures 0.0 <= Distance(true, vectors[i], q.Decoded(q.Codes(vectors[i]))) <= Sum(HalfSteps(q))
  {
    var v := vectors[i];
    var t := Terms(true, v, q.Decoded(q.Codes(v)));
    forall j | 0 <= j < |t| ensures 0.0 <= t[j] <= HalfSteps(q)[j] {
      DecodeEncode(q, v, j);
      SquareMonotone(v[j] - q.Decoded(q.Codes(v))[j], q.scales[j] / 2.0);
    }
    SumBelow(t, HalfSteps(q));
    var z := seq(|t|, _ => 0.0);
    SumZero(z);
    SumBelow(z, t);
  }
}
