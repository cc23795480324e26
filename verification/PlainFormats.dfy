/**
 * Formats that lose nothing exist: a plain self-delimiting byte code for everything the program puts on
 * disk. So what is proved about directories and writers over lossless formats is about something, and a
 * writer over an empty directory is always there to start with.
 */
module PlainFormats {
  import opened Prelude
  import opened Meta
  import opened Store
  import opened StoreInvariants
  import opened Records
  import opened Disk
  import opened Recovery
  import Wal

  // ---- Codes: equal bytes, whatever follows, mean equal values ----

  function Nat(n: nat): Bytes { if n == 0 then [1] else [0] + Nat(n - 1) }

  lemma {:induction false} NatApart(a: nat, b: nat, r: Bytes, s: Bytes)
    requires Nat(a) + r == Nat(b) + s
    ensures a == b && r == s
    decreases a
  {
    var x, y := Nat(a) + r, Nat(b) + s;
    assert x[0] == Nat(a)[0] && y[0] == Nat(b)[0];
    assert x[1..] == (if a == 0 then r else Nat(a - 1) + r);
    assert y[1..] == (if b == 0 then s else Nat(b - 1) + s);
    if a > 0 { NatApart(a - 1, b - 1, r, s); }
  }

  function Int(i: int): Bytes { Nat(if i >= 0 then 2 * i else -2 * i - 1) }

  lemma IntApart(a: int, b: int, r: Bytes, s: Bytes)
    requires Int(a) + r == Int(b) + s
    ensures a == b && r == s
  {
    NatApart(if a >= 0 then 2 * a else -2 * a - 1, if b >= 0 then 2 * b else -2 * b - 1, r, s);
  }

  /** One significand and exponent of a float. */
  ghost function Parts(x: real, limit: int, lo: int, hi: int): (p: (int, int))
    requires Binary(x, limit, lo, hi)
    ensures Scaled(x, p.0, p.1)
  {
    var m: int, e: int :| -limit < m < limit && lo <= e <= hi && Scaled(x, m, e);
    (m, e)
  }

  ghost function Pair(p: (int, int)): Bytes { Int(p.0) + Int(p.1) }

  lemma PairApart(p: (int, int), q: (int, int), r: Bytes, s: Bytes)
    requires Pair(p) + r == Pair(q) + s
    ensures p == q && r == s
  {
    Regroup(Int(p.0), Int(p.1), r);
    Regroup(Int(q.0), Int(q.1), s);
    IntApart(p.0, q.0, Int(p.1) + r, Int(q.1) + s);
    IntApart(p.1, q.1, r, s);
  }

  ghost function Real(x: real, limit: int, lo: int, hi: int): Bytes
    requires Binary(x, limit, lo, hi)
  {
    Pair(Parts(x, limit, lo, hi))
  }

  lemma RealApart(x: real, y: real, limit: int, lo: int, hi: int, r: Bytes, s: Bytes)
    requires Binary(x, limit, lo, hi) && Binary(y, limit, lo, hi)
    requires Real(x, limit, lo, hi) + r == Real(y, limit, lo, hi) + s
    ensures x == y && r == s
  {
    hide Binary, Scaled;
    var p, q := Parts(x, limit, lo, hi), Parts(y, limit, lo, hi);
    PairApart(p, q, r, s);
    SameParts(x, y, p.0, p.1);
  }

  lemma SameParts(x: real, y: real, m: int, e: int)
    requires Scaled(x, m, e) && Scaled(y, m, e)
    ensures x == y
  {
  }

  ghost function Coordinate(x: Single): Bytes {
    assert IsSingle(x);
    Real(x, 0x100_0000, -149, 104)
  }

  ghost function Vec(v: Floats): Bytes {
    if |v| == 0 then [0] else [1] + (Coordinate(v[0]) + Vec(v[1..]))
  }

  lemma {:induction false} VecApart(v: Floats, w: Floats, r: Bytes, s: Bytes)
    requires Vec(v) + r == Vec(w) + s
    ensures v == w && r == s
    decreases |v|
  {
    Heads(Vec(v), r, Vec(w), s);
    if |v| > 0 {
      var a, b := Coordinate(v[0]), Coordinate(w[0]);
      Tails(1, a, Vec(v[1..]), r, 1, b, Vec(w[1..]), s);
      RealApart(v[0], w[0], 0x100_0000, -149, 104, Vec(v[1..]) + r, Vec(w[1..]) + s);
      VecApart(v[1..], w[1..], r, s);
      assert v == [v[0]] + v[1..] && w == [w[0]] + w[1..];
    } else {
      assert |w| == 0;
      Same([0], r, s);
    }
  }

  /** Equal codes start with the same byte. */
  lemma Heads(a: Bytes, r: Bytes, b: Bytes, s: Bytes)
    requires a != [] && b != [] && a + r == b + s
    ensures a[0] == b[0]
  {
    assert (a + r)[0] == a[0] && (b + s)[0] == b[0];
  }

  /** ... and go on alike after it. */
  lemma Tail(a: Bytes, r: Bytes, b: Bytes, s: Bytes)
    requires a != [] && b != [] && a + r == b + s
    ensures a[1..] + r == b[1..] + s
  {
    assert (a + r)[1..] == a[1..] + r && (b + s)[1..] == b[1..] + s;
  }

  lemma Same(a: Bytes, r: Bytes, s: Bytes)
    requires a + r == a + s
    ensures r == s
  {
    assert (a + r)[|a|..] == r && (a + s)[|a|..] == s;
  }

  lemma Tails(t: Wal.Byte, a: Bytes, x: Bytes, r: Bytes, u: Wal.Byte, b: Bytes, y: Bytes, s: Bytes)
    requires [t] + (a + x) + r == [u] + (b + y) + s
    ensures t == u && a + (x + r) == b + (y + s)
  {
    Heads([t] + (a + x), r, [u] + (b + y), s);
    Tail([t] + (a + x), r, [u] + (b + y), s);
    Regroup(a, x, r);
    Regroup(b, y, s);
  }

  // ---- Maps, in any order ----

  ghost function Vectors(m: map<Id, Floats>): Bytes
    decreases |m|
  {
    if m == map[] then [0] else
    var k :| k in m;
    Smaller(m, k);
    [1] + (Nat(k) + (Vec(m[k]) + Vectors(m - {k})))
  }

  lemma {:induction false} VectorsApart(m: map<Id, Floats>, n: map<Id, Floats>, r: Bytes, s: Bytes)
    requires Vectors(m) + r == Vectors(n) + s
    ensures m == n && r == s
    decreases |m|
  {
    Heads(Vectors(m), r, Vectors(n), s);
    if m == map[] {
      Same([0], r, s);
    } else {
      var k :| k in m && Vectors(m) == [1] + (Nat(k) + (Vec(m[k]) + Vectors(m - {k})));
      var l :| l in n && Vectors(n) == [1] + (Nat(l) + (Vec(n[l]) + Vectors(n - {l})));
      Tails(1, Nat(k), Vec(m[k]) + Vectors(m - {k}), r, 1, Nat(l), Vec(n[l]) + Vectors(n - {l}), s);
      NatApart(k, l, (Vec(m[k]) + Vectors(m - {k})) + r, (Vec(n[l]) + Vectors(n - {l})) + s);
      Regroup(Vec(m[k]), Vectors(m - {k}), r);
      Regroup(Vec(n[l]), Vectors(n - {l}), s);
      VecApart(m[k], n[l], Vectors(m - {k}) + r, Vectors(n - {l}) + s);
      Smaller(m, k);
      Smaller(n, l);
      VectorsApart(m - {k}, n - {l}, r, s);
    }
  }

  lemma Smaller<K, V>(m: map<K, V>, k: K)
    requires k in m
    ensures |m - {k}| < |m| && m == (m - {k})[k := m[k]]
  {
    assert (m - {k}).Keys == m.Keys - {k};
    assert |m - {k}| == |(m - {k}).Keys| && |m| == |m.Keys|;
  }

  // ---- Metadata ----

  function Text(t: string): Bytes { if |t| == 0 then [0] else [1] + (Nat(t[0] as int) + Text(t[1..])) }

  lemma {:induction false} TextApart(t: string, u: string, r: Bytes, s: Bytes)
    requires Text(t) + r == Text(u) + s
    ensures t == u && r == s
    decreases |t|
  {
    Heads(Text(t), r, Text(u), s);
    if |t| > 0 {
      Tails(1, Nat(t[0] as int), Text(t[1..]), r, 1, Nat(u[0] as int), Text(u[1..]), s);
      NatApart(t[0] as int, u[0] as int, Text(t[1..]) + r, Text(u[1..]) + s);
      TextApart(t[1..], u[1..], r, s);
      assert t == [t[0]] + t[1..] && u == [u[0]] + u[1..];
    } else {
      assert |u| == 0;
      Same([0], r, s);
    }
  }

  ghost function Payload(v: MetaValue): Bytes {
    match v
    case Bool(b) => Nat(if b then 1 else 0)
    case Int(i) => Int(i)
    case Float(x) => assert IsDouble(x); Real(x, 0x20_0000_0000_0000, -1074, 971)
    case Str(t) => Text(t)
  }

  ghost function Value(v: MetaValue): Bytes {
    [match v case Bool(_) => 0 case Int(_) => 1 case Float(_) => 2 case Str(_) => 3] + Payload(v)
  }

  lemma ValueApart(v: MetaValue, w: MetaValue, r: Bytes, s: Bytes)
    requires Value(v) + r == Value(w) + s
    ensures v == w && r == s
  {
    Heads(Value(v), r, Value(w), s);
    Tail(Value(v), r, Value(w), s);
    assert Value(v)[1..] == Payload(v) && Value(w)[1..] == Payload(w);
    match v
    case Bool(b) => NatApart(if b then 1 else 0, if w.b then 1 else 0, r, s);
    case Int(i) => IntApart(i, w.i, r, s);
    case Float(x) => RealApart(x, w.x, 0x20_0000_0000_0000, -1074, 971, r, s);
    case Str(t) => TextApart(t, w.s, r, s);
  }

  ghost function Fields(m: Metadata): Bytes
    decreases |m|
  {
    if m == map[] then [0] else
    var k :| k in m;
    Smaller(m, k);
    [1] + (Text(k) + (Value(m[k]) + Fields(m - {k})))
  }

  lemma {:induction false} FieldsApart(m: Metadata, n: Metadata, r: Bytes, s: Bytes)
    requires Fields(m) + r == Fields(n) + s
    ensures m == n && r == s
    decreases |m|
  {
    Heads(Fields(m), r, Fields(n), s);
    if m == map[] {
      Same([0], r, s);
    } else {
      var k :| k in m && Fields(m) == [1] + (Text(k) + (Value(m[k]) + Fields(m - {k})));
      var l :| l in n && Fields(n) == [1] + (Text(l) + (Value(n[l]) + Fields(n - {l})));
      Tails(1, Text(k), Value(m[k]) + Fields(m - {k}), r, 1, Text(l), Value(n[l]) + Fields(n - {l}), s);
      TextApart(k, l, (Value(m[k]) + Fields(m - {k})) + r, (Value(n[l]) + Fields(n - {l})) + s);
      Regroup(Value(m[k]), Fields(m - {k}), r);
      Regroup(Value(n[l]), Fields(n - {l}), s);
      ValueApart(m[k], n[l], Fields(m - {k}) + r, Fields(n - {l}) + s);
      Smaller(m, k);
      Smaller(n, l);
      FieldsApart(m - {k}, n - {l}, r, s);
    }
  }

  ghost function Metas(m: map<Id, Metadata>): Bytes
    decreases |m|
  {
    if m == map[] then [0] else
    var k :| k in m;
    Smaller(m, k);
    [1] + (Nat(k) + (Fields(m[k]) + Metas(m - {k})))
  }

  lemma {:induction false} MetasApart(m: map<Id, Metadata>, n: map<Id, Metadata>, r: Bytes, s: Bytes)
    requires Metas(m) + r == Metas(n) + s
    ensures m == n && r == s
    decreases |m|
  {
    Heads(Metas(m), r, Metas(n), s);
    if m == map[] {
      Same([0], r, s);
    } else {
      var k :| k in m && Metas(m) == [1] + (Nat(k) + (Fields(m[k]) + Metas(m - {k})));
      var l :| l in n && Metas(n) == [1] + (Nat(l) + (Fields(n[l]) + Metas(n - {l})));
      Tails(1, Nat(k), Fields(m[k]) + Metas(m - {k}), r, 1, Nat(l), Fields(n[l]) + Metas(n - {l}), s);
      NatApart(k, l, (Fields(m[k]) + Metas(m - {k})) + r, (Fields(n[l]) + Metas(n - {l})) + s);
      Regroup(Fields(m[k]), Metas(m - {k}), r);
      Regroup(Fields(n[l]), Metas(n - {l}), s);
      FieldsApart(m[k], n[l], Metas(m - {k}) + r, Metas(n - {l}) + s);
      Smaller(m, k);
      Smaller(n, l);
      MetasApart(m - {k}, n - {l}, r, s);
    }
  }

  // ---- Log records ----

  ghost function Entry(r: Record): Bytes {
    match r
    case Insert(id, v, meta) => [0] + (Nat(id) + (Vec(v) + Fields(meta)))
    case Delete(id) => [1] + Nat(id)
  }

  lemma EntryApart(a: Record, b: Record)
    requires Entry(a) == Entry(b)
    ensures a == b
  {
    assert Entry(a) + [] == Entry(b) + [];
    Heads(Entry(a), [], Entry(b), []);
    match a
    case Insert(id, v, meta) =>
      Tails(0, Nat(id), Vec(v) + Fields(meta), [], 0, Nat(b.id), Vec(b.vec) + Fields(b.meta), []);
      NatApart(id, b.id, (Vec(v) + Fields(meta)) + [], (Vec(b.vec) + Fields(b.meta)) + []);
      Regroup(Vec(v), Fields(meta), []);
      Regroup(Vec(b.vec), Fields(b.meta), []);
      VecApart(v, b.vec, Fields(meta) + [], Fields(b.meta) + []);
      FieldsApart(meta, b.meta, [], []);
    case Delete(id) =>
      Tail(Entry(a), [], Entry(b), []);
      assert Entry(a)[1..] == Nat(id) && Entry(b)[1..] == Nat(b.id);
      NatApart(id, b.id, [], []);
  }

  // ---- The formats ----

  ghost function ReadVectors(b: Bytes): (o: Option<map<Id, Floats>>)
    ensures o.Some? ==> Vectors(o.value) == b
    ensures o.None? ==> forall m :: Vectors(m) != b
  {
    if m: map<Id, Floats> :| Vectors(m) == b then Some(m) else None
  }

  ghost function ReadMetas(b: Bytes): (o: Option<map<Id, Metadata>>)
    ensures o.Some? ==> Metas(o.value) == b
    ensures o.None? ==> forall m :: Metas(m) != b
  {
    if m: map<Id, Metadata> :| Metas(m) == b then Some(m) else None
  }

  ghost function ReadEntry(b: Bytes): (o: Option<Record>)
    ensures o.Some? ==> Entry(o.value) == b
    ensures o.None? ==> forall r :: Entry(r) != b
  {
    if r: Record :| Entry(r) == b then Some(r) else None
  }

  lemma VectorsRead(m: map<Id, Floats>)
    ensures ReadVectors(Vectors(m)) == Some(m)
  {
    VectorsApart(m, ReadVectors(Vectors(m)).value, [], []);
  }

  lemma MetasRead(m: map<Id, Metadata>)
    ensures ReadMetas(Metas(m)) == Some(m)
  {
    MetasApart(m, ReadMetas(Metas(m)).value, [], []);
  }

  lemma EntryRead(r: Record)
    ensures ReadEntry(Entry(r)) == Some(r) && |Entry(r)| > 0
  {
    EntryApart(r, ReadEntry(Entry(r)).value);
  }

  ghost function Plain(): Formats {
    Formats(m => Vectors(m), b => ReadVectors(b), m => Metas(m), b => ReadMetas(b),
            (m: Manifest) => [], (b: Bytes) => 0,
            Wal.Codec((r: Record) => Entry(r), (b: Bytes) => ReadEntry(b), (b: Bytes) => 0))
  }

  /** The formats the durability results ask for exist. */
  lemma PlainIsLossless()
    ensures LosslessFormats(Plain())
  {
    forall m ensures Plain().loadSegment(Plain().segment(m)) == Some(m) { VectorsRead(m); }
    forall m ensures Plain().loadMetadata(Plain().metadata(m)) == Some(m) { MetasRead(m); }
    forall r ensures Plain().log.decode(Plain().log.encode(r)) == Some(r) && |Plain().log.encode(r)| > 0 {
      EntryRead(r);
    }
  }

  /** An empty directory opens, whatever the formats; so there is a writer to start with. */
  lemma EmptyOpens(fmt: Formats, dim: nat)
    ensures Openable(fmt, dim, Disk(None, map[])) && Recover(fmt, dim, Disk(None, map[])) == Some(Db(dim, map[], map[]))
  {
    assert LiveMap([]) == map[];
  }
}
