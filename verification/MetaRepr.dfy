/** The disk form of metadata: tagged values in a list sorted by field name. */
module MetaRepr {
  import opened Prelude
  import opened Meta

  datatype ReprValue = ReprBool(b: bool) | ReprInt(i: int) | ReprFloat(x: Double) | ReprStr(s: string)

  function ToRepr(v: MetaValue): ReprValue {
    match v case Bool(b) => ReprBool(b) case Int(i) => ReprInt(i) case Float(x) => ReprFloat(x) case Str(s) => ReprStr(s)
  }

  function FromRepr(v: ReprValue): MetaValue {
    match v case ReprBool(b) => Bool(b) case ReprInt(i) => Int(i) case ReprFloat(x) => Float(x) case ReprStr(s) => Str(s)
  }

  datatype Pair = Pair(key: string, value: ReprValue)

  /** Lexicographic order of names. */
  predicate Before(a: string, b: string)
    decreases |a|
  {
    |b| > 0 && (|a| == 0 || a[0] < b[0] || (a[0] == b[0] && Before(a[1..], b[1..])))
  }

  lemma {:induction false} BeforeTotal(a: string, b: string)
    ensures Before(a, b) || a == b || Before(b, a)
    ensures !(Before(a, b) && Before(b, a)) && !Before(a, a)
    decreases |a|
  {
    if |a| > 0 {
      BeforeTotal(a[1..], a[1..]);
      if |b| > 0 {
        BeforeTotal(a[1..], b[1..]);
        assert a == [a[0]] + a[1..] && b == [b[0]] + b[1..];
      }
    }
  }

  lemma {:induction false} BeforeTrans(a: string, b: string, c: string)
    requires Before(a, b) && Before(b, c)
    ensures Before(a, c)
    decreases |a|
  {
    if |a| > 0 && a[0] == b[0] == c[0] { BeforeTrans(a[1..], b[1..], c[1..]); }
  }

  ghost predicate Sorted(r: seq<Pair>) {
    forall i, j :: 0 <= i < j < |r| ==> Before(r[i].key, r[j].key)
  }

  /** `r` lists exactly the entries of `m`. */
  ghost predicate Represents(r: seq<Pair>, m: Metadata) {
    && (forall p :: p in r ==> p.key in m && p.value == ToRepr(m[p.key]))
    && (forall k :: k in m ==> Pair(k, ToRepr(m[k])) in r)
  }

  /** `repr_to_meta`. */
  function ReprToMeta(r: seq<Pair>): Metadata {
    if |r| == 0 then map[] else ReprToMeta(r[..|r| - 1])[r[|r| - 1].key := FromRepr(r[|r| - 1].value)]
  }

  function Place(r: seq<Pair>, p: Pair): seq<Pair> {
    if |r| == 0 || Before(r[|r| - 1].key, p.key) then r + [p]
    else Place(r[..|r| - 1], p) + [r[|r| - 1]]
  }

  lemma {:induction false} Placed(r: seq<Pair>, p: Pair)
    requires Sorted(r) && forall q :: q in r ==> q.key != p.key
    ensures Sorted(Place(r, p)) && forall q :: q in Place(r, p) <==> q in r || q == p
  {
    if |r| > 0 {
      var last := r[|r| - 1];
      assert last in r;
      if Before(last.key, p.key) {
        forall i | 0 <= i < |r| - 1 ensures Before(r[i].key, p.key) { BeforeTrans(r[i].key, last.key, p.key); }
      } else {
        var front := r[..|r| - 1];
        Placed(front, p);
        BeforeTotal(last.key, p.key);
        forall q | q in Place(front, p) ensures Before(q.key, last.key) {
          if q in front {
            var i :| 0 <= i < |front| && front[i] == q;
            assert Before(r[i].key, last.key);
          }
        }
        assert forall q :: q in r <==> q in front || q == last;
      }
    }
  }

  /** `meta_to_repr`: entries in arbitrary order, sorted by name. */
  method MetaToRepr(m: Metadata) returns (r: seq<Pair>)
    ensures Represents(r, m) && Sorted(r)
  {
    r := [];
    var rest := m.Keys;
    while rest != {}
      invariant rest <= m.Keys && Sorted(r)
      invariant forall p :: p in r <==> p.key in m && p.key !in rest && p.value == ToRepr(m[p.key])
      decreases |rest|
    {
      var k :| k in rest;
      Placed(r, Pair(k, ToRepr(m[k])));
      r := Place(r, Pair(k, ToRepr(m[k])));
      rest := rest - {k};
    }
  }

  lemma LastIsGreatest(a: seq<Pair>, p: Pair)
    requires Sorted(a) && p in a
    ensures p == a[|a| - 1] || Before(p.key, a[|a| - 1].key)
  {
  }

  lemma LastIsApart(a: seq<Pair>)
    requires Sorted(a) && |a| > 0
    ensures Sorted(a[..|a| - 1]) && forall p :: p in a[..|a| - 1] <==> p in a && p != a[|a| - 1]
  {
    var n := |a| - 1;
    forall p | p in a[..n] ensures p != a[n] {
      var i :| 0 <= i < n && a[i] == p;
      BeforeTotal(a[i].key, a[n].key);
    }
    assert forall p :: p in a <==> p in a[..n] || p == a[n];
  }

  lemma HasMember(b: seq<Pair>)
    ensures |b| > 0 ==> exists p :: p in b
  {
    if |b| > 0 { assert b[0] in b; }
  }

  /** Two sorted lists of the same pairs are the same list. */
  lemma {:induction false} SortedUnique(a: seq<Pair>, b: seq<Pair>)
    requires Sorted(a) && Sorted(b) && forall p :: p in a <==> p in b
    ensures a == b
    decreases |a|
  {
    HasMember(b);
    if |a| > 0 {
      var x := a[|a| - 1];
      assert x in a && x in b;
      var y := b[|b| - 1];
      assert y in b && y in a;
      LastIsGreatest(a, y);
      LastIsGreatest(b, x);
      BeforeTotal(x.key, y.key);
      assert x == y;
      LastIsApart(a);
      LastIsApart(b);
      var front, rest := a[..|a| - 1], b[..|b| - 1];
      forall p ensures p in front <==> p in rest {
        assert p in front <==> p in a && p != x;
        assert p in rest <==> p in b && p != y;
      }
      SortedUnique(front, rest);
      assert a == a[..|a| - 1] + [x] && b == b[..|b| - 1] + [x];
    }
  }

  /** The same metadata always gives the same list, whatever order the entries came in. */
  lemma ReprIsUnique(a: seq<Pair>, b: seq<Pair>, m: Metadata)
    requires Represents(a, m) && Represents(b, m) && Sorted(a) && Sorted(b)
    ensures a == b
  {
    forall p ensures p in a <==> p in b {
      assert p in a ==> p == Pair(p.key, ToRepr(m[p.key]));
      assert p in b ==> p == Pair(p.key, ToRepr(m[p.key]));
    }
    SortedUnique(a, b);
  }

  lemma WithoutLast(a: seq<Pair>, m: Metadata)
    requires Represents(a, m) && Sorted(a) && |a| > 0
    ensures var n := |a| - 1; Represents(a[..n], m - {a[n].key}) && Sorted(a[..n])
  {
    var n := |a| - 1;
    forall p | p in a[..n] ensures p.key != a[n].key {
      var i :| 0 <= i < n && a[i] == p;
      BeforeTotal(p.key, a[n].key);
      assert Before(a[i].key, a[n].key);
    }
    assert forall p :: p in a <==> p in a[..n] || p == a[n];
    assert a[n] in a;
  }

  /** And reads back to what was written. */
  lemma {:induction false} ReprRoundTrip(r: seq<Pair>, m: Metadata)
    requires Represents(r, m) && Sorted(r)
    ensures ReprToMeta(r) == m
    decreases |r|
  {
    if |r| == 0 {
      assert m == map[];
    } else {
      var last := r[|r| - 1];
      assert last in r;
      WithoutLast(r, m);
      ReprRoundTrip(r[..|r| - 1], m - {last.key});
      assert FromRepr(last.value) == m[last.key];
      assert (m - {last.key})[last.key := m[last.key]] == m;
    }
  }
}
