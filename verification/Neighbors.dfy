/** SELECT-NEIGHBORS-HEURISTIC (Algorithm 4), keeping pruned connections. */
module Neighbors {
  import opened Prelude
  import opened TopK
  import opened HnswGraph

  /** `c` is closer to something already selected than to the query. */
  predicate Dominated(near: (nat, nat) -> real, c: Ranked, selected: seq<Ranked>) {
    exists i :: 0 <= i < |selected| && near(c.key, selected[i].key) < c.dist
  }

  /** The candidates that survive the heuristic, taken in order until there are `m`. */
  function Diverse(near: (nat, nat) -> real, cands: seq<Ranked>, m: nat): (r: seq<Ranked>)
    ensures |r| <= m
  {
    if |cands| == 0 then []
    else
      var c, s := cands[|cands| - 1], Diverse(near, cands[..|cands| - 1], m);
      if |s| < m && !Dominated(near, c, s) then s + [c] else s
  }

  /** The candidates discarded while there was still room. */
  function Rejected(near: (nat, nat) -> real, cands: seq<Ranked>, m: nat): seq<Ranked> {
    if |cands| == 0 then []
    else
      var c, s := cands[|cands| - 1], Diverse(near, cands[..|cands| - 1], m);
      var r := Rejected(near, cands[..|cands| - 1], m);
      if |s| < m && Dominated(near, c, s) then r + [c] else r
  }

  function KeysOf(s: seq<Ranked>): (r: seq<nat>)
    ensures |r| == |s| && forall i :: 0 <= i < |s| ==> r[i] == s[i].key
  {
    seq(|s|, i requires 0 <= i < |s| => s[i].key)
  }

  /** The selection: the diverse ones, then the nearest discarded ones up to the quota. */
  function Chosen(near: (nat, nat) -> real, cands: seq<Ranked>, m: nat): seq<Ranked> {
    Diverse(near, cands, m) + Take(Rejected(near, cands, m), m - |Diverse(near, cands, m)|)
  }

  /** No member is closer to an earlier member than to the query. */
  ghost predicate Spread(near: (nat, nat) -> real, r: seq<Ranked>) {
    forall i, j :: 0 <= i < j < |r| ==> near(r[j].key, r[i].key) >= r[j].dist
  }

  /** The diversity the heuristic is for. */
  lemma {:induction false} DiverseIsSpread(near: (nat, nat) -> real, cands: seq<Ranked>, m: nat)
    ensures Spread(near, Diverse(near, cands, m))
  {
    if |cands| > 0 {
      var c, s := cands[|cands| - 1], Diverse(near, cands[..|cands| - 1], m);
      DiverseIsSpread(near, cands[..|cands| - 1], m);
      if !Dominated(near, c, s) {
        assert Spread(near, s + [c]);
      }
    }
  }

  /** While there is room, a candidate is left out only because a selected one dominates it. */
  lemma {:induction false} OmittedIsDominated(near: (nat, nat) -> real, cands: seq<Ranked>, m: nat, c: Ranked)
    requires c in cands && |Diverse(near, cands, m)| < m
    ensures c in Diverse(near, cands, m) || Dominated(near, c, Diverse(near, cands, m))
  {
    var n := |cands| - 1;
    var s, r := Diverse(near, cands[..n], m), Diverse(near, cands, m);
    if c == cands[n] {
      if Dominated(near, c, s) { DominatedGrows(near, c, s, r); }
    } else {
      assert c in cands[..n];
      OmittedIsDominated(near, cands[..n], m, c);
      if Dominated(near, c, s) { DominatedGrows(near, c, s, r); }
    }
  }

  lemma DominatedGrows(near: (nat, nat) -> real, c: Ranked, s: seq<Ranked>, r: seq<Ranked>)
    requires s <= r && Dominated(near, c, s)
    ensures Dominated(near, c, r)
  {
    var i :| 0 <= i < |s| && near(c.key, s[i].key) < c.dist;
    assert near(c.key, r[i].key) < c.dist;
  }

  lemma {:induction false} FromCandidates(near: (nat, nat) -> real, cands: seq<Ranked>, m: nat, x: Ranked)
    requires x in Diverse(near, cands, m) || x in Rejected(near, cands, m)
    ensures x in cands
  {
    var n := |cands| - 1;
    if x != cands[n] {
      FromCandidates(near, cands[..n], m, x);
      assert x in cands[..n];
    }
  }

  /** Both lists keep the order of the candidates: nearest first. */
  lemma {:induction false} KeepOrder(near: (nat, nat) -> real, cands: seq<Ranked>, m: nat)
    requires Sorted(cands)
    ensures Sorted(Diverse(near, cands, m)) && Sorted(Rejected(near, cands, m))
  {
    if |cands| > 0 {
      var n := |cands| - 1;
      KeepOrder(near, cands[..n], m);
      LastJoins(near, cands, m, Diverse(near, cands[..n], m));
      LastJoins(near, cands, m, Rejected(near, cands[..n], m));
    }
  }

  lemma LastJoins(near: (nat, nat) -> real, cands: seq<Ranked>, m: nat, s: seq<Ranked>)
    requires Sorted(cands) && |cands| > 0 && Sorted(s)
    requires s == Diverse(near, cands[..|cands| - 1], m) || s == Rejected(near, cands[..|cands| - 1], m)
    ensures Sorted(s + [cands[|cands| - 1]])
  {
    var n := |cands| - 1;
    forall x | x in s ensures !Less(cands[n], x) {
      FromCandidates(near, cands[..n], m, x);
      var i :| 0 <= i < n && cands[..n][i] == x;
      assert cands[i] == x;
    }
  }

  /** The quota goes to the nearest: no rejected candidate left out is nearer than one taken in. */
  lemma QuotaIsNearest(near: (nat, nat) -> real, cands: seq<Ranked>, m: nat, x: Ranked, y: Ranked)
    requires Sorted(cands) && x in Rejected(near, cands, m) && x !in Chosen(near, cands, m)
    requires y in Chosen(near, cands, m) && y !in Diverse(near, cands, m)
    ensures y in Rejected(near, cands, m) && !Less(x, y)
  {
    KeepOrder(near, cands, m);
    var d, r := Diverse(near, cands, m), Rejected(near, cands, m);
    var part := Take(r, m - |d|);
    assert y in part && x !in part;
    var i :| 0 <= i < |r| && r[i] == x;
    var j :| 0 <= j < |part| && part[j] == y;
    assert part == r[..|part|];
    assert i >= |part|;
  }

  ghost predicate NoRepeats(s: seq<Ranked>) { forall i, j :: 0 <= i < j < |s| ==> s[i] != s[j] }

  /** The chosen ones nearer than `c`. */
  ghost function Before(s: seq<Ranked>, c: Ranked): set<Ranked> { set x | x in s && Less(x, c) }

  /**
   * The heuristic is greedy: a candidate is taken exactly when fewer than `m` nearer ones are, and none of
   * these is closer to it than the query is.
   */
  lemma {:induction false} GreedyByDistance(near: (nat, nat) -> real, cands: seq<Ranked>, m: nat, c: Ranked)
    requires Sorted(cands) && c in cands && NoRepeats(cands)
    ensures var d := Diverse(near, cands, m);
      c in d <==> |Before(d, c)| < m && forall s :: s in Before(d, c) ==> near(c.key, s.key) >= c.dist
  {
    var n := |cands| - 1;
    var p, d, e := cands[..n], Diverse(near, cands, m), Diverse(near, cands[..n], m);
    if c == cands[n] {
      LastIsBehind(near, cands, m);
    } else {
      assert c in p;
      GreedyByDistance(near, p, m, c);
      NotBeforeEarlier(cands, c);
      assert Before(d, c) == Before(e, c);
    }
  }

  lemma NotBeforeEarlier(cands: seq<Ranked>, c: Ranked)
    requires Sorted(cands) && |cands| > 0 && c in cands
    ensures !Less(cands[|cands| - 1], c)
  {
  }

  /** Everything chosen before the last candidate is nearer than it. */
  lemma LastIsBehind(near: (nat, nat) -> real, cands: seq<Ranked>, m: nat)
    requires Sorted(cands) && |cands| > 0 && NoRepeats(cands)
    ensures var c, e, d := cands[|cands| - 1], Diverse(near, cands[..|cands| - 1], m), Diverse(near, cands, m);
      && c !in e && |Before(d, c)| == |e| && Before(d, c) == (set x | x in e)
  {
    var n := |cands| - 1;
    var c, e := cands[n], Diverse(near, cands[..n], m);
    forall x | x in e ensures x != c && Less(x, c) {
      FromCandidates(near, cands[..n], m, x);
      var i :| 0 <= i < n && cands[..n][i] == x;
      assert cands[i] == x && !Less(c, x) && x != c;
      OrderTotal(x, c);
    }
    hide Diverse;
    BehindAll(e, c);
    BehindAll(e + [c], c);
    assert Diverse(near, cands, m) == e || Diverse(near, cands, m) == e + [c] by { OneMore(near, cands, m); }
    assert Before(Diverse(near, cands, m), c) == set x | x in e;
    DiverseDistinct(near, cands[..n], m);
    SizeOfDistinct(e);
  }

  lemma AddNew(e: seq<Ranked>, c: Ranked)
    requires NoRepeats(e) && c !in e
    ensures NoRepeats(e + [c])
  {
  }

  lemma OneMore(near: (nat, nat) -> real, cands: seq<Ranked>, m: nat)
    requires |cands| > 0
    ensures var c, e := cands[|cands| - 1], Diverse(near, cands[..|cands| - 1], m);
      Diverse(near, cands, m) == e || Diverse(near, cands, m) == e + [c]
  {
  }

  lemma BehindAll(e: seq<Ranked>, c: Ranked)
    requires forall x :: x in e ==> x == c || Less(x, c)
    ensures forall x :: x in Before(e, c) <==> x in e && x != c
  {
  }

  lemma OrderTotal(x: Ranked, y: Ranked)
    requires x != y && !Less(y, x)
    ensures Less(x, y)
  {
    assert x == Ranked(x.key, x.dist) && y == Ranked(y.key, y.dist);
  }

  lemma {:induction false} DiverseDistinct(near: (nat, nat) -> real, cands: seq<Ranked>, m: nat)
    requires NoRepeats(cands)
    ensures NoRepeats(Diverse(near, cands, m))
  {
    if |cands| > 0 {
      var n := |cands| - 1;
      DiverseDistinct(near, cands[..n], m);
      var e := Diverse(near, cands[..n], m);
      forall x | x in e ensures x != cands[n] {
        FromCandidates(near, cands[..n], m, x);
        var i :| 0 <= i < n && cands[..n][i] == x;
      }
      OneMore(near, cands, m);
      AddNew(e, cands[n]);
    }
  }

  lemma {:induction false} SizeOfDistinct(s: seq<Ranked>)
    requires NoRepeats(s)
    ensures |set x | x in s| == |s|
  {
    if |s| > 0 {
      var n := |s| - 1;
      SizeOfDistinct(s[..n]);
      assert s == s[..n] + [s[n]];
      assert (set x | x in s) == (set x | x in s[..n]) + {s[n]};
    }
  }

  /** Together the two lists partition the candidates seen before the quota filled up. */
  lemma {:induction false} Partition(near: (nat, nat) -> real, cands: seq<Ranked>, m: nat)
    requires forall i, j :: 0 <= i < j < |cands| ==> cands[i].key != cands[j].key
    ensures var d, r := Diverse(near, cands, m), Rejected(near, cands, m);
      && (forall i :: 0 <= i < |d| ==> d[i] in cands) && (forall i :: 0 <= i < |r| ==> r[i] in cands)
      && (forall i, j :: 0 <= i < j < |d| ==> d[i].key != d[j].key)
      && (forall i, j :: 0 <= i < j < |r| ==> r[i].key != r[j].key)
      && (forall i, j :: 0 <= i < |d| && 0 <= j < |r| ==> d[i].key != r[j].key)
      && (|d| < m ==> |d| + |r| == |cands|) && |d| + |r| <= |cands|
  {
    if |cands| > 0 {
      var n := |cands| - 1;
      var p := cands[..n];
      Partition(near, p, m);
      var c := cands[n];
      forall x | x in p ensures x.key != c.key && x in cands {
        var i :| 0 <= i < n && p[i] == x;
        assert cands[i] == x;
      }
    }
  }

  /** The selection as slots: distinct, from the candidates, and as many as the quota allows. */
  lemma ChosenSlots(near: (nat, nat) -> real, cands: seq<Ranked>, m: nat)
    requires forall i, j :: 0 <= i < j < |cands| ==> cands[i].key != cands[j].key
    ensures var r := KeysOf(Chosen(near, cands, m));
      && Distinct(r) && |r| == Min(m, |cands|)
      && (forall s :: s in r ==> exists i :: 0 <= i < |cands| && cands[i].key == s)
  {
    Partition(near, cands, m);
    ChosenDistinct(near, cands, m);
    var ch := Chosen(near, cands, m);
    forall s | s in KeysOf(ch) ensures exists i :: 0 <= i < |cands| && cands[i].key == s {
      var i :| 0 <= i < |ch| && KeysOf(ch)[i] == s;
      assert ch[i] in cands;
      var k :| 0 <= k < |cands| && cands[k] == ch[i];
      assert cands[k].key == s;
    }
  }

  lemma ChosenDistinct(near: (nat, nat) -> real, cands: seq<Ranked>, m: nat)
    requires forall i, j :: 0 <= i < j < |cands| ==> cands[i].key != cands[j].key
    ensures var ch := Chosen(near, cands, m);
      (forall i :: 0 <= i < |ch| ==> ch[i] in cands) && forall i, j :: 0 <= i < j < |ch| ==> ch[i].key != ch[j].key
  {
    Partition(near, cands, m);
    var d := Diverse(near, cands, m);
    JoinDistinct(d, Take(Rejected(near, cands, m), m - |d|), cands);
  }

  lemma JoinDistinct(a: seq<Ranked>, b: seq<Ranked>, cands: seq<Ranked>)
    requires forall i, j :: 0 <= i < j < |a| ==> a[i].key != a[j].key
    requires forall i, j :: 0 <= i < j < |b| ==> b[i].key != b[j].key
    requires forall i, j :: 0 <= i < |a| && 0 <= j < |b| ==> a[i].key != b[j].key
    requires (forall i :: 0 <= i < |a| ==> a[i] in cands) && forall i :: 0 <= i < |b| ==> b[i] in cands
    ensures var c := a + b;
      (forall i :: 0 <= i < |c| ==> c[i] in cands) && forall i, j :: 0 <= i < j < |c| ==> c[i].key != c[j].key
  {
    var c := a + b;
    forall i, j | 0 <= i < j < |c| ensures c[i].key != c[j].key {
      assert c[i] == if i < |a| then a[i] else b[i - |a|];
      assert c[j] == if j < |a| then a[j] else b[j - |a|];
    }
  }

  /** The two loops of the program. */
  method SelectNeighbors(near: (nat, nat) -> real, cands: seq<Ranked>, m: nat) returns (r: seq<nat>)
    ensures r == KeysOf(Chosen(near, cands, m))
  {
    var selected, pruned := SelectDiverse(near, cands, m);
    selected := FillUp(selected, pruned, m);
    r := KeysOf(selected);
  }

  /** First loop: keep the candidates that no kept one dominates, while there is room. */
  method SelectDiverse(near: (nat, nat) -> real, cands: seq<Ranked>, m: nat)
    returns (selected: seq<Ranked>, pruned: seq<Ranked>)
    ensures selected == Diverse(near, cands, m) && pruned == Rejected(near, cands, m)
  {
    selected, pruned := [], [];
    var i := 0;
    while i < |cands| && |selected| < m
      invariant 0 <= i <= |cands|
      invariant selected == Diverse(near, cands[..i], m) && pruned == Rejected(near, cands[..i], m)
    {
      var c := cands[i];
      assert cands[..i + 1][..i] == cands[..i];
      if Dominated(near, c, selected) { pruned := pruned + [c]; } else { selected := selected + [c]; }
      i := i + 1;
    }
    FullStays(near, cands, m, i);
  }

  /** Second loop: the rest of the quota goes to the nearest rejected ones. */
  method FillUp(diverse: seq<Ranked>, pruned: seq<Ranked>, m: nat) returns (selected: seq<Ranked>)
    requires |diverse| <= m
    ensures selected == diverse + Take(pruned, m - |diverse|)
  {
    selected := diverse;
    var j := 0;
    while j < |pruned| && |selected| < m
      invariant 0 <= j <= |pruned| && |selected| == |diverse| + j <= m
      invariant selected == diverse + pruned[..j]
    {
      selected := selected + [pruned[j]];
      j := j + 1;
    }
  }

  lemma {:induction false} FullStays(near: (nat, nat) -> real, cands: seq<Ranked>, m: nat, i: nat)
    requires i <= |cands| && (i == |cands| || |Diverse(near, cands[..i], m)| == m)
    ensures Diverse(near, cands, m) == Diverse(near, cands[..i], m)
    ensures Rejected(near, cands, m) == Rejected(near, cands[..i], m)
    decreases |cands| - i
  {
    if i == |cands| {
      assert cands[..i] == cands;
    } else {
      assert cands[..i + 1][..i] == cands[..i];
      FullStays(near, cands, m, i + 1);
    }
  }
}
