/**
 * What an insert does to the graph as a value: which neighbours the new node gets on each level, what becomes
 * of their lists, and why small indexes stay fully linked.
 */
module Wiring {
  import opened Prelude
  import opened TopK
  import opened ExactSearch
  import opened LayerSearch
  import opened HnswGraph
  import opened Neighbors

  /** The neighbours of a node with their distances to it. */
  function Ranks(list: seq<nat>, near: (nat, nat) -> real, node: nat): (r: seq<Ranked>)
    ensures |r| == |list| && forall i :: 0 <= i < |r| ==> r[i] == Ranked(list[i], near(node, list[i]))
  {
    seq(|list|, i requires 0 <= i < |list| => Ranked(list[i], near(node, list[i])))
  }

  ghost predicate DistinctKeys(s: seq<Ranked>) {
    forall i, j :: 0 <= i < j < |s| ==> s[i].key != s[j].key
  }

  /** Sorting the ranked neighbours of a list keeps exactly its slots. */
  lemma SortedList(list: seq<nat>, near: (nat, nat) -> real, node: nat)
    requires Distinct(list)
    ensures forall i :: 0 <= i < |Sort(Ranks(list, near, node))| ==> Sort(Ranks(list, near, node))[i].key in list
    ensures DistinctKeys(Sort(Ranks(list, near, node)))
  {
    var s := Ranks(list, near, node);
    var t := Sort(s);
    forall i | 0 <= i < |t| ensures t[i].key in list {
      assert t[i] in multiset(t) && t[i] in multiset(s) && t[i] in s;
    }
    forall i, j | 0 <= i < j < |t| ensures t[i].key != t[j].key {
      SortedKeysDistinct(s, i, j);
    }
  }

  /** A neighbour list after pruning: untouched within the limit, else what the heuristic keeps. */
  function Shrunk(near: (nat, nat) -> real, node: nat, list: seq<nat>, limit: nat): seq<nat> {
    if |list| <= limit then list else KeysOf(Chosen(near, Sort(Ranks(list, near, node)), limit))
  }

  /** Pruning drops nothing that fits, and otherwise keeps exactly as many as fit. */
  lemma ShrunkMeans(near: (nat, nat) -> real, node: nat, list: seq<nat>, limit: nat)
    requires Distinct(list)
    ensures var r := Shrunk(near, node, list, limit);
      && |r| == Min(limit, |list|) && Distinct(r) && (forall t :: t in r ==> t in list)
      && (|list| <= limit ==> r == list)
  {
    SortedList(list, near, node);
    var cands := Sort(Ranks(list, near, node));
    assert DistinctKeys(cands);
    ChosenSlots(near, cands, limit);
  }

  /**
   * A slot is dropped for a reason: a slot that is kept and no farther from the node is closer to it than the
   * node is, or everything kept is no farther.
   */
  lemma DroppedForReason(near: (nat, nat) -> real, node: nat, list: seq<nat>, limit: nat, t: nat)
    requires Distinct(list) && t in list && t !in Shrunk(near, node, list, limit)
    ensures var kept := Shrunk(near, node, list, limit);
      (exists s :: s in kept && near(node, s) <= near(node, t) && near(t, s) < near(node, t))
      || forall s :: s in kept ==> near(node, s) <= near(node, t)
  {
    var cands, c := Sort(Ranks(list, near, node)), Ranked(t, near(node, t));
    SortedList(list, near, node);
    RankedIn(list, near, node, t);
    ChosenFromRanks(near, node, list, limit);
    NotChosen(near, cands, limit, c);
    var d := Diverse(near, cands, limit);
    GreedyByDistance(near, cands, limit, c);
    if s :| s in Before(d, c) && near(c.key, s.key) < c.dist {
      assert s in Chosen(near, cands, limit);
      assert s.key in KeysOf(Chosen(near, cands, limit));
    } else {
      AllBefore(d, c, limit);
      assert Chosen(near, cands, limit) == d;
    }
  }

  lemma RankedIn(list: seq<nat>, near: (nat, nat) -> real, node: nat, t: nat)
    requires t in list
    ensures Ranked(t, near(node, t)) in Sort(Ranks(list, near, node))
  {
    var s := Ranks(list, near, node);
    var i :| 0 <= i < |list| && list[i] == t;
    assert s[i] in multiset(s) && s[i] in multiset(Sort(s));
  }

  lemma ChosenFromRanks(near: (nat, nat) -> real, node: nat, list: seq<nat>, limit: nat)
    ensures var cands := Sort(Ranks(list, near, node));
      forall x :: x in Chosen(near, cands, limit) ==> x.dist == near(node, x.key)
  {
    var s := Ranks(list, near, node);
    var cands := Sort(s);
    forall x | x in Chosen(near, cands, limit) ensures x.dist == near(node, x.key) {
      FromCandidates(near, cands, limit, x);
      assert x in multiset(cands) && x in multiset(s) && x in s;
    }
  }

  lemma NotChosen(near: (nat, nat) -> real, cands: seq<Ranked>, limit: nat, c: Ranked)
    requires DistinctKeys(cands) && c.key !in KeysOf(Chosen(near, cands, limit))
    ensures c !in Diverse(near, cands, limit) && NoRepeats(cands)
  {
    var ch, d := Chosen(near, cands, limit), Diverse(near, cands, limit);
    forall i | 0 <= i < |d| ensures d[i].key in KeysOf(ch) { assert KeysOf(ch)[i] == d[i].key; }
  }

  /** When `limit` of at most `limit` entries come before, all do. */
  lemma AllBefore(d: seq<Ranked>, c: Ranked, limit: nat)
    requires |d| <= limit <= |Before(d, c)|
    ensures |d| == limit && forall x :: x in d ==> x.dist <= c.dist
  {
    var all := set x | x in d;
    ManyAtMost(d);
    assert Before(d, c) <= all && |all - Before(d, c)| == |all| - |Before(d, c)|;
    assert all == Before(d, c) + (all - Before(d, c));
    assert forall x :: x in d ==> x in all;
  }

  lemma {:induction false} ManyAtMost(d: seq<Ranked>)
    ensures |set x | x in d| <= |d|
  {
    if |d| > 0 {
      var n := |d| - 1;
      ManyAtMost(d[..n]);
      assert d == d[..n] + [d[n]];
      assert (set x | x in d) == (set x | x in d[..n]) + {d[n]};
    }
  }

  // ---- Linking one node on one level ----

  /** The list of `t` after `slot` was linked to `done` on a level. */
  function Relinked(a: Links, slot: nat, level: nat, near: (nat, nat) -> real, limit: nat, done: seq<nat>, t: nat)
    : seq<nat>
    requires OnLevel(a, level, t)
  {
    if t == slot then done else if t in done then Shrunk(near, t, a[t][level] + [slot], limit) else a[t][level]
  }

  /** From `a` to `b`, `slot` was linked to `done` on a level, and nothing else happened. */
  ghost predicate Rewired(a: Links, b: Links, slot: nat, level: nat, near: (nat, nat) -> real, limit: nat,
                          done: seq<nat>) {
    && |b| == |a| && (forall t: nat :: t < |a| ==> |b[t]| == |a[t]|)
    && (forall t: nat :: OnLevel(a, level, t) ==> b[t][level] == Relinked(a, slot, level, near, limit, done, t))
    && (forall t: nat, l: nat :: l != level && OnLevel(a, l, t) ==> b[t][l] == a[t][l])
  }

  lemma RewiredMore(a: Links, b: Links, slot: nat, level: nat, near: (nat, nat) -> real, limit: nat,
                    done: seq<nat>, nb: nat)
    requires Rewired(a, b, slot, level, near, limit, done) && nb !in done && nb != slot
    requires Shape(b) && Linking(b, slot, level, done) && OnLevel(b, level, nb)
    ensures var c := SetList(Linked(b, slot, level, nb), nb, level, Shrunk(near, nb, b[nb][level] + [slot], limit));
      Rewired(a, c, slot, level, near, limit, done + [nb])
  {
    var list := Shrunk(near, nb, b[nb][level] + [slot], limit);
    LinkedKeeps(b, slot, level, done, nb);
    SetListAt(Linked(b, slot, level, nb), nb, level, list);
    var c := SetList(Linked(b, slot, level, nb), nb, level, list);
    assert OnLevel(a, level, nb) && b[nb][level] == a[nb][level];
    forall t: nat | OnLevel(a, level, t)
      ensures c[t][level] == Relinked(a, slot, level, near, limit, done + [nb], t)
    {
      assert OnLevel(b, level, t);
    }
    forall t: nat, l: nat | l != level && OnLevel(a, l, t) ensures c[t][l] == a[t][l] {
      assert OnLevel(b, l, t);
    }
  }

  // ---- Linking a node on all its levels ----

  /** An insert: the new slot, the distances between slots and to the new one, and the parameters. */
  datatype Joining = Joining(slot: nat, near: (nat, nat) -> real, d: nat -> real, m: nat, mMax0: nat, ef: nat)

  /**
   * One level of an insert from graph `a`: what a search of width `ef` from `eps` answers, the heuristic's
   * choice from it, and the links both ways.
   */
  ghost predicate Round(a: Links, b: Links, j: Joining, level: nat, eps: seq<nat>, found: seq<Ranked>) {
    && Answered(a, level, eps, j.ef, j.d, _ => true, found)
    && var (limit, chosen) := (MaxLinks(j.m, j.mMax0, level), KeysOf(Chosen(j.near, found, j.m)));
       forall t: nat :: OnLevel(a, level, t) && OnLevel(b, level, t) ==>
         b[t][level] == Relinked(a, j.slot, level, j.near, limit, chosen, t)
  }

  /** Where the search on the `i`-th level starts: the end of the descent, then all that was found one level up. */
  function Starts(ep: nat, founds: seq<seq<Ranked>>, i: nat): seq<nat>
    requires i <= |founds|
  {
    if i == 0 then [ep] else KeysOf(founds[i - 1])
  }

  /** The rounds from level `high` down. */
  ghost predicate Rounds(a: Links, b: Links, j: Joining, high: int, ep: nat, founds: seq<seq<Ranked>>) {
    |founds| <= high + 1 && forall i: nat :: i < |founds| ==> RoundNo(a, b, j, high, ep, founds, i)
  }

  ghost predicate RoundNo(a: Links, b: Links, j: Joining, high: int, ep: nat, founds: seq<seq<Ranked>>, i: nat) {
    i < |founds| && i <= high && Round(a, b, j, high - i, Starts(ep, founds, i), founds[i])
  }

  lemma RoundAt(a: Links, b: Links, j: Joining, high: int, ep: nat, founds: seq<seq<Ranked>>, i: nat)
    requires Rounds(a, b, j, high, ep, founds) && i < |founds|
    ensures i <= high && Round(a, b, j, high - i, Starts(ep, founds, i), founds[i])
  {
    assert RoundNo(a, b, j, high, ep, founds, i);
  }

  /** The lists of a level are the same. */
  ghost predicate Alike(a: Links, b: Links, level: nat) {
    |b| == |a| && (forall t: nat :: t < |a| ==> |b[t]| == |a[t]|)
    && forall t: nat :: OnLevel(a, level, t) ==> b[t][level] == a[t][level]
  }

  /** From `a`, where the node has no links yet, to `b`: both phases of an insert. */
  ghost predicate JoinedBy(a: Links, b: Links, j: Joining, entry: nat, level: nat, ep: nat, founds: seq<seq<Ranked>>) {
    && entry < |a| && |a[entry]| >= 1
    && Descent(a, |a[entry]| - 1, level, j.d, _ => true, entry, ep)
    && var high := Min(level, |a[entry]| - 1);
       && |founds| == high + 1 && Rounds(a, b, j, high, ep, founds)
       && forall l: nat :: l > high ==> Alike(a, b, l)
  }

  ghost predicate Joined(a: Links, b: Links, j: Joining, entry: nat, level: nat) {
    exists ep: nat, founds: seq<seq<Ranked>> :: JoinedBy(a, b, j, entry, level, ep, founds)
  }

  // ---- Searches see one level only ----

  lemma {:induction false} WalkAlike(a: Links, b: Links, level: nat, eps: seq<nat>, p: seq<nat>)
    requires Alike(a, b, level)
    ensures Walk(a, level, eps, p) <==> Walk(b, level, eps, p)
  {
    if |p| > 1 { WalkAlike(a, b, level, eps, p[..|p| - 1]); }
  }

  lemma ReachableAlike(a: Links, b: Links, level: nat, eps: seq<nat>, v: nat)
    requires Alike(a, b, level)
    ensures Reachable(a, level, eps, v) <==> Reachable(b, level, eps, v)
  {
    forall p ensures Walk(a, level, eps, p) <==> Walk(b, level, eps, p) { WalkAlike(a, b, level, eps, p); }
  }

  lemma AnsweredAlike(a: Links, b: Links, level: nat, eps: seq<nat>, ef: nat, d: nat -> real, out: seq<Ranked>)
    requires Alike(a, b, level) && Answered(b, level, eps, ef, d, _ => true, out)
    ensures Answered(a, level, eps, ef, d, _ => true, out)
  {
    var seen :| Found(b, level, eps, ef, d, _ => true, seen, out) && Optimal(b, level, ef, d, _ => true, seen, out);
    forall s, t ensures Adjacent(a, level, s, t) <==> Adjacent(b, level, s, t) { }
    forall v | v in seen ensures OnLevel(a, level, v) && Reachable(a, level, eps, v) {
      ReachableAlike(a, b, level, eps, v);
    }
    forall s | s in seen && !Beaten(out, ef, d, s) ensures Left(a, level, seen, s) {
      assert Left(b, level, seen, s);
    }
    assert Found(a, level, eps, ef, d, _ => true, seen, out) && Optimal(a, level, ef, d, _ => true, seen, out);
  }

  lemma StepAlike(a: Links, b: Links, level: nat, d: nat -> real, from: nat, to: nat)
    requires Alike(a, b, level) && Step(b, level, d, _ => true, from, to)
    ensures Step(a, level, d, _ => true, from, to)
  {
    var out: seq<Ranked> :|
      Answered(b, level, [from], 1, d, _ => true, out) && to == if |out| == 0 then from else out[0].key;
    AnsweredAlike(a, b, level, [from], 1, d, out);
  }

  // ---- Round after round ----

  lemma RewiredAlike(a: Links, b: Links, slot: nat, level: nat, near: (nat, nat) -> real, limit: nat,
                     done: seq<nat>, l: nat)
    requires Rewired(a, b, slot, level, near, limit, done) && l != level
    ensures Alike(a, b, l)
  {
  }

  lemma AlikeAfter(a: Links, b: Links, c: Links, level: nat)
    requires Alike(a, b, level) && Alike(b, c, level)
    ensures Alike(a, c, level)
  {
  }

  /** A round on one level does not disturb those on others. */
  lemma RoundKept(a: Links, b: Links, c: Links, j: Joining, level: nat, eps: seq<nat>, found: seq<Ranked>)
    requires Round(a, b, j, level, eps, found) && |a| == |b| && (forall t: nat :: t < |a| ==> |b[t]| == |a[t]|)
    requires Alike(b, c, level)
    ensures Round(a, c, j, level, eps, found)
  {
  }

  /** Linking on a level as the search on it found it is a round. */
  lemma RoundDone(a: Links, b: Links, c: Links, j: Joining, level: nat, eps: seq<nat>, found: seq<Ranked>)
    requires Alike(a, b, level) && Answered(b, level, eps, j.ef, j.d, _ => true, found)
    requires Rewired(b, c, j.slot, level, j.near, MaxLinks(j.m, j.mMax0, level), KeysOf(Chosen(j.near, found, j.m)))
    ensures Round(a, c, j, level, eps, found)
  {
    AnsweredAlike(a, b, level, eps, j.ef, j.d, found);
    hide Chosen, Answered;
    forall t: nat | OnLevel(a, level, t) && OnLevel(c, level, t)
      ensures c[t][level] == Relinked(a, j.slot, level, j.near, MaxLinks(j.m, j.mMax0, level),
                                      KeysOf(Chosen(j.near, found, j.m)), t)
    {
      assert OnLevel(b, level, t) && b[t][level] == a[t][level];
    }
  }

  lemma RoundsMore(a: Links, b: Links, c: Links, j: Joining, high: int, ep: nat, founds: seq<seq<Ranked>>,
                   found: seq<Ranked>)
    requires Rounds(a, b, j, high, ep, founds) && |founds| <= high && Alike(a, b, high - |founds|)
    requires Answered(b, high - |founds|, Starts(ep, founds, |founds|), j.ef, j.d, _ => true, found)
    requires var level := high - |founds|;
      Rewired(b, c, j.slot, level, j.near, MaxLinks(j.m, j.mMax0, level), KeysOf(Chosen(j.near, found, j.m)))
    ensures Rounds(a, c, j, high, ep, founds + [found])
  {
    hide Round, Answered, Alike, Rewired, Starts, RoundNo;
    var n, more, level := |founds|, founds + [found], high - |founds|;
    RoundDone(a, b, c, j, level, Starts(ep, founds, n), found);
    forall i: nat | i <= n ensures RoundNo(a, c, j, high, ep, more, i) {
      if i < n {
        RewiredAlike(b, c, j.slot, level, j.near, MaxLinks(j.m, j.mMax0, level),
                     KeysOf(Chosen(j.near, found, j.m)), high - i);
        SameHeights(a, b, level);
        EarlierRound(a, b, c, j, high, ep, founds, found, i);
      } else {
        LatestRound(a, c, j, high, ep, founds, found);
      }
    }
  }

  lemma EarlierRound(a: Links, b: Links, c: Links, j: Joining, high: int, ep: nat, founds: seq<seq<Ranked>>,
                     found: seq<Ranked>, i: nat)
    requires RoundNo(a, b, j, high, ep, founds, i) && Alike(b, c, high - i)
    requires |a| == |b| && (forall t: nat :: t < |a| ==> |b[t]| == |a[t]|)
    ensures RoundNo(a, c, j, high, ep, founds + [found], i)
  {
    hide Round;
    RoundKept(a, b, c, j, high - i, Starts(ep, founds, i), founds[i]);
    assert Starts(ep, founds + [found], i) == Starts(ep, founds, i);
  }

  lemma LatestRound(a: Links, c: Links, j: Joining, high: int, ep: nat, founds: seq<seq<Ranked>>, found: seq<Ranked>)
    requires |founds| <= high && Round(a, c, j, high - |founds|, Starts(ep, founds, |founds|), found)
    ensures RoundNo(a, c, j, high, ep, founds + [found], |founds|)
  {
    hide Round;
    assert Starts(ep, founds + [found], |founds|) == Starts(ep, founds, |founds|);
  }

  lemma SameHeights(a: Links, b: Links, level: nat)
    requires Alike(a, b, level)
    ensures |a| == |b| && forall t: nat :: t < |a| ==> |b[t]| == |a[t]|
  {
  }

  /** Half-way through the rounds: those above `lc` are done, all other levels are as they were. */
  ghost predicate Between(a: Links, b: Links, j: Joining, high: int, lc: int, ep: nat, founds: seq<seq<Ranked>>) {
    && |founds| == high - lc && Rounds(a, b, j, high, ep, founds)
    && forall l: nat :: l <= lc || l > high ==> Alike(a, b, l)
  }

  lemma BetweenFirst(a: Links, j: Joining, high: int, ep: nat)
    requires high >= 0
    ensures Between(a, a, j, high, high, ep, [])
  {
  }

  lemma BetweenLast(a: Links, b: Links, j: Joining, entry: nat, level: nat, ep: nat, founds: seq<seq<Ranked>>)
    requires entry < |a| && |a[entry]| >= 1 && Between(a, b, j, Min(level, |a[entry]| - 1), -1, ep, founds)
    requires Descent(a, |a[entry]| - 1, level, j.d, _ => true, entry, ep)
    ensures Joined(a, b, j, entry, level)
  {
    hide Rounds, Descent;
    assert JoinedBy(a, b, j, entry, level, ep, founds);
  }

  lemma RoundPassed(a: Links, b: Links, c: Links, j: Joining, high: int, lc: nat, ep: nat, founds: seq<seq<Ranked>>,
                    found: seq<Ranked>)
    requires lc <= high && Between(a, b, j, high, lc, ep, founds)
    requires Answered(b, lc, Starts(ep, founds, |founds|), j.ef, j.d, _ => true, found)
    requires Rewired(b, c, j.slot, lc, j.near, MaxLinks(j.m, j.mMax0, lc), KeysOf(Chosen(j.near, found, j.m)))
    ensures Between(a, c, j, high, lc - 1, ep, founds + [found])
    ensures forall t: nat :: |c| == |b| && t < |b| ==> |c[t]| == |b[t]|
  {
    hide Answered, Rounds, Starts, Rewired, Alike, Chosen;
    RoundsMore(a, b, c, j, high, ep, founds, found);
    forall l: nat | l <= lc - 1 || l > high ensures Alike(a, c, l) {
      RewiredAlike(b, c, j.slot, lc, j.near, MaxLinks(j.m, j.mMax0, lc), KeysOf(Chosen(j.near, found, j.m)), l);
      AlikeAfter(a, b, c, l);
    }
    RewiredHeights(b, c, j.slot, lc, j.near, MaxLinks(j.m, j.mMax0, lc), KeysOf(Chosen(j.near, found, j.m)));
  }

  lemma RewiredHeights(a: Links, b: Links, slot: nat, level: nat, near: (nat, nat) -> real, limit: nat,
                       done: seq<nat>)
    requires Rewired(a, b, slot, level, near, limit, done)
    ensures |b| == |a| && forall t: nat :: t < |a| ==> |b[t]| == |a[t]|
  {
  }

  // ---- What an insert leaves behind ----

  /**
   * The new node is linked in on a level: a list without repetitions holding `m` of at least one slot found,
   * or all of them, and each neighbour lists the node back or has a full list.
   */
  ghost predicate LinkedIn(a: Links, b: Links, j: Joining, level: nat) {
    && OnLevel(b, level, j.slot)
    && var list := b[j.slot][level];
       && Distinct(list) && j.slot !in list
       && (exists found: seq<Ranked> :: |found| >= 1 && |list| == Min(j.m, |found|) && Nearby(a, j, level, found))
       && forall t :: t in list ==> LinksBack(b, j, level, t)
  }

  /** `t` lists the node, or its list is full: the base layer is the denser one. */
  ghost predicate LinksBack(b: Links, j: Joining, level: nat, t: nat) {
    && OnLevel(b, level, t)
    && (j.slot in b[t][level] || |b[t][level]| == if level == 0 then j.mMax0 else j.m)
  }

  /** Distinct slots at their distances, `ef` of them or everything that can be reached from them, locally nearest. */
  ghost predicate Nearby(a: Links, j: Joining, level: nat, found: seq<Ranked>) {
    && Heap(found, j.d) && |found| <= j.ef
    && forall s, t :: s in Keys(found) && Adjacent(a, level, s, t) && t !in Keys(found) ==>
         |found| == j.ef && FartherThanAll(found, j.d, t)
  }

  ghost predicate FartherThanAll(found: seq<Ranked>, d: nat -> real, t: nat) {
    forall k :: k in Keys(found) ==> d(k) <= d(t)
  }

  lemma AnswerNearby(a: Links, j: Joining, level: nat, eps: seq<nat>, found: seq<Ranked>)
    requires Answered(a, level, eps, j.ef, j.d, _ => true, found) && 1 <= |eps| <= j.ef
    ensures |found| >= 1 && Nearby(a, j, level, found)
  {
    var seen :| Found(a, level, eps, j.ef, j.d, _ => true, seen, found)
      && Optimal(a, level, j.ef, j.d, _ => true, seen, found);
    assert eps[0] in eps && eps[0] in seen;
  }

  /** The node is there on its levels, with no link yet. */
  ghost predicate Ready(a: Links, b: Links, j: Joining, level: nat) {
    && Shape(a) && Untouched(a, j.slot, level) && |a[j.slot]| == level + 1
    && |b| == |a| && forall t: nat :: t < |a| ==> |b[t]| == |a[t]|
  }

  /** What is found on a level the new node has not been linked on are other slots of that level. */
  lemma FoundOthers(a: Links, j: Joining, level: nat, eps: seq<nat>, found: seq<Ranked>)
    requires Answered(a, level, eps, j.ef, j.d, _ => true, found) && Untouched(a, j.slot, level) && j.slot !in eps
    ensures forall i :: 0 <= i < |found| ==> OnLevel(a, level, found[i].key) && found[i].key != j.slot
  {
    NotFoundYet(a, level, eps, j.slot);
    forall i | 0 <= i < |found| ensures OnLevel(a, level, found[i].key) && found[i].key != j.slot {
      assert found[i].key in Keys(found);
    }
  }

  lemma RoundLinksIn(a: Links, b: Links, j: Joining, top: nat, level: nat, eps: seq<nat>, found: seq<Ranked>)
    requires Ready(a, b, j, top) && level <= top && Round(a, b, j, level, eps, found)
    requires 1 <= |eps| <= j.ef && j.slot !in eps
    ensures LinkedIn(a, b, j, level) && 1 <= |found| <= j.ef && j.slot !in KeysOf(found)
  {
    AnswerNearby(a, j, level, eps, found);
    NotTouchedBelow(a, j.slot, top, level);
    FoundOthers(a, j, level, eps, found);
    ChosenSlots(j.near, found, j.m);
    var list := KeysOf(Chosen(j.near, found, j.m));
    assert b[j.slot][level] == list;
    forall t | t in list
      ensures t != j.slot && LinksBack(b, j, level, t)
    {
      assert OnLevel(a, level, t) && t != j.slot;
      assert ListOk(a, t, level, a[t][level]);
      ShrunkMeans(j.near, t, a[t][level] + [j.slot], MaxLinks(j.m, j.mMax0, level));
    }
  }

  lemma NotTouchedBelow(a: Links, slot: nat, top: nat, level: nat)
    requires Untouched(a, slot, top) && level <= top
    ensures Untouched(a, slot, level)
  {
  }

  /** Every round finds something, never the new node, and links it in. */
  lemma {:induction false} RoundsLinkIn(a: Links, b: Links, j: Joining, top: nat, high: nat, ep: nat,
                                        founds: seq<seq<Ranked>>, i: nat)
    requires Ready(a, b, j, top) && high <= top && Rounds(a, b, j, high, ep, founds) && i < |founds|
    requires ep != j.slot && j.ef >= 1
    ensures LinkedIn(a, b, j, high - i) && 1 <= |founds[i]| <= j.ef && j.slot !in KeysOf(founds[i])
  {
    hide Ready, Round, Rounds, LinkedIn;
    RoundAt(a, b, j, high, ep, founds, i);
    if i > 0 { RoundsLinkIn(a, b, j, top, high, ep, founds, i - 1); }
    RoundLinksIn(a, b, j, top, high - i, Starts(ep, founds, i), founds[i]);
  }

  /** An insert links the new node in on every level it shares with the entry. */
  lemma JoinLinksIn(a: Links, b: Links, j: Joining, entry: nat, level: nat, l: nat)
    requires Ready(a, b, j, level) && Joined(a, b, j, entry, level) && entry != j.slot && j.ef >= 1
    requires l <= level && l < |a[entry]|
    ensures LinkedIn(a, b, j, l)
  {
    hide Round, LinkedIn, Descent, Shape;
    var ep: nat, founds: seq<seq<Ranked>> :| JoinedBy(a, b, j, entry, level, ep, founds);
    var high := Min(level, |a[entry]| - 1);
    DescentAvoids(a, |a[entry]| - 1, level, j, entry, ep);
    RoundsLinkIn(a, b, j, level, high, ep, founds, high - l);
  }

  lemma {:induction false} DescentAvoids(a: Links, top: int, stop: nat, j: Joining, from: nat, to: nat)
    requires Shape(a) && from != j.slot && j.slot < |a| && |a[j.slot]| == stop + 1
    requires Descent(a, top, stop, j.d, _ => true, from, to)
    ensures to != j.slot
    decreases top
  {
    hide Step, Shape;
    if top > stop {
      var mid: nat :| Step(a, top, j.d, _ => true, from, mid) && Descent(a, top - 1, stop, j.d, _ => true, mid, to);
      StepOnLevel(a, top, j.d, from, mid);
      DescentAvoids(a, top - 1, stop, j, mid, to);
    }
  }

  /** A step leads to a slot of the level. */
  lemma StepOnLevel(a: Links, level: nat, d: nat -> real, from: nat, to: nat)
    requires Step(a, level, d, _ => true, from, to)
    ensures OnLevel(a, level, to) && Reachable(a, level, [from], to)
  {
    var out: seq<Ranked> :|
      Answered(a, level, [from], 1, d, _ => true, out) && to == if |out| == 0 then from else out[0].key;
    var seen :| Found(a, level, [from], 1, d, _ => true, seen, out)
      && Optimal(a, level, 1, d, _ => true, seen, out);
    assert from in [from] && from in seen;
    assert |out| >= 1 && to in Keys(out);
  }

  // ---- Small indexes are fully linked ----

  /** No edge on any level leaves the set. */
  ghost predicate ClosedAll(links: Links, inside: set<nat>) {
    forall l: nat, s: nat, t: nat :: s in inside && Adjacent(links, l, s, t) ==> t in inside
  }

  /** On the base layer every slot of the set lists every other, and no edge on any level leaves the set. */
  ghost predicate Mesh(links: Links, inside: set<nat>) { ClosedAll(links, inside) && Complete(links, inside) }

  ghost predicate Complete(links: Links, inside: set<nat>) {
    && (forall s :: s in inside ==> OnLevel(links, 0, s))
    && forall s, t :: s in inside && t in inside && s != t ==> Adjacent(links, 0, s, t)
  }

  /** Every slot can be reached from every slot on the base layer. */
  ghost predicate AllConnected(links: Links) {
    forall s: nat, t: nat :: s < |links| && t < |links| ==> Reachable(links, 0, [s], t)
  }

  lemma ReachStays(links: Links, level: nat, eps: seq<nat>, inside: set<nat>, v: nat)
    requires ClosedAll(links, inside) && (forall e :: e in eps ==> e in inside) && Reachable(links, level, eps, v)
    ensures v in inside
  {
    var p :| Walk(links, level, eps, p) && p[|p| - 1] == v;
    WalkStaysInside(links, level, eps, inside, p);
  }

  lemma {:induction false} DescentStays(links: Links, top: int, stop: nat, d: nat -> real, from: nat, to: nat,
                                        inside: set<nat>)
    requires ClosedAll(links, inside) && from in inside && Descent(links, top, stop, d, _ => true, from, to)
    ensures to in inside
    decreases top
  {
    hide Step, ClosedAll;
    if top > stop {
      var mid: nat :| Step(links, top, d, _ => true, from, mid)
        && Descent(links, top - 1, stop, d, _ => true, mid, to);
      StepOnLevel(links, top, d, from, mid);
      ReachStays(links, top, [from], inside, mid);
      DescentStays(links, top - 1, stop, d, mid, to, inside);
    }
  }

  lemma AnswerStays(links: Links, level: nat, eps: seq<nat>, ef: nat, d: nat -> real, found: seq<Ranked>,
                    inside: set<nat>)
    requires ClosedAll(links, inside) && (forall e :: e in eps ==> e in inside)
    requires Answered(links, level, eps, ef, d, _ => true, found)
    ensures Keys(found) <= inside
  {
    forall k | k in Keys(found) ensures k in inside { ReachStays(links, level, eps, inside, k); }
  }

  /** A search wide enough finds a whole mesh. */
  lemma MeshFound(links: Links, eps: seq<nat>, ef: nat, d: nat -> real, found: seq<Ranked>, inside: set<nat>)
    requires Mesh(links, inside) && (forall e :: e in eps ==> e in inside) && 1 <= |eps| <= ef && |inside| <= ef
    requires Answered(links, 0, eps, ef, d, _ => true, found)
    ensures Keys(found) == inside && |found| == |inside| && Heap(found, d)
  {
    AnswerStays(links, 0, eps, ef, d, found, inside);
    KeysSize(found, d);
    var seen :| Found(links, 0, eps, ef, d, _ => true, seen, found)
      && Optimal(links, 0, ef, d, _ => true, seen, found);
    if |found| >= ef {
      SubsetFull(Keys(found), inside);
    } else {
      var e := eps[0];
      assert e in eps && e in seen && e in Keys(found);
      forall t | t in inside ensures t in Keys(found) {
        if t != e { assert Adjacent(links, 0, e, t); }
      }
    }
  }

  lemma RoundStays(a: Links, b: Links, j: Joining, level: nat, eps: seq<nat>, found: seq<Ranked>, inside: set<nat>)
    requires Round(a, b, j, level, eps, found) && ClosedAll(a, inside) && forall e :: e in eps ==> e in inside
    ensures Keys(found) <= inside
  {
    AnswerStays(a, level, eps, j.ef, j.d, found, inside);
  }

  lemma KeysListed(found: seq<Ranked>)
    ensures forall e :: e in KeysOf(found) <==> e in Keys(found)
  {
    forall e | e in KeysOf(found) ensures e in Keys(found) {
      var n :| 0 <= n < |found| && KeysOf(found)[n] == e;
      assert found[n].key == e;
    }
    forall e | e in Keys(found) ensures e in KeysOf(found) {
      var n :| 0 <= n < |found| && found[n].key == e;
      assert KeysOf(found)[n] == e;
    }
  }

  /** Everything found on the way down lies inside. */
  lemma {:induction false} RoundsStay(a: Links, b: Links, j: Joining, high: nat, ep: nat, founds: seq<seq<Ranked>>,
                                      i: nat, inside: set<nat>)
    requires Rounds(a, b, j, high, ep, founds) && i < |founds| && ClosedAll(a, inside) && ep in inside
    ensures Keys(founds[i]) <= inside && forall e :: e in Starts(ep, founds, i) ==> e in inside
  {
    hide Round, Rounds, ClosedAll;
    RoundAt(a, b, j, high, ep, founds, i);
    if i > 0 {
      RoundsStay(a, b, j, high, ep, founds, i - 1, inside);
      KeysListed(founds[i - 1]);
    }
    RoundStays(a, b, j, high - i, Starts(ep, founds, i), founds[i], inside);
  }

  ghost function Members(list: seq<nat>): set<nat> { set x: nat | x in list }

  lemma {:induction false} DistinctSize(list: seq<nat>)
    requires Distinct(list)
    ensures |Members(list)| == |list|
  {
    if |list| > 0 {
      var n := |list| - 1;
      DistinctSize(list[..n]);
      assert list == list[..n] + [list[n]] && list[n] !in list[..n];
      assert Members(list) == Members(list[..n]) + {list[n]};
    }
  }

  lemma FullList(list: seq<nat>, inside: set<nat>)
    requires Distinct(list) && (forall x :: x in list ==> x in inside)
    ensures |list| <= |inside| && (|list| == |inside| ==> forall x :: x in inside ==> x in list)
  {
    var s := Members(list);
    DistinctSize(list);
    assert s <= inside && |inside - s| == |inside| - |s|;
    if |list| == |inside| { SubsetFull(s, inside); }
  }

  /** In a mesh every list is short of room by one at most. */
  lemma MeshListSize(a: Links, inside: set<nat>, t: nat)
    requires Shape(a) && Mesh(a, inside) && t in inside
    ensures OnLevel(a, 0, t) && |a[t][0]| + 1 <= |inside| && Distinct(a[t][0])
  {
    assert ListOk(a, t, 0, a[t][0]);
    forall x | x in a[t][0] ensures x in inside - {t} { assert Adjacent(a, 0, t, x); }
    FullList(a[t][0], inside - {t});
  }

  lemma MeshWith(a: Links, b: Links, inside: set<nat>, slot: nat)
    requires Mesh(a, inside) && OnLevel(b, 0, slot) && forall x :: x in inside ==> x in b[slot][0]
    requires forall t :: t in inside ==> OnLevel(b, 0, t) && b[t][0] == a[t][0] + [slot]
    ensures Complete(b, inside + {slot})
  {
    forall t, x | t in inside && x in inside + {slot} && x != t ensures Adjacent(b, 0, t, x) {
      if x in inside { assert Adjacent(a, 0, t, x); }
    }
  }

  /** On the base layer the new node is linked both ways to the whole mesh. */
  lemma RoundMesh(a: Links, b: Links, j: Joining, top: nat, eps: seq<nat>, found: seq<Ranked>, inside: set<nat>)
    requires Ready(a, b, j, top) && Round(a, b, j, 0, eps, found) && Mesh(a, inside) && j.slot !in inside
    requires (forall e :: e in eps ==> e in inside) && 1 <= |eps| <= j.ef
    requires |inside| <= Min(j.m, j.ef) && j.m <= j.mMax0
    ensures Complete(b, inside + {j.slot})
  {
    hide Answered, Chosen;
    MeshFound(a, eps, j.ef, j.d, found, inside);
    ChosenAll(j, found, inside);
    var list := KeysOf(Chosen(j.near, found, j.m));
    assert OnLevel(a, 0, j.slot) && b[j.slot][0] == list;
    forall t | t in inside ensures OnLevel(b, 0, t) && b[t][0] == a[t][0] + [j.slot] {
      MeshListSize(a, inside, t);
      assert OnLevel(a, 0, t) && t != j.slot;
    }
    MeshWith(a, b, inside, j.slot);
  }

  /** All that was found is chosen when the quota allows. */
  lemma ChosenAll(j: Joining, found: seq<Ranked>, inside: set<nat>)
    requires Heap(found, j.d) && Keys(found) == inside && |found| == |inside| <= j.m
    ensures forall x :: x in inside <==> x in KeysOf(Chosen(j.near, found, j.m))
  {
    ChosenSlots(j.near, found, j.m);
    var list := KeysOf(Chosen(j.near, found, j.m));
    forall x | x in list ensures x in inside {
      var i :| 0 <= i < |found| && found[i].key == x;
      assert x in Keys(found);
    }
    FullList(list, inside);
  }

  /** No new edge leaves the set and the new node. */
  lemma RoundClosed(a: Links, b: Links, j: Joining, top: nat, level: nat, eps: seq<nat>, found: seq<Ranked>,
                    inside: set<nat>, s: nat, t: nat)
    requires Ready(a, b, j, top) && level <= top && Round(a, b, j, level, eps, found)
    requires ClosedAll(a, inside) && Keys(found) <= inside && j.slot !in inside
    requires s in inside + {j.slot} && Adjacent(b, level, s, t)
    ensures t in inside + {j.slot}
  {
    var list := KeysOf(Chosen(j.near, found, j.m));
    ChosenSlots(j.near, found, j.m);
    assert OnLevel(a, level, s);
    if s == j.slot {
      var i :| 0 <= i < |found| && found[i].key == t;
      assert t in Keys(found);
    } else {
      assert ListOk(a, s, level, a[s][level]) && j.slot !in a[s][level];
      ShrunkMeans(j.near, s, a[s][level] + [j.slot], MaxLinks(j.m, j.mMax0, level));
      assert t in a[s][level] + [j.slot];
      assert t == j.slot || Adjacent(a, level, s, t);
    }
  }

  lemma AlikeClosed(a: Links, b: Links, j: Joining, top: nat, level: nat, inside: set<nat>, s: nat, t: nat)
    requires Ready(a, b, j, top) && Alike(a, b, level) && ClosedAll(a, inside)
    requires s in inside + {j.slot} && Adjacent(b, level, s, t)
    ensures t in inside + {j.slot}
  {
    assert Adjacent(a, level, s, t);
  }

  lemma JoinClosed(a: Links, b: Links, j: Joining, entry: nat, level: nat, ep: nat, founds: seq<seq<Ranked>>,
                   inside: set<nat>)
    requires Ready(a, b, j, level) && JoinedBy(a, b, j, entry, level, ep, founds)
    requires ep in inside && ClosedAll(a, inside) && j.slot !in inside
    ensures ClosedAll(b, inside + {j.slot})
  {
    hide Round, Rounds, Descent, Ready;
    var high := Min(level, |a[entry]| - 1);
    forall l: nat, s: nat, t: nat | s in inside + {j.slot} && Adjacent(b, l, s, t) ensures t in inside + {j.slot} {
      hide ClosedAll;
      if l > high {
        AlikeClosed(a, b, j, level, l, inside, s, t);
      } else {
        var i := high - l;
        RoundAt(a, b, j, high, ep, founds, i);
        RoundsStay(a, b, j, high, ep, founds, i, inside);
        RoundClosed(a, b, j, level, l, Starts(ep, founds, i), founds[i], inside, s, t);
      }
    }
  }

  /** The new node joins a mesh that contains the entry. */
  lemma MeshGrows(a: Links, b: Links, j: Joining, entry: nat, level: nat, inside: set<nat>)
    requires Ready(a, b, j, level) && Joined(a, b, j, entry, level) && entry in inside && j.slot !in inside
    requires Mesh(a, inside) && 1 <= |inside| <= Min(j.m, j.ef) && j.m <= j.mMax0
    ensures Mesh(b, inside + {j.slot})
  {
    hide Round, Rounds, Descent, ClosedAll, Complete, Ready;
    var ep: nat, founds: seq<seq<Ranked>> :| JoinedBy(a, b, j, entry, level, ep, founds);
    DescentStays(a, |a[entry]| - 1, level, j.d, entry, ep, inside);
    JoinClosed(a, b, j, entry, level, ep, founds, inside);
    LastRound(a, b, j, level, Min(level, |a[entry]| - 1), ep, founds, inside);
  }

  /** The last round is the one on the base layer. */
  lemma LastRound(a: Links, b: Links, j: Joining, level: nat, high: nat, ep: nat, founds: seq<seq<Ranked>>,
                  inside: set<nat>)
    requires Ready(a, b, j, level) && high <= level && Rounds(a, b, j, high, ep, founds) && |founds| == high + 1
    requires Mesh(a, inside) && ep in inside && j.slot !in inside && |inside| <= Min(j.m, j.ef) && j.m <= j.mMax0
    requires j.ef >= 1
    ensures Complete(b, inside + {j.slot})
  {
    hide Round, Rounds, ClosedAll, Complete, Ready, LinkedIn;
    RoundsStay(a, b, j, high, ep, founds, high, inside);
    RoundAt(a, b, j, high, ep, founds, high);
    if high > 0 { RoundsLinkIn(a, b, j, level, high, ep, founds, high - 1); }
    RoundMesh(a, b, j, level, Starts(ep, founds, high), founds[high], inside);
  }

  // ---- From one insert to the next ----

  /** What an insert makes of a graph: the first live node stands alone, any other is linked in from the entry. */
  ghost predicate Extends(a: Links, b: Links, entry: Option<nat>, j: Joining) {
    && |b| == |a| + 1 && j.slot == |a| && |b[j.slot]| >= 1
    && match entry
       case None => b == AddNode(a, |b[j.slot]| - 1)
       case Some(e) => e < |a| && LinkedFrom(AddNode(a, |b[j.slot]| - 1), b, e, j, |b[j.slot]| - 1)
  }

  ghost predicate LinkedFrom(grown: Links, b: Links, e: nat, j: Joining, level: nat) {
    && Ready(grown, b, j, level) && e < |grown| && Joined(grown, b, j, e, level)
    && forall l: nat :: l <= level && l < |grown[e]| ==> LinkedIn(grown, b, j, l)
  }

  lemma FirstExtends(a: Links, j: Joining, level: nat)
    requires j.slot == |a|
    ensures Extends(a, AddNode(a, level), None, j)
  {
  }

  lemma JoinExtends(a: Links, b: Links, e: nat, j: Joining, level: nat)
    requires e < |a| && j.slot == |a| && j.ef >= 1
    requires Ready(AddNode(a, level), b, j, level) && Joined(AddNode(a, level), b, j, e, level)
    ensures Extends(a, b, Some(e), j) && LinkedFrom(AddNode(a, level), b, e, j, level)
  {
    var grown := AddNode(a, level);
    forall l: nat | l <= level && l < |grown[e]| ensures LinkedIn(grown, b, j, l) {
      JoinLinksIn(grown, b, j, e, level, l);
    }
    assert |b[j.slot]| == level + 1;
  }

  /** The live slots are in a mesh. */
  ghost predicate Knit(links: Links, deleted: seq<bool>) {
    exists inside: set<nat> :: KnitBy(links, deleted, inside)
  }

  ghost predicate KnitBy(links: Links, deleted: seq<bool>, inside: set<nat>) {
    && Mesh(links, inside) && |deleted| == |links|
    && forall s: nat :: s < |deleted| && !deleted[s] ==> s in inside
  }

  lemma KnitEmpty()
    ensures Knit([], [])
  {
    assert KnitBy([], [], {});
  }

  /** Deleting leaves the graph as it is. */
  lemma KnitKept(links: Links, deleted: seq<bool>, slot: nat)
    requires Knit(links, deleted) && slot < |deleted|
    ensures Knit(links, deleted[slot := true])
  {
    var inside: set<nat> :| KnitBy(links, deleted, inside);
    assert KnitBy(links, deleted[slot := true], inside);
  }

  lemma {:induction false} SlotsSize(n: nat)
    ensures |Slots(n)| == n
  {
    if n > 0 { SlotsSize(n - 1); }
  }

  lemma InsideSize(links: Links, inside: set<nat>)
    requires Mesh(links, inside)
    ensures |inside| <= |links|
  {
    SlotsSize(|links|);
    assert inside <= Slots(|links|);
    assert |Slots(|links|) - inside| == |Slots(|links|)| - |inside|;
  }

  lemma MeshAdd(a: Links, level: nat, inside: set<nat>)
    requires Mesh(a, inside)
    ensures Mesh(AddNode(a, level), inside) && |a| !in inside
  {
    var b := AddNode(a, level);
    forall l: nat, s: nat, t: nat | s in inside && Adjacent(b, l, s, t) ensures t in inside {
      assert OnLevel(a, 0, s) && Adjacent(a, l, s, t);
    }
    forall s, t | s in inside && t in inside && s != t ensures Adjacent(b, 0, s, t) {
      assert Adjacent(a, 0, s, t);
    }
  }

  lemma MeshConnects(links: Links, inside: set<nat>, s: nat, t: nat)
    requires Complete(links, inside) && s in inside && t in inside
    ensures Reachable(links, 0, [s], t)
  {
    EntryReachable(links, 0, [s], s);
    if s != t { StepReachable(links, 0, [s], s, t); }
  }

  /** A mesh that takes in a slot is the whole graph once every slot can be reached. */
  lemma ConnectedInside(links: Links, inside: set<nat>, e: nat, t: nat)
    requires Mesh(links, inside) && e in inside && AllConnected(links) && t < |links|
    ensures t in inside
  {
    ReachStays(links, 0, [e], inside, t);
  }

  lemma AllInside(links: Links, inside: set<nat>)
    requires Mesh(links, inside) && forall t: nat :: t < |links| ==> t in inside
    ensures AllConnected(links)
  {
    forall s: nat, t: nat | s < |links| && t < |links| ensures Reachable(links, 0, [s], t) {
      MeshConnects(links, inside, s, t);
    }
  }

  /** A search that covers all that can be reached finds every admissible slot of it. */
  lemma AnsweredAll(links: Links, level: nat, eps: seq<nat>, ef: nat, d: nat -> real, admit: nat -> bool,
                    out: seq<Ranked>)
    requires Answered(links, level, eps, ef, d, admit, out) && |Reach(links, level, eps)| <= ef
    ensures Keys(out) == set v | v in Reach(links, level, eps) && admit(v)
  {
    var reach := Reach(links, level, eps);
    var seen :| Found(links, level, eps, ef, d, admit, seen, out) && Optimal(links, level, ef, d, admit, seen, out);
    assert seen <= reach;
    if |out| >= ef {
      KeysSize(out, d);
      SubsetFull(Keys(out), reach);
    } else {
      forall v | v in reach ensures v in seen {
        var p :| Walk(links, level, eps, p) && p[|p| - 1] == v;
        assert forall s :: s in seen ==> Left(links, level, seen, s);
        WalkStaysInside(links, level, eps, seen, p);
      }
      assert reach == seen;
    }
  }

  /** From inside a mesh everything in it is in reach, and there is little of it. */
  lemma MeshReach(links: Links, deleted: seq<bool>, d: nat -> real, e: nat, start: nat)
    requires Knit(links, deleted) && e < |deleted| && !deleted[e] && |links[e]| >= 1
    requires Descent(links, |links[e]| - 1, 0, d, _ => true, e, start)
    ensures |Reach(links, 0, [start])| <= |links|
    ensures forall s: nat :: s < |deleted| && !deleted[s] ==> Reachable(links, 0, [start], s)
  {
    hide Descent, ClosedAll;
    var inside: set<nat> :| KnitBy(links, deleted, inside);
    DescentStays(links, |links[e]| - 1, 0, d, e, start, inside);
    SlotsSize(|links|);
    assert |Slots(|links|) - Reach(links, 0, [start])| == |Slots(|links|)| - |Reach(links, 0, [start])| by {
      assert Reach(links, 0, [start]) <= Slots(|links|);
    }
    forall s: nat | s < |deleted| && !deleted[s] ensures Reachable(links, 0, [start], s) {
      MeshConnects(links, inside, start, s);
    }
  }

  lemma AloneMesh(a: Links, level: nat)
    ensures Mesh(AddNode(a, level), {|a|})
  {
  }

  /** While there are few slots an insert keeps the live ones in a mesh, when there was one live already. */
  lemma KnitJoins(a: Links, b: Links, deleted: seq<bool>, e: nat, j: Joining, level: nat)
    requires LinkedFrom(AddNode(a, level), b, e, j, level) && j.slot == |a| && Knit(a, deleted)
    requires e < |deleted| && !deleted[e] && |a| <= Min(j.m, j.ef) && j.m <= j.mMax0
    ensures Knit(b, deleted + [false]) && (AllConnected(a) ==> AllConnected(b))
  {
    hide LinkedIn, Mesh, AllConnected, Joined;
    var inside: set<nat> :| KnitBy(a, deleted, inside);
    InsideSize(a, inside);
    MeshAdd(a, level, inside);
    assert {e} <= inside;
    MeshGrows(AddNode(a, level), b, j, e, level, inside);
    assert KnitBy(b, deleted + [false], inside + {j.slot});
    if AllConnected(a) {
      forall t: nat | t < |a| ensures t in inside { ConnectedInside(a, inside, e, t); }
      AllInside(b, inside + {j.slot});
    }
  }

  lemma KnitAlone(a: Links, deleted: seq<bool>, level: nat)
    requires |deleted| == |a| && forall s: nat :: s < |deleted| ==> deleted[s]
    ensures Knit(AddNode(a, level), deleted + [false])
    ensures AllConnected(AddNode(a, level)) <==> a == []
  {
    var b := AddNode(a, level);
    AloneMesh(a, level);
    assert KnitBy(b, deleted + [false], {|a|});
    if a == [] {
      AllInside(b, {|a|});
    } else if AllConnected(b) {
      ConnectedInside(b, {|a|}, |a|, 0);
    }
  }
}
