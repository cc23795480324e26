/**
 * SEARCH-LAYER (Algorithm 2 of Malkov & Yashunin): the best-first search of width `ef` on one layer,
 * with its visited flags, its candidate min-heap and its result max-heap.
 */
module LayerSearch {
  import opened Prelude
  import opened TopK

  /** links[slot][level] is the list of neighbour slots. */
  type Links = seq<seq<seq<nat>>>

  predicate OnLevel(links: Links, level: nat, s: nat) { s < |links| && level < |links[s]| }

  /** Neighbours on a level exist and have that level. */
  ghost predicate LevelClosed(links: Links, level: nat) {
    forall s: nat, t: nat :: Adjacent(links, level, s, t) ==> OnLevel(links, level, t)
  }

  ghost predicate Adjacent(links: Links, level: nat, s: nat, t: nat) {
    OnLevel(links, level, s) && t in links[s][level]
  }

  /** A walk on the level that starts at one of the entry points. */
  ghost predicate Walk(links: Links, level: nat, eps: seq<nat>, p: seq<nat>) {
    if |p| == 0 then false
    else if |p| == 1 then p[0] in eps
    else Walk(links, level, eps, p[..|p| - 1]) && Adjacent(links, level, p[|p| - 2], p[|p| - 1])
  }

  ghost predicate Reachable(links: Links, level: nat, eps: seq<nat>, v: nat) {
    exists p :: Walk(links, level, eps, p) && p[|p| - 1] == v
  }

  ghost function Reach(links: Links, level: nat, eps: seq<nat>): set<nat> {
    set v | 0 <= v < |links| && Reachable(links, level, eps, v)
  }

  ghost predicate ClosedUnder(links: Links, level: nat, seen: set<nat>) {
    forall s, t :: s in seen && Adjacent(links, level, s, t) ==> t in seen
  }

  lemma {:induction false} WalkStaysInside(links: Links, level: nat, eps: seq<nat>, seen: set<nat>, p: seq<nat>)
    requires ClosedUnder(links, level, seen) && (forall e :: e in eps ==> e in seen)
    requires Walk(links, level, eps, p)
    ensures p[|p| - 1] in seen
  {
    if |p| > 1 {
      WalkStaysInside(links, level, eps, seen, p[..|p| - 1]);
    }
  }

  lemma StepReachable(links: Links, level: nat, eps: seq<nat>, s: nat, t: nat)
    requires Reachable(links, level, eps, s) && Adjacent(links, level, s, t)
    ensures Reachable(links, level, eps, t)
  {
    var p :| Walk(links, level, eps, p) && p[|p| - 1] == s;
    var q := p + [t];
    assert q[..|q| - 1] == p;
    assert Walk(links, level, eps, q) && q[|q| - 1] == t;
  }

  lemma EntryReachable(links: Links, level: nat, eps: seq<nat>, e: nat)
    requires e in eps
    ensures Reachable(links, level, eps, e)
  {
    assert Walk(links, level, eps, [e]) && [e][|[e]| - 1] == e;
  }

  // ---- Heaps of candidates ----

  /** The slots in a heap. */
  ghost function Keys(h: seq<Ranked>): set<nat> { set i | 0 <= i < |h| :: h[i].key }

  /** A heap of distinct slots with their true distances, in order. */
  ghost predicate Heap(h: seq<Ranked>, d: nat -> real) {
    && Sorted(h)
    && (forall i :: 0 <= i < |h| ==> h[i].dist == d(h[i].key))
    && (forall i, j :: 0 <= i < j < |h| ==> h[i].key != h[j].key)
  }

  lemma {:induction false} HeapPush(h: seq<Ranked>, c: Ranked, d: nat -> real)
    requires Heap(h, d) && c.dist == d(c.key) && c.key !in Keys(h)
    ensures Heap(Push(h, c), d) && Keys(Push(h, c)) == Keys(h) + {c.key}
  {
    var n := |h| - 1;
    if |h| == 0 || !Less(c, h[n]) {
      var r := h + [c];
      assert forall i :: 0 <= i < |h| ==> h[i].key in Keys(h);
      KeysAppend(h, c);
    } else {
      KeysAppend(h[..n], h[n]);
      assert h == h[..n] + [h[n]];
      assert forall i :: 0 <= i < n ==> h[..n][i].key != h[n].key;
      HeapPush(h[..n], c, d);
      var rest := Push(h[..n], c);
      KeysAppend(rest, h[n]);
      forall i | 0 <= i < |rest| ensures rest[i].key != h[n].key {
        assert rest[i].key in Keys(rest);
      }
    }
  }

  lemma KeysAppend(h: seq<Ranked>, c: Ranked)
    ensures Keys(h + [c]) == Keys(h) + {c.key}
  {
    var r := h + [c];
    assert forall i :: 0 <= i < |h| ==> r[i] == h[i];
    assert r[|h|].key == c.key;
    forall k | k in Keys(h) + {c.key} ensures k in Keys(r) {
      if k in Keys(h) {
        var i :| 0 <= i < |h| && h[i].key == k;
        assert r[i].key == k;
      }
    }
  }

  /** Popping an end of the heap. */
  lemma HeapDrop(h: seq<Ranked>, d: nat -> real)
    requires Heap(h, d) && |h| > 0
    ensures Heap(h[1..], d) && Keys(h[1..]) == Keys(h) - {h[0].key}
    ensures Heap(h[..|h| - 1], d) && Keys(h[..|h| - 1]) == Keys(h) - {h[|h| - 1].key}
    ensures forall k :: k in Keys(h) ==> h[0].dist <= d(k) <= h[|h| - 1].dist
  {
    var n := |h| - 1;
    assert h == h[..n] + [h[n]];
    KeysAppend(h[..n], h[n]);
    KeysTail(h);
    forall k | k in Keys(h) ensures h[0].dist <= d(k) <= h[n].dist {
      var i :| 0 <= i < |h| && h[i].key == k;
      assert i == 0 || !Less(h[i], h[0]);
      assert i == n || !Less(h[n], h[i]);
    }
  }

  lemma KeysTail(h: seq<Ranked>)
    requires |h| > 0 && forall i, j :: 0 <= i < j < |h| ==> h[i].key != h[j].key
    ensures Keys(h[1..]) == Keys(h) - {h[0].key}
  {
    forall k | k in Keys(h) && k != h[0].key ensures k in Keys(h[1..]) {
      var i :| 0 <= i < |h| && h[i].key == k;
      assert h[1..][i - 1].key == k;
    }
    forall k | k in Keys(h[1..]) ensures k in Keys(h) - {h[0].key} {
      var i :| 0 <= i < |h[1..]| && h[1..][i].key == k;
      assert h[i + 1].key == k;
    }
  }

  lemma {:induction false} KeysSize(h: seq<Ranked>, d: nat -> real)
    requires Heap(h, d)
    ensures |Keys(h)| == |h|
  {
    if |h| > 0 {
      HeapDrop(h, d);
      KeysSize(h[..|h| - 1], d);
      assert h[|h| - 1].key in Keys(h);
    }
  }

  // ---- What the search keeps true ----

  /** `v` is no closer than anything in a full result heap. */
  ghost predicate Beaten(results: seq<Ranked>, ef: nat, d: nat -> real, v: nat) {
    |results| >= ef && forall k :: k in Keys(results) ==> d(k) <= d(v)
  }

  ghost predicate Invariant(links: Links, level: nat, eps: seq<nat>, ef: nat, d: nat -> real, admit: nat -> bool,
                            seen: set<nat>, popped: set<nat>, cands: seq<Ranked>, results: seq<Ranked>) {
    && Heap(cands, d) && Heap(results, d)
    && Keys(cands) <= seen && Keys(results) <= seen && popped <= seen
    && (forall v :: v in seen ==> OnLevel(links, level, v) && Reachable(links, level, eps, v))
    && (forall k :: k in Keys(results) ==> admit(k) && (k in Keys(cands) || k in popped))
    && |results| <= Max(ef, |eps|)
    // every admissible slot seen is a result or beaten by all of them
    && (|eps| <= ef ==> forall v :: v in seen && admit(v) && v !in Keys(results) ==> Beaten(results, ef, d, v))
    // every slot seen is waiting, was popped, or was beaten when it was met
    && (forall v :: v in seen ==> v in Keys(cands) || v in popped || Beaten(results, ef, d, v))
  }

  /** Pops the nearest candidate. */
  lemma PopKeeps(links: Links, level: nat, eps: seq<nat>, ef: nat, d: nat -> real, admit: nat -> bool,
                 seen: set<nat>, popped: set<nat>, cands: seq<Ranked>, results: seq<Ranked>)
    requires Invariant(links, level, eps, ef, d, admit, seen, popped, cands, results) && |cands| > 0
    ensures Invariant(links, level, eps, ef, d, admit, seen, popped + {cands[0].key}, cands[1..], results)
    ensures cands[0].key in seen && OnLevel(links, level, cands[0].key)
  {
    HeapDrop(cands, d);
    assert cands[0].key in Keys(cands);
  }

  predicate Within(results: seq<Ranked>, ef: nat, dist: real) {
    |results| < ef || |results| == 0 || dist < results[|results| - 1].dist
  }

  lemma InOrder(links: Links, level: nat, eps: seq<nat>, ef: nat, d: nat -> real, admit: nat -> bool,
                seen: set<nat>, popped: set<nat>, cands: seq<Ranked>, results: seq<Ranked>)
    requires Invariant(links, level, eps, ef, d, admit, seen, popped, cands, results)
    ensures Sorted(cands) && Sorted(results)
  {
  }

  /** A neighbour that is too far is only marked as seen. */
  lemma SkipKeeps(links: Links, level: nat, eps: seq<nat>, ef: nat, d: nat -> real, admit: nat -> bool,
                  seen: set<nat>, popped: set<nat>, cands: seq<Ranked>, results: seq<Ranked>, nb: nat)
    requires Invariant(links, level, eps, ef, d, admit, seen, popped, cands, results)
    requires OnLevel(links, level, nb) && Reachable(links, level, eps, nb) && nb !in seen
    requires !Within(results, ef, d(nb)) && ef >= 1
    ensures Invariant(links, level, eps, ef, d, admit, seen + {nb}, popped, cands, results)
  {
    HeapDrop(results, d);
    assert Beaten(results, ef, d, nb);
  }

  /** The result heap after admitting `c`: pushed, and cut back to `ef`. */
  function Admitted(results: seq<Ranked>, ef: nat, c: Ranked): seq<Ranked>
    requires Sorted(results)
  {
    var r := Push(results, c);
    if |r| > ef then r[..|r| - 1] else r
  }

  /** A neighbour within reach becomes a candidate, and a result if it is admissible. */
  lemma TakeKeeps(links: Links, level: nat, eps: seq<nat>, ef: nat, d: nat -> real, admit: nat -> bool,
                  seen: set<nat>, popped: set<nat>, cands: seq<Ranked>, results: seq<Ranked>, nb: nat)
    requires Invariant(links, level, eps, ef, d, admit, seen, popped, cands, results)
    requires OnLevel(links, level, nb) && Reachable(links, level, eps, nb) && nb !in seen
    requires Within(results, ef, d(nb)) && ef >= 1
    ensures var c := Ranked(nb, d(nb));
      Invariant(links, level, eps, ef, d, admit, seen + {nb}, popped, Push(cands, c),
                if admit(nb) then Admitted(results, ef, c) else results)
  {
    var c := Ranked(nb, d(nb));
    HeapPush(cands, c, d);
    if admit(nb) { AdmitBeats(results, ef, d, c); }
    TakeHeaps(links, level, eps, ef, d, admit, seen, popped, cands, results, nb, Push(cands, c),
              if admit(nb) then Admitted(results, ef, c) else results);
  }

  lemma TakeHeaps(links: Links, level: nat, eps: seq<nat>, ef: nat, d: nat -> real, admit: nat -> bool,
                  seen: set<nat>, popped: set<nat>, cands: seq<Ranked>, results: seq<Ranked>, nb: nat,
                  newCands: seq<Ranked>, newResults: seq<Ranked>)
    requires Invariant(links, level, eps, ef, d, admit, seen, popped, cands, results)
    requires OnLevel(links, level, nb) && Reachable(links, level, eps, nb) && nb !in seen
    requires Heap(newCands, d) && Keys(newCands) == Keys(cands) + {nb}
    requires Heap(newResults, d) && |newResults| <= Max(ef, |results|)
    requires if admit(nb) then Keys(newResults) <= Keys(results) + {nb} else newResults == results
    requires forall v :: Beaten(results, ef, d, v) ==> Beaten(newResults, ef, d, v)
    requires forall v :: v in Keys(results) + {nb} && v !in Keys(newResults) && admit(v) ==> Beaten(newResults, ef, d, v)
    ensures Invariant(links, level, eps, ef, d, admit, seen + {nb}, popped, newCands, newResults)
  {
  }

  lemma AdmitBeats(results: seq<Ranked>, ef: nat, d: nat -> real, c: Ranked)
    requires ef >= 1
    requires Heap(results, d) && c.dist == d(c.key) && c.key !in Keys(results) && Within(results, ef, c.dist)
    ensures var r := Admitted(results, ef, c);
      && Heap(r, d) && Keys(r) <= Keys(results) + {c.key}
      && |r| == (if |results| < ef then |results| + 1 else |results|)
      && (forall v :: Beaten(results, ef, d, v) ==> Beaten(r, ef, d, v))
      && (forall v :: v in Keys(results) + {c.key} && v !in Keys(r) ==> Beaten(r, ef, d, v))
  {
    HeapPush(results, c, d);
    var p := Push(results, c);
    HeapDrop(p, d);
    var r := Admitted(results, ef, c);
    if |results| >= ef {
      forall v | Beaten(results, ef, d, v) ensures Beaten(r, ef, d, v) {
        if |results| > 0 {
          HeapDrop(results, d);
          assert results[|results| - 1].key in Keys(results);
          assert d(c.key) <= d(v);
        }
      }
    }
  }

  lemma ClosedLevelEntry(links: Links, level: nat, s: nat, i: nat)
    requires LevelClosed(links, level) && OnLevel(links, level, s) && i < |links[s][level]|
    ensures Adjacent(links, level, s, links[s][level][i]) && OnLevel(links, level, links[s][level][i])
  {
    assert links[s][level][i] in links[s][level];
    assert Adjacent(links, level, s, links[s][level][i]);
  }

  /** An entry point starts as a candidate, and as a result if it is admissible. */
  lemma EnterKeeps(links: Links, level: nat, eps: seq<nat>, d: nat -> real, admit: nat -> bool,
                   seen: set<nat>, cands: seq<Ranked>, results: seq<Ranked>, ep: nat)
    requires Entering(links, level, eps, d, admit, seen, cands, results)
    requires OnLevel(links, level, ep) && ep in eps && ep !in seen
    ensures var c := Ranked(ep, d(ep));
      Entering(links, level, eps, d, admit, seen + {ep}, Push(cands, c),
               if admit(ep) then Push(results, c) else results)
  {
    var c := Ranked(ep, d(ep));
    EntryReachable(links, level, eps, ep);
    HeapPush(cands, c, d);
    HeapPush(results, c, d);
  }

  /** While entry points are loaded: everything seen waits, everything admissible is a result. */
  ghost predicate Entering(links: Links, level: nat, eps: seq<nat>, d: nat -> real, admit: nat -> bool,
                           seen: set<nat>, cands: seq<Ranked>, results: seq<Ranked>) {
    && Heap(cands, d) && Heap(results, d)
    && Keys(cands) == seen && Keys(results) == (set v | v in seen && admit(v))
    && (forall v :: v in seen ==> OnLevel(links, level, v) && Reachable(links, level, eps, v))
  }

  lemma Entered(links: Links, level: nat, eps: seq<nat>, ef: nat, d: nat -> real, admit: nat -> bool,
                seen: set<nat>, cands: seq<Ranked>, results: seq<Ranked>)
    requires Entering(links, level, eps, d, admit, seen, cands, results) && |results| <= |eps|
    ensures Invariant(links, level, eps, ef, d, admit, seen, {}, cands, results)
    ensures ClosedFrom(links, level, {}, seen)
  {
  }

  lemma SeenInside(links: Links, level: nat, eps: seq<nat>, ef: nat, d: nat -> real, admit: nat -> bool,
                   seen: set<nat>, popped: set<nat>, cands: seq<Ranked>, results: seq<Ranked>)
    requires Invariant(links, level, eps, ef, d, admit, seen, popped, cands, results)
    ensures seen <= Slots(|links|)
  {
  }

  lemma Results(links: Links, level: nat, eps: seq<nat>, ef: nat, d: nat -> real, admit: nat -> bool,
                seen: set<nat>, popped: set<nat>, cands: seq<Ranked>, results: seq<Ranked>)
    requires Invariant(links, level, eps, ef, d, admit, seen, popped, cands, results)
    requires forall e :: e in eps ==> e in seen
    ensures Found(links, level, eps, ef, d, admit, seen, results)
    ensures |eps| <= ef ==> BestSeen(ef, d, admit, seen, results)
  {
  }

  /** The visited flags, as a set. */
  ghost predicate Flags(visited: array<bool>, seen: set<nat>)
    reads visited
  {
    forall s: nat :: s in seen <==> s < visited.Length && visited[s]
  }

  /** What a finished search promises; `seen` are the visited slots. */
  ghost predicate Found(links: Links, level: nat, eps: seq<nat>, ef: nat, d: nat -> real, admit: nat -> bool,
                        seen: set<nat>, out: seq<Ranked>) {
    && Heap(out, d) && Keys(out) <= seen && |out| <= Max(ef, |eps|)
    && (forall e :: e in eps ==> e in seen)
    && (forall v :: v in seen ==> OnLevel(links, level, v) && Reachable(links, level, eps, v))
    && (forall k :: k in Keys(out) ==> admit(k))
  }

  /**
   * Local optimality: the neighbours of every result were visited, nothing visited was wrongly left out, and
   * the search went on from every slot visited that a full result does not beat.
   */
  ghost predicate Optimal(links: Links, level: nat, ef: nat, d: nat -> real, admit: nat -> bool,
                          seen: set<nat>, out: seq<Ranked>) {
    && (forall s, t :: s in Keys(out) && Adjacent(links, level, s, t) ==> t in seen)
    && BestSeen(ef, d, admit, seen, out)
    && (forall s :: s in seen && !Beaten(out, ef, d, s) ==> Left(links, level, seen, s))
  }

  /** Of the admissible slots visited, only those are left out that a full result beats. */
  ghost predicate BestSeen(ef: nat, d: nat -> real, admit: nat -> bool, seen: set<nat>, out: seq<Ranked>) {
    forall v :: v in seen && admit(v) && v !in Keys(out) ==>
      |out| == ef && forall k :: k in Keys(out) ==> d(k) <= d(v)
  }

  /** All ways out of a slot were followed. */
  ghost predicate Left(links: Links, level: nat, seen: set<nat>, s: nat) {
    forall t :: Adjacent(links, level, s, t) ==> t in seen
  }

  /** What a search that was not cut short answers. */
  ghost predicate Answered(links: Links, level: nat, eps: seq<nat>, ef: nat, d: nat -> real, admit: nat -> bool,
                           out: seq<Ranked>) {
    exists seen :: Found(links, level, eps, ef, d, admit, seen, out) && Optimal(links, level, ef, d, admit, seen, out)
  }

  /** The same for a search that stops early once it has visited `budget` slots; it visited `visits`. */
  ghost predicate AnsweredWithin(links: Links, level: nat, eps: seq<nat>, ef: nat, d: nat -> real,
                                 admit: nat -> bool, budget: Option<nat>, visits: nat, out: seq<Ranked>) {
    exists seen ::
      && Found(links, level, eps, ef, d, admit, seen, out) && |seen| == visits && BestSeen(ef, d, admit, seen, out)
      && (budget.None? || visits < budget.value ==> Optimal(links, level, ef, d, admit, seen, out))
  }

  /** One step of a descent: to the nearest admissible slot a search of width 1 finds, or nowhere. */
  ghost predicate Step(links: Links, level: nat, d: nat -> real, admit: nat -> bool, from: nat, to: nat) {
    exists out: seq<Ranked> ::
      Answered(links, level, [from], 1, d, admit, out) && to == if |out| == 0 then from else out[0].key
  }

  /** The steps on the levels from `top` down to above `stop`. */
  ghost predicate Descent(links: Links, top: int, stop: nat, d: nat -> real, admit: nat -> bool, from: nat, to: nat)
    decreases top
  {
    if top <= stop then to == from
    else exists mid: nat :: Step(links, top, d, admit, from, mid) && Descent(links, top - 1, stop, d, admit, mid, to)
  }

  /** A descent over everything ends where no step leads further: no neighbour on the level is nearer. */
  lemma StepIsGreedy(links: Links, level: nat, d: nat -> real, from: nat, to: nat, t: nat)
    requires Step(links, level, d, _ => true, from, to)
    ensures d(to) <= d(from) && (Adjacent(links, level, to, t) ==> d(to) <= d(t))
  {
    var out: seq<Ranked> :|
      Answered(links, level, [from], 1, d, _ => true, out) && to == if |out| == 0 then from else out[0].key;
    var seen :| Found(links, level, [from], 1, d, _ => true, seen, out)
      && Optimal(links, level, 1, d, _ => true, seen, out);
    assert from in [from] && from in seen;
    assert |out| == 1 && to in Keys(out);
  }

  lemma DescentStart(links: Links, top: int, stop: nat, d: nat -> real, admit: nat -> bool, from: nat)
    requires top <= stop
    ensures Descent(links, top, stop, d, admit, from, from)
  {
  }

  /** One more level. */
  lemma {:induction false} DescentMore(links: Links, top: int, stop: nat, d: nat -> real, admit: nat -> bool,
                                       from: nat, mid: nat, to: nat)
    requires stop + 1 <= top && Descent(links, top, stop + 1, d, admit, from, mid)
    requires Step(links, stop + 1, d, admit, mid, to)
    ensures Descent(links, top, stop, d, admit, from, to)
    decreases top
  {
    if top == stop + 1 {
      assert Descent(links, top - 1, stop, d, admit, to, to);
    } else {
      var next: nat :| Step(links, top, d, admit, from, next) && Descent(links, top - 1, stop + 1, d, admit, next, mid);
      DescentMore(links, top - 1, stop, d, admit, next, mid, to);
    }
  }

  method Mark(visited: array<bool>, s: nat, ghost seen: set<nat>)
    requires s < visited.Length && Flags(visited, seen)
    modifies visited
    ensures Flags(visited, seen + {s})
  {
    visited[s] := true;
  }

  /** Loads the entry points, each once. */
  method LoadEntries(links: Links, d: nat -> real, eps: seq<nat>, ghost ef: nat, ghost level: nat,
                     admit: nat -> bool, visited: array<bool>)
    returns (candidates: seq<Ranked>, results: seq<Ranked>, visitedCount: nat, ghost seen: set<nat>)
    requires visited.Length == |links| && Flags(visited, {})
    requires forall e :: e in eps ==> OnLevel(links, level, e)
    modifies visited
    ensures Flags(visited, seen) && visitedCount == |seen| && |results| <= visitedCount
    ensures Entering(links, level, eps, d, admit, seen, candidates, results) && |results| <= |eps|
    ensures forall e :: e in eps ==> e in seen
  {
    visitedCount, seen := 0, {};
    candidates, results := [], [];
    for i := 0 to |eps|
      invariant Flags(visited, seen) && visitedCount == |seen| && |results| <= visitedCount
      invariant |results| <= i
      invariant Entering(links, level, eps, d, admit, seen, candidates, results)
      invariant forall j :: 0 <= j < i ==> eps[j] in seen
    {
      assert eps[i] in eps;
      var added;
      candidates, results, added, seen :=
        EnterOne(links, d, eps, level, admit, visited, eps[i], seen, candidates, results);
      visitedCount := visitedCount + added;
    }
  }

  /** One entry point: nothing when it was loaded already. */
  method EnterOne(ghost links: Links, d: nat -> real, ghost eps: seq<nat>, ghost level: nat, admit: nat -> bool,
                  visited: array<bool>, ep: nat, ghost seen0: set<nat>,
                  candidates0: seq<Ranked>, results0: seq<Ranked>)
    returns (candidates: seq<Ranked>, results: seq<Ranked>, added: nat, ghost seen: set<nat>)
    requires Flags(visited, seen0) && visited.Length == |links|
    requires Entering(links, level, eps, d, admit, seen0, candidates0, results0)
    requires OnLevel(links, level, ep) && ep in eps
    modifies visited
    ensures Flags(visited, seen) && seen == seen0 + {ep} && |seen| == |seen0| + added
    ensures Entering(links, level, eps, d, admit, seen, candidates, results)
    ensures |results| <= |results0| + added <= |results0| + 1
  {
    candidates, results, added, seen := candidates0, results0, 0, seen0;
    if visited[ep] {
      assert seen0 + {ep} == seen0;
      return;
    }
    Mark(visited, ep, seen0);
    EnterKeeps(links, level, eps, d, admit, seen0, candidates0, results0, ep);
    candidates := Push(candidates0, Ranked(ep, d(ep)));
    results := if admit(ep) then Push(results0, Ranked(ep, d(ep))) else results0;
    added, seen := 1, seen0 + {ep};
  }

  /** Meets an unvisited neighbour: a candidate if within reach, and then a result if admissible. */
  method Meet(ghost links: Links, d: nat -> real, ghost eps: seq<nat>, ef: nat, ghost level: nat, admit: nat -> bool,
              nb: nat, ghost popped: set<nat>, ghost seen: set<nat>,
              candidates0: seq<Ranked>, results0: seq<Ranked>)
    returns (candidates: seq<Ranked>, results: seq<Ranked>, admitted: bool)
    requires ef >= 1 && OnLevel(links, level, nb) && Reachable(links, level, eps, nb) && nb !in seen
    requires Invariant(links, level, eps, ef, d, admit, seen, popped, candidates0, results0)
    ensures Invariant(links, level, eps, ef, d, admit, seen + {nb}, popped, candidates, results)
    ensures |results| <= |results0| + if admitted then 1 else 0
  {
    candidates, results, admitted := candidates0, results0, false;
    InOrder(links, level, eps, ef, d, admit, seen, popped, candidates0, results0);
    hide Invariant, Sorted;
    var dist := d(nb);
    if |results| < ef || |results| == 0 || dist < results[|results| - 1].dist {
      TakeKeeps(links, level, eps, ef, d, admit, seen, popped, candidates, results, nb);
      candidates := Push(candidates, Ranked(nb, dist));
      if admit(nb) {
        results, admitted := Admitted(results, ef, Ranked(nb, dist)), true;
      }
    } else {
      SkipKeeps(links, level, eps, ef, d, admit, seen, popped, candidates, results, nb);
    }
  }

  /** Visits the neighbours of a popped slot. */
  method Expand(links: Links, d: nat -> real, ghost eps: seq<nat>, ef: nat, level: nat, admit: nat -> bool,
                visited: array<bool>, cur: nat, ghost popped: set<nat>, ghost seen0: set<nat>,
                candidates0: seq<Ranked>, results0: seq<Ranked>)
    returns (candidates: seq<Ranked>, results: seq<Ranked>, visits: nat, admissions: nat, ghost seen: set<nat>)
    requires ef >= 1 && LevelClosed(links, level) && visited.Length == |links| && Flags(visited, seen0)
    requires OnLevel(links, level, cur) && cur in popped && cur in seen0
    requires Invariant(links, level, eps, ef, d, admit, seen0, popped, candidates0, results0)
    modifies visited
    ensures Flags(visited, seen) && seen0 <= seen && |seen| == |seen0| + visits
    ensures |results| <= |results0| + admissions && admissions <= visits
    ensures Invariant(links, level, eps, ef, d, admit, seen, popped, candidates, results)
    ensures forall t :: Adjacent(links, level, cur, t) ==> t in seen
    ensures seen == seen0 ==> candidates == candidates0
  {
    candidates, results, visits, admissions, seen := candidates0, results0, 0, 0, seen0;
    var list := links[cur][level];
    assert Reachable(links, level, eps, cur);
    for j := 0 to |list|
      invariant Flags(visited, seen) && seen0 <= seen && |seen| == |seen0| + visits
      invariant |results| <= |results0| + admissions && admissions <= visits
      invariant Invariant(links, level, eps, ef, d, admit, seen, popped, candidates, results)
      invariant SeenUpTo(list, j, seen)
      invariant visits == 0 ==> candidates == candidates0
    {
      ghost var before := seen;
      NeighbourReachable(links, level, eps, cur, j);
      var visit, admission;
      candidates, results, visit, admission, seen :=
        Visit(links, d, eps, ef, level, admit, visited, list[j], popped, seen, candidates, results);
      visits, admissions := visits + visit, admissions + admission;
      SeenOneMore(list, j, before);
    }
    AllSeen(links, level, cur, seen);
  }

  ghost predicate SeenUpTo(list: seq<nat>, n: nat, seen: set<nat>)
    requires n <= |list|
  {
    forall i :: 0 <= i < n ==> list[i] in seen
  }

  lemma SeenOneMore(list: seq<nat>, n: nat, seen: set<nat>)
    requires n < |list| && SeenUpTo(list, n, seen)
    ensures SeenUpTo(list, n + 1, seen + {list[n]})
  {
  }

  lemma AllSeen(links: Links, level: nat, cur: nat, seen: set<nat>)
    requires OnLevel(links, level, cur) && SeenUpTo(links[cur][level], |links[cur][level]|, seen)
    ensures forall t :: Adjacent(links, level, cur, t) ==> t in seen
  {
  }

  lemma NeighbourReachable(links: Links, level: nat, eps: seq<nat>, cur: nat, j: nat)
    requires LevelClosed(links, level) && OnLevel(links, level, cur) && Reachable(links, level, eps, cur)
    requires j < |links[cur][level]|
    ensures OnLevel(links, level, links[cur][level][j]) && Reachable(links, level, eps, links[cur][level][j])
  {
    ClosedLevelEntry(links, level, cur, j);
    StepReachable(links, level, eps, cur, links[cur][level][j]);
  }

  /** One neighbour: nothing when it was visited already. */
  method Visit(ghost links: Links, d: nat -> real, ghost eps: seq<nat>, ef: nat, ghost level: nat, admit: nat -> bool,
               visited: array<bool>, nb: nat, ghost popped: set<nat>, ghost seen0: set<nat>,
               candidates0: seq<Ranked>, results0: seq<Ranked>)
    returns (candidates: seq<Ranked>, results: seq<Ranked>, visit: nat, admission: nat, ghost seen: set<nat>)
    requires ef >= 1 && visited.Length == |links| && Flags(visited, seen0)
    requires OnLevel(links, level, nb) && Reachable(links, level, eps, nb)
    requires Invariant(links, level, eps, ef, d, admit, seen0, popped, candidates0, results0)
    modifies visited
    ensures Flags(visited, seen) && seen == seen0 + {nb} && |seen| == |seen0| + visit
    ensures |results| <= |results0| + admission && admission <= visit
    ensures Invariant(links, level, eps, ef, d, admit, seen, popped, candidates, results)
    ensures visit == 0 ==> candidates == candidates0
  {
    candidates, results, visit, admission, seen := candidates0, results0, 0, 0, seen0;
    if visited[nb] {
      assert seen0 + {nb} == seen0;
      return;
    }
    var admitted;
    candidates, results, admitted := Meet(links, d, eps, ef, level, admit, nb, popped, seen0, candidates0, results0);
    Mark(visited, nb, seen0);
    visit, admission, seen := 1, if admitted then 1 else 0, seen0 + {nb};
  }

  function Slots(n: nat): (r: set<nat>)
    ensures forall v: nat :: v in r <==> v < n
  {
    if n == 0 then {} else Slots(n - 1) + {n - 1}
  }

  /**
   * The search. With a `budget` it may stop early; without one it is locally optimal, and exhaustive
   * whenever `ef` is at least the number of reachable slots.
   */
  method SearchLayer(links: Links, d: nat -> real, eps: seq<nat>, ef: nat, level: nat,
                     admit: nat -> bool, budget: Option<nat>)
    returns (out: seq<Ranked>, visitedCount: nat, admittedCount: nat, ghost seen: set<nat>)
    requires ef >= 1 && LevelClosed(links, level)
    requires forall e :: e in eps ==> OnLevel(links, level, e)
    ensures Found(links, level, eps, ef, d, admit, seen, out) && visitedCount == |seen|
    ensures |out| <= admittedCount <= visitedCount
    ensures |eps| <= ef ==> BestSeen(ef, d, admit, seen, out)
    ensures (budget.None? || visitedCount < budget.value) && |eps| <= ef ==>
      Optimal(links, level, ef, d, admit, seen, out)
    ensures budget.None? && |eps| <= ef && |Reach(links, level, eps)| <= ef ==>
      Keys(out) == (set v | v in Reach(links, level, eps) && admit(v))
  {
    var n := |links|;
    var visited := new bool[n](_ => false);
    var candidates, results;
    candidates, results, visitedCount, seen := LoadEntries(links, d, eps, ef, level, admit, visited);
    admittedCount := |results|;
    hide Invariant, ClosedFrom, Found, Optimal, BestSeen, Flags, Entering;
    Entered(links, level, eps, ef, d, admit, seen, candidates, results);
    SeenInside(links, level, eps, ef, d, admit, seen, {}, candidates, results);
    ghost var popped: set<nat> := {};
    ghost var slots := Slots(n);
    while |candidates| > 0
      invariant Flags(visited, seen) && seen <= slots && visitedCount == |seen|
      invariant |results| <= admittedCount <= visitedCount
      invariant forall e :: e in eps ==> e in seen
      invariant Invariant(links, level, eps, ef, d, admit, seen, popped, candidates, results)
      invariant ClosedFrom(links, level, popped, seen)
      decreases slots - seen, |candidates|
    {
      var cur := candidates[0];
      if budget.Some? && visitedCount >= budget.value { break; }
      if |results| > 0 && cur.dist > results[|results| - 1].dist && |results| >= ef { break; }
      PopKeeps(links, level, eps, ef, d, admit, seen, popped, candidates, results);
      popped := popped + {cur.key};
      ghost var before := seen;
      var visits, admissions;
      candidates, results, visits, admissions, seen :=
        Expand(links, d, eps, ef, level, admit, visited, cur.key, popped, seen, candidates[1..], results);
      SeenInside(links, level, eps, ef, d, admit, seen, popped, candidates, results);
      ClosedMore(links, level, popped, cur.key, before, seen);
      visitedCount, admittedCount := visitedCount + visits, admittedCount + admissions;
    }
    out := results;
    Results(links, level, eps, ef, d, admit, seen, popped, candidates, results);
    if (budget.None? || visitedCount < budget.value) && |eps| <= ef {
      Finished(links, level, eps, ef, d, admit, seen, popped, candidates, results);
    }
  }

  /** Every neighbour of a popped slot has been seen. */
  ghost predicate ClosedFrom(links: Links, level: nat, popped: set<nat>, seen: set<nat>) {
    forall s, t :: s in popped && Adjacent(links, level, s, t) ==> t in seen
  }

  lemma ClosedMore(links: Links, level: nat, popped: set<nat>, cur: nat, before: set<nat>, seen: set<nat>)
    requires ClosedFrom(links, level, popped - {cur}, before) && before <= seen
    requires forall t :: Adjacent(links, level, cur, t) ==> t in seen
    ensures ClosedFrom(links, level, popped, seen)
  {
  }

  lemma Finished(links: Links, level: nat, eps: seq<nat>, ef: nat, d: nat -> real, admit: nat -> bool,
                 seen: set<nat>, popped: set<nat>, cands: seq<Ranked>, results: seq<Ranked>)
    requires Invariant(links, level, eps, ef, d, admit, seen, popped, cands, results) && |eps| <= ef
    requires ClosedFrom(links, level, popped, seen) && (forall e :: e in eps ==> e in seen)
    requires |cands| == 0 || (|results| > 0 && cands[0].dist > results[|results| - 1].dist && |results| >= ef)
    ensures Optimal(links, level, ef, d, admit, seen, results)
    ensures |Reach(links, level, eps)| <= ef ==> Keys(results) == (set v | v in Reach(links, level, eps) && admit(v))
  {
    forall k | k in Keys(results) ensures k in popped {
      if |cands| > 0 {
        HeapDrop(cands, d);
        HeapDrop(results, d);
      }
    }
    forall s | s in seen && !Beaten(results, ef, d, s) ensures s in popped {
      if s in Keys(cands) {
        HeapDrop(cands, d);
        HeapDrop(results, d);
      }
    }
    if |Reach(links, level, eps)| <= ef {
      Exhausted(links, level, eps, ef, d, admit, seen, popped, cands, results);
    }
  }

  lemma Exhausted(links: Links, level: nat, eps: seq<nat>, ef: nat, d: nat -> real, admit: nat -> bool,
                  seen: set<nat>, popped: set<nat>, cands: seq<Ranked>, results: seq<Ranked>)
    requires Invariant(links, level, eps, ef, d, admit, seen, popped, cands, results) && |eps| <= ef
    requires ClosedFrom(links, level, popped, seen) && (forall e :: e in eps ==> e in seen)
    requires |cands| == 0 || |results| >= ef
    requires |Reach(links, level, eps)| <= ef
    ensures Keys(results) == (set v | v in Reach(links, level, eps) && admit(v))
  {
    var reach := Reach(links, level, eps);
    assert seen <= reach;
    if |results| >= ef {
      KeysSize(results, d);
      SubsetFull(Keys(results), reach);
    } else {
      assert seen == popped;
      forall v | v in reach ensures v in seen {
        var p :| Walk(links, level, eps, p) && p[|p| - 1] == v;
        WalkStaysInside(links, level, eps, seen, p);
      }
      assert reach == seen;
    }
  }

  lemma SubsetFull(a: set<nat>, b: set<nat>)
    requires a <= b && |b| <= |a|
    ensures a == b
  {
    assert |b - a| == |b| - |a|;
  }
}
