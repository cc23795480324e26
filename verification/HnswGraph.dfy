/** The layered graph as a value: its shape, its degree bounds, and the edits an insert makes. */
module HnswGraph {
  import opened Prelude
  import opened TopK
  import opened LayerSearch

  predicate Distinct(s: seq<nat>) { forall i, j :: 0 <= i < j < |s| ==> s[i] != s[j] }

  /** A neighbour list of slot `s` on a level: existing slots of that level, no self-loop, no duplicate. */
  ghost predicate ListOk(links: Links, s: nat, level: nat, list: seq<nat>) {
    Distinct(list) && forall t :: t in list ==> t != s && OnLevel(links, level, t)
  }

  /** Every node has a base layer and every list is well formed. */
  ghost predicate Shape(links: Links) {
    && (forall s: nat :: s < |links| ==> |links[s]| >= 1)
    && (forall s: nat, l: nat :: OnLevel(links, l, s) ==> ListOk(links, s, l, links[s][l]))
  }

  /** The degree limit of a level. */
  function MaxLinks(m: nat, mMax0: nat, level: nat): nat { if level == 0 then mMax0 else m }

  ghost predicate Bounded(links: Links, m: nat, mMax0: nat) {
    forall s: nat, l: nat :: OnLevel(links, l, s) ==> |links[s][l]| <= MaxLinks(m, mMax0, l)
  }

  lemma ShapeClosed(links: Links, level: nat)
    requires Shape(links)
    ensures LevelClosed(links, level)
  {
  }

  /** Replaces one neighbour list. */
  function SetList(links: Links, s: nat, level: nat, list: seq<nat>): Links
    requires OnLevel(links, level, s)
  {
    links[s := links[s][level := list]]
  }

  lemma SetListAt(links: Links, s: nat, level: nat, list: seq<nat>)
    requires OnLevel(links, level, s)
    ensures var r := SetList(links, s, level, list);
      && |r| == |links| && (forall t: nat :: t < |links| ==> |r[t]| == |links[t]|)
      && (forall t: nat, l: nat :: OnLevel(links, l, t) ==>
            r[t][l] == if t == s && l == level then list else links[t][l])
  {
  }

  /** Replacing a list by a well-formed one keeps the shape. */
  lemma SetListKeeps(links: Links, s: nat, level: nat, list: seq<nat>)
    requires Shape(links) && OnLevel(links, level, s) && ListOk(links, s, level, list)
    ensures Shape(SetList(links, s, level, list))
  {
    SetListAt(links, s, level, list);
    var r := SetList(links, s, level, list);
    forall t: nat, l: nat | OnLevel(r, l, t) ensures ListOk(r, t, l, r[t][l]) {
      assert OnLevel(links, l, t);
    }
  }

  /** Appending a node with empty lists on levels 0..level. */
  function AddNode(links: Links, level: nat): Links { links + [seq(level + 1, _ => [])] }

  lemma AddNodeKeeps(links: Links, level: nat, m: nat, mMax0: nat)
    requires Shape(links) && Bounded(links, m, mMax0)
    ensures var r := AddNode(links, level);
      && Shape(r) && Bounded(r, m, mMax0) && Untouched(r, |links|, level)
      && (forall t: nat :: t < |links| ==> r[t] == links[t]) && |r[|links|]| == level + 1
  {
    var r := AddNode(links, level);
    assert forall t: nat :: t < |links| ==> r[t] == links[t];
    forall t: nat, l: nat | OnLevel(r, l, t) ensures ListOk(r, t, l, r[t][l]) {
      if t < |links| { assert ListOk(links, t, l, links[t][l]); }
    }
    forall l: nat, t: nat | l <= level && OnLevel(r, l, t) ensures |links| !in r[t][l] {
      if t < |links| { assert ListOk(links, t, l, links[t][l]); }
    }
  }

  /** On levels up to `level`, `slot` has no edge in either direction yet. */
  ghost predicate Untouched(links: Links, slot: nat, level: int) {
    && slot < |links|
    && (forall l: nat :: l <= level && l < |links[slot]| ==> links[slot][l] == [])
    && (forall l: nat, t: nat :: l <= level && OnLevel(links, l, t) ==> slot !in links[t][l])
  }

  lemma {:induction false} WalkAvoids(links: Links, level: nat, eps: seq<nat>, slot: nat, p: seq<nat>)
    requires slot !in eps && (forall t: nat :: OnLevel(links, level, t) ==> slot !in links[t][level])
    requires Walk(links, level, eps, p)
    ensures p[|p| - 1] != slot
  {
    if |p| > 1 { assert Adjacent(links, level, p[|p| - 2], p[|p| - 1]); }
  }

  /** A search on an untouched level cannot find the new node. */
  lemma NotFoundYet(links: Links, level: nat, eps: seq<nat>, slot: nat)
    requires slot !in eps && Untouched(links, slot, level)
    ensures !Reachable(links, level, eps, slot)
  {
    forall p | Walk(links, level, eps, p) ensures p[|p| - 1] != slot {
      WalkAvoids(links, level, eps, slot, p);
    }
  }

  // ---- Linking one neighbour ----

  /** Half-way through linking `slot` on `level`: it points to `done`, and only those may point back. */
  ghost predicate Linking(links: Links, slot: nat, level: nat, done: seq<nat>) {
    && OnLevel(links, level, slot) && links[slot][level] == done
    && Untouched(links, slot, level as int - 1)
    && (forall t: nat :: OnLevel(links, level, t) && t !in done ==> slot !in links[t][level])
  }

  /** The edges slot -> nb and nb -> slot. */
  function Linked(links: Links, slot: nat, level: nat, nb: nat): Links
    requires OnLevel(links, level, slot) && OnLevel(links, level, nb) && slot != nb
  {
    var one := SetList(links, slot, level, links[slot][level] + [nb]);
    SetList(one, nb, level, one[nb][level] + [slot])
  }

  lemma LinkedKeeps(links: Links, slot: nat, level: nat, done: seq<nat>, nb: nat)
    requires Shape(links) && Linking(links, slot, level, done)
    requires OnLevel(links, level, nb) && nb != slot && nb !in done
    ensures var r := Linked(links, slot, level, nb);
      Shape(r) && |r| == |links| && (forall t: nat :: t < |links| ==> |r[t]| == |links[t]|)
      && (forall t: nat, l: nat :: OnLevel(links, l, t) ==>
            r[t][l] == if l == level && t == slot then done + [nb]
                       else if l == level && t == nb then links[nb][level] + [slot] else links[t][l])
  {
    var one := SetList(links, slot, level, done + [nb]);
    SetListAt(links, slot, level, done + [nb]);
    SetListKeeps(links, slot, level, done + [nb]);
    assert one[nb][level] == links[nb][level];
    SetListAt(one, nb, level, one[nb][level] + [slot]);
    assert ListOk(one, nb, level, one[nb][level]);
    SetListKeeps(one, nb, level, one[nb][level] + [slot]);
  }

  /** After pruning `nb`'s list to a sublist within the limit, the next neighbour can be linked. */
  lemma ShrunkKeeps(links: Links, slot: nat, level: nat, done: seq<nat>, nb: nat, list: seq<nat>, m: nat, mMax0: nat)
    requires Shape(links) && Bounded(links, m, mMax0) && Linking(links, slot, level, done)
    requires OnLevel(links, level, nb) && nb != slot && nb !in done
    requires |done| < MaxLinks(m, mMax0, level)
    requires var r := Linked(links, slot, level, nb);
      OnLevel(r, level, nb) && ListOk(r, nb, level, list) && |list| <= MaxLinks(m, mMax0, level)
    ensures var r := SetList(Linked(links, slot, level, nb), nb, level, list);
      && Shape(r) && Bounded(r, m, mMax0) && Linking(r, slot, level, done + [nb])
      && |r| == |links| && (forall t: nat :: t < |links| ==> |r[t]| == |links[t]|)
  {
    ShrunkEntries(links, slot, level, done, nb, list);
    var r := SetList(Linked(links, slot, level, nb), nb, level, list);
    ShrunkBounded(links, slot, level, done, nb, list, r, m, mMax0);
    ShrunkLinking(links, slot, level, done, nb, list, r);
  }

  /** Every list after linking and pruning. */
  lemma ShrunkEntries(links: Links, slot: nat, level: nat, done: seq<nat>, nb: nat, list: seq<nat>)
    requires Shape(links) && Linking(links, slot, level, done)
    requires OnLevel(links, level, nb) && nb != slot && nb !in done
    requires var r := Linked(links, slot, level, nb); OnLevel(r, level, nb) && ListOk(r, nb, level, list)
    ensures var r := SetList(Linked(links, slot, level, nb), nb, level, list);
      && Shape(r) && |r| == |links| && (forall t: nat :: t < |links| ==> |r[t]| == |links[t]|)
      && (forall t: nat, l: nat :: OnLevel(links, l, t) ==>
            r[t][l] == if l == level && t == slot then done + [nb] else if l == level && t == nb then list
                       else links[t][l])
  {
    LinkedKeeps(links, slot, level, done, nb);
    var one := Linked(links, slot, level, nb);
    SetListAt(one, nb, level, list);
    SetListKeeps(one, nb, level, list);
  }

  lemma ShrunkBounded(links: Links, slot: nat, level: nat, done: seq<nat>, nb: nat, list: seq<nat>, r: Links, m: nat,
                      mMax0: nat)
    requires Bounded(links, m, mMax0) && |done| < MaxLinks(m, mMax0, level) && |list| <= MaxLinks(m, mMax0, level)
    requires |r| == |links| && forall t: nat :: t < |links| ==> |r[t]| == |links[t]|
    requires forall t: nat, l: nat :: OnLevel(links, l, t) ==>
      r[t][l] == if l == level && t == slot then done + [nb] else if l == level && t == nb then list else links[t][l]
    ensures Bounded(r, m, mMax0)
  {
    forall t: nat, l: nat | OnLevel(r, l, t) ensures |r[t][l]| <= MaxLinks(m, mMax0, l) {
      assert OnLevel(links, l, t);
    }
  }

  /** Only `done` and `nb` may point back at `slot`. */
  lemma ShrunkLinking(links: Links, slot: nat, level: nat, done: seq<nat>, nb: nat, list: seq<nat>, r: Links)
    requires Linking(links, slot, level, done) && OnLevel(links, level, nb) && nb != slot
    requires |r| == |links| && forall t: nat :: t < |links| ==> |r[t]| == |links[t]|
    requires forall t: nat, l: nat :: OnLevel(links, l, t) ==>
      r[t][l] == if l == level && t == slot then done + [nb] else if l == level && t == nb then list else links[t][l]
    ensures Linking(r, slot, level, done + [nb])
  {
    forall t: nat | OnLevel(r, level, t) && t !in done + [nb] ensures slot !in r[t][level] {
      assert OnLevel(links, level, t) && t !in done && t != nb;
    }
  }
}
