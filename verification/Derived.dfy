/**
 * The structures derived from metadata: Eq posting lists and numeric field indexes, kept up to date
 * record by record and always equal to what a recomputation from the metadata would give.
 */
module Derived {
  import opened Prelude
  import opened Meta
  import opened Numeric
  import MS = MetaStore

  // ---- Posting lists ----

  predicate Ascending(list: seq<Id>) {
    forall i, j :: 0 <= i < j < |list| ==> list[i] < list[j]
  }

  /** `binary_search`: where `id` is, or where it belongs. */
  function Position(list: seq<Id>, id: Id): (p: nat)
    ensures p <= |list| && (forall j :: 0 <= j < p ==> list[j] < id) && (p < |list| ==> id <= list[p])
  {
    if |list| == 0 || id <= list[0] then 0 else
    assert forall j :: 0 < j < |list| ==> list[1..][j - 1] == list[j];
    1 + Position(list[1..], id)
  }

  lemma PositionFinds(list: seq<Id>, id: Id)
    requires Ascending(list)
    ensures var p := Position(list, id);
      && (id in list <==> p < |list| && list[p] == id)
      && (forall j :: p <= j < |list| && list[p] != id ==> id < list[j])
  {
    var p := Position(list, id);
    if id in list {
      var j :| 0 <= j < |list| && list[j] == id;
      assert j >= p;
      NotBelow(list, p, j);
    }
  }

  lemma NotBelow(list: seq<Id>, p: nat, j: nat)
    requires Ascending(list) && p <= j < |list|
    ensures list[p] <= list[j] && (list[p] == list[j] ==> p == j)
  {
  }

  function PostingInsert(list: seq<Id>, id: Id): (r: seq<Id>) {
    var p := Position(list, id);
    if p < |list| && list[p] == id then list else list[..p] + [id] + list[p..]
  }

  function PostingRemove(list: seq<Id>, id: Id): (r: seq<Id>) {
    var p := Position(list, id);
    if p < |list| && list[p] == id then list[..p] + list[p + 1..] else list
  }

  /** Insertion keeps the list strictly sorted and adds exactly the id. */
  lemma PostingInserted(list: seq<Id>, id: Id)
    requires Ascending(list)
    ensures var r := PostingInsert(list, id); Ascending(r) && forall x :: x in r <==> x in list || x == id
  {
    PositionFinds(list, id);
    if id !in list { WithOne(list, Position(list, id), id); }
  }

  lemma WithOne(list: seq<Id>, p: nat, id: Id)
    requires Ascending(list) && p <= |list|
    requires (forall j :: 0 <= j < p ==> list[j] < id) && forall j :: p <= j < |list| ==> id < list[j]
    ensures var r := list[..p] + [id] + list[p..]; Ascending(r) && forall x :: x in r <==> x in list || x == id
  {
    var r := list[..p] + [id] + list[p..];
    assert forall j :: 0 <= j < |r| ==> r[j] == if j < p then list[j] else if j == p then id else list[j - 1];
    forall x | x in list ensures x in r {
      var j :| 0 <= j < |list| && list[j] == x;
      assert r[if j < p then j else j + 1] == x;
    }
    assert r[p] == id;
  }

  lemma PostingRemoved(list: seq<Id>, id: Id)
    requires Ascending(list)
    ensures var r := PostingRemove(list, id); Ascending(r) && forall x :: x in r <==> x in list && x != id
  {
    PositionFinds(list, id);
    if id in list { WithoutOne(list, Position(list, id)); }
  }

  lemma WithoutOne(list: seq<Id>, p: nat)
    requires Ascending(list) && p < |list|
    ensures var r := list[..p] + list[p + 1..]; Ascending(r) && forall x :: x in r <==> x in list && x != list[p]
  {
    var r := list[..p] + list[p + 1..];
    assert forall j :: 0 <= j < |r| ==> r[j] == if j < p then list[j] else list[j + 1];
    forall x | x in list && x != list[p] ensures x in r {
      var j :| 0 <= j < |list| && list[j] == x;
      assert r[if j < p then j else j - 1] == x;
    }
  }

  type PostingKey = (string, MetaKey)

  /** The ids a posting list must hold. */
  predicate Belongs(metas: map<Id, Metadata>, k: PostingKey, id: Id) {
    id in metas && k.0 in metas[id] && Key(metas[id][k.0]) == k.1
  }

  function ListOf(postings: map<PostingKey, seq<Id>>, k: PostingKey): seq<Id> {
    if k in postings then postings[k] else []
  }

  /** Every posting list is strictly sorted and equals the recomputation. */
  ghost predicate PostingsOk(postings: map<PostingKey, seq<Id>>, metas: map<Id, Metadata>) {
    forall k: PostingKey ::
      Ascending(ListOf(postings, k)) && forall id :: id in ListOf(postings, k) <==> Belongs(metas, k, id)
  }

  // ---- Numeric fields ----

  /** The pairs a numeric field must hold: one per record with a number in that field. */
  predicate Carries(metas: map<Id, Metadata>, field: string, e: Entry) {
    e.id in metas && field in metas[e.id] && AsNumber(metas[e.id][field]) == Some(e.value)
  }

  ghost predicate PairsOk(bag: multiset<Entry>, metas: map<Id, Metadata>, field: string) {
    forall e: Entry :: bag[e] == if Carries(metas, field, e) then 1 else 0
  }

  lemma PairsMore(bag: multiset<Entry>, metas: map<Id, Metadata>, field: string, id: Id, meta: Metadata, k: string,
                  v: MetaValue)
    requires id in metas && metas[id] == meta && k !in meta && PairsOk(bag, metas, field)
    ensures var more := metas[id := meta[k := v]];
      PairsOk(bag + (if field == k && AsNumber(v).Some? then multiset{Entry(AsNumber(v).value, id)} else multiset{}),
              more, field)
  {
    var more := metas[id := meta[k := v]];
    assert forall e: Entry :: e.id != id || field != k ==> (Carries(more, field, e) <==> Carries(metas, field, e));
  }

  lemma PairsLess(bag: multiset<Entry>, metas: map<Id, Metadata>, field: string, id: Id, meta: Metadata, k: string)
    requires id in metas && metas[id] == meta && k in meta && PairsOk(bag, metas, field)
    ensures var less := metas[id := meta - {k}];
      PairsOk(bag - (if field == k && AsNumber(meta[k]).Some? then multiset{Entry(AsNumber(meta[k]).value, id)}
                     else multiset{}),
              less, field)
  {
    var less := metas[id := meta - {k}];
    assert forall e: Entry :: e.id != id || field != k ==> (Carries(less, field, e) <==> Carries(metas, field, e));
  }

  lemma PostingsMore(postings: map<PostingKey, seq<Id>>, metas: map<Id, Metadata>, id: Id, meta: Metadata, k: string,
                     v: MetaValue)
    requires id in metas && metas[id] == meta && k !in meta && PostingsOk(postings, metas)
    ensures var key := (k, Key(v));
      PostingsOk(postings[key := PostingInsert(ListOf(postings, key), id)], metas[id := meta[k := v]])
  {
    var key, more := (k, Key(v)), metas[id := meta[k := v]];
    var after := postings[key := PostingInsert(ListOf(postings, key), id)];
    PostingInserted(ListOf(postings, key), id);
    forall x: PostingKey, i: Id ensures i in ListOf(after, x) <==> Belongs(more, x, i) {
      assert i in ListOf(postings, x) <==> Belongs(metas, x, i);
    }
    forall x: PostingKey ensures Ascending(ListOf(after, x)) {
      assert Ascending(ListOf(postings, x));
    }
  }

  lemma PostingsLess(postings: map<PostingKey, seq<Id>>, metas: map<Id, Metadata>, id: Id, meta: Metadata, k: string)
    requires id in metas && metas[id] == meta && k in meta && PostingsOk(postings, metas)
    ensures var key := (k, Key(meta[k]));
      PostingsOk(postings[key := PostingRemove(ListOf(postings, key), id)], metas[id := meta - {k}])
  {
    var key, less := (k, Key(meta[k])), metas[id := meta - {k}];
    var after := postings[key := PostingRemove(ListOf(postings, key), id)];
    PostingRemoved(ListOf(postings, key), id);
    forall x: PostingKey, i: Id ensures i in ListOf(after, x) <==> Belongs(less, x, i) {
      assert i in ListOf(postings, x) <==> Belongs(metas, x, i);
    }
    forall x: PostingKey ensures Ascending(ListOf(after, x)) {
      assert Ascending(ListOf(postings, x));
    }
  }

  /** An id with an empty map is the same as no id at all. */
  lemma EmptyIsAbsent(postings: map<PostingKey, seq<Id>>, metas: map<Id, Metadata>, id: Id)
    requires id !in metas
    ensures PostingsOk(postings, metas) <==> PostingsOk(postings, metas[id := map[]])
    ensures forall bag, f :: PairsOk(bag, metas, f) <==> PairsOk(bag, metas[id := map[]], f)
  {
    var m := metas[id := map[]];
    assert forall k: PostingKey, i :: Belongs(metas, k, i) <==> Belongs(m, k, i);
    assert forall f, e: Entry :: Carries(metas, f, e) <==> Carries(m, f, e);
  }

  // ---- The indexes of a store ----

  /**
   * The metadata and what is derived from it. The three structures have a lock each and are changed one
   * after the other, so in between they stand for different maps: `posted` for the posting lists, `ranged`
   * for the numeric fields, `Metas()` for the store.
   */
  class MetadataIndex {
    const metadata: MS.MetaStore
    var postings: map<PostingKey, seq<Id>>
    var numeric: map<string, NumericFieldIndex>
    ghost var posted: map<Id, Metadata>
    ghost var ranged: map<Id, Metadata>

    /** Each structure is what a recomputation from its map gives. */
    ghost predicate Valid()
      reads this, metadata, numeric.Values
    {
      && metadata.Valid() && FieldsOk()
      && PostingsOk(postings, posted) && forall f: string :: PairsOk(Bag(f), ranged, f)
    }

    /** Nothing is under way: all three agree. */
    ghost predicate Settled()
      reads this, metadata, numeric.Values
    {
      Valid() && posted == ranged == Metas()
    }

    /** Each field has its own index object, in order. */
    ghost predicate FieldsOk()
      reads this`numeric, numeric.Values
    {
      && (forall f :: f in numeric ==> numeric[f].Valid())
      && (forall f, g :: f in numeric && g in numeric && f != g ==> numeric[f] != numeric[g])
    }

    /** The single source: id -> metadata. */
    ghost function Metas(): map<Id, Metadata>
      reads metadata
      requires metadata.Valid()
    {
      metadata.Contents()
    }

    ghost function Bag(f: string): multiset<Entry>
      reads this`numeric, numeric.Values
    {
      if f in numeric then numeric[f].Entries() else multiset{}
    }

    constructor ()
      ensures Settled() && Metas() == map[] && fresh(metadata) && numeric == map[]
    {
      metadata := new MS.MetaStore();
      postings, numeric, posted, ranged := map[], map[], map[], map[];
    }

    /** Reopening: built anew from the records of a snapshot. */
    constructor Restored(entries: map<Id, Metadata>)
      ensures Settled() && Metas() == entries && fresh(metadata) && fresh(numeric.Values)
    {
      metadata := new MS.MetaStore();
      postings, numeric, posted, ranged := map[], map[], map[], map[];
      new;
      Rebuild(entries);
    }

    /** `entry(field).or_default().insert(v, id)`. */
    method AddNumber(f: string, v: real, id: Id)
      requires FieldsOk()
      modifies this`numeric, numeric.Values
      ensures FieldsOk() && fresh(numeric.Values - old(numeric.Values))
      ensures forall g :: Bag(g) == old(Bag(g)) + if g == f then multiset{Entry(v, id)} else multiset{}
    {
      Field(f);
      Grow(f, v, id);
    }

    method Grow(f: string, v: real, id: Id)
      requires FieldsOk() && f in numeric
      modifies numeric[f]
      ensures FieldsOk()
      ensures forall g :: Bag(g) == old(Bag(g)) + if g == f then multiset{Entry(v, id)} else multiset{}
    {
      assert forall g :: g in numeric && g != f ==> numeric[g] != numeric[f];
      numeric[f].Insert(v, id);
    }

    method Field(f: string)
      requires FieldsOk()
      modifies this`numeric
      ensures FieldsOk() && f in numeric && fresh(numeric.Values - old(numeric.Values))
      ensures forall g :: Bag(g) == old(Bag(g))
    {
      if f !in numeric {
        var field := new NumericFieldIndex();
        NewField(f, field);
        numeric := numeric[f := field];
      }
    }

    lemma NewField(f: string, field: NumericFieldIndex)
      requires f !in numeric && field !in numeric.Values
      ensures var more := numeric[f := field];
        more.Values == numeric.Values + {field}
        && forall g, h :: g in more && h in more && g != h && (g == f || h == f) ==> more[g] != more[h]
    {
      var more := numeric[f := field];
      forall g | g in numeric ensures numeric[g] != field && numeric[g] in numeric.Values {}
      assert more[f] == field;
      forall x | x in numeric.Values ensures x in more.Values {
        var g :| g in numeric && numeric[g] == x;
        assert more[g] == x;
      }
    }

    method DropNumber(f: string, v: real, id: Id)
      requires FieldsOk()
      modifies numeric.Values
      ensures FieldsOk()
      ensures forall g :: Bag(g) == old(Bag(g)) - if g == f then multiset{Entry(v, id)} else multiset{}
    {
      if f in numeric {
        assert forall g :: g in numeric && g != f ==> numeric[g] != numeric[f];
        numeric[f].Remove(v, id);
      }
    }

    /** The record's Eq keys join their lists, in arbitrary order. */
    method AddPostings(id: Id, meta: Metadata, ghost metas: map<Id, Metadata>)
      requires id !in metas && PostingsOk(postings, metas)
      modifies this`postings
      ensures PostingsOk(postings, metas[id := meta])
    {
      EmptyIsAbsent(postings, metas, id);
      var rest := meta.Keys;
      ghost var done: Metadata := map[];
      while rest != {}
        invariant rest <= meta.Keys && done == meta - rest && PostingsOk(postings, metas[id := done])
        decreases |rest|
      {
        var k :| k in rest;
        PostingsMore(postings, metas[id := done], id, done, k, meta[k]);
        assert metas[id := done][id := done[k := meta[k]]] == metas[id := done[k := meta[k]]];
        var key := (k, Key(meta[k]));
        postings := postings[key := PostingInsert(ListOf(postings, key), id)];
        done := done[k := meta[k]];
        rest := rest - {k};
      }
      assert done == meta;
    }

    /** Its numbers join the fields' range indexes. */
    method AddNumbers(id: Id, meta: Metadata, ghost metas: map<Id, Metadata>)
      requires id !in metas && FieldsOk() && forall f: string :: PairsOk(Bag(f), metas, f)
      modifies this`numeric, numeric.Values
      ensures FieldsOk() && fresh(numeric.Values - old(numeric.Values))
      ensures forall f: string :: PairsOk(Bag(f), metas[id := meta], f)
    {
      EmptyIsAbsent(postings, metas, id);
      var rest := meta.Keys;
      ghost var done: Metadata := map[];
      while rest != {}
        invariant rest <= meta.Keys && done == meta - rest
        invariant FieldsOk() && fresh(numeric.Values - old(numeric.Values))
        invariant forall f: string :: PairsOk(Bag(f), metas[id := done], f)
        decreases |rest|
      {
        var k :| k in rest;
        NumbersStep(id, k, meta[k], metas, done);
        done := done[k := meta[k]];
        rest := rest - {k};
      }
      assert done == meta;
    }

    method NumbersStep(id: Id, k: string, v: MetaValue, ghost metas: map<Id, Metadata>, ghost done: Metadata)
      requires k !in done && FieldsOk() && forall f: string :: PairsOk(Bag(f), metas[id := done], f)
      modifies this`numeric, numeric.Values
      ensures FieldsOk() && fresh(numeric.Values - old(numeric.Values))
      ensures forall f: string :: PairsOk(Bag(f), metas[id := done[k := v]], f)
    {
      ghost var more := metas[id := done[k := v]];
      assert metas[id := done][id := done[k := v]] == more;
      if AsNumber(v).Some? {
        forall f: string ensures
          PairsOk(Bag(f) + (if f == k then multiset{Entry(AsNumber(v).value, id)} else multiset{}), more, f)
        {
          PairsMore(Bag(f), metas[id := done], f, id, done, k, v);
        }
        AddNumber(k, AsNumber(v).value, id);
      } else {
        forall f: string ensures PairsOk(Bag(f), more, f) {
          PairsMore(Bag(f), metas[id := done], f, id, done, k, v);
          assert Bag(f) + multiset{} == Bag(f);
        }
      }
    }

    // ---- The blocks of an insert ----

    /** First block: the posting lists. */
    method IndexPostings(id: Id, meta: Metadata)
      requires Valid() && id !in posted
      modifies this`postings, this`posted
      ensures Valid() && posted == old(posted)[id := meta]
    {
      hide PostingsOk, PairsOk, FieldsOk;
      AddPostings(id, meta, posted);
      posted := posted[id := meta];
    }

    /** Second block: the numeric fields. */
    method IndexNumbers(id: Id, meta: Metadata)
      requires Valid() && id !in ranged
      modifies this`numeric, this`ranged, numeric.Values
      ensures Valid() && ranged == old(ranged)[id := meta] && fresh(numeric.Values - old(numeric.Values))
    {
      hide PostingsOk, PairsOk, FieldsOk;
      AddNumbers(id, meta, ranged);
      ranged := ranged[id := meta];
    }

    /** Third block: the store. */
    method StoreMetadata(id: Id, meta: Metadata)
      requires Valid()
      modifies metadata
      ensures Valid() && Metas() == old(Metas())[id := meta]
    {
      metadata.Insert(id, meta);
    }

    /** A record's metadata enters the store and both derived indexes. */
    method IndexMetadata(id: Id, meta: Metadata)
      requires Settled() && id !in Metas()
      modifies this, metadata, numeric.Values
      ensures Settled() && Metas() == old(Metas())[id := meta] && fresh(numeric.Values - old(numeric.Values))
    {
      IndexPostings(id, meta);
      IndexNumbers(id, meta);
      StoreMetadata(id, meta);
    }

    method TakePostings(id: Id, meta: Metadata, ghost metas: map<Id, Metadata>)
      requires id !in metas && PostingsOk(postings, metas[id := meta])
      modifies this`postings
      ensures PostingsOk(postings, metas)
    {
      var rest := meta.Keys;
      ghost var left: Metadata := meta;
      while rest != {}
        invariant rest == left.Keys && left == map k | k in rest && k in meta :: meta[k]
        invariant rest <= meta.Keys && PostingsOk(postings, metas[id := left])
        decreases |rest|
      {
        var k :| k in rest;
        PostingsLess(postings, metas[id := left], id, left, k);
        assert metas[id := left][id := left - {k}] == metas[id := left - {k}];
        var key := (k, Key(meta[k]));
        assert Belongs(metas[id := left], key, id);
        if key in postings {
          postings := postings[key := PostingRemove(postings[key], id)];
        }
        left := left - {k};
        rest := rest - {k};
      }
      assert left == map[];
      EmptyIsAbsent(postings, metas, id);
    }

    method TakeNumbers(id: Id, meta: Metadata, ghost metas: map<Id, Metadata>)
      requires id !in metas && FieldsOk() && forall f: string :: PairsOk(Bag(f), metas[id := meta], f)
      modifies numeric.Values
      ensures FieldsOk() && forall f: string :: PairsOk(Bag(f), metas, f)
    {
      var rest := meta.Keys;
      ghost var left: Metadata := meta;
      while rest != {}
        invariant rest == left.Keys && left == map k | k in rest && k in meta :: meta[k]
        invariant rest <= meta.Keys && FieldsOk()
        invariant forall f: string :: PairsOk(Bag(f), metas[id := left], f)
        decreases |rest|
      {
        var k :| k in rest;
        DropStep(id, k, meta[k], metas, left);
        left := left - {k};
        rest := rest - {k};
      }
      assert left == map[];
      EmptyIsAbsent(postings, metas, id);
    }

    method DropStep(id: Id, k: string, value: MetaValue, ghost metas: map<Id, Metadata>, ghost left: Metadata)
      requires k in left && left[k] == value && FieldsOk() && forall f: string :: PairsOk(Bag(f), metas[id := left], f)
      modifies numeric.Values
      ensures FieldsOk() && forall f: string :: PairsOk(Bag(f), metas[id := left - {k}], f)
    {
      var v := AsNumber(value);
      ghost var less := metas[id := left - {k}];
      assert metas[id := left][id := left - {k}] == less;
      if v.Some? {
        forall f: string
          ensures PairsOk(Bag(f) - (if f == k then multiset{Entry(v.value, id)} else multiset{}), less, f)
        {
          PairsLess(Bag(f), metas[id := left], f, id, left, k);
        }
        DropNumber(k, v.value, id);
      } else {
        forall f: string ensures PairsOk(Bag(f), less, f) {
          PairsLess(Bag(f), metas[id := left], f, id, left, k);
          assert Bag(f) - multiset{} == Bag(f);
        }
      }
    }

    // ---- The blocks of a delete that found its vector ----

    /** First block: the record leaves the store. */
    method TakeMetadata(id: Id) returns (meta: Option<Metadata>)
      requires Valid()
      modifies metadata
      ensures Valid() && Metas() == old(Metas()) - {id}
      ensures meta == if id in old(Metas()) then Some(old(Metas())[id]) else None
    {
      meta := metadata.Remove(id);
    }

    /** Second block: its keys leave the posting lists. */
    method DropPostings(id: Id, meta: Metadata)
      requires Valid() && id in posted && posted[id] == meta
      modifies this`postings, this`posted
      ensures Valid() && posted == old(posted) - {id}
    {
      hide PostingsOk, PairsOk, FieldsOk;
      PutBack(posted, id);
      TakePostings(id, meta, posted - {id});
      posted := posted - {id};
    }

    /** Third block: its numbers leave the numeric fields. */
    method DropNumbers(id: Id, meta: Metadata)
      requires Valid() && id in ranged && ranged[id] == meta
      modifies this`ranged, numeric.Values
      ensures Valid() && ranged == old(ranged) - {id}
    {
      hide PostingsOk, PairsOk, FieldsOk;
      PutBack(ranged, id);
      TakeNumbers(id, meta, ranged - {id});
      ranged := ranged - {id};
    }

    /** The metadata side of a delete. */
    method Forget(id: Id)
      requires Settled()
      modifies this`postings, this`posted, this`ranged, metadata, numeric.Values
      ensures Settled() && Metas() == old(Metas()) - {id}
    {
      var meta := TakeMetadata(id);
      if meta.Some? {
        DropPostings(id, meta.value);
        DropNumbers(id, meta.value);
      } else {
        NothingToForget(old(Metas()), id);
      }
    }

    lemma PutBack(metas: map<Id, Metadata>, id: Id)
      requires id in metas
      ensures (metas - {id})[id := metas[id]] == metas && id !in metas - {id}
    {
    }

    lemma NothingToForget(metas: map<Id, Metadata>, id: Id)
      requires id !in metas
      ensures metas - {id} == metas
    {
    }

    /** The snapshot's records are indexed one by one into an empty store. */
    method Rebuild(entries: map<Id, Metadata>)
      requires Settled() && Metas() == map[]
      modifies this, metadata, numeric.Values
      ensures Settled() && Metas() == entries && fresh(numeric.Values - old(numeric.Values))
    {
      var rest := entries.Keys;
      ghost var done: map<Id, Metadata> := map[];
      while rest != {}
        invariant rest <= entries.Keys && done == entries - rest
        invariant Settled() && Metas() == done && fresh(numeric.Values - old(numeric.Values))
        decreases |rest|
      {
        var id :| id in rest;
        IndexMetadata(id, entries[id]);
        OneMore(entries, rest, id);
        done := done[id := entries[id]];
        rest := rest - {id};
      }
      assert done == entries;
    }

    lemma OneMore(entries: map<Id, Metadata>, rest: set<Id>, id: Id)
      requires id in rest && rest <= entries.Keys
      ensures (entries - rest)[id := entries[id]] == entries - (rest - {id})
    {
    }
  }
}
