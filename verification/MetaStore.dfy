/** The compact metadata store: field names once in a dictionary, records as short field-id lists. */
module MetaStore {
  import opened Prelude
  import opened Meta

  /** One field of a record: dictionary index and value. */
  datatype Cell = Cell(field: nat, value: MetaValue)

  ghost predicate Dictionary(fields: seq<string>, fieldIds: map<string, nat>) {
    && (forall i :: 0 <= i < |fields| ==> fields[i] in fieldIds && fieldIds[fields[i]] == i)
    && (forall name :: name in fieldIds ==> fieldIds[name] < |fields| && fields[fieldIds[name]] == name)
  }

  ghost predicate InDictionary(fields: seq<string>, rec: seq<Cell>) {
    forall p :: p in rec ==> p.field < |fields|
  }

  ghost predicate Ascending(rec: seq<Cell>) {
    forall i, j :: 0 <= i < j < |rec| ==> rec[i].field <= rec[j].field
  }

  /** Back to a plain map (`to_metadata`): collected left to right. */
  function Decode(fields: seq<string>, rec: seq<Cell>): Metadata
    requires InDictionary(fields, rec)
  {
    if |rec| == 0 then map[]
    else
      var last := rec[|rec| - 1];
      assert last in rec;
      Decode(fields, rec[..|rec| - 1])[fields[last.field] := last.value]
  }

  /** `rec` holds exactly the pairs of `m`, in any order. */
  ghost predicate Encodes(fields: seq<string>, rec: seq<Cell>, m: Metadata) {
    && (forall p :: p in rec ==> p.field < |fields| && fields[p.field] in m && m[fields[p.field]] == p.value)
    && (forall k :: k in m ==> exists p :: p in rec && p.field < |fields| && fields[p.field] == k)
  }

  lemma {:induction false} DecodedCells(fields: seq<string>, rec: seq<Cell>, k: string)
    requires InDictionary(fields, rec)
    ensures k in Decode(fields, rec) <==> exists p :: p in rec && fields[p.field] == k
    ensures k in Decode(fields, rec) ==>
      exists p :: p in rec && fields[p.field] == k && p.value == Decode(fields, rec)[k]
  {
    if |rec| > 0 {
      var n := |rec| - 1;
      var last := rec[n];
      DecodedCells(fields, rec[..n], k);
      assert last in rec;
      assert forall p :: p in rec <==> p in rec[..n] || p == last;
    }
  }

  lemma DecodeInverts(fields: seq<string>, rec: seq<Cell>, m: Metadata)
    requires Encodes(fields, rec, m)
    ensures InDictionary(fields, rec) && Decode(fields, rec) == m
  {
    var d := Decode(fields, rec);
    forall k ensures k in d <==> k in m {
      DecodedCells(fields, rec, k);
    }
    forall k | k in d ensures d[k] == m[k] {
      DecodedCells(fields, rec, k);
    }
  }

  lemma DecodeEncodes(fields: seq<string>, fieldIds: map<string, nat>, rec: seq<Cell>)
    requires Dictionary(fields, fieldIds) && InDictionary(fields, rec)
    requires forall p, q :: p in rec && q in rec && p.field == q.field ==> p == q
    ensures Encodes(fields, rec, Decode(fields, rec))
  {
    var d := Decode(fields, rec);
    forall p | p in rec ensures fields[p.field] in d && d[fields[p.field]] == p.value {
      DecodedCells(fields, rec, fields[p.field]);
      var q :| q in rec && fields[q.field] == fields[p.field] && q.value == d[fields[p.field]];
      assert q.field == p.field;
    }
    forall k | k in d ensures exists p :: p in rec && p.field < |fields| && fields[p.field] == k {
      DecodedCells(fields, rec, k);
    }
  }

  /** New names at the end of the dictionary do not change what old records mean. */
  lemma {:induction false} DecodeGrows(fields: seq<string>, more: seq<string>, rec: seq<Cell>)
    requires InDictionary(fields, rec) && fields <= more
    ensures InDictionary(more, rec) && Decode(more, rec) == Decode(fields, rec)
  {
    if |rec| > 0 {
      assert rec[|rec| - 1] in rec;
      DecodeGrows(fields, more, rec[..|rec| - 1]);
    }
  }

  /** The stable insertion step of `sort_by_key` on the field id. */
  function Placed(rec: seq<Cell>, p: Cell): (r: seq<Cell>)
    requires Ascending(rec)
    ensures Ascending(r) && multiset(r) == multiset(rec) + multiset{p}
  {
    if |rec| == 0 || rec[|rec| - 1].field <= p.field then rec + [p]
    else
      var n := |rec| - 1;
      assert rec == rec[..n] + [rec[n]];
      var rest := Placed(rec[..n], p);
      PlacedBelow(rec, p, rest);
      rest + [rec[n]]
  }

  lemma PlacedBelow(rec: seq<Cell>, p: Cell, rest: seq<Cell>)
    requires Ascending(rec) && |rec| > 0 && p.field < rec[|rec| - 1].field
    requires Ascending(rest) && multiset(rest) == multiset(rec[..|rec| - 1]) + multiset{p}
    ensures Ascending(rest + [rec[|rec| - 1]])
  {
    var n := |rec| - 1;
    forall i | 0 <= i < |rest| ensures rest[i].field <= rec[n].field {
      assert rest[i] in multiset(rest);
      if rest[i] != p {
        assert rest[i] in rec[..n];
      }
    }
  }

  function SortByField(rec: seq<Cell>): (r: seq<Cell>)
    ensures Ascending(r) && multiset(r) == multiset(rec)
  {
    if |rec| == 0 then []
    else
      assert rec == rec[..|rec| - 1] + [rec[|rec| - 1]];
      Placed(SortByField(rec[..|rec| - 1]), rec[|rec| - 1])
  }

  lemma SameCells(fields: seq<string>, rec: seq<Cell>, m: Metadata)
    requires Encodes(fields, rec, m)
    ensures Encodes(fields, SortByField(rec), m)
  {
    var s := SortByField(rec);
    assert forall p :: p in s <==> p in multiset(s);
    assert forall p :: p in rec <==> p in multiset(rec);
  }

  ghost predicate AllInDictionary(fields: seq<string>, records: map<Id, seq<Cell>>) {
    forall id :: id in records ==> InDictionary(fields, records[id])
  }

  ghost function DecodeAll(fields: seq<string>, records: map<Id, seq<Cell>>): map<Id, Metadata>
    requires AllInDictionary(fields, records)
  {
    map id | id in records :: Decode(fields, records[id])
  }

  lemma DecodeAllGrows(fields: seq<string>, more: seq<string>, records: map<Id, seq<Cell>>)
    requires AllInDictionary(fields, records) && fields <= more
    ensures AllInDictionary(more, records) && DecodeAll(more, records) == DecodeAll(fields, records)
  {
    forall id | id in records
      ensures InDictionary(more, records[id]) && Decode(more, records[id]) == Decode(fields, records[id])
    {
      DecodeGrows(fields, more, records[id]);
    }
  }

  /** No two cells of a record share a field. */
  ghost predicate OnePerField(rec: seq<Cell>) {
    forall p, q :: p in rec && q in rec && p.field == q.field ==> p == q
  }

  ghost predicate Tidy(records: map<Id, seq<Cell>>) {
    forall id :: id in records ==> Ascending(records[id]) && OnePerField(records[id])
  }

  lemma DecodeAllPut(fields: seq<string>, records: map<Id, seq<Cell>>, id: Id, rec: seq<Cell>, meta: Metadata)
    requires AllInDictionary(fields, records) && Tidy(records) && Encodes(fields, rec, meta) && Ascending(rec)
    ensures var more := records[id := rec];
      AllInDictionary(fields, more) && Tidy(more) && DecodeAll(fields, more) == DecodeAll(fields, records)[id := meta]
  {
    var more := records[id := rec];
    DecodeInverts(fields, rec, meta);
    assert AllInDictionary(fields, more);
    assert DecodeAll(fields, more).Keys == DecodeAll(fields, records)[id := meta].Keys;
  }

  lemma UnknownName(fields: seq<string>, fieldIds: map<string, nat>, rec: seq<Cell>, key: string)
    requires Dictionary(fields, fieldIds) && InDictionary(fields, rec) && Encodes(fields, rec, Decode(fields, rec))
    ensures key !in fieldIds ==> key !in Decode(fields, rec)
  {
  }

  /** The linear walk over a record. */
  method FindField(rec: seq<Cell>, fid: nat) returns (v: Option<MetaValue>)
    ensures v.None? ==> forall p :: p in rec ==> p.field != fid
    ensures v.Some? ==> Cell(fid, v.value) in rec
  {
    for i := 0 to |rec|
      invariant forall j :: 0 <= j < i ==> rec[j].field != fid
    {
      if rec[i].field == fid {
        assert rec[i] in rec;
        return Some(rec[i].value);
      }
    }
    v := None;
  }

  lemma ReadField(fields: seq<string>, fieldIds: map<string, nat>, rec: seq<Cell>, key: string, v: Option<MetaValue>)
    requires Dictionary(fields, fieldIds) && InDictionary(fields, rec) && Encodes(fields, rec, Decode(fields, rec))
    requires key in fieldIds
    requires v.None? ==> forall p :: p in rec ==> p.field != fieldIds[key]
    requires v.Some? ==> Cell(fieldIds[key], v.value) in rec
    ensures v == FieldOf(Decode(fields, rec), key)
  {
  }

  class MetaStore {
    var fields: seq<string>
    var fieldIds: map<string, nat>
    var records: map<Id, seq<Cell>>

    ghost predicate Valid()
      reads this
    {
      Dictionary(fields, fieldIds) && AllInDictionary(fields, records) && Tidy(records)
    }

    /** What was put in. */
    ghost function Contents(): map<Id, Metadata>
      reads this
      requires Valid()
    {
      DecodeAll(fields, records)
    }

    constructor ()
      ensures Valid() && Contents() == map[]
    {
      fields, fieldIds, records := [], map[], map[];
    }

    method FieldId(name: string) returns (fid: nat)
      requires Valid()
      modifies this`fields, this`fieldIds
      ensures Valid() && Contents() == old(Contents()) && old(fields) <= fields
      ensures fid < |fields| && fields[fid] == name
    {
      if name in fieldIds {
        return fieldIds[name];
      }
      fid := |fields|;
      DecodeAllGrows(fields, fields + [name], records);
      fields := fields + [name];
      fieldIds := fieldIds[name := fid];
    }

    /** Stores `meta` for `id`, replacing what was there; the map is iterated in arbitrary order. */
    method Insert(id: Id, meta: Metadata)
      requires Valid()
      modifies this
      ensures Valid() && Contents() == old(Contents())[id := meta]
    {
      var rec := Encode(meta);
      SameCells(fields, rec, meta);
      rec := SortByField(rec);
      DecodeAllPut(fields, records, id, rec, meta);
      records := records[id := rec];
    }

    method Encode(meta: Metadata) returns (rec: seq<Cell>)
      requires Valid()
      modifies this`fields, this`fieldIds
      ensures Valid() && Contents() == old(Contents()) && Encodes(fields, rec, meta)
    {
      rec := [];
      var rest := meta.Keys;
      ghost var done: Metadata := map[];
      while rest != {}
        invariant Valid() && Contents() == old(Contents())
        invariant rest <= meta.Keys && done == meta - rest
        invariant Encodes(fields, rec, done)
        decreases |rest|
      {
        var k :| k in rest;
        ghost var before := fields;
        var fid := FieldId(k);
        EncodesOneMore(before, fields, rec, done, fid, k, meta[k]);
        rec := rec + [Cell(fid, meta[k])];
        done := done[k := meta[k]];
        rest := rest - {k};
      }
      assert done == meta;
    }

    static lemma EncodesOneMore(old_: seq<string>, new_: seq<string>, rec: seq<Cell>, m: Metadata, fid: nat,
                                k: string, v: MetaValue)
      requires Encodes(old_, rec, m) && old_ <= new_ && fid < |new_| && new_[fid] == k && k !in m
      ensures Encodes(new_, rec + [Cell(fid, v)], m[k := v])
    {
      var r := rec + [Cell(fid, v)];
      assert Cell(fid, v) in r;
      var n := m[k := v];
      forall key | key in n ensures exists p :: p in r && p.field < |new_| && new_[p.field] == key {
        if key == k {
          assert new_[Cell(fid, v).field] == key;
        } else {
          var p :| p in rec && p.field < |old_| && old_[p.field] == key;
          assert p in r && new_[p.field] == key;
        }
      }
    }

    /** The read view: dictionary lookup, then a linear walk over the record. */
    method Get(id: Id, key: string) returns (v: Option<MetaValue>)
      requires Valid()
      ensures v == if id in Contents() then FieldOf(Contents()[id], key) else None
    {
      if id !in records { return None; }
      var rec := records[id];
      DecodeEncodes(fields, fieldIds, rec);
      UnknownName(fields, fieldIds, rec, key);
      if key !in fieldIds { return None; }
      v := FindField(rec, fieldIds[key]);
      ReadField(fields, fieldIds, rec, key, v);
    }

    /** `iter().map(to_metadata)`: every record in its raw form, for the snapshot on disk. */
    method Snapshot() returns (entries: map<Id, Metadata>)
      requires Valid()
      ensures entries == Contents()
    {
      hide Decode, Dictionary, Tidy, InDictionary;
      entries := map[];
      ghost var all := Contents();
      var rest := records.Keys;
      assert all - rest == map[];
      while rest != {}
        invariant rest <= records.Keys && entries == all - rest
        decreases |rest|
      {
        var id :| id in rest;
        OneMore(all, rest, id);
        entries := entries[id := Decode(fields, records[id])];
        rest := rest - {id};
      }
      assert all - {} == all;
    }

    static lemma OneMore(all: map<Id, Metadata>, rest: set<Id>, id: Id)
      requires id in rest && id in all
      ensures all - (rest - {id}) == (all - rest)[id := all[id]]
    {
    }

    /** Drops a record and hands its raw form back to the delete path. */
    method Remove(id: Id) returns (meta: Option<Metadata>)
      requires Valid()
      modifies this`records
      ensures Valid() && Contents() == old(Contents()) - {id}
      ensures meta == if id in old(Contents()) then Some(old(Contents())[id]) else None
    {
      if id !in records { return None; }
      meta := Some(Decode(fields, records[id]));
      records := records - {id};
    }

    /** Filter evaluation over the compact form is filter evaluation over the plain maps. */
    method MatchesById(f: Filter, id: Id) returns (r: bool)
      requires Valid()
      ensures r == MatchesId(f, Contents(), id)
    {
      if |f| == 0 { return true; }
      if id !in records { return false; }
      for i := 0 to |f|
        invariant forall j :: 0 <= j < i ==> Satisfies(f[j], FieldOf(Contents()[id], f[j].key))
      {
        var found := Get(id, f[i].key);
        if !Satisfies(f[i], found) { return false; }
      }
      r := true;
    }
  }
}
