/**
 * Opening a directory brings the store back: the segments of the manifest become an index in good
 * order, and replaying the log into it -- with sealing and merging going on meanwhile -- rebuilds the
 * database that recovery promises.
 */
module Recovery {
  import opened Prelude
  import opened Store
  import opened StoreInvariants
  import opened StoreSteps
  import opened StoreMerge
  import opened StoreRuns
  import opened StoreFrames
  import opened Records
  import opened Disk
  import opened Segmented
  import opened Meta
  import opened Derived
  import Wal

  /** Only live records have metadata. */
  predicate Backed(db: Db) { db.metas.Keys <= db.vectors.Keys }

  lemma {:induction false} StaysBacked(db: Db, rs: seq<Record>)
    requires Backed(db)
    ensures Backed(AppliedAll(db, rs))
    decreases |rs|
  {
    if |rs| > 0 { StaysBacked(Applied(db, rs[0]), rs[1..]); }
  }

  /**
   * What opening needs of a directory: intact files, a clean segment list, metadata of live records, a log
   * the writer can have left.
   */
  ghost predicate Openable(fmt: Formats, dim: nat, d: Disk) {
    && Intact(fmt, d) && OpensClean(fmt, d) && Base(fmt, dim, d).Some? && Backed(Base(fmt, dim, d).value)
    && Records.Valid(Base(fmt, dim, d).value, Wal.Replay(fmt.log, LogBytes(d)).records)
  }

  /** The interleaving machine's state right after the manifest's segments are loaded. */
  function LoadedStore(fmt: Formats, dim: nat, threshold: nat, d: Disk): State
    requires Loaded(fmt, d).Some? && Base(fmt, dim, d).Some?
  {
    Opened(Base(fmt, dim, d).value.dim, threshold, Loaded(fmt, d).value)
  }

  lemma LoadedHolds(fmt: Formats, dim: nat, threshold: nat, d: Disk)
    requires Intact(fmt, d) && OpensClean(fmt, d)
    ensures Loaded(fmt, d).Some? && Base(fmt, dim, d).Some?
    ensures var s := LoadedStore(fmt, dim, threshold, d);
      && Inv(s) && NewestLive(Layers(s)) && s.pc.Idle?
      && View(s) == Base(fmt, dim, d).value.vectors && s.dim == Base(fmt, dim, d).value.dim
  {
    IntactLoads(fmt, dim, d);
    LoadedList(fmt, dim, d);
    OpenedHolds(Base(fmt, dim, d).value.dim, threshold, Loaded(fmt, d).value);
  }

  lemma LoadedList(fmt: Formats, dim: nat, d: Disk)
    requires Loaded(fmt, d).Some? && Base(fmt, dim, d).Some?
    ensures var ls := Loaded(fmt, d).value;
      Distinct(ls) && Below(ls, |ls|) && LiveMap(ls) == Base(fmt, dim, d).value.vectors
  {
    if d.manifest.Some? { LoadedNumbers(fmt, d, d.manifest.value.segments); }
  }

  /**
   * The recovered store: however the replay of the log interleaves with sealing and (guarded) merging,
   * the store that results is in order, the newest copy decides in it, and it holds exactly what
   * `Recover` says.
   */
  lemma RecoveredStore(fmt: Formats, dim: nat, threshold: nat, d: Disk, runs: seq<seq<Label>>)
    requires Openable(fmt, dim, d) && Loaded(fmt, d).Some?
    requires ReplayRuns(LoadedStore(fmt, dim, threshold, d), Wal.Replay(fmt.log, LogBytes(d)).records, runs)
    ensures var t := Rebuilt(LoadedStore(fmt, dim, threshold, d), Wal.Replay(fmt.log, LogBytes(d)).records, runs);
      && Inv(t) && NewestLive(Layers(t))
      && Recover(fmt, dim, d).Some? && View(t) == Recover(fmt, dim, d).value.vectors
  {
    LoadedHolds(fmt, dim, threshold, d);
    var base, log := Base(fmt, dim, d).value, Wal.Replay(fmt.log, LogBytes(d)).records;
    ReplayRefines(LoadedStore(fmt, dim, threshold, d), base, log, runs);
    ReplayOfValid(base, log);
  }

  /** The index and its metadata hold the database. */
  ghost predicate Mirrors(index: SegmentedIndex, meta: MetadataIndex, db: Db)
    reads index, meta, meta.metadata, meta.numeric.Values
  {
    && index.Valid() && index.guarded && index.dim == db.dim && index.Contents() == db.vectors
    && meta.Settled() && meta.Metas() == db.metas && Backed(db)
  }

  /** The replay loop of `recover_wal`: records are applied, not logged again. */
  method ReplayLog(index: SegmentedIndex, meta: MetadataIndex, log: seq<Record>, ghost base: Db)
    requires Mirrors(index, meta, base) && Records.Valid(base, log)
    modifies index, meta, meta.metadata, meta.numeric.Values
    ensures Mirrors(index, meta, AppliedAll(base, log)) && Descends(old(index.Sources()), index.Sources())
    ensures fresh(meta.numeric.Values - old(meta.numeric.Values))
  {
    hide Mirrors, Descends, Along;
    ghost var from := index.Sources();
    DescendsSelf(from);
    AlongFirst(base, log);
    for i := 0 to |log|
      invariant Mirrors(index, meta, AppliedAll(base, log[..i])) && Descends(from, index.Sources())
      invariant Along(base, log, i) && fresh(meta.numeric.Values - old(meta.numeric.Values))
    {
      ghost var mid := index.Sources();
      NextFits(base, log, i);
      ReplayOne(index, meta, log[i], AppliedAll(base, log[..i]));
      DescendsTrans(from, mid, index.Sources());
    }
    assert log[..|log|] == log;
  }

  /** The log is good up to, and past, record `i`. */
  ghost predicate Along(base: Db, log: seq<Record>, i: nat) {
    i <= |log| && Records.Valid(base, log) && AppliedAll(base, log[..i]).dim == base.dim
  }

  lemma AlongFirst(base: Db, log: seq<Record>)
    requires Records.Valid(base, log)
    ensures Along(base, log, 0) && AppliedAll(base, log[..0]) == base
  {
    assert log[..0] == [];
  }

  lemma NextFits(base: Db, log: seq<Record>, i: nat)
    requires Along(base, log, i) && i < |log|
    ensures Fits(AppliedAll(base, log[..i]), log[i]) && Along(base, log, i + 1)
    ensures AppliedAll(base, log[..i + 1]) == Applied(AppliedAll(base, log[..i]), log[i])
  {
    assert log == log[..i] + log[i..];
    AppliedConcat(base, log[..i], log[i..]);
    assert log[..i + 1] == log[..i] + [log[i]];
    AppliedConcat(base, log[..i], [log[i]]);
    assert [log[i]][1..] == [];
  }

  /** Where a checked operation leaves the writer, about to apply it. */
  function Checked(r: Record): Pc {
    match r case Insert(id, v, _) => InsApply(id, v) case Delete(id) => DelBuffer(id)
  }

  /** A record of the log is past the checks. */
  method ReplayOne(index: SegmentedIndex, meta: MetadataIndex, r: Record, ghost db: Db)
    requires Mirrors(index, meta, db) && Fits(db, r)
    modifies index, meta, meta.metadata, meta.numeric.Values
    ensures Mirrors(index, meta, Applied(db, r)) && Descends(old(index.Sources()), index.Sources())
    ensures fresh(meta.numeric.Values - old(meta.numeric.Values))
  {
    hide Descends, Mirrors;
    Enters(index, meta, r, db);
    ApplyRecord(index, meta, r, db);
  }

  lemma Enters(index: SegmentedIndex, meta: MetadataIndex, r: Record, db: Db)
    requires Mirrors(index, meta, db) && Fits(db, r)
    ensures index.Stands(Checked(r))
  {
    hide StoreFrames.Sound, View;
    index.Enters(Checked(r));
  }

  /**
   * The in-memory side of a record, logged or replayed: the vectors, then the metadata, and only then the
   * seal that a full buffer is due.
   */
  method ApplyRecord(index: SegmentedIndex, meta: MetadataIndex, r: Record, ghost db: Db)
    requires Mirrors(index, meta, db) && Fits(db, r) && index.Stands(Checked(r))
    modifies index, meta, meta.metadata, meta.numeric.Values
    ensures Mirrors(index, meta, Applied(db, r)) && Descends(old(index.Sources()), index.Sources())
    ensures fresh(meta.numeric.Values - old(meta.numeric.Values))
  {
    hide Descends;
    match r {
      case Insert(id, v, fields) => ApplyInsert(index, meta, id, v, fields, db);
      case Delete(id) => ApplyDelete(index, meta, id, db);
    }
  }

  method ApplyInsert(index: SegmentedIndex, meta: MetadataIndex, id: Id, v: Floats, fields: Metadata, ghost db: Db)
    requires Mirrors(index, meta, db) && Fits(db, Insert(id, v, fields)) && index.Stands(InsApply(id, v))
    modifies index, meta, meta.metadata, meta.numeric.Values
    ensures Mirrors(index, meta, Applied(db, Insert(id, v, fields)))
    ensures Descends(old(index.Sources()), index.Sources()) && fresh(meta.numeric.Values - old(meta.numeric.Values))
  {
    hide StoreFrames.Sound, Descends, View, MetadataIndex.Settled;
    ghost var from := index.Sources();
    var full := index.Append(id, v);
    if fields != map[] { meta.IndexMetadata(id, fields); }
    index.SealIfFull(full, from);
  }

  method ApplyDelete(index: SegmentedIndex, meta: MetadataIndex, id: Id, ghost db: Db)
    requires Mirrors(index, meta, db) && id in db.vectors && index.Stands(DelBuffer(id))
    modifies index, meta, meta.metadata, meta.numeric.Values
    ensures Mirrors(index, meta, Applied(db, Delete(id)))
    ensures Descends(old(index.Sources()), index.Sources()) && fresh(meta.numeric.Values - old(meta.numeric.Values))
  {
    hide StoreFrames.Sound, Descends, View, MetadataIndex.Settled;
    var ok := index.DeleteVectorOnly(id);
    if ok { meta.Forget(id); }
  }
}
