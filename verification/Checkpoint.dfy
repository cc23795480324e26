/**
 * The checkpoint: new segment files, the metadata snapshot, log rotation, the atomic manifest swap and
 * garbage collection, with every intermediate directory on record so that a crash can hit any of them.
 */
module Checkpoint {
  import opened Prelude
  import opened Meta
  import opened Store
  import opened StoreInvariants
  import opened StoreSteps
  import opened StoreFrames
  import opened Records
  import opened Disk
  import Wal

  /** What the checkpoint image describes: the live map of the segment list, and the metadata. */
  ghost function Image(dim: nat, snapshot: seq<Source>, metas: map<Id, Metadata>): Db {
    Db(dim, LiveMap(snapshot), metas)
  }

  /** `ref` records segment `x` as it is on disk. */
  ghost predicate Recorded(fmt: Formats, d: Disk, ref: SegmentRef, x: Source, generation: nat) {
    && ref.tombs == x.tombs
    && OnDisk(fmt, d, ref.stored, x.data) && ref.stored.name.gen <= generation
  }

  ghost predicate OnDisk(fmt: Formats, d: Disk, f: StoredFile, data: map<Id, Floats>) {
    && f.name.SegmentFile? && f.name in d.files
    && fmt.loadSegment(d.files[f.name]) == Some(data) && f.crc == fmt.crc(d.files[f.name])
  }

  ghost predicate AllRecorded(fmt: Formats, d: Disk, refs: seq<SegmentRef>, snapshot: seq<Source>, generation: nat) {
    |refs| == |snapshot| && forall i :: 0 <= i < |refs| ==> Recorded(fmt, d, refs[i], snapshot[i], generation)
  }

  /** Nothing the manifest of `d` names is overwritten or removed on the way to `e`; its log only grows. */
  ghost predicate Spares(d: Disk, e: Disk) {
    forall f :: f in Kept(d) && f in d.files ==>
      f in e.files && (if f.LogFile? then d.files[f] <= e.files[f] else e.files[f] == d.files[f])
  }

  /** No step of `h` harms a file the manifest on disk refers to at that moment. */
  ghost predicate Harmless(h: seq<Disk>) { forall i :: 0 <= i < |h| - 1 ==> Spares(h[i], h[i + 1]) }

  /** From `start` on, recovery sees the directory `d`. */
  ghost predicate StillReads(fmt: Formats, h: seq<Disk>, start: nat, d: Disk) {
    forall i :: start <= i < |h| ==> Intact(fmt, h[i]) && SameReads(d, h[i])
  }

  /** From `start` on, recovery gives exactly `db` with an empty log. */
  ghost predicate Shows(fmt: Formats, dim: nat, h: seq<Disk>, start: nat, db: Db) {
    forall i :: start <= i < |h| ==>
      Intact(fmt, h[i]) && LogBytes(h[i]) == [] && Recover(fmt, dim, h[i]) == Some(db)
  }

  /** The two lists agree in contents and tombstones; the numbers may differ. */
  ghost predicate SameRecords(a: seq<Source>, b: seq<Source>) {
    |a| == |b| && forall i :: 0 <= i < |a| ==> a[i].data == b[i].data && a[i].tombs == b[i].tombs
  }

  /** The manifest of `d` opens to the segments of `snapshot`. */
  ghost predicate LoadsAs(fmt: Formats, d: Disk, snapshot: seq<Source>) {
    Loaded(fmt, d).Some? && SameRecords(Loaded(fmt, d).value, snapshot)
  }

  /** So does every directory from `start` on. */
  ghost predicate AllLoadAs(fmt: Formats, h: seq<Disk>, start: nat, snapshot: seq<Source>) {
    forall i :: start <= i < |h| ==> LoadsAs(fmt, h[i], snapshot)
  }

  lemma CleanAgain(fmt: Formats, d: Disk, snapshot: seq<Source>)
    requires LoadsAs(fmt, d, snapshot) && Clean(snapshot)
    ensures OpensClean(fmt, d)
  {
    SameContents(snapshot, Loaded(fmt, d).value);
  }

  lemma StillLoads(fmt: Formats, h: seq<Disk>, start: nat, d: Disk, snapshot: seq<Source>)
    requires StillReads(fmt, h, start, d) && Intact(fmt, d) && LoadsAs(fmt, d, snapshot)
    ensures AllLoadAs(fmt, h, start, snapshot)
  {
    forall i | start <= i < |h| ensures LoadsAs(fmt, h[i], snapshot) { SameBase(fmt, 0, d, h[i]); }
  }

  /** The committed directory opens to exactly the image. */
  lemma {:induction false} LoadedSegments(fmt: Formats, d: Disk, refs: seq<SegmentRef>, snapshot: seq<Source>, gen: nat)
    requires LosslessFormats(fmt) && AllRecorded(fmt, d, refs, snapshot, gen)
    ensures var r := LoadSegments(fmt, d, refs);
      && r.Some?
      && forall i :: 0 <= i < |refs| ==> r.value[i].data == snapshot[i].data && r.value[i].tombs == snapshot[i].tombs
  {
    if |refs| > 0 {
      var n := |refs| - 1;
      LoadedSegments(fmt, d, refs[..n], snapshot[..n], gen);
      assert Recorded(fmt, d, refs[n], snapshot[n], gen);
    }
  }

  lemma CommittedRecovers(fmt: Formats, dim: nat, d: Disk, snapshot: seq<Source>, metas: map<Id, Metadata>)
    requires LosslessFormats(fmt) && d.manifest.Some? && LogBytes(d) == []
    requires var m := d.manifest.value;
      AllRecorded(fmt, d, m.segments, snapshot, m.generation) && LoadMetas(fmt, d, m) == Some(metas)
    ensures Recover(fmt, dim, d) == Some(Image(d.manifest.value.dim, snapshot, metas)) && LoadsAs(fmt, d, snapshot)
  {
    var m := d.manifest.value;
    LoadedSegments(fmt, d, m.segments, snapshot, m.generation);
    SameContents(LoadSegments(fmt, d, m.segments).value, snapshot);
  }

  lemma RecordedElsewhere(fmt: Formats, d: Disk, e: Disk, refs: seq<SegmentRef>, snapshot: seq<Source>, gen: nat)
    requires AllRecorded(fmt, d, refs, snapshot, gen)
    requires forall f :: f in SegmentNames(refs) ==> f in d.files && f in e.files && d.files[f] == e.files[f]
    ensures AllRecorded(fmt, e, refs, snapshot, gen)
  {
    forall i | 0 <= i < |refs| ensures Recorded(fmt, e, refs[i], snapshot[i], gen) {
      assert refs[i].stored.name in SegmentNames(refs);
      assert Recorded(fmt, d, refs[i], snapshot[i], gen);
    }
  }

  /** A segment file written before the `i`-th one of generation `gen`. */
  predicate Older(f: FileName, gen: nat, i: nat) {
    f.SegmentFile? && (f.gen < gen || (f.gen == gen && f.idx < i))
  }

  ghost predicate OlderRefs(refs: seq<SegmentRef>, gen: nat, i: nat) {
    forall j :: 0 <= j < |refs| ==> Older(refs[j].stored.name, gen, i)
  }

  function Uids(snapshot: seq<Source>): set<nat> { set k | 0 <= k < |snapshot| :: snapshot[k].uid }

  lemma MoreRecorded(fmt: Formats, d: Disk, refs: seq<SegmentRef>, snapshot: seq<Source>, i: nat,
                     ref: SegmentRef, gen: nat)
    requires i < |snapshot| && AllRecorded(fmt, d, refs, snapshot[..i], gen)
    requires Recorded(fmt, d, ref, snapshot[i], gen)
    ensures AllRecorded(fmt, d, refs + [ref], snapshot[..i + 1], gen)
    ensures Uids(snapshot[..i + 1]) == Uids(snapshot[..i]) + {snapshot[i].uid}
    ensures OlderRefs(refs, gen, i) && Older(ref.stored.name, gen, i + 1) ==> OlderRefs(refs + [ref], gen, i + 1)
  {
    var s := snapshot[..i + 1];
    assert s == snapshot[..i] + [snapshot[i]];
    assert s[i].uid == snapshot[i].uid;
    forall k | 0 <= k < i ensures s[k].uid in Uids(s) {}
    assert forall k :: 0 <= k < i ==> s[k] == snapshot[..i][k];
  }

  /** The metadata snapshot as the manifest will name it; an empty store has none. */
  ghost predicate SnapshotOnDisk(fmt: Formats, d: Disk, file: Option<StoredFile>, metas: map<Id, Metadata>, gen: nat) {
    match file
    case None => metas == map[]
    case Some(f) =>
      f.name == MetaFile(gen) && f.name in d.files && d.files[f.name] == fmt.metadata(metas)
      && f.crc == fmt.crc(d.files[f.name])
  }

  /** Everything is in place for a manifest of generation `gen`. */
  ghost predicate Staged(fmt: Formats, d: Disk, m: Manifest, snapshot: seq<Source>, metas: map<Id, Metadata>) {
    && m.generation > Generation(d)
    && AllRecorded(fmt, d, m.segments, snapshot, m.generation)
    && SnapshotOnDisk(fmt, d, m.metadata, metas, m.generation)
    && (m.wal.Some? ==> m.wal.value == LogFile(m.generation))
    && Content(d, LogFile(m.generation)) == []
  }

  /** The directory with the new manifest next to the old one. */
  function WithTemp(d: Disk, bytes: Bytes): Disk { d.(files := d.files[ManifestTemp := bytes]) }

  lemma StagedElsewhere(fmt: Formats, d: Disk, bytes: Bytes, m: Manifest, snapshot: seq<Source>, metas: map<Id,
                        Metadata>)
    requires Staged(fmt, d, m, snapshot, metas)
    ensures Staged(fmt, WithTemp(d, bytes), m, snapshot, metas)
  {
    var e := WithTemp(d, bytes);
    forall i | 0 <= i < |m.segments| ensures Recorded(fmt, e, m.segments[i], snapshot[i], m.generation) {
      assert Recorded(fmt, d, m.segments[i], snapshot[i], m.generation);
    }
  }

  /** The directory once the manifest has been renamed into place. */
  function Swapped(d: Disk, m: Manifest): Disk { Disk(Some(m), d.files - {ManifestTemp}) }

  /** The rename is the commit point: before it recovery saw the old state, right after it sees the image. */
  lemma SwapCommits(fmt: Formats, dim: nat, d: Disk, m: Manifest, snapshot: seq<Source>, metas: map<Id, Metadata>)
    requires LosslessFormats(fmt) && Intact(fmt, d) && Staged(fmt, d, m, snapshot, metas)
    ensures var e := Swapped(d, m);
      && Intact(fmt, e) && Spares(d, e) && LogBytes(e) == []
      && Recover(fmt, dim, e) == Some(Image(m.dim, snapshot, metas)) && LoadsAs(fmt, e, snapshot)
  {
    var e := Swapped(d, m);
    KeptNames(fmt, d);
    forall i | 0 <= i < |m.segments| ensures Recorded(fmt, e, m.segments[i], snapshot[i], m.generation) {
      assert Recorded(fmt, d, m.segments[i], snapshot[i], m.generation);
    }
    CommittedRecovers(fmt, dim, e, snapshot, metas);
  }

  lemma ShowsImage(fmt: Formats, dim: nat, h: seq<Disk>, start: nat, d: Disk, db: Db)
    requires StillReads(fmt, h, start, d) && Intact(fmt, d) && LogBytes(d) == [] && Recover(fmt, dim, d) == Some(db)
    ensures Shows(fmt, dim, h, start, db)
  {
    forall i | start <= i < |h| ensures Recover(fmt, dim, h[i]) == Some(db) {
      SameRecovery(fmt, dim, d, h[i], 0);
    }
  }

  /** Cutting off a torn tail, as opening with a log does, changes nothing for recovery. */
  lemma TruncatedRecovers(fmt: Formats, dim: nat, d: Disk)
    requires Intact(fmt, d)
    ensures var e := Trimmed(fmt, d);
      Intact(fmt, e) && Recover(fmt, dim, e) == Recover(fmt, dim, d) && Base(fmt, dim, e) == Base(fmt, dim, d)
      && Loaded(fmt, e) == Loaded(fmt, d) && Wal.Replay(fmt.log, LogBytes(e)).stopped.None?
  {
    var e := Trimmed(fmt, d);
    assert LogName(e) == LogName(d);
    Wal.TruncationIsStable(fmt.log, LogBytes(d));
    OnlyLogDiffers(fmt, dim, d, e);
  }

  /** The directory after its log was replayed and opened for append. */
  function Trimmed(fmt: Formats, d: Disk): Disk {
    d.(files := d.files[LogName(d) := Wal.Truncated(fmt.log, LogBytes(d))])
  }

  /** Appending to the current log. */
  function WithLog(d: Disk, bytes: Bytes): Disk {
    d.(files := d.files[LogName(d) := LogBytes(d) + bytes])
  }

  lemma WithLogIntact(fmt: Formats, dim: nat, d: Disk, bytes: Bytes)
    requires Intact(fmt, d)
    ensures var e := WithLog(d, bytes);
      Intact(fmt, e) && Spares(d, e) && Base(fmt, dim, e) == Base(fmt, dim, d) && Loaded(fmt, e) == Loaded(fmt, d)
      && LogBytes(e) == LogBytes(d) + bytes
  {
    var e := WithLog(d, bytes);
    KeptNames(fmt, d);
    assert LogName(e) == LogName(d);
    OnlyLogDiffers(fmt, dim, d, e);
  }

  /** Directories that differ in the current log alone have the same manifest database. */
  lemma OnlyLogDiffers(fmt: Formats, dim: nat, d: Disk, e: Disk)
    requires Intact(fmt, d) && e.manifest == d.manifest
    requires forall f :: f != LogName(d) ==> (f in d.files <==> f in e.files) && Content(d, f) == Content(e, f)
    ensures Intact(fmt, e) && Base(fmt, dim, e) == Base(fmt, dim, d) && Loaded(fmt, e) == Loaded(fmt, d)
  {
    KeptNames(fmt, d);
    assert LogName(d).LogFile? ==> LogName(d).gen <= Generation(d);
    assert forall f :: f in d.files && f != LogName(d) ==> f in e.files && e.files[f] == d.files[f];
    if d.manifest.Some? { SameSegments(fmt, d, e, d.manifest.value.segments); }
  }

  /** Every marked segment is on disk as the mark says. */
  ghost predicate Marks(fmt: Formats, d: Disk, stored: map<nat, StoredFile>, contents: map<nat, map<Id, Floats>>,
                        gen: nat) {
    forall u :: u in stored ==>
      u in contents && OnDisk(fmt, d, stored[u], contents[u]) && stored[u].name.gen <= gen
  }

  lemma NewMark(fmt: Formats, d: Disk, stored: map<nat, StoredFile>, contents: map<nat, map<Id, Floats>>, gen: nat,
                i: nat,
                uid: nat, f: StoredFile, data: map<Id, Floats>)
    requires Marks(fmt, d, stored, contents, gen) && OnDisk(fmt, d, f, data) && f.name == SegmentFile(gen, i)
    requires forall u :: u in stored ==> Older(stored[u].name, gen, i)
    ensures var more := stored[uid := f];
      Marks(fmt, d, more, contents[uid := data], gen) && forall u :: u in more ==> Older(more[u].name, gen, i + 1)
  {
  }

  /** Marks of the previous generation, some of them dropped. */
  lemma FewerMarks(fmt: Formats, d: Disk, before: map<nat, StoredFile>, after: map<nat, StoredFile>,
                   contents: map<nat, map<Id, Floats>>, gen: nat)
    requires gen > 0 && Marks(fmt, d, before, contents, gen - 1)
    requires forall u :: u in after ==> u in before && after[u] == before[u]
    ensures Marks(fmt, d, after, contents, gen) && forall u :: u in after ==> Older(after[u].name, gen, 0)
  {
    forall u | u in after ensures OnDisk(fmt, d, after[u], contents[u]) {
      assert OnDisk(fmt, d, before[u], contents[u]);
    }
  }

  lemma MarksElsewhere(fmt: Formats, d: Disk, e: Disk, stored: map<nat, StoredFile>,
                       contents: map<nat, map<Id, Floats>>, gen: nat)
    requires Marks(fmt, d, stored, contents, gen)
    requires forall u :: u in stored ==> stored[u].name in d.files ==>
      stored[u].name in e.files && e.files[stored[u].name] == d.files[stored[u].name]
    ensures Marks(fmt, e, stored, contents, gen)
  {
    forall u | u in stored ensures OnDisk(fmt, e, stored[u], contents[u]) {
      assert OnDisk(fmt, d, stored[u], contents[u]);
    }
  }

  lemma LoadedMarks(fmt: Formats, d: Disk, segments: seq<Source>, stored: map<nat, StoredFile>,
                    contents: map<nat, map<Id, Floats>>)
    requires Intact(fmt, d) && d.manifest.Some? && |d.manifest.value.segments| == |segments|
    requires forall i :: 0 <= i < |segments| ==>
      && segments[i].uid == i
      && fmt.loadSegment(Content(d, d.manifest.value.segments[i].stored.name)) == Some(segments[i].data)
    requires stored == map i | 0 <= i < |segments| :: d.manifest.value.segments[i].stored
    requires contents == map i | 0 <= i < |segments| :: segments[i].data
    ensures Marks(fmt, d, stored, contents, Generation(d)) && stored.Keys == Uids(segments)
    ensures forall u :: u in stored ==> stored[u].name in Kept(d)
  {
    KeptNames(fmt, d);
    forall u | u in stored ensures OnDisk(fmt, d, stored[u], contents[u]) && u in Uids(segments) {
      assert Readable(fmt, d, d.manifest.value.segments[u].stored, true);
      assert segments[u].uid == u;
    }
    forall u | u in Uids(segments) ensures u in stored {
      var k :| 0 <= k < |segments| && segments[k].uid == u;
    }
  }

  /** An append changes the log only, which carries no mark. */
  lemma MarksPastAppend(fmt: Formats, d: Disk, bytes: Bytes, stored: map<nat, StoredFile>,
                        contents: map<nat, map<Id, Floats>>, gen: nat)
    requires Intact(fmt, d) && Marks(fmt, d, stored, contents, gen)
    requires forall u :: u in stored ==> stored[u].name in Kept(d)
    ensures Marks(fmt, WithLog(d, bytes), stored, contents, gen)
    ensures Kept(WithLog(d, bytes)) == Kept(d) && Generation(WithLog(d, bytes)) == Generation(d)
  {
    KeptNames(fmt, d);
    MarksElsewhere(fmt, d, WithLog(d, bytes), stored, contents, gen);
  }

  /**
   * Garbage collection over the names `all`, with `rest` still to come: gone are those of the program's files
   * that nothing keeps and whose removal does not fail.
   */
  ghost predicate Sweeping(all: set<FileName>, left: set<FileName>, rest: set<FileName>, keep: set<FileName>,
                           failing: set<FileName>, removed: nat) {
    && rest <= left <= all && removed == |all - left|
    && forall f :: f in all ==> (f in left <==> f in rest || !Ours(f) || f in keep || f in failing)
  }

  lemma NothingSwept(all: set<FileName>, keep: set<FileName>, failing: set<FileName>)
    ensures Sweeping(all, all, all, keep, failing, 0)
  {
    assert all - all == {};
  }

  lemma SweepStep(all: set<FileName>, left: set<FileName>, rest: set<FileName>, keep: set<FileName>,
                  failing: set<FileName>, removed: nat, f: FileName)
    requires Sweeping(all, left, rest, keep, failing, removed) && f in rest
    ensures !Ours(f) || f in keep || f in failing ==> Sweeping(all, left, rest - {f}, keep, failing, removed)
    ensures Ours(f) && f !in keep && f !in failing ==>
      Sweeping(all, left - {f}, rest - {f}, keep, failing, removed + 1)
  {
    assert all - (left - {f}) == (all - left) + {f};
  }

  class DataDirectory {
    const fmt: Formats
    const dim: nat
    const hot: bool               // a log is attached
    var disk: Disk
    var generation: nat
    var stored: map<nat, StoredFile>  // per live segment (by uid): its file, once written
    ghost var contents: map<nat, map<Id, Floats>>  // what those segments hold
    ghost var history: seq<Disk>  // every state the directory went through

    ghost predicate Recording()
      reads this
    {
      && LosslessFormats(fmt) && Intact(fmt, disk)
      && history != [] && history[|history| - 1] == disk && Harmless(history)
      && (disk.manifest.Some? ==> disk.manifest.value.dim == dim)
      && Marks(fmt, disk, stored, contents, generation)
    }

    /** Between checkpoints: every marked segment is named by the manifest. */
    ghost predicate Valid()
      reads this
    {
      && Recording() && generation == Generation(disk)
      && forall u :: u in stored ==> stored[u].name in Kept(disk)
    }

    lemma LastIsNow()
      requires Valid()
      ensures history != [] && history[|history| - 1] == disk && Intact(fmt, disk) && LosslessFormats(fmt)
    {
    }

    /** Takes over a directory whose manifest has been loaded: `segments` carry the marks of their files. */
    constructor (fmt: Formats, dim: nat, hot: bool, d: Disk, refs: seq<SegmentRef>, ghost segments: seq<Source>)
      requires LosslessFormats(fmt) && Intact(fmt, d) && |refs| == |segments|
      requires if d.manifest.Some? then refs == d.manifest.value.segments && dim == d.manifest.value.dim else refs == []
      requires forall i :: 0 <= i < |refs| ==>
        segments[i].uid == i && fmt.loadSegment(Content(d, refs[i].stored.name)) == Some(segments[i].data)
      ensures Valid() && disk == d && this.fmt == fmt && this.dim == dim && this.hot == hot
      ensures AllMarksFit(segments) && stored.Keys == Uids(segments)
    {
      this.fmt, this.dim, this.hot, this.disk := fmt, dim, hot, d;
      this.generation := Generation(d);
      this.stored := map i | 0 <= i < |refs| :: refs[i].stored;
      this.contents := map i | 0 <= i < |segments| :: segments[i].data;
      this.history := [d];
      new;
      if d.manifest.Some? { LoadedMarks(fmt, d, segments, stored, contents); }
    }

    /** An append to the log, as the writer does between checkpoints. */
    method AppendLog(bytes: Bytes, ghost stock: Stock)
      requires Valid() && MarksMatch(this, stock)
      modifies this`disk, this`history
      ensures MarksMatch(this, stock)
      ensures Valid() && history == old(history) + [disk] && disk == WithLog(old(disk), bytes)
      ensures LogBytes(disk) == old(LogBytes(disk)) + bytes && Base(fmt, dim, disk) == old(Base(fmt, dim, disk))
      ensures Loaded(fmt, disk) == old(Loaded(fmt, disk))
    {
      WithLogIntact(fmt, dim, disk, bytes);
      MarksPastAppend(fmt, disk, bytes, stored, contents, generation);
      Become(WithLog(disk, bytes));
    }

    /** One atomic change of the directory. */
    method Become(e: Disk)
      requires history != [] && history[|history| - 1] == disk && Harmless(history) && Spares(disk, e)
      modifies this`disk, this`history
      ensures disk == e && history == old(history) + [e] && Harmless(history)
    {
      disk := e;
      history := history + [e];
    }

    /** Creates or overwrites a file that no manifest names. */
    method Put(f: FileName, bytes: Bytes, ghost start: nat, ghost d0: Disk)
      requires Trail(start, d0) && f !in Kept(disk)
      requires f.LogFile? ==> bytes == [] && Content(disk, f) == []
      modifies this`disk, this`history
      ensures Trail(start, d0) && disk == old(disk).(files := old(disk).files[f := bytes])
      ensures old(history) <= history
    {
      WriteUnread(fmt, disk, f, bytes);
      SameReadsTrans(d0, disk, disk.(files := disk.files[f := bytes]));
      Become(disk.(files := disk.files[f := bytes]));
    }

    /** The directory part of the invariant, with every state since `start` still reading as `d0`. */
    ghost predicate Trail(start: nat, d0: Disk)
      reads this
    {
      && Intact(fmt, disk) && Harmless(history)
      && start < |history| && history[|history| - 1] == disk
      && StillReads(fmt, history, start, d0)
    }

    /** `write_file_durable`: a temporary file, written in pieces, then renamed over the target. */
    method WriteDurable(f: FileName, bytes: Bytes, ghost start: nat, ghost d0: Disk)
      requires Trail(start, d0) && f !in Kept(disk) && !f.LogFile? && !f.Temp?
      modifies this`disk, this`history
      ensures Trail(start, d0) && old(history) <= history
      ensures f in disk.files && disk.files[f] == bytes
      ensures forall g :: g != f && g != Temp(f) ==>
        (g in disk.files <==> g in old(disk).files) && Content(disk, g) == old(Content(disk, g))
    {
      KeptNames(fmt, disk);
      var part :| 0 <= part <= |bytes|;
      Put(Temp(f), bytes[..part], start, d0);
      Put(Temp(f), bytes, start, d0);
      Rename(Temp(f), f, start, d0);
    }

    /** Atomic rename onto a name no manifest mentions. */
    method Rename(from: FileName, to: FileName, ghost start: nat, ghost d0: Disk)
      requires Trail(start, d0) && from in disk.files && from != to
      requires from.Temp? && to !in Kept(disk) && !to.LogFile?
      modifies this`disk, this`history
      ensures Trail(start, d0) && old(history) <= history
      ensures disk == old(disk).(files := old(disk).files[to := old(disk).files[from]] - {from})
    {
      var d, bytes := disk, disk.files[from];
      var e := d.(files := d.files[to := bytes]);
      KeptNames(fmt, d);
      WriteUnread(fmt, d, to, bytes);
      RemoveUnread(fmt, e, from);
      var e' := e.(files := e.files - {from});
      SameReadsTrans(d0, d, e);
      SameReadsTrans(d0, e, e');
      Become(e');
    }

    /** What a mark on segment `x` promises. */
    ghost predicate MarkFits(x: Source)
      reads this`stored, this`contents
    {
      x.uid in stored ==> x.uid in contents && contents[x.uid] == x.data
    }

    ghost predicate MarksOlder(i: nat)
      reads this
    {
      Marks(fmt, disk, stored, contents, generation) && forall u :: u in stored ==> Older(stored[u].name, generation, i)
    }

    /** The first `i` segments of the snapshot carry the marks their references say. */
    ghost predicate Covers(snapshot: seq<Source>, refs: seq<SegmentRef>, i: nat)
      requires i <= |snapshot| && i <= |refs|
      reads this
    {
      forall k :: 0 <= k < i ==> snapshot[k].uid in stored && stored[snapshot[k].uid] == refs[k].stored
    }

    ghost predicate AllMarksFit(snapshot: seq<Source>)
      reads this`stored, this`contents
    {
      forall k :: 0 <= k < |snapshot| ==> MarkFits(snapshot[k])
    }

    /** Segments on disk are only referenced again; the others get a file of this generation. */
    method WriteSegments(snapshot: seq<Source>, ghost start: nat, ghost d0: Disk) returns (refs: seq<SegmentRef>)
      requires LosslessFormats(fmt) && Trail(start, d0) && generation > Generation(disk) && MarksOlder(0)
      requires Distinct(snapshot) && AllMarksFit(snapshot)
      modifies this`disk, this`history, this`stored, this`contents
      ensures Trail(start, d0) && old(history) <= history && disk.manifest == old(disk).manifest
      ensures AllRecorded(fmt, disk, refs, snapshot, generation)
      ensures Marks(fmt, disk, stored, contents, generation)
      ensures Covers(snapshot, refs, |snapshot|) && AllMarksFit(snapshot)
      ensures stored.Keys == old(stored).Keys + Uids(snapshot)
    {
      refs := [];
      for i := 0 to |snapshot|
        invariant Trail(start, d0) && old(history) <= history && disk.manifest == old(disk).manifest
        invariant Halfway(snapshot, refs, i)
        invariant stored.Keys == old(stored).Keys + Uids(snapshot[..i])
      {
        refs := RecordSegment(snapshot, refs, i, start, d0);
      }
      assert snapshot[..|snapshot|] == snapshot;
    }

    /** The first `i` segments have their references, and every mark is accounted for. */
    ghost predicate Halfway(snapshot: seq<Source>, refs: seq<SegmentRef>, i: nat)
      requires i <= |snapshot|
      reads this
    {
      && AllRecorded(fmt, disk, refs, snapshot[..i], generation) && OlderRefs(refs, generation, i)
      && MarksOlder(i) && AllMarksFit(snapshot) && Covers(snapshot, refs, i)
    }

    method RecordSegment(snapshot: seq<Source>, refs: seq<SegmentRef>, i: nat, ghost start: nat, ghost d0: Disk)
      returns (more: seq<SegmentRef>)
      requires LosslessFormats(fmt) && Trail(start, d0) && generation > Generation(disk)
      requires Distinct(snapshot) && i < |snapshot|
      requires Halfway(snapshot, refs, i)
      modifies this`disk, this`history, this`stored, this`contents
      ensures Trail(start, d0) && old(history) <= history && disk.manifest == old(disk).manifest
      ensures Halfway(snapshot, more, i + 1)
      ensures stored.Keys == old(stored).Keys + {snapshot[i].uid}
      ensures Uids(snapshot[..i + 1]) == Uids(snapshot[..i]) + {snapshot[i].uid}
    {
      EnsureStored(snapshot, i, refs, start, d0);
      var ref := SegmentRef(stored[snapshot[i].uid], snapshot[i].tombs);
      MoreRecorded(fmt, disk, refs, snapshot, i, ref, generation);
      more := refs + [ref];
    }

    /** Only a segment without a file of its own gets one. */
    method EnsureStored(snapshot: seq<Source>, i: nat, ghost refs: seq<SegmentRef>, ghost start: nat, ghost d0: Disk)
      requires LosslessFormats(fmt) && Trail(start, d0) && generation > Generation(disk)
      requires Distinct(snapshot) && i < |snapshot|
      requires Halfway(snapshot, refs, i)
      modifies this`disk, this`history, this`stored, this`contents
      ensures Trail(start, d0) && old(history) <= history && disk.manifest == old(disk).manifest
      ensures AllRecorded(fmt, disk, refs, snapshot[..i], generation) && OlderRefs(refs, generation, i)
      ensures MarksOlder(i + 1) && AllMarksFit(snapshot) && Covers(snapshot, refs, i)
      ensures snapshot[i].uid in stored && stored.Keys == old(stored).Keys + {snapshot[i].uid}
    {
      if snapshot[i].uid !in stored {
        StoreNew(snapshot, i, refs, start, d0);
      }
    }

    method StoreNew(snapshot: seq<Source>, i: nat, ghost refs: seq<SegmentRef>, ghost start: nat, ghost d0: Disk)
      requires LosslessFormats(fmt) && Trail(start, d0) && generation > Generation(disk)
      requires Distinct(snapshot) && i < |snapshot| && snapshot[i].uid !in stored
      requires Halfway(snapshot, refs, i)
      modifies this`disk, this`history, this`stored, this`contents
      ensures Trail(start, d0) && old(history) <= history && disk.manifest == old(disk).manifest
      ensures AllRecorded(fmt, disk, refs, snapshot[..i], generation)
      ensures MarksOlder(i + 1) && AllMarksFit(snapshot) && Covers(snapshot, refs, i)
      ensures snapshot[i].uid in stored && stored.Keys == old(stored).Keys + {snapshot[i].uid}
    {
      var x := snapshot[i];
      assert forall k :: 0 <= k < |snapshot| && k != i ==> snapshot[k].uid != x.uid;
      ghost var before, held := stored, contents;
      WriteSegment(x, i, refs, snapshot[..i], start, d0);
      StillMarked(snapshot, i, before, held);
    }

    /** A mark of its own for segment `i` leaves the others'. */
    lemma StillMarked(snapshot: seq<Source>, i: nat, before: map<nat, StoredFile>, held: map<nat, map<Id, Floats>>)
      requires Distinct(snapshot) && i < |snapshot| && snapshot[i].uid in stored
      requires stored == before[snapshot[i].uid := stored[snapshot[i].uid]]
      requires contents == held[snapshot[i].uid := snapshot[i].data]
      requires forall k :: 0 <= k < |snapshot| && snapshot[k].uid in before ==>
        snapshot[k].uid in held && held[snapshot[k].uid] == snapshot[k].data
      ensures AllMarksFit(snapshot)
    {
      forall k | 0 <= k < |snapshot| ensures MarkFits(snapshot[k]) {
        if k != i { assert snapshot[k].uid != snapshot[i].uid; }
      }
    }

    method WriteSegment(x: Source, i: nat, ghost refs: seq<SegmentRef>, ghost done: seq<Source>,
                        ghost start: nat, ghost d0: Disk)
      requires LosslessFormats(fmt) && Trail(start, d0) && generation > Generation(disk) && MarksOlder(i)
      requires AllRecorded(fmt, disk, refs, done, generation) && OlderRefs(refs, generation, i)
      modifies this`disk, this`history, this`stored, this`contents
      ensures Trail(start, d0) && old(history) <= history && disk.manifest == old(disk).manifest
      ensures AllRecorded(fmt, disk, refs, done, generation) && MarksOlder(i + 1)
      ensures x.uid in stored && stored == old(stored)[x.uid := stored[x.uid]]
      ensures contents == old(contents)[x.uid := x.data]
    {
      var name, bytes := SegmentFile(generation, i), fmt.segment(x.data);
      KeptNames(fmt, disk);
      ghost var before := disk;
      WriteDurable(name, bytes, start, d0);
      assert forall f :: f in SegmentNames(refs) ==> Older(f, generation, i);
      assert forall f :: Older(f, generation, i) ==> f != name && f != Temp(name);
      RecordedElsewhere(fmt, before, disk, refs, done, generation);
      MarksElsewhere(fmt, before, disk, stored, contents, generation);
      NewMark(fmt, disk, stored, contents, generation, i, x.uid, StoredFile(name, fmt.crc(bytes)), x.data);
      stored := stored[x.uid := StoredFile(name, fmt.crc(bytes))];
      contents := contents[x.uid := x.data];
    }

    method WriteMetadata(metas: map<Id, Metadata>, ghost refs: seq<SegmentRef>, ghost snapshot: seq<Source>,
                         ghost start: nat, ghost d0: Disk) returns (file: Option<StoredFile>)
      requires Trail(start, d0) && generation > Generation(disk)
      requires AllRecorded(fmt, disk, refs, snapshot, generation) && Marks(fmt, disk, stored, contents, generation)
      modifies this`disk, this`history
      ensures Trail(start, d0) && old(history) <= history && disk.manifest == old(disk).manifest
      ensures AllRecorded(fmt, disk, refs, snapshot, generation) && Marks(fmt, disk, stored, contents, generation)
      ensures SnapshotOnDisk(fmt, disk, file, metas, generation)
    {
      if metas == map[] { return None; }
      var name, bytes := MetaFile(generation), fmt.metadata(metas);
      KeptNames(fmt, disk);
      ghost var before := disk;
      WriteDurable(name, bytes, start, d0);
      RecordedElsewhere(fmt, before, disk, refs, snapshot, generation);
      file := Some(StoredFile(name, fmt.crc(bytes)));
    }

    /** Log rotation: the next generation's log is opened, and created when it is not there. */
    method RotateLog(ghost refs: seq<SegmentRef>, ghost snapshot: seq<Source>,
                     ghost file: Option<StoredFile>, ghost metas: map<Id, Metadata>,
                     ghost start: nat, ghost d0: Disk) returns (wal: Option<FileName>)
      requires Trail(start, d0) && generation > Generation(disk)
      requires AllRecorded(fmt, disk, refs, snapshot, generation) && Marks(fmt, disk, stored, contents, generation)
      requires SnapshotOnDisk(fmt, disk, file, metas, generation)
      modifies this`disk, this`history
      ensures Trail(start, d0) && old(history) <= history && disk.manifest == old(disk).manifest
      ensures AllRecorded(fmt, disk, refs, snapshot, generation) && Marks(fmt, disk, stored, contents, generation)
      ensures SnapshotOnDisk(fmt, disk, file, metas, generation)
      ensures wal == (if hot then Some(LogFile(generation)) else None)
      ensures Content(disk, LogFile(generation)) == [] && (hot ==> LogFile(generation) in disk.files)
    {
      if !hot { return None; }
      var name := LogFile(generation);
      KeptNames(fmt, disk);
      ghost var before := disk;
      if name !in disk.files {
        Put(name, [], start, d0);
        RecordedElsewhere(fmt, before, disk, refs, snapshot, generation);
      }
      wal := Some(name);
    }

    /** The manifest is written next to the old one. */
    method WriteManifest(m: Manifest, ghost snapshot: seq<Source>, ghost metas: map<Id, Metadata>, ghost start: nat,
                         ghost d0: Disk)
      requires Trail(start, d0) && Staged(fmt, disk, m, snapshot, metas)
      requires MarksNamed(m)
      modifies this`disk, this`history
      ensures Trail(start, d0) && Staged(fmt, disk, m, snapshot, metas) && old(history) <= history
      ensures MarksNamed(m)
    {
      StagedElsewhere(fmt, disk, fmt.manifest(m), m, snapshot, metas);
      MarksElsewhere(fmt, disk, WithTemp(disk, fmt.manifest(m)), stored, contents, generation);
      WriteTemp(fmt.manifest(m), start, d0);
    }

    method WriteTemp(bytes: Bytes, ghost start: nat, ghost d0: Disk)
      requires Trail(start, d0)
      modifies this`disk, this`history
      ensures Trail(start, d0) && old(history) <= history && disk == WithTemp(old(disk), bytes)
    {
      var part :| 0 <= part <= |bytes|;
      KeptNames(fmt, disk);
      Put(ManifestTemp, bytes[..part], start, d0);
      Put(ManifestTemp, bytes, start, d0);
    }

    /** ... and renamed over it. */
    method Commit(m: Manifest, ghost snapshot: seq<Source>, ghost metas: map<Id, Metadata>)
      requires history != [] && history[|history| - 1] == disk && Harmless(history)
      requires Intact(fmt, disk) && Staged(fmt, disk, m, snapshot, metas) && LosslessFormats(fmt)
      requires MarksNamed(m)
      modifies this`disk, this`history
      ensures history == old(history) + [disk] && disk.manifest == Some(m)
      ensures Intact(fmt, disk) && Harmless(history)
      ensures LogBytes(disk) == [] && Recover(fmt, dim, disk) == Some(Image(m.dim, snapshot, metas))
      ensures MarksNamed(m) && LoadsAs(fmt, disk, snapshot)
    {
      SwapCommits(fmt, dim, disk, m, snapshot, metas);
      MarksElsewhere(fmt, disk, Swapped(disk, m), stored, contents, generation);
      Become(Swapped(disk, m));
    }

    method Remove(f: FileName, ghost start: nat, ghost d0: Disk)
      requires Trail(start, d0) && f !in Kept(disk) && LogBytes(disk) == []
      modifies this`disk, this`history
      ensures Trail(start, d0) && old(history) <= history && disk == old(disk).(files := old(disk).files - {f})
      ensures LogBytes(disk) == []
    {
      RemoveUnread(fmt, disk, f);
      var e := disk.(files := disk.files - {f});
      SameReadsTrans(d0, disk, e);
      Become(e);
    }

    /**
     * Garbage collection: unreferenced files go one by one, in directory order. The removal of those in
     * `failing` fails, which is not fatal: they alone are left for the next time.
     */
    method Collect(m: Manifest, failing: set<FileName>, ghost start: nat, ghost d0: Disk) returns (removed: nat)
      requires Trail(start, d0) && disk.manifest == Some(m) && LogBytes(disk) == []
      modifies this`disk, this`history
      ensures Trail(start, d0) && old(history) <= history && disk.manifest == Some(m)
      ensures forall f :: f in Referenced(m) || f.Foreign? ==>
        (f in disk.files <==> f in old(disk).files) && Content(disk, f) == old(Content(disk, f))
      ensures Sweeping(old(disk).files.Keys, disk.files.Keys, {}, Referenced(m), failing, removed)
    {
      hide Sweeping;
      var rest, keep := disk.files.Keys, Referenced(m);
      removed := 0;
      NothingSwept(rest, keep, failing);
      while rest != {}
        invariant Trail(start, d0) && old(history) <= history
        invariant disk.manifest == Some(m) && LogBytes(disk) == []
        invariant Sweeping(old(disk).files.Keys, disk.files.Keys, rest, keep, failing, removed)
        invariant forall f :: f in Referenced(m) || f.Foreign? ==>
          (f in disk.files <==> f in old(disk).files) && Content(disk, f) == old(Content(disk, f))
        decreases |rest|
      {
        var f :| f in rest;
        SweepStep(old(disk).files.Keys, disk.files.Keys, rest, keep, failing, removed, f);
        rest := rest - {f};
        if Ours(f) && f !in keep {
          if f !in failing {
            Remove(f, start, d0);
            removed := removed + 1;
          }
        }
      }
    }

    /** Everything the new manifest needs, written while the old one still rules. */
    method Stage(snapshot: seq<Source>, metas: map<Id, Metadata>, ghost start: nat, ghost d0: Disk)
      returns (m: Manifest)
      requires Trail(start, d0) && LosslessFormats(fmt) && generation > Generation(disk) && MarksOlder(0)
      requires Distinct(snapshot) && AllMarksFit(snapshot) && stored.Keys <= Uids(snapshot)
      modifies this`disk, this`history, this`stored, this`contents
      ensures Trail(start, d0) && old(history) <= history
      ensures m.generation == generation && m.dim == dim && Staged(fmt, disk, m, snapshot, metas)
      ensures MarksNamed(m) && AllMarksFit(snapshot) && stored.Keys == Uids(snapshot)
    {
      var refs := WriteSegments(snapshot, start, d0);
      var file := WriteMetadata(metas, refs, snapshot, start, d0);
      var wal := RotateLog(refs, snapshot, file, metas, start, d0);
      m := Manifest(generation, dim, refs, file, wal);
      CoveredMarks(m, snapshot);
      WriteManifest(m, snapshot, metas, start, d0);
    }

    /** Segments that left the list take their mark with them. */
    method DropMarks(snapshot: seq<Source>)
      requires Valid() && AllMarksFit(snapshot)
      modifies this`stored, this`generation
      ensures generation == old(generation) + 1
      ensures MarksOlder(0) && AllMarksFit(snapshot) && stored.Keys <= Uids(snapshot)
    {
      KeptNames(fmt, disk);
      ghost var before := stored;
      stored := map u | u in stored && u in Uids(snapshot) :: stored[u];
      generation := generation + 1;
      FewerMarks(fmt, disk, before, stored, contents, generation);
    }

    /** Every mark is good and named by manifest `m`. */
    ghost predicate MarksNamed(m: Manifest)
      reads this
    {
      Marks(fmt, disk, stored, contents, generation) && forall u :: u in stored ==> stored[u].name in Referenced(m)
    }

    lemma CoveredMarks(m: Manifest, snapshot: seq<Source>)
      requires |m.segments| == |snapshot| && Covers(snapshot, m.segments, |snapshot|) && stored.Keys == Uids(snapshot)
      requires Marks(fmt, disk, stored, contents, generation)
      ensures MarksNamed(m)
    {
      forall u | u in stored ensures stored[u].name in Referenced(m) {
        assert u in Uids(snapshot);
        var k :| 0 <= k < |snapshot| && snapshot[k].uid == u;
        assert m.segments[k].stored.name in SegmentNames(m.segments);
      }
    }

    /** From here on every directory reads like this one. */
    lemma TrailBegins()
      requires history != [] && history[|history| - 1] == disk && Intact(fmt, disk) && Harmless(history)
      ensures Trail(|history| - 1, disk)
    {
    }

    method CleanUp(m: Manifest, ghost db: Db, ghost snapshot: seq<Source>)
      requires history != [] && history[|history| - 1] == disk && disk.manifest == Some(m)
      requires Intact(fmt, disk) && Harmless(history) && LogBytes(disk) == []
      requires Recover(fmt, dim, disk) == Some(db) && LoadsAs(fmt, disk, snapshot)
      requires MarksNamed(m)
      modifies this`disk, this`history
      ensures history != [] && history[|history| - 1] == disk && disk.manifest == Some(m)
      ensures Intact(fmt, disk) && Harmless(history) && old(history) <= history
      ensures MarksNamed(m)
      ensures Shows(fmt, dim, history, |old(history)| - 1, db)
      ensures AllLoadAs(fmt, history, |old(history)| - 1, snapshot)
    {
      hide Sweeping, Intact, Harmless, Recover, LoadsAs, Shows, AllLoadAs, StillReads;
      ghost var start, d1 := |history| - 1, disk;
      TrailBegins();
      var failing: set<FileName>, removed := *, 0;
      removed := Collect(m, failing, start, d1);
      ShowsImage(fmt, dim, history, start, d1, db);
      StillLoads(fmt, history, start, d1, snapshot);
    }

    /** The commit point and the clean-up after it. */
    method Publish(m: Manifest, ghost snapshot: seq<Source>, ghost metas: map<Id, Metadata>)
      requires history != [] && history[|history| - 1] == disk && Harmless(history)
      requires Intact(fmt, disk) && Staged(fmt, disk, m, snapshot, metas) && LosslessFormats(fmt)
      requires m.dim == dim && m.generation == generation && MarksNamed(m)
      modifies this`disk, this`history
      ensures Valid() && old(history) < history
      ensures Shows(fmt, dim, history, |old(history)|, Image(dim, snapshot, metas))
      ensures AllLoadAs(fmt, history, |old(history)|, snapshot)
    {
      Commit(m, snapshot, metas);
      CleanUp(m, Image(dim, snapshot, metas), snapshot);
    }

    /**
     * The checkpoint of a settled store. A crash in any of the directories it goes through either
     * leaves everything as it was (with the old log), or shows exactly the checkpointed state and opens
     * to exactly the segments of the snapshot. `before` are the directories up to the commit point.
     */
    method Checkpoint(snapshot: seq<Source>, metas: map<Id, Metadata>) returns (ghost before: seq<Disk>)
      requires Valid() && Distinct(snapshot) && AllMarksFit(snapshot)
      modifies this
      ensures Valid() && generation == old(generation) + 1
      ensures old(history) <= before < history
      ensures StillReads(fmt, before, |old(history)| - 1, old(disk))
      ensures Shows(fmt, dim, history, |before|, Image(dim, snapshot, metas))
      ensures AllLoadAs(fmt, history, |before|, snapshot)
      ensures AllMarksFit(snapshot) && stored.Keys == Uids(snapshot)
    {
      ghost var start, d0 := |history| - 1, disk;
      DropMarks(snapshot);
      var m := Stage(snapshot, metas, start, d0);
      before := history;
      Publish(m, snapshot, metas);
    }
  }

  /**
   * Opening a directory, in whatever state a crash left it: the segments of the manifest with their
   * tombstones, the metadata, and the log records still to be replayed; the torn tail is cut off.
   */
  method OpenDirectory(fmt: Formats, dim: nat, hot: bool, d: Disk)
    returns (dir: DataDirectory, segments: seq<Source>, metas: map<Id, Metadata>, log: seq<Record>)
    requires LosslessFormats(fmt) && Intact(fmt, d)
    ensures fresh(dir) && dir.Valid() && dir.fmt == fmt && dir.hot == hot
    ensures Distinct(segments) && dir.AllMarksFit(segments) && dir.stored.Keys == Uids(segments)
    ensures Loaded(fmt, d) == Loaded(fmt, dir.disk) == Some(segments) && Below(segments, |segments|)
    ensures OpensClean(fmt, d) ==> Clean(segments)
    ensures Base(fmt, dim, d) == Some(Image(dir.dim, segments, metas))
    ensures log == if hot then Wal.Replay(fmt.log, LogBytes(d)).records else []
    ensures dir.disk == if hot then Trimmed(fmt, d) else d
    ensures hot ==> Recover(fmt, dim, dir.disk) == Recover(fmt, dim, d)
  {
    IntactLoads(fmt, dim, d);
    TruncatedRecovers(fmt, dim, d);
    var e := if hot then Trimmed(fmt, d) else d;
    log := if hot then Wal.Replay(fmt.log, LogBytes(d)).records else [];
    if d.manifest.None? {
      segments, metas := [], map[];
      dir := new DataDirectory(fmt, dim, hot, e, [], []);
      return;
    }
    var m := d.manifest.value;
    segments := ReadSegments(fmt, d, m.segments);
    metas := LoadMetas(fmt, d, m).value;
    KeptNames(fmt, d);
    dir := new DataDirectory(fmt, m.dim, hot, e, m.segments, segments);
  }

  /** The loading loop. */
  method ReadSegments(fmt: Formats, d: Disk, refs: seq<SegmentRef>) returns (segments: seq<Source>)
    requires forall i :: 0 <= i < |refs| ==> Readable(fmt, d, refs[i].stored, true)
    ensures LoadSegments(fmt, d, refs) == Some(segments)
    ensures |segments| == |refs| && Distinct(segments) && Below(segments, |segments|)
    ensures forall i :: 0 <= i < |refs| ==>
      segments[i].uid == i && fmt.loadSegment(Content(d, refs[i].stored.name)) == Some(segments[i].data)
  {
    segments := [];
    for n := 0 to |refs|
      invariant |segments| == n && LoadSegments(fmt, d, refs[..n]) == Some(segments)
      invariant forall i :: 0 <= i < n ==>
        segments[i].uid == i && fmt.loadSegment(Content(d, refs[i].stored.name)) == Some(segments[i].data)
    {
      assert Readable(fmt, d, refs[n].stored, true);
      assert refs[..n + 1][..n] == refs[..n];
      var data := Load(fmt, d, refs[n].stored, fmt.loadSegment).value;
      segments := segments + [Source(n, data, refs[n].tombs)];
    }
    assert refs[..|refs|] == refs;
  }

  /** Every mark is on a source of the index that still has the contents on file. */
  ghost predicate MarksMatch(dir: DataDirectory, stock: Stock)
    reads dir`stored, dir`contents
  {
    && (forall u :: u in dir.stored ==> u < stock.next)
    && forall x :: x in stock.stack ==> dir.MarkFits(x)
  }

  /**
   * From one checkpoint to the next: whatever the store did in between, the marks of the last one
   * still describe the sources that are left, so these can be referenced without being written again.
   */
  lemma MarksStillFit(dir: DataDirectory, before: Stock, after: Stock)
    requires MarksMatch(dir, before) && Descends(before, after)
    ensures MarksMatch(dir, after)
  {
    forall x | x in after.stack ensures dir.MarkFits(x) {
      if x.uid in dir.stored {
        var y :| y in before.stack && y.uid == x.uid && y.data == x.data;
        assert dir.MarkFits(y);
      }
    }
  }

  /** A settled index shows segments whose marks fit. */
  lemma MarksOfSegments(dir: DataDirectory, stock: Stock)
    requires MarksMatch(dir, stock)
    ensures dir.AllMarksFit(stock.stack)
  {
    forall k | 0 <= k < |stock.stack| ensures dir.MarkFits(stock.stack[k]) {
      assert stock.stack[k] in stock.stack;
    }
  }

  /** Right after a checkpoint or an opening, the marks are those of the segments. */
  lemma MarksAfresh(dir: DataDirectory, stock: Stock)
    requires dir.AllMarksFit(stock.stack) && dir.stored.Keys == Uids(stock.stack) && Below(stock.stack, stock.next)
    ensures MarksMatch(dir, stock)
  {
    forall u | u in dir.stored ensures u < stock.next { assert u in Uids(stock.stack); }
    forall x | x in stock.stack ensures dir.MarkFits(x) {
      var k :| 0 <= k < |stock.stack| && stock.stack[k] == x;
    }
  }
}
