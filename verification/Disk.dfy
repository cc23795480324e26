/**
 * The data directory: a manifest swapped atomically, immutable segment and metadata files, log files,
 * and what opening the directory makes of them.
 */
module Disk {
  import opened Prelude
  import opened Meta
  import opened Store
  import opened StoreInvariants
  import opened Records
  import Wal

  type Bytes = seq<Wal.Byte>

  /** Names carry the generation a file was written in; `Foreign` is anything the program does not own. */
  datatype FileName =
    | SegmentFile(gen: nat, idx: nat)
    | MetaFile(gen: nat)
    | LogFile(gen: nat)
    | Temp(target: FileName)
    | ManifestTemp
    | Foreign(n: nat)

  predicate Ours(f: FileName) { !f.Foreign? }

  /** A file as the manifest records it. */
  datatype StoredFile = StoredFile(name: FileName, crc: nat)

  datatype SegmentRef = SegmentRef(stored: StoredFile, tombs: set<Id>)

  datatype Manifest = Manifest(generation: nat, dim: nat, segments: seq<SegmentRef>,
                               metadata: Option<StoredFile>, wal: Option<FileName>)

  /** The directory; the manifest is shown decoded, since it is only ever replaced as a whole. */
  datatype Disk = Disk(manifest: Option<Manifest>, files: map<FileName, Bytes>)

  /** File formats. Serialisation is outside the model: only its being invertible is used. */
  datatype Formats = Formats(
    segment: map<Id, Floats> -> Bytes, loadSegment: Bytes -> Option<map<Id, Floats>>,
    metadata: map<Id, Metadata> -> Bytes, loadMetadata: Bytes -> Option<map<Id, Metadata>>,
    manifest: Manifest -> Bytes, crc: Bytes -> nat, log: Wal.Codec<Record>)

  ghost predicate LosslessFormats(fmt: Formats) {
    && (forall m :: fmt.loadSegment(fmt.segment(m)) == Some(m))
    && (forall m :: fmt.loadMetadata(fmt.metadata(m)) == Some(m))
    && Wal.Lossless(fmt.log)
  }

  // ---- What the manifest keeps alive ----

  function SegmentNames(refs: seq<SegmentRef>): set<FileName> {
    set i | 0 <= i < |refs| :: refs[i].stored.name
  }

  function MetadataName(m: Manifest): set<FileName> {
    if m.metadata.Some? then {m.metadata.value.name} else {}
  }

  function LogNameKept(m: Manifest): set<FileName> {
    if m.wal.Some? then {m.wal.value} else {}
  }

  /** The files garbage collection must leave alone. */
  function Referenced(m: Manifest): set<FileName> {
    SegmentNames(m.segments) + MetadataName(m) + LogNameKept(m)
  }

  function Kept(d: Disk): set<FileName> { if d.manifest.Some? then Referenced(d.manifest.value) else {} }

  function Generation(d: Disk): nat { if d.manifest.Some? then d.manifest.value.generation else 0 }

  /** The log recovery replays: the manifest's, or the generation's own when none is named. */
  function LogName(d: Disk): FileName {
    if d.manifest.Some? && d.manifest.value.wal.Some? then d.manifest.value.wal.value else LogFile(Generation(d))
  }

  function Content(d: Disk, f: FileName): Bytes { if f in d.files then d.files[f] else [] }

  function LogBytes(d: Disk): Bytes { Content(d, LogName(d)) }

  // ---- Opening ----

  /** `read_verified`, then decoding. */
  function Load<T>(fmt: Formats, d: Disk, f: StoredFile, decode: Bytes -> Option<T>): Option<T> {
    if f.name in d.files && fmt.crc(d.files[f.name]) == f.crc then decode(d.files[f.name]) else None
  }

  function LoadSegments(fmt: Formats, d: Disk, refs: seq<SegmentRef>): (r: Option<seq<Source>>)
    ensures r.Some? ==> |r.value| == |refs|
  {
    if |refs| == 0 then Some([]) else
    var n := |refs| - 1;
    var rest, data := LoadSegments(fmt, d, refs[..n]), Load(fmt, d, refs[n].stored, fmt.loadSegment);
    if rest.Some? && data.Some? then Some(rest.value + [Source(n, data.value, refs[n].tombs)]) else None
  }

  /** The segments the manifest of `d` opens to. */
  function Loaded(fmt: Formats, d: Disk): (r: Option<seq<Source>>) {
    if d.manifest.None? then Some([]) else LoadSegments(fmt, d, d.manifest.value.segments)
  }

  /** They are numbered in order, so nothing in the index can be mistaken for one of them. */
  lemma {:induction false} LoadedNumbers(fmt: Formats, d: Disk, refs: seq<SegmentRef>)
    ensures var r := LoadSegments(fmt, d, refs);
      r.Some? ==> Distinct(r.value) && Below(r.value, |refs|) && forall i :: 0 <= i < |refs| ==> r.value[i].uid == i
  {
    if |refs| > 0 { LoadedNumbers(fmt, d, refs[..|refs| - 1]); }
  }

  /** A segment list a store can go on from: one live copy per id, and the newest copy decides. */
  ghost predicate Clean(ls: seq<Source>) { TombsInside(ls) && UniqueLive(ls) && NewestLive(ls) }

  /** The manifest opens to such a list. */
  ghost predicate OpensClean(fmt: Formats, d: Disk) { Loaded(fmt, d).Some? ==> Clean(Loaded(fmt, d).value) }

  function LoadMetas(fmt: Formats, d: Disk, m: Manifest): Option<map<Id, Metadata>> {
    if m.metadata.None? then Some(map[]) else Load(fmt, d, m.metadata.value, fmt.loadMetadata)
  }

  /** The database of the manifest alone; `dim` is only used when there is none. */
  function Base(fmt: Formats, dim: nat, d: Disk): Option<Db> {
    if d.manifest.None? then Some(Db(dim, map[], map[])) else
    var m := d.manifest.value;
    var segments, metas := LoadSegments(fmt, d, m.segments), LoadMetas(fmt, d, m);
    if segments.Some? && metas.Some? then Some(Db(m.dim, LiveMap(segments.value), metas.value)) else None
  }

  /** Opening: the manifest's database, then the intact prefix of its log on top. */
  function Recover(fmt: Formats, dim: nat, d: Disk): Option<Db> {
    var base := Base(fmt, dim, d);
    if base.None? then None else ReplayInto(base.value, Wal.Replay(fmt.log, LogBytes(d)).records)
  }

  /** A crash may tear the log: only its first `n` bytes survive. */
  function Torn(d: Disk, n: nat): Disk
    requires n <= |LogBytes(d)|
  {
    if LogName(d) in d.files then d.(files := d.files[LogName(d) := d.files[LogName(d)][..n]]) else d
  }

  // ---- Directories the program leaves ----

  ghost predicate Readable(fmt: Formats, d: Disk, f: StoredFile, segment: bool) {
    && f.name in d.files && fmt.crc(d.files[f.name]) == f.crc
    && (segment ==> fmt.loadSegment(d.files[f.name]).Some?)
    && (!segment ==> fmt.loadMetadata(d.files[f.name]).Some?)
  }

  /** Everything the manifest names is there, is older than the next generation, and newer logs are empty. */
  ghost predicate Intact(fmt: Formats, d: Disk) {
    && (forall g :: g > Generation(d) && LogFile(g) in d.files ==> d.files[LogFile(g)] == [])
    && (d.manifest.Some? ==>
          var m := d.manifest.value;
          && (forall i :: 0 <= i < |m.segments| ==>
                Readable(fmt, d, m.segments[i].stored, true)
                && m.segments[i].stored.name.SegmentFile? && m.segments[i].stored.name.gen <= m.generation)
          && (m.metadata.Some? ==>
                && Readable(fmt, d, m.metadata.value, false)
                && m.metadata.value.name.MetaFile? && m.metadata.value.name.gen <= m.generation)
          && (m.wal.Some? ==> m.wal.value.LogFile? && m.wal.value.gen <= m.generation))
  }

  /** Recovery cannot tell the two directories apart. */
  ghost predicate SameReads(d: Disk, e: Disk) {
    && d.manifest == e.manifest && LogBytes(d) == LogBytes(e)
    && forall f :: f in Kept(d) && !f.LogFile? ==> f in d.files && f in e.files && d.files[f] == e.files[f]
  }

  lemma {:induction false} SameSegments(fmt: Formats, d: Disk, e: Disk, refs: seq<SegmentRef>)
    requires forall i :: 0 <= i < |refs| ==>
      var f := refs[i].stored.name; f in d.files && f in e.files && d.files[f] == e.files[f]
    ensures LoadSegments(fmt, d, refs) == LoadSegments(fmt, e, refs)
  {
    if |refs| > 0 {
      SameSegments(fmt, d, e, refs[..|refs| - 1]);
      assert refs[|refs| - 1].stored.name in d.files;
    }
  }

  lemma SameBase(fmt: Formats, dim: nat, d: Disk, e: Disk)
    requires SameReads(d, e) && Intact(fmt, d)
    ensures Base(fmt, dim, d) == Base(fmt, dim, e) && Loaded(fmt, d) == Loaded(fmt, e)
  {
    if d.manifest.Some? {
      var m := d.manifest.value;
      forall i | 0 <= i < |m.segments|
        ensures var f := m.segments[i].stored.name; f in d.files && f in e.files && d.files[f] == e.files[f]
      {
        assert m.segments[i].stored.name in SegmentNames(m.segments);
      }
      SameSegments(fmt, d, e, m.segments);
    }
  }

  lemma TornBase(fmt: Formats, dim: nat, d: Disk, n: nat)
    requires Intact(fmt, d) && n <= |LogBytes(d)|
    ensures Intact(fmt, Torn(d, n)) && Base(fmt, dim, Torn(d, n)) == Base(fmt, dim, d)
    ensures Loaded(fmt, Torn(d, n)) == Loaded(fmt, d)
    ensures LogBytes(Torn(d, n)) == LogBytes(d)[..n]
  {
    var t := Torn(d, n);
    assert t.manifest == d.manifest && LogName(t) == LogName(d);
    assert forall f :: f in d.files && f != LogName(d) ==> f in t.files && t.files[f] == d.files[f];
    if d.manifest.Some? {
      SameSegments(fmt, d, t, d.manifest.value.segments);
    }
  }

  /** Wherever the crash tears the log, indistinguishable directories recover to the same database. */
  lemma SameRecovery(fmt: Formats, dim: nat, d: Disk, e: Disk, n: nat)
    requires SameReads(d, e) && Intact(fmt, d) && Intact(fmt, e) && n <= |LogBytes(d)|
    ensures Recover(fmt, dim, Torn(d, n)) == Recover(fmt, dim, Torn(e, n))
    ensures Recover(fmt, dim, d) == Recover(fmt, dim, e) && Loaded(fmt, d) == Loaded(fmt, e)
  {
    SameBase(fmt, dim, d, e);
    TornBase(fmt, dim, d, n);
    TornBase(fmt, dim, e, n);
  }

  lemma {:induction false} IntactSegments(fmt: Formats, d: Disk, refs: seq<SegmentRef>)
    requires forall i :: 0 <= i < |refs| ==> Readable(fmt, d, refs[i].stored, true)
    ensures LoadSegments(fmt, d, refs).Some?
  {
    if |refs| > 0 {
      IntactSegments(fmt, d, refs[..|refs| - 1]);
      assert Readable(fmt, d, refs[|refs| - 1].stored, true);
    }
  }

  /** An intact directory always opens as far as its manifest goes. */
  lemma IntactLoads(fmt: Formats, dim: nat, d: Disk)
    requires Intact(fmt, d)
    ensures Base(fmt, dim, d).Some? && Loaded(fmt, d).Some?
  {
    if d.manifest.Some? { IntactSegments(fmt, d, d.manifest.value.segments); }
  }

  // ---- Changes that recovery does not see ----

  /** Writing a file no manifest names; a log above the generation may only be created empty. */
  lemma WriteUnread(fmt: Formats, d: Disk, f: FileName, bytes: Bytes)
    requires Intact(fmt, d) && f !in Kept(d)
    requires f.LogFile? ==> bytes == [] && Content(d, f) == []
    ensures var e := d.(files := d.files[f := bytes]); Intact(fmt, e) && SameReads(d, e)
  {
    var e := d.(files := d.files[f := bytes]);
    assert LogName(e) == LogName(d);
    KeptNames(fmt, d);
  }

  /** Removing a file no manifest names; the log recovery would look for may only go when empty. */
  lemma RemoveUnread(fmt: Formats, d: Disk, f: FileName)
    requires Intact(fmt, d) && f !in Kept(d)
    requires f == LogName(d) ==> Content(d, f) == []
    ensures var e := d.(files := d.files - {f}); Intact(fmt, e) && SameReads(d, e)
  {
    var e := d.(files := d.files - {f});
    assert LogName(e) == LogName(d);
    KeptNames(fmt, d);
  }

  lemma KeptNames(fmt: Formats, d: Disk)
    requires Intact(fmt, d)
    ensures d.manifest.Some? ==> forall i :: 0 <= i < |d.manifest.value.segments| ==>
      d.manifest.value.segments[i].stored.name in Kept(d)
    ensures forall f :: f in Kept(d) && !f.LogFile? ==> f in d.files
    ensures forall f :: f in Kept(d) ==>
      (f.SegmentFile? || f.MetaFile? || f.LogFile?) && f.gen <= Generation(d)
  {
    if d.manifest.Some? {
      var m := d.manifest.value;
      assert forall i :: 0 <= i < |m.segments| ==> m.segments[i].stored.name in SegmentNames(m.segments);
    }
  }

  lemma SameReadsTrans(a: Disk, b: Disk, c: Disk)
    requires SameReads(a, b) && SameReads(b, c)
    ensures SameReads(a, c)
  {
  }
}
