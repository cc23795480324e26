/**
 * The write-ahead log: framing, replay of arbitrary bytes, truncation, and the log file with its
 * durable prefix. Records are of any type; the payload codec and the checksum are parameters.
 */
module Wal {
  import opened Prelude

  type Byte = b: int | 0 <= b < 256

  const TWO32: nat := 0x1_0000_0000
  const MAX_RECORD_BYTES: nat := 64 * 1024 * 1024

  /** Payload serialisation and checksum. */
  datatype Codec<!R> = Codec(encode: R -> seq<Byte>, decode: seq<Byte> -> Option<R>, crc: seq<Byte> -> nat)

  /** Decoding inverts encoding, no payload is empty, and the checksum is a 32-bit word. */
  ghost predicate Lossless<R(!new)>(c: Codec<R>) {
    && (forall r :: c.decode(c.encode(r)) == Some(r) && |c.encode(r)| > 0)
    && (forall p :: c.crc(p) < TWO32)
  }

  // ---- Little-endian words ----

  function Word(n: nat): (b: seq<Byte>)
    requires n < TWO32
    ensures |b| == 4
  {
    var w: seq<int> := [n % 256, n / 256 % 256, n / 65536 % 256, n / 16777216];
    w
  }

  function UnWord(b: seq<Byte>): (n: nat)
    requires |b| == 4
    ensures n < TWO32
  {
    var w: seq<int> := b;
    w[0] + 256 * w[1] + 65536 * w[2] + 16777216 * w[3]
  }

  lemma WordRoundTrip(n: nat)
    requires n < TWO32
    ensures UnWord(Word(n)) == n
  {
    var a, b, c := n / 256, n / 65536, n / 16777216;
    assert b == a / 256 && c == b / 256;
    assert n == 256 * a + n % 256 && a == 256 * b + a % 256 && b == 256 * c + b % 256;
  }

  /** The base-256 digits of a number, least significant first. */
  function Digits(n: nat, count: nat): (b: seq<Byte>)
    ensures |b| == count
  {
    if count == 0 then [] else [n % 256] + Digits(n / 256, count - 1)
  }

  lemma WordIsDigits(n: nat)
    requires n < TWO32
    ensures Word(n) == Digits(n, 4)
  {
    var a, b, c := n / 256, n / 65536, n / 16777216;
    assert b == a / 256 && c == b / 256 && c % 256 == c;
    assert Digits(c, 1) == [c % 256] + Digits(c / 256, 0);
    assert Digits(b, 2) == [b % 256] + Digits(c, 1);
    assert Digits(a, 3) == [a % 256] + Digits(b, 2);
  }

  // ---- Frames ----

  /** `append` refuses a payload above the size limit. */
  predicate Loggable<R>(c: Codec<R>, r: R) { |c.encode(r)| <= MAX_RECORD_BYTES }

  /** [len][crc][payload] */
  function Frame<R>(c: Codec<R>, r: R): seq<Byte>
    requires Loggable(c, r) && c.crc(c.encode(r)) < TWO32
  {
    Word(|c.encode(r)|) + Word(c.crc(c.encode(r))) + c.encode(r)
  }

  /** On disk: the payload's length and its checksum, four bytes each from the least significant, and the payload. */
  lemma FrameLayout<R>(c: Codec<R>, r: R)
    requires Loggable(c, r) && c.crc(c.encode(r)) < TWO32
    ensures var (f, p) := (Frame(c, r), c.encode(r));
      |f| == 8 + |p| && f[..4] == Digits(|p|, 4) && f[4..8] == Digits(c.crc(p), 4) && f[8..] == p
  {
    WordIsDigits(|c.encode(r)|);
    WordIsDigits(c.crc(c.encode(r)));
  }

  ghost predicate AllLoggable<R(!new)>(c: Codec<R>, rs: seq<R>) {
    Lossless(c) && forall i :: 0 <= i < |rs| ==> Loggable(c, rs[i])
  }

  /** The file after appending `rs` in order. */
  ghost function Log<R(!new)>(c: Codec<R>, rs: seq<R>): seq<Byte>
    requires AllLoggable(c, rs)
  {
    if |rs| == 0 then [] else Frame(c, rs[0]) + Log(c, rs[1..])
  }

  // ---- Replay ----

  datatype Reason = TruncatedHeader | ImplausibleLength | TruncatedBody | CrcMismatch | Undecodable

  /** What the front of a buffer holds. */
  datatype Head<R> = Stop(reason: Reason) | Record(rec: R, size: nat)

  function ReadHead<R>(c: Codec<R>, bytes: seq<Byte>): (h: Head<R>)
    ensures h.Record? ==> 8 < h.size <= |bytes|
  {
    if |bytes| < 8 then Stop(TruncatedHeader) else
    var len, crc := UnWord(bytes[..4]), UnWord(bytes[4..8]);
    if len == 0 || len > MAX_RECORD_BYTES then Stop(ImplausibleLength)
    else if 8 + len > |bytes| then Stop(TruncatedBody)
    else
      var payload := bytes[8..8 + len];
      if c.crc(payload) != crc then Stop(CrcMismatch) else
      match c.decode(payload)
      case Some(r) => Record(r, 8 + len)
      case None => Stop(Undecodable)
  }

  lemma UnWordIff(b: seq<Byte>, n: nat)
    requires |b| == 4 && n < TWO32
    ensures UnWord(b) == n <==> b == Digits(n, 4)
  {
    WordIsDigits(n);
    WordRoundTrip(n);
    if UnWord(b) == n {
      var w: seq<int> := b;
      var a, c, d := w[1] + 256 * w[2] + 65536 * w[3], w[2] + 256 * w[3], w[3];
      assert n == 256 * a + w[0] && a == 256 * c + w[1] && c == 256 * d + w[2];
      assert n / 256 == a && a / 256 == c && c / 256 == d;
      assert n / 65536 == c && n / 16777216 == d;
    }
  }

  /** A record is read exactly from the front of a buffer that holds one whole frame of it. */
  lemma HeadIsFrame<R>(c: Codec<R>, bytes: seq<Byte>, r: R, size: nat)
    requires forall p :: c.crc(p) < TWO32
    ensures ReadHead(c, bytes) == Record(r, size) <==>
      && 8 < size <= |bytes| && size - 8 <= 64 * 1024 * 1024
      && bytes[..4] == Digits(size - 8, 4) && bytes[4..8] == Digits(c.crc(bytes[8..size]), 4)
      && c.decode(bytes[8..size]) == Some(r)
  {
    if 8 < size <= |bytes| && size - 8 <= MAX_RECORD_BYTES {
      UnWordIff(bytes[..4], size - 8);
      UnWordIff(bytes[4..8], c.crc(bytes[8..size]));
    }
  }

  /** Records in order, length of the intact prefix, and why reading stopped before the end. */
  datatype Replayed<R> = Replayed(records: seq<R>, intact: nat, stopped: Option<Reason>)

  /** The specification of replay, by recursion on the rest of the file. */
  function Replay<R>(c: Codec<R>, bytes: seq<Byte>): (r: Replayed<R>)
    ensures r.intact <= |bytes| && (r.stopped.None? ==> r.intact == |bytes|)
    decreases |bytes|
  {
    if |bytes| == 0 then Replayed([], 0, None) else
    match ReadHead(c, bytes)
    case Stop(reason) => Replayed([], 0, Some(reason))
    case Record(rec, size) =>
      var rest := Replay(c, bytes[size..]);
      Replayed([rec] + rest.records, size + rest.intact, rest.stopped)
  }

  /** The report handed to the caller: `truncatedAt` is set exactly when a tail was discarded. */
  datatype Report = Report(applied: nat, bytesOk: nat, truncatedAt: Option<nat>, reason: Option<Reason>)

  ghost function Prepend<R(!new)>(rec: R, size: nat, r: Replayed<R>): Replayed<R> {
    Replayed([rec] + r.records, size + r.intact, r.stopped)
  }

  /** After `off` bytes and `records`, the rest of the buffer completes the whole. */
  ghost predicate Completes<R(!new)>(whole: Replayed<R>, records: seq<R>, off: nat, rest: Replayed<R>) {
    whole.records == records + rest.records && whole.intact == off + rest.intact && whole.stopped == rest.stopped
  }

  lemma CompletesNext<R(!new)>(whole: Replayed<R>, records: seq<R>, off: nat, rec: R, size: nat, rest: Replayed<R>)
    requires Completes(whole, records, off, Prepend(rec, size, rest))
    ensures Completes(whole, records + [rec], off + size, rest)
  {
    assert records + ([rec] + rest.records) == records + [rec] + rest.records;
  }

  lemma CompletesStart<R(!new)>(c: Codec<R>, bytes: seq<Byte>)
    ensures Completes(Replay(c, bytes), [], 0, Replay(c, bytes[0..]))
  {
    assert bytes[0..] == bytes;
  }

  /** Where reading stops, or nothing is left, the rest adds nothing. */
  lemma CompletesEnd<R(!new)>(c: Codec<R>, whole: Replayed<R>, records: seq<R>, off: nat, tail: seq<Byte>)
    requires Completes(whole, records, off, Replay(c, tail))
    requires tail == [] || ReadHead(c, tail).Stop?
    ensures whole.records == records && whole.intact == off
    ensures whole.stopped == if tail == [] then None else Some(ReadHead(c, tail).reason)
  {
    assert Replay(c, tail).records == [];
  }

  lemma DropDrop(bytes: seq<Byte>, a: nat, b: nat)
    requires a + b <= |bytes|
    ensures bytes[a..][b..] == bytes[a + b..]
  {
  }

  /** The loop over the buffer. */
  method ReplayBytes<R(!new)>(c: Codec<R>, bytes: seq<Byte>) returns (records: seq<R>, report: Report)
    ensures var r := Replay(c, bytes);
      && records == r.records
      && report == Report(|r.records|, r.intact, if r.stopped.Some? then Some(r.intact) else None, r.stopped)
  {
    records := [];
    var off := 0;
    ghost var whole := Replay(c, bytes);
    CompletesStart(c, bytes);
    while off != |bytes|
      invariant 0 <= off <= |bytes|
      invariant Completes(whole, records, off, Replay(c, bytes[off..]))
      decreases |bytes| - off
    {
      match ReadHead(c, bytes[off..]) {
        case Stop(reason) =>
          CompletesEnd(c, whole, records, off, bytes[off..]);
          return records, Report(|records|, off, Some(off), Some(reason));
        case Record(rec, size) =>
          ReplayCons(c, bytes[off..], rec, size);
          DropDrop(bytes, off, size);
          CompletesNext(whole, records, off, rec, size, Replay(c, bytes[off + size..]));
          records := records + [rec];
          off := off + size;
      }
    }
    CompletesEnd(c, whole, records, off, bytes[off..]);
    report := Report(|records|, off, None, None);
  }

  /** What `replay` does to the file: the discarded tail is cut off. */
  function Truncated<R>(c: Codec<R>, bytes: seq<Byte>): seq<Byte> { bytes[..Replay(c, bytes).intact] }

  // ---- Properties ----

  lemma FrameReads<R(!new)>(c: Codec<R>, r: R, tail: seq<Byte>)
    requires Lossless(c) && Loggable(c, r)
    ensures ReadHead(c, Frame(c, r) + tail) == Record(r, |Frame(c, r)|)
    ensures |Frame(c, r)| > 8
  {
    var p := c.encode(r);
    var bytes := Frame(c, r) + tail;
    assert c.decode(p) == Some(r);
    WordRoundTrip(|p|);
    WordRoundTrip(c.crc(p));
    assert bytes[..4] == Word(|p|) && bytes[4..8] == Word(c.crc(p)) && bytes[8..8 + |p|] == p;
  }

  /** A frame that is cut short anywhere is recognised as torn; nothing is made up from it. */
  lemma TornFrame<R(!new)>(c: Codec<R>, r: R, cut: nat)
    requires Lossless(c) && Loggable(c, r) && 0 < cut < |Frame(c, r)|
    ensures ReadHead(c, Frame(c, r)[..cut]).Stop?
  {
    var p := c.encode(r);
    var bytes := Frame(c, r)[..cut];
    assert c.decode(p) == Some(r);
    if cut >= 8 {
      WordRoundTrip(|p|);
      assert bytes[..4] == Word(|p|);
    }
  }

  /** `r` is what `first` (which read `n` bytes cleanly) and then `second` read. */
  ghost predicate Joins<R(!new)>(first: Replayed<R>, second: Replayed<R>, n: nat, r: Replayed<R>) {
    r.records == first.records + second.records && r.intact == n + second.intact && r.stopped == second.stopped
  }

  lemma JoinsCons<R(!new)>(rec: R, size: nat, first: Replayed<R>, second: Replayed<R>, n: nat, r: Replayed<R>)
    requires Joins(first, second, n, r)
    ensures Joins(Prepend(rec, size, first), second, size + n, Prepend(rec, size, r))
  {
    assert [rec] + (first.records + second.records) == ([rec] + first.records) + second.records;
  }

  /** If the front part replays cleanly, the rest is replayed as if it stood alone. */
  lemma {:induction false} ReplayConcat<R(!new)>(c: Codec<R>, a: seq<Byte>, b: seq<Byte>)
    requires Replay(c, a).stopped.None?
    ensures Joins(Replay(c, a), Replay(c, b), |a|, Replay(c, a + b))
    decreases |a|
  {
    if |a| == 0 {
      assert a + b == b;
      assert Replay(c, a).records == [];
    } else {
      var tail := CleanHead(c, a, b);
      ReplayConcat(c, tail, b);
      ConcatStep(c, a, b, tail);
    }
  }

  lemma CleanHead<R(!new)>(c: Codec<R>, a: seq<Byte>, b: seq<Byte>) returns (tail: seq<Byte>)
    requires |a| > 0 && Replay(c, a).stopped.None?
    ensures ReadHead(c, a).Record? && tail == a[ReadHead(c, a).size..]
    ensures |tail| < |a| && Replay(c, tail).stopped.None?
  {
    tail := a[ReadHead(c, a).size..];
  }

  lemma ConcatStep<R(!new)>(c: Codec<R>, a: seq<Byte>, b: seq<Byte>, tail: seq<Byte>)
    requires ReadHead(c, a).Record? && tail == a[ReadHead(c, a).size..]
    requires Joins(Replay(c, tail), Replay(c, b), |tail|, Replay(c, tail + b))
    ensures Joins(Replay(c, a), Replay(c, b), |a|, Replay(c, a + b))
  {
    var h := ReadHead(c, a);
    HeadLocal(c, a, b);
    DropConcat(a, b, h.size);
    ReplayCons(c, a, h.rec, h.size);
    ReplayCons(c, a + b, h.rec, h.size);
    JoinsCons(h.rec, h.size, Replay(c, tail), Replay(c, b), |tail|, Replay(c, tail + b));
  }

  lemma DropConcat(a: seq<Byte>, b: seq<Byte>, n: nat)
    requires n <= |a|
    ensures (a + b)[n..] == a[n..] + b
  {
  }

  lemma ReplayCons<R(!new)>(c: Codec<R>, bytes: seq<Byte>, rec: R, size: nat)
    requires ReadHead(c, bytes) == Record(rec, size)
    ensures Replay(c, bytes) == Prepend(rec, size, Replay(c, bytes[size..]))
  {
  }

  /** Reading a record looks at no byte after it. */
  lemma HeadLocal<R>(c: Codec<R>, a: seq<Byte>, b: seq<Byte>)
    requires ReadHead(c, a).Record?
    ensures ReadHead(c, a + b) == ReadHead(c, a)
  {
    var len := UnWord(a[..4]);
    assert (a + b)[..4] == a[..4] && (a + b)[4..8] == a[4..8] && (a + b)[8..8 + len] == a[8..8 + len];
  }

  /** Round trip: replaying what was appended gives it back, to the last byte. */
  lemma {:induction false} ReplayOfLog<R(!new)>(c: Codec<R>, rs: seq<R>)
    requires AllLoggable(c, rs)
    ensures Replay(c, Log(c, rs)) == Replayed(rs, |Log(c, rs)|, None)
  {
    if |rs| > 0 {
      var f, rest := Frame(c, rs[0]), Log(c, rs[1..]);
      FrameReads(c, rs[0], rest);
      assert (f + rest)[|f|..] == rest;
      ReplayOfLog(c, rs[1..]);
    }
  }

  /** How many leading records have their whole frame within the first `cut` bytes. */
  ghost function Fitting<R(!new)>(c: Codec<R>, rs: seq<R>, cut: nat): (n: nat)
    requires AllLoggable(c, rs)
    ensures n <= |rs|
  {
    if |rs| == 0 || cut < |Frame(c, rs[0])| then 0 else 1 + Fitting(c, rs[1..], cut - |Frame(c, rs[0])|)
  }

  /** `Fitting` is the largest such number. */
  lemma {:induction false} FittingIsMaximal<R(!new)>(c: Codec<R>, rs: seq<R>, cut: nat, k: nat)
    requires AllLoggable(c, rs) && k <= |rs|
    ensures |Log(c, rs[..k])| <= cut <==> k <= Fitting(c, rs, cut)
  {
    if k > 0 {
      var f := Frame(c, rs[0]);
      assert rs[..k][0] == rs[0] && rs[..k][1..] == rs[1..][..k - 1];
      if cut >= |f| { FittingIsMaximal(c, rs[1..], cut - |f|, k - 1); }
    }
  }

  /** What the cut log replays to. */
  ghost predicate CutReads<R(!new)>(c: Codec<R>, rs: seq<R>, cut: nat)
    requires AllLoggable(c, rs) && cut <= |Log(c, rs)|
  {
    var n := Fitting(c, rs, cut);
    ReadsAs(Replay(c, Log(c, rs)[..cut]), rs[..n], |Log(c, rs[..n])|, cut)
  }

  /** Exactly these records, an intact prefix of this size, and a clean end only if nothing follows it. */
  ghost predicate ReadsAs<R(!new)>(r: Replayed<R>, records: seq<R>, size: nat, cut: nat) {
    r.records == records && r.intact == size && (r.stopped.None? <==> cut == size)
  }

  lemma ReadsAsCons<R(!new)>(rec: R, first: nat, r: Replayed<R>, records: seq<R>, size: nat, cut: nat)
    requires ReadsAs(r, records, size, cut)
    ensures ReadsAs(Prepend(rec, first, r), [rec] + records, first + size, first + cut)
  {
  }

  lemma CutPastFirst<R(!new)>(c: Codec<R>, rs: seq<R>, cut: nat)
    requires AllLoggable(c, rs) && |rs| > 0 && |Frame(c, rs[0])| <= cut <= |Log(c, rs)|
    requires CutReads(c, rs[1..], cut - |Frame(c, rs[0])|)
    ensures CutReads(c, rs, cut)
  {
    var f, rest := Frame(c, rs[0]), Log(c, rs[1..]);
    var tail, m := rest[..cut - |f|], Fitting(c, rs[1..], cut - |f|);
    FirstFrame(c, rs[0], tail);
    FittingFirst(c, rs, cut);
    ReadsAsCons(rs[0], |f|, Replay(c, tail), rs[1..][..m], |Log(c, rs[1..][..m])|, cut - |f|);
    assert Log(c, rs)[..cut] == f + tail;
  }

  lemma FirstFrame<R(!new)>(c: Codec<R>, r: R, tail: seq<Byte>)
    requires Lossless(c) && Loggable(c, r)
    ensures Replay(c, Frame(c, r) + tail) == Prepend(r, |Frame(c, r)|, Replay(c, tail))
  {
    var f := Frame(c, r);
    FrameReads(c, r, tail);
    DropConcat(f, tail, |f|);
    assert f[|f|..] + tail == tail;
    ReplayCons(c, f + tail, r, |f|);
  }

  lemma FittingFirst<R(!new)>(c: Codec<R>, rs: seq<R>, cut: nat)
    requires AllLoggable(c, rs) && |rs| > 0 && cut >= |Frame(c, rs[0])|
    ensures var n, m := Fitting(c, rs, cut), Fitting(c, rs[1..], cut - |Frame(c, rs[0])|);
      && n == m + 1 && rs[..n] == [rs[0]] + rs[1..][..m]
      && |Log(c, rs[..n])| == |Frame(c, rs[0])| + |Log(c, rs[1..][..m])|
  {
    var n := Fitting(c, rs, cut);
    assert rs[..n][0] == rs[0] && rs[..n][1..] == rs[1..][..n - 1];
  }

  /** A cut at any byte yields exactly the records whose frames fit, and the file is cut back to them. */
  lemma {:induction false} CutLog<R(!new)>(c: Codec<R>, rs: seq<R>, cut: nat)
    requires AllLoggable(c, rs) && cut <= |Log(c, rs)|
    ensures CutReads(c, rs, cut)
  {
    if |rs| > 0 && cut > 0 {
      var f, rest := Frame(c, rs[0]), Log(c, rs[1..]);
      if cut < |f| {
        assert (f + rest)[..cut] == f[..cut];
        TornFrame(c, rs[0], cut);
      } else {
        CutLog(c, rs[1..], cut - |f|);
        CutPastFirst(c, rs, cut);
      }
    }
  }

  /** On any bytes at all: the truncated file replays to the same records and ends cleanly. */
  lemma {:induction false} TruncationIsStable<R(!new)>(c: Codec<R>, bytes: seq<Byte>)
    ensures Replay(c, Truncated(c, bytes)) == Replayed(Replay(c, bytes).records, Replay(c, bytes).intact, None)
    decreases |bytes|
  {
    if |bytes| > 0 {
      var h := ReadHead(c, bytes);
      if h.Record? {
        TruncationIsStable(c, bytes[h.size..]);
        TruncatedHead(c, bytes);
        ReplayCons(c, bytes, h.rec, h.size);
        ReplayCons(c, Truncated(c, bytes), h.rec, h.size);
      }
    }
  }

  /** The truncated file starts with the same record and goes on with the truncated rest. */
  lemma TruncatedHead<R(!new)>(c: Codec<R>, bytes: seq<Byte>)
    requires ReadHead(c, bytes).Record?
    ensures var h := ReadHead(c, bytes);
      ReadHead(c, Truncated(c, bytes)) == h && Truncated(c, bytes)[h.size..] == Truncated(c, bytes[h.size..])
  {
    var h := ReadHead(c, bytes);
    var rest := bytes[h.size..];
    ReplayCons(c, bytes, h.rec, h.size);
    var cut := Truncated(c, bytes);
    assert cut == bytes[..h.size] + Truncated(c, rest);
    HeadWhole(c, bytes);
    HeadLocal(c, bytes[..h.size], Truncated(c, rest));
  }

  lemma HeadWhole<R>(c: Codec<R>, bytes: seq<Byte>)
    requires ReadHead(c, bytes).Record?
    ensures ReadHead(c, bytes[..ReadHead(c, bytes).size]) == ReadHead(c, bytes)
  {
    var len := UnWord(bytes[..4]);
    var b := bytes[..8 + len];
    assert b[..4] == bytes[..4] && b[4..8] == bytes[4..8] && b[8..8 + len] == bytes[8..8 + len];
  }

  /** Appending after a truncation continues the sequence, whatever the file held before. */
  lemma AppendAfterTruncation<R(!new)>(c: Codec<R>, bytes: seq<Byte>, rs: seq<R>)
    requires AllLoggable(c, rs)
    ensures Replay(c, Truncated(c, bytes) + Log(c, rs)) ==
      Replayed(Replay(c, bytes).records + rs, Replay(c, bytes).intact + |Log(c, rs)|, None)
  {
    TruncationIsStable(c, bytes);
    ReplayConcat(c, Truncated(c, bytes), Log(c, rs));
    ReplayOfLog(c, rs);
  }

  /** Whatever the file holds, cutting it at any byte yields a prefix of its records: nothing is made up. */
  lemma {:induction false} CutIsPrefix<R(!new)>(c: Codec<R>, bytes: seq<Byte>, n: nat)
    requires n <= |bytes|
    ensures Replay(c, bytes[..n]).records <= Replay(c, bytes).records
    decreases |bytes|
  {
    var cut := bytes[..n];
    if n > 0 && ReadHead(c, cut).Record? {
      var h := ReadHead(c, cut);
      CutHead(c, bytes, n);
      CutIsPrefix(c, bytes[h.size..], n - h.size);
      PrefixCons(h.rec, h.size, Replay(c, cut[h.size..]), Replay(c, bytes[h.size..]));
      ReplayCons(c, cut, h.rec, h.size);
      ReplayCons(c, bytes, h.rec, h.size);
    }
  }

  lemma PrefixCons<R(!new)>(rec: R, size: nat, a: Replayed<R>, b: Replayed<R>)
    requires a.records <= b.records
    ensures Prepend(rec, size, a).records <= Prepend(rec, size, b).records
  {
  }

  /** A record that survives the cut is the record of the whole file. */
  lemma CutHead<R(!new)>(c: Codec<R>, bytes: seq<Byte>, n: nat)
    requires n <= |bytes| && ReadHead(c, bytes[..n]).Record?
    ensures var h := ReadHead(c, bytes[..n]);
      && ReadHead(c, bytes) == h && h.size <= n
      && bytes[..n][h.size..] == bytes[h.size..][..n - h.size]
  {
    HeadLocal(c, bytes[..n], bytes[n..]);
    assert bytes[..n] + bytes[n..] == bytes;
  }

  // ---- The log file ----

  /** When an append or a batch is forced to disk. The clock is outside the model: callers pass `due`. */
  datatype SyncPolicy = NoSync | PerOp | Group

  /**
   * The open log. `contents` is everything appended, `handed` how much of it the operating system has,
   * `synced` how much survives any crash.
   */
  class WalFile<R(!new)> {
    const codec: Codec<R>
    const policy: SyncPolicy
    var contents: seq<Byte>
    var handed: nat
    var synced: nat
    var dirty: bool
    ghost const base: seq<Byte>  // the file when it was opened
    ghost var appended: seq<R>   // records appended since

    ghost predicate Valid()
      reads this
    {
      && AllLoggable(codec, appended) && contents == base + Log(codec, appended)
      && synced <= handed <= |contents|
      && (dirty ==> appended != [])
      && (!dirty && appended != [] ==> synced == |contents|)
    }

    /** Opening for append a file that replay has just trimmed; `durable` of its bytes are on disk. */
    constructor OpenAppend(codec: Codec<R>, file: seq<Byte>, durable: nat, policy: SyncPolicy)
      requires Lossless(codec) && durable <= |file|
      ensures Valid() && contents == base == file && appended == [] && !dirty && synced == durable
      ensures this.codec == codec && this.policy == policy
    {
      this.codec, this.policy, base := codec, policy, file;
      contents, handed, synced, dirty, appended := file, |file|, durable, false, [];
    }

    /** `append`: refuses an oversized record; otherwise the policy decides how far it gets right away. */
    method Append(rec: R, due: bool, spilled: nat) returns (ok: bool)
      requires Valid()
      modifies this
      ensures Valid() && ok == Loggable(codec, rec)
      ensures !ok ==> contents == old(contents) && appended == old(appended) && dirty == old(dirty)
      ensures !ok ==> synced == old(synced) && handed == old(handed)
      ensures ok ==> contents == old(contents) + Frame(codec, rec) && appended == old(appended) + [rec]
      ensures ok && (policy.PerOp? || (policy.Group? && due)) ==> synced == |contents| && !dirty
      ensures ok && !(policy.PerOp? || (policy.Group? && due)) ==> synced == old(synced) && dirty
      ensures ok && policy.NoSync? ==> handed == |contents|
    {
      if |codec.encode(rec)| > MAX_RECORD_BYTES { return false; }
      ExtendFile(codec, base, appended, rec);
      contents := contents + Frame(codec, rec);
      appended := appended + [rec];
      // a full write buffer may spill part of the record on its own
      handed := Min(Max(handed, spilled), |contents|);
      dirty := true;
      match policy {
        case PerOp => Sync();
        case Group => if due { Sync(); }
        case NoSync => handed := |contents|;
      }
      ok := true;
    }

    /** `sync`: flush, then fsync if anything was appended since the last one. */
    method Sync()
      requires Valid()
      modifies this`handed, this`synced, this`dirty
      ensures Valid() && !dirty && handed == |contents|
      ensures synced == if old(dirty) then |contents| else old(synced)
    {
      handed := |contents|;
      if dirty {
        synced := |contents|;
        dirty := false;
      }
    }

    method SyncIfDue(due: bool) returns (did: bool)
      requires Valid()
      modifies this`handed, this`synced, this`dirty
      ensures Valid() && did == (policy.Group? && old(dirty) && due)
      ensures synced == if did then |contents| else old(synced)
      ensures dirty == (old(dirty) && !did)
    {
      did := policy.Group? && dirty && due;
      if did { Sync(); }
    }

    /** `commit`, at the end of a batch: exactly the durability the policy promises. */
    method Commit()
      requires Valid()
      modifies this`handed, this`synced, this`dirty
      ensures Valid() && handed == |contents|
      ensures policy.NoSync? ==> synced == old(synced) && dirty == old(dirty)
      ensures !policy.NoSync? && appended != [] ==> synced == |contents|
      ensures !policy.NoSync? && appended == [] ==> synced == old(synced)
    {
      match policy {
        case NoSync => handed := |contents|;
        case _ => Sync();
      }
    }

    /** What a crash can leave of the file: any prefix that keeps the durable part. */
    ghost predicate Survives(image: seq<Byte>)
      reads this
    {
      image <= contents && |image| >= synced
    }

    /** Once the appended records are synced, every image a crash leaves replays to the whole history. */
    lemma SyncedSurvives(image: seq<Byte>)
      requires Valid() && Survives(image) && synced == |contents| && Replay(codec, base).stopped.None?
      ensures Replay(codec, image).records == Replay(codec, base).records + appended
      ensures Replay(codec, image).stopped.None?
    {
      assert image == contents;
      WholeHistory(codec, base, appended);
    }

    /** An unsynced tail only costs records from the end; what was appended is never altered. */
    lemma TornSurvives(image: seq<Byte>)
      requires Valid() && Survives(image) && Replay(codec, base).stopped.None?
      ensures Replay(codec, image).records <= Replay(codec, base).records + appended
    {
      WholeHistory(codec, base, appended);
      CutIsPrefix(codec, contents, |image|);
      assert contents[..|image|] == image;
    }
  }

  lemma WholeHistory<R(!new)>(c: Codec<R>, base: seq<Byte>, rs: seq<R>)
    requires AllLoggable(c, rs) && Replay(c, base).stopped.None?
    ensures Replay(c, base + Log(c, rs)).records == Replay(c, base).records + rs
    ensures Replay(c, base + Log(c, rs)).stopped.None?
  {
    ReplayConcat(c, base, Log(c, rs));
    ReplayOfLog(c, rs);
  }

  lemma ExtendFile<R(!new)>(c: Codec<R>, base: seq<Byte>, rs: seq<R>, r: R)
    requires AllLoggable(c, rs) && Loggable(c, r)
    ensures AllLoggable(c, rs + [r])
    ensures base + Log(c, rs) + Frame(c, r) == base + Log(c, rs + [r])
  {
    LogAppend(c, rs, r);
  }

  lemma {:induction false} LogAppend<R(!new)>(c: Codec<R>, rs: seq<R>, r: R)
    requires AllLoggable(c, rs) && Loggable(c, r)
    ensures AllLoggable(c, rs + [r]) && Log(c, rs + [r]) == Log(c, rs) + Frame(c, r)
  {
    if |rs| == 0 {
      assert [r][1..] == [];
    } else {
      LogAppend(c, rs[1..], r);
      assert (rs + [r])[1..] == rs[1..] + [r];
      assert Log(c, rs) == Frame(c, rs[0]) + Log(c, rs[1..]);
    }
  }
}
