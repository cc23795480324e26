/**
 * What the writer's commands mean, what its log holds between two rotations, which answers have been given
 * and what a crash leaves of all this, as values.
 */
module Journal {
  import opened Prelude
  import opened Meta
  import opened Store
  import opened StoreInvariants
  import opened Records
  import opened Disk
  import opened Checkpoint
  import opened Recovery
  import Wal

  /** A command with the address its one reply goes to. */
  datatype Command =
    | InsertCmd(id: Id, vec: Floats, meta: Metadata, reply: nat)
    | DeleteCmd(id: Id, reply: nat)
    | CheckpointCmd(reply: nat)

  datatype Outcome = Done | WrongDimension | Duplicate | NotFound | TooLarge | Checkpointed

  datatype Answer = Answer(reply: nat, outcome: Outcome)

  // ---- What the commands mean, one after the other ----

  function RecordOf(c: Command): Record
    requires !c.CheckpointCmd?
  {
    match c case InsertCmd(id, v, meta, _) => Insert(id, v, meta) case DeleteCmd(id, _) => Delete(id)
  }

  function OutcomeOf(codec: Wal.Codec<Record>, db: Db, c: Command): Outcome {
    match c
    case InsertCmd(id, v, meta, _) =>
      if |v| != db.dim then Outcome.WrongDimension
      else if id in db.vectors then Outcome.Duplicate
      else if !Wal.Loggable(codec, RecordOf(c)) then TooLarge else Done
    case DeleteCmd(id, _) =>
      if id !in db.vectors then Outcome.NotFound
      else if !Wal.Loggable(codec, RecordOf(c)) then TooLarge else Done
    case CheckpointCmd(_) => Checkpointed
  }

  function Next(codec: Wal.Codec<Record>, db: Db, c: Command): Db {
    if OutcomeOf(codec, db, c) == Done then Applied(db, RecordOf(c)) else db
  }

  /** The replies of a sequence of commands. */
  function Answers(codec: Wal.Codec<Record>, db: Db, cs: seq<Command>): (r: seq<Answer>)
    ensures |r| == |cs| && forall i :: 0 <= i < |cs| ==> r[i].reply == cs[i].reply
  {
    if |cs| == 0 then []
    else
      var n := |cs| - 1;
      Answers(codec, db, cs[..n]) + [Answer(cs[n].reply, OutcomeOf(codec, Final(codec, db, cs[..n]), cs[n]))]
  }

  function Final(codec: Wal.Codec<Record>, db: Db, cs: seq<Command>): Db {
    if |cs| == 0 then db else Next(codec, Final(codec, db, cs[..|cs| - 1]), cs[|cs| - 1])
  }

  /**
   * What handling a command means, without saying how it is worked out: when it is refused and why, and what
   * is stored when it is not.
   */
  ghost predicate Handled(codec: Wal.Codec<Record>, before: Db, c: Command, o: Outcome, after: Db) {
    match c
    case InsertCmd(id, v, meta, _) =>
      var fits, small := |v| == before.dim && id !in before.vectors, Small(codec, Insert(id, v, meta));
      && (o == Outcome.WrongDimension <==> |v| != before.dim)
      && (o == Outcome.Duplicate <==> |v| == before.dim && id in before.vectors)
      && (o == TooLarge <==> fits && !small) && (o == Done <==> fits && small)
      && after.dim == before.dim
      && after.vectors == (if o == Done then before.vectors[id := v] else before.vectors)
      && after.metas == (if o == Done && meta != map[] then before.metas[id := meta] else before.metas)
    case DeleteCmd(id, _) =>
      var small := Small(codec, Delete(id));
      && (o == Outcome.NotFound <==> id !in before.vectors)
      && (o == TooLarge <==> id in before.vectors && !small) && (o == Done <==> id in before.vectors && small)
      && after.dim == before.dim
      && after.vectors == (if o == Done then before.vectors - {id} else before.vectors)
      && after.metas == (if o == Done then before.metas - {id} else before.metas)
    case CheckpointCmd(_) => o == Checkpointed && after == before
  }

  /** The record fits into a frame. */
  predicate Small(codec: Wal.Codec<Record>, r: Record) { |codec.encode(r)| <= 0x400_0000 }

  lemma NextHandles(codec: Wal.Codec<Record>, db: Db, c: Command)
    ensures Handled(codec, db, c, OutcomeOf(codec, db, c), Next(codec, db, c))
  {
    if c.DeleteCmd? && c.id !in db.vectors { assert OutcomeOf(codec, db, c) == Outcome.NotFound; }
  }

  /** A command is done exactly when its record fits the database and a frame. */
  lemma DoneIff(codec: Wal.Codec<Record>, db: Db, c: Command)
    requires !c.CheckpointCmd?
    ensures OutcomeOf(codec, db, c) == Done <==> Fits(db, RecordOf(c)) && Wal.Loggable(codec, RecordOf(c))
  {
  }

  /** Every command of a run is handled over the database its predecessors left. */
  ghost predicate AllHandled(codec: Wal.Codec<Record>, db: Db, cs: seq<Command>, answers: seq<Answer>, final: Db) {
    && |answers| == |cs| && Final(codec, db, cs) == final
    && forall i :: 0 <= i < |cs| ==> HandledAt(codec, db, cs, i, answers[i])
  }

  ghost predicate HandledAt(codec: Wal.Codec<Record>, db: Db, cs: seq<Command>, i: nat, a: Answer)
    requires i < |cs|
  {
    a.reply == cs[i].reply
    && Handled(codec, Final(codec, db, cs[..i]), cs[i], a.outcome, Final(codec, db, cs[..i + 1]))
  }

  lemma {:induction false} AnswersHandle(codec: Wal.Codec<Record>, db: Db, cs: seq<Command>)
    ensures AllHandled(codec, db, cs, Answers(codec, db, cs), Final(codec, db, cs))
  {
    hide Handled;
    forall i | 0 <= i < |cs| ensures HandledAt(codec, db, cs, i, Answers(codec, db, cs)[i]) {
      AnswerAt(codec, db, cs, i);
      assert cs[..i + 1][..i] == cs[..i];
      NextHandles(codec, Final(codec, db, cs[..i]), cs[i]);
    }
  }

  lemma {:induction false} AnswerAt(codec: Wal.Codec<Record>, db: Db, cs: seq<Command>, i: nat)
    requires i < |cs|
    ensures Answers(codec, db, cs)[i] == Answer(cs[i].reply, OutcomeOf(codec, Final(codec, db, cs[..i]), cs[i]))
  {
    var n := |cs| - 1;
    if i < n {
      AnswerAt(codec, db, cs[..n], i);
      assert cs[..n][..i] == cs[..i];
    }
  }

  // ---- The log between two rotations ----

  /** After `log`, which holds `entries`, replay reads whatever follows as if it stood alone. */
  ghost predicate Continues(codec: Wal.Codec<Record>, log: Bytes, entries: seq<Record>, tail: Bytes) {
    Wal.Replay(codec, log + tail).records == entries + Wal.Replay(codec, tail).records
  }

  /** The log holds `entries`, cleanly, and its first `ackLen` bytes the first `acked` of them. */
  ghost predicate LogHolds(codec: Wal.Codec<Record>, contents: Bytes, entries: seq<Record>, ackLen: nat, acked: nat) {
    && ackLen <= |contents| && acked <= |entries|
    && (forall tail :: Continues(codec, contents, entries, tail))
    && (forall tail :: Continues(codec, contents[..ackLen], entries[..acked], tail))
  }

  lemma CleanContinues(codec: Wal.Codec<Record>, log: Bytes, entries: seq<Record>)
    requires Wal.Replay(codec, log).records == entries && Wal.Replay(codec, log).stopped.None?
    ensures forall tail :: Continues(codec, log, entries, tail)
  {
    forall tail ensures Continues(codec, log, entries, tail) {
      Wal.ReplayConcat(codec, log, tail);
    }
  }

  lemma ContinuesReads(codec: Wal.Codec<Record>, log: Bytes, entries: seq<Record>)
    requires forall tail :: Continues(codec, log, entries, tail)
    ensures Wal.Replay(codec, log).records == entries
  {
    assert Continues(codec, log, entries, []);
    assert log + [] == log && entries + [] == entries;
  }

  /** Wherever the log is cut at or after `ackLen`, replay sees all acknowledged entries and invents none. */
  lemma CutKeepsAcked(codec: Wal.Codec<Record>, contents: Bytes, entries: seq<Record>, ackLen: nat, acked: nat, n: nat)
    requires LogHolds(codec, contents, entries, ackLen, acked) && ackLen <= n <= |contents|
    ensures Wal.Replay(codec, contents[..n]).records <= entries
    ensures acked <= |Wal.Replay(codec, contents[..n]).records|
  {
    ContinuesReads(codec, contents, entries);
    Wal.CutIsPrefix(codec, contents, n);
    assert contents[..n] == contents[..ackLen] + contents[ackLen..n];
    assert Continues(codec, contents[..ackLen], entries[..acked], contents[ackLen..n]);
  }

  lemma FrameContinues(codec: Wal.Codec<Record>, r: Record, tail: Bytes)
    requires Wal.Lossless(codec) && Wal.Loggable(codec, r)
    ensures Continues(codec, Wal.Frame(codec, r), [r], tail)
  {
    var frame := Wal.Frame(codec, r);
    Wal.FrameReads(codec, r, tail);
    assert (frame + tail)[|frame|..] == tail;
    Wal.ReplayCons(codec, frame + tail, r, |frame|);
  }

  lemma LogHoldsMore(codec: Wal.Codec<Record>, contents: Bytes, entries: seq<Record>, ackLen: nat, acked: nat,
                     r: Record)
    requires Wal.Lossless(codec) && Wal.Loggable(codec, r) && LogHolds(codec, contents, entries, ackLen, acked)
    ensures LogHolds(codec, contents + Wal.Frame(codec, r), entries + [r], ackLen, acked)
  {
    var frame := Wal.Frame(codec, r);
    forall tail ensures Continues(codec, contents + frame, entries + [r], tail) {
      assert Continues(codec, contents, entries, frame + tail);
      FrameContinues(codec, r, tail);
      Regroup(contents, frame, tail);
      Regroup(entries, [r], Wal.Replay(codec, tail).records);
    }
    assert (contents + frame)[..ackLen] == contents[..ackLen];
    assert (entries + [r])[..acked] == entries[..acked];
  }

  /** The directory `d`, its log torn at byte `n`, opens again, to a state no older than the `acked`-th record. */
  ghost predicate RecoversTo(fmt: Formats, dim: nat, d: Disk, n: nat, start: Db, journal: seq<Record>, acked: nat)
    requires n <= |LogBytes(d)|
  {
    Openable(fmt, dim, Torn(d, n)) &&
    exists k :: acked <= k <= |journal| && Recover(fmt, dim, Torn(d, n)) == Some(AppliedAll(start, journal[..k]))
  }

  /** The journal up to the last rotation is in the manifest, the rest in the log. */
  ghost predicate Journaled(fmt: Formats, dim: nat, d: Disk, start: Db, journal: seq<Record>, rot: nat, ackLen: nat,
                        acked: nat) {
    && Intact(fmt, d) && OpensClean(fmt, d) && rot <= acked <= |journal| && Valid(start, journal) && Backed(start)
    && Base(fmt, dim, d) == Some(AppliedAll(start, journal[..rot]))
    && LogHolds(fmt.log, LogBytes(d), journal[rot..], ackLen, acked - rot)
  }

  /** The torn log holds the journal up to some entry `k` at or after the last acknowledged one. */
  lemma TornLog(fmt: Formats, dim: nat, d: Disk, start: Db, journal: seq<Record>, rot: nat, ackLen: nat, acked: nat,
                n: nat)
    returns (k: nat)
    requires Journaled(fmt, dim, d, start, journal, rot, ackLen, acked) && ackLen <= n <= |LogBytes(d)|
    ensures rot <= k <= |journal| && acked <= k
    ensures Wal.Replay(fmt.log, LogBytes(d)[..n]).records == journal[rot..k]
  {
    k := TornEntries(fmt.log, LogBytes(d), journal, rot, ackLen, acked, n);
  }

  lemma TornEntries(codec: Wal.Codec<Record>, contents: Bytes, journal: seq<Record>, rot: nat, ackLen: nat,
                    acked: nat, n: nat)
    returns (k: nat)
    requires rot <= acked <= |journal| && LogHolds(codec, contents, journal[rot..], ackLen, acked - rot)
    requires ackLen <= n <= |contents|
    ensures rot <= k <= |journal| && acked <= k && Wal.Replay(codec, contents[..n]).records == journal[rot..k]
  {
    CutKeepsAcked(codec, contents, journal[rot..], ackLen, acked - rot, n);
    var rs := Wal.Replay(codec, contents[..n]).records;
    k := rot + |rs|;
    PrefixOfRest(journal, rot, rs);
  }

  lemma PrefixOfRest<T>(s: seq<T>, from: nat, part: seq<T>)
    requires from <= |s| && part <= s[from..]
    ensures from + |part| <= |s| && part == s[from..from + |part|]
  {
  }

  lemma PrefixSplits(start: Db, journal: seq<Record>, rot: nat, k: nat)
    requires Valid(start, journal) && rot <= k <= |journal|
    ensures Valid(AppliedAll(start, journal[..rot]), journal[rot..k])
    ensures AppliedAll(AppliedAll(start, journal[..rot]), journal[rot..k]) == AppliedAll(start, journal[..k])
  {
    PrefixReplays(start, journal, k);
    assert journal[..k] == journal[..rot] + journal[rot..k];
    AppliedConcat(start, journal[..rot], journal[rot..k]);
  }

  /** Wherever the crash tears the log, recovery gives the journal up to some entry past all acknowledged ones. */
  lemma CrashRecovers(fmt: Formats, dim: nat, d: Disk, start: Db, journal: seq<Record>, rot: nat, ackLen: nat,
                      acked: nat, n: nat)
    requires Journaled(fmt, dim, d, start, journal, rot, ackLen, acked) && ackLen <= n <= |LogBytes(d)|
    ensures RecoversTo(fmt, dim, d, n, start, journal, acked)
  {
    var k := TornLog(fmt, dim, d, start, journal, rot, ackLen, acked, n);
    CrashLeavesValidLog(fmt, dim, d, start, journal, rot, ackLen, acked, n);
    TornBase(fmt, dim, d, n);
    PrefixSplits(start, journal, rot, k);
    ReplayOfValid(AppliedAll(start, journal[..rot]), journal[rot..k]);
    assert Recover(fmt, dim, Torn(d, n)) == Some(AppliedAll(start, journal[..k]));
  }

  /** ... and leaves a directory the next writer can start from. */
  lemma CrashLeavesValidLog(fmt: Formats, dim: nat, d: Disk, start: Db, journal: seq<Record>, rot: nat, ackLen: nat,
                            acked: nat, n: nat)
    requires Journaled(fmt, dim, d, start, journal, rot, ackLen, acked) && ackLen <= n <= |LogBytes(d)|
    ensures Openable(fmt, dim, Torn(d, n))
    ensures Base(fmt, dim, Torn(d, n)) == Some(AppliedAll(start, journal[..rot]))
  {
    var k := TornLog(fmt, dim, d, start, journal, rot, ackLen, acked, n);
    TornBase(fmt, dim, d, n);
    PrefixSplits(start, journal, rot, k);
    StaysBacked(start, journal[..rot]);
  }

  // ---- The writer task ----

  /** Command `c` left its record at the end of the first `end` entries, past `floor`. */
  ghost predicate InJournal(journal: seq<Record>, c: Command, floor: int, end: nat) {
    !c.CheckpointCmd? && floor < end && 0 < end <= |journal| && journal[end - 1] == RecordOf(c)
  }

  /** Every answer went to its own command; what was answered Done is in the acknowledged journal. */
  ghost predicate Ledger(sent: seq<Answer>, served: seq<Command>, ends: seq<nat>, journal: seq<Record>, acked: nat) {
    && |sent| == |served| == |ends|
    && (forall i :: 0 <= i < |sent| ==> sent[i].reply == served[i].reply)
    && (forall i :: 0 <= i < |sent| && sent[i].outcome == Done ==>
          InJournal(journal, served[i], 0, ends[i]) && ends[i] <= acked)
  }

  lemma LedgerMore(sent: seq<Answer>, served: seq<Command>, ends: seq<nat>, journal: seq<Record>, acked: nat, r: Record)
    requires Ledger(sent, served, ends, journal, acked)
    ensures Ledger(sent, served, ends, journal + [r], acked)
  {
  }

  /** Commands executed but not yet answered, their results, and where each left the journal. */
  ghost predicate Waits(journal: seq<Record>, floor: int, cs: seq<Command>, results: seq<Outcome>, ends: seq<nat>) {
    && |cs| == |results| == |ends|
    && forall i :: 0 <= i < |cs| && results[i] == Done ==> InJournal(journal, cs[i], floor, ends[i])
  }

  /** An append moves the journal and the log on together. */
  lemma JournaledMore(fmt: Formats, dim: nat, d: Disk, start: Db, journal: seq<Record>, rot: nat, ackLen: nat,
                      acked: nat, r: Record)
    requires Wal.Lossless(fmt.log) && Wal.Loggable(fmt.log, r) && Fits(AppliedAll(start, journal), r)
    requires Journaled(fmt, dim, d, start, journal, rot, ackLen, acked)
    ensures Journaled(fmt, dim, WithLog(d, Wal.Frame(fmt.log, r)), start, journal + [r], rot, ackLen, acked)
    ensures AppliedAll(start, journal + [r]) == Applied(AppliedAll(start, journal), r)
  {
    WithLogIntact(fmt, dim, d, Wal.Frame(fmt.log, r));
    AppliedOneMore(start, journal, r);
    JournalLonger(fmt.log, LogBytes(d), journal, rot, ackLen, acked, r);
  }

  /** The journal past the rotation, and the log that holds it, grow by the same record. */
  lemma JournalLonger(codec: Wal.Codec<Record>, contents: Bytes, journal: seq<Record>, rot: nat, ackLen: nat,
                      acked: nat, r: Record)
    requires Wal.Lossless(codec) && Wal.Loggable(codec, r) && rot <= acked <= |journal|
    requires LogHolds(codec, contents, journal[rot..], ackLen, acked - rot)
    ensures LogHolds(codec, contents + Wal.Frame(codec, r), (journal + [r])[rot..], ackLen, acked - rot)
    ensures (journal + [r])[..rot] == journal[..rot]
  {
    SplitOneMore(journal, rot, r);
    LogHoldsMore(codec, contents, journal[rot..], ackLen, acked - rot, r);
  }

  lemma AppliedOneMore(start: Db, journal: seq<Record>, r: Record)
    requires Valid(start, journal) && Fits(AppliedAll(start, journal), r)
    ensures Valid(start, journal + [r]) && AppliedAll(start, journal + [r]) == Applied(AppliedAll(start, journal), r)
  {
    AppliedConcat(start, journal, [r]);
    assert [r][1..] == [];
  }

  lemma SplitOneMore<T>(s: seq<T>, k: nat, x: T)
    requires k <= |s|
    ensures (s + [x])[k..] == s[k..] + [x] && (s + [x])[..k] == s[..k]
  {
  }

  function Zip(cs: seq<nat>, results: seq<Outcome>): (r: seq<Answer>)
    requires |cs| == |results|
    ensures |r| == |cs| && forall i :: 0 <= i < |cs| ==> r[i] == Answer(cs[i], results[i])
  {
    seq(|cs|, i requires 0 <= i < |cs| => Answer(cs[i], results[i]))
  }

  function Replies(cs: seq<Command>): (r: seq<nat>)
    ensures |r| == |cs| && forall i :: 0 <= i < |cs| ==> r[i] == cs[i].reply
  {
    seq(|cs|, i requires 0 <= i < |cs| => cs[i].reply)
  }

  lemma {:induction false} DimOfAll(db: Db, rs: seq<Record>)
    ensures AppliedAll(db, rs).dim == db.dim
    decreases |rs|
  {
    if |rs| > 0 { DimOfAll(Applied(db, rs[0]), rs[1..]); }
  }

  lemma LedgerAcks(sent: seq<Answer>, served: seq<Command>, ends: seq<nat>, journal: seq<Record>, acked: nat,
                   floor: int, cs: seq<Command>, results: seq<Outcome>, at: seq<nat>)
    requires Ledger(sent, served, ends, journal, acked) && acked <= |journal|
    requires Waits(journal, floor, cs, results, at)
    ensures Ledger(sent + Zip(Replies(cs), results), served + cs, ends + at, journal, |journal|)
    ensures floor >= |journal| ==> Ledger(sent + Zip(Replies(cs), results), served + cs, ends + at, journal, acked)
  {
  }

  /** After a commit the whole log counts as acknowledged. */
  lemma JournaledAcks(fmt: Formats, dim: nat, d: Disk, start: Db, journal: seq<Record>, rot: nat, ackLen: nat,
                      acked: nat)
    requires Journaled(fmt, dim, d, start, journal, rot, ackLen, acked)
    ensures Journaled(fmt, dim, d, start, journal, rot, |LogBytes(d)|, |journal|)
  {
    assert LogBytes(d)[..|LogBytes(d)|] == LogBytes(d);
    assert journal[rot..][..|journal| - rot] == journal[rot..];
  }

  /** A directory that shows exactly the journal's state, with an empty log. */
  lemma JournaledAfresh(fmt: Formats, dim: nat, d: Disk, start: Db, journal: seq<Record>)
    requires Intact(fmt, d) && LogBytes(d) == [] && Recover(fmt, dim, d) == Some(AppliedAll(start, journal))
    requires Valid(start, journal) && OpensClean(fmt, d) && Backed(start)
    ensures Journaled(fmt, dim, d, start, journal, |journal|, 0, |journal|)
  {
    assert Wal.Replay(fmt.log, LogBytes(d)).records == [];
    CleanContinues(fmt.log, [], []);
    assert journal[..|journal|] == journal && journal[|journal|..] == [];
  }

  /** An opened directory: nothing is acknowledged yet, and nothing need be. */
  lemma JournaledAtStart(fmt: Formats, dim: nat, d: Disk, base: Db, log: seq<Record>)
    requires Intact(fmt, d) && OpensClean(fmt, d) && Base(fmt, dim, d) == Some(base) && Valid(base, log) && Backed(base)
    requires var r := Wal.Replay(fmt.log, LogBytes(d)); r.stopped.None? && r.records == log
    ensures Journaled(fmt, dim, d, base, log, 0, 0, 0)
  {
    CleanContinues(fmt.log, LogBytes(d), log);
    CleanContinues(fmt.log, [], []);
    assert LogBytes(d)[..0] == [] && log[..0] == [] && log[0..] == log;
  }

  lemma NothingServed(journal: seq<Record>)
    ensures Ledger([], [], [], journal, 0)
  {
  }

  /** The database, the answers and the commands answered, those still waiting included. */
  datatype Books = Books(db: Db, answers: seq<Answer>, commands: seq<Command>)

  /** `now` is what the first `i` commands of the batch make of `begun`. */
  ghost predicate Balanced(codec: Wal.Codec<Record>, begun: Books, batch: seq<Command>, i: nat, now: Books) {
    && i <= |batch|
    && now.db == Final(codec, begun.db, batch[..i]) && now.commands == begun.commands + batch[..i]
    && now.answers == begun.answers + Answers(codec, begun.db, batch[..i])
  }

  lemma BatchBegins(codec: Wal.Codec<Record>, begun: Books, batch: seq<Command>)
    ensures Balanced(codec, begun, batch, 0, Books(begun.db, begun.answers + Zip([], []), begun.commands + []))
  {
    assert batch[..0] == [] && Zip([], []) == [];
  }

  lemma BatchEnds(codec: Wal.Codec<Record>, begun: Books, batch: seq<Command>, now: Books)
    requires Balanced(codec, begun, batch, |batch|, now)
    ensures now.db == Final(codec, begun.db, batch) && now.commands == begun.commands + batch
    ensures now.answers == begun.answers + Answers(codec, begun.db, batch)
  {
    assert batch[..|batch|] == batch;
  }

  lemma NothingWaits(journal: seq<Record>, floor: int)
    ensures Waits(journal, floor, [], [], [])
  {
  }

  lemma OneServed(codec: Wal.Codec<Record>, begun: Books, batch: seq<Command>, i: nat, now: Books, next: Books)
    requires i < |batch| && Balanced(codec, begun, batch, i, now)
    requires next.db == Next(codec, now.db, batch[i]) && next.commands == now.commands + [batch[i]]
    requires next.answers == now.answers + [Answer(batch[i].reply, OutcomeOf(codec, now.db, batch[i]))]
    ensures Balanced(codec, begun, batch, i + 1, next)
  {
    var done := batch[..i + 1];
    assert done[..i] == batch[..i] && done == batch[..i] + [batch[i]];
    Regroup(begun.answers, Answers(codec, begun.db, batch[..i]),
            [Answer(batch[i].reply, OutcomeOf(codec, now.db, batch[i]))]);
    Regroup(begun.commands, batch[..i], [batch[i]]);
  }

  lemma NextBatch(codec: Wal.Codec<Record>, db: Db, cs: seq<Command>, i: nat, n: nat, sent: seq<Answer>,
                  served: seq<Command>)
    requires i + n <= |cs|
    ensures Final(codec, db, cs[..i + n]) == Final(codec, Final(codec, db, cs[..i]), cs[i..i + n])
    ensures sent + Answers(codec, db, cs[..i + n]) ==
      sent + Answers(codec, db, cs[..i]) + Answers(codec, Final(codec, db, cs[..i]), cs[i..i + n])
    ensures served + cs[..i + n] == served + cs[..i] + cs[i..i + n]
  {
    AnswersConcat(codec, db, cs[..i], cs[i..i + n]);
    assert cs[..i + n] == cs[..i] + cs[i..i + n];
    Regroup(sent, Answers(codec, db, cs[..i]), Answers(codec, Final(codec, db, cs[..i]), cs[i..i + n]));
    Regroup(served, cs[..i], cs[i..i + n]);
  }

  lemma {:induction false} AnswersConcat(codec: Wal.Codec<Record>, db: Db, a: seq<Command>, b: seq<Command>)
    ensures Final(codec, db, a + b) == Final(codec, Final(codec, db, a), b)
    ensures Answers(codec, db, a + b) == Answers(codec, db, a) + Answers(codec, Final(codec, db, a), b)
  {
    if |b| == 0 {
      assert a + b == a;
    } else {
      var n := |b| - 1;
      AnswersConcat(codec, db, a, b[..n]);
      assert (a + b)[..|a + b| - 1] == a + b[..n];
      Regroup(Answers(codec, db, a), Answers(codec, Final(codec, db, a), b[..n]),
              [Answer(b[n].reply, OutcomeOf(codec, Final(codec, db, a + b[..n]), b[n]))]);
    }
  }

  lemma WaitsMore(before: seq<Record>, journal: seq<Record>, floor: int, cs: seq<Command>, results: seq<Outcome>,
                  at: seq<nat>,
                  c: Command, o: Outcome)
    requires Waits(before, floor, cs, results, at) && before <= journal && floor <= |before|
    requires o == Done ==> !c.CheckpointCmd? && journal == before + [RecordOf(c)]
    ensures Waits(journal, floor, cs + [c], results + [o], at + [|journal|])
    ensures Zip(Replies(cs), results) + [Answer(c.reply, o)] == Zip(Replies(cs) + [c.reply], results + [o])
    ensures Replies(cs + [c]) == Replies(cs) + [c.reply]
  {
  }

  lemma LedgerCheckpoint(sent: seq<Answer>, served: seq<Command>, ends: seq<nat>, journal: seq<Record>, acked: nat,
                         reply: nat)
    requires Ledger(sent, served, ends, journal, acked) && acked <= |journal|
    ensures Ledger(sent + [Answer(reply, Checkpointed)], served + [CheckpointCmd(reply)], ends + [0], journal,
        |journal|)
  {
  }

  /** In each of these directories, wherever the log is torn past the acknowledged part, recovery is right. */
  ghost predicate CrashSafe(fmt: Formats, dim: nat, history: seq<Disk>, first: nat, ackLen: nat,
                            start: Db, journal: seq<Record>, acked: nat) {
    forall i, n :: first <= i < |history| && CutPast(ackLen, LogBytes(history[i]), n) ==>
      RecoversTo(fmt, dim, history[i], n, start, journal, acked)
  }

  predicate CutPast(ackLen: nat, log: Bytes, n: nat) { Min(ackLen, |log|) <= n <= |log| }

  /** Crashing inside a checkpoint: the old log up to the commit point, the image after it. */
  lemma CheckpointCrashes(fmt: Formats, dim: nat, d0: Disk, start: Db, journal: seq<Record>, rot: nat, ackLen: nat,
                          acked: nat, before: seq<Disk>, history: seq<Disk>, first: nat, db: Db, snapshot: seq<Source>)
    requires Journaled(fmt, dim, d0, start, journal, rot, ackLen, acked) && db == AppliedAll(start, journal)
    requires 0 < first <= |before| && before <= history
    requires StillReads(fmt, before, first - 1, d0) && Shows(fmt, dim, history, |before|, db)
    requires AllLoadAs(fmt, history, |before|, snapshot) && Clean(snapshot) && LosslessFormats(fmt)
    ensures CrashSafe(fmt, dim, history, first, ackLen, start, journal, acked)
  {
    forall i, n | first <= i < |history| && CutPast(ackLen, LogBytes(history[i]), n)
      ensures RecoversTo(fmt, dim, history[i], n, start, journal, acked)
    {
      if i < |before| {
        assert before[i] == history[i];
        JournaledElsewhere(fmt, dim, d0, history[i], start, journal, rot, ackLen, acked);
        CrashRecovers(fmt, dim, history[i], start, journal, rot, ackLen, acked, n);
      } else {
        CleanAgain(fmt, history[i], snapshot);
        JournaledAfresh(fmt, dim, history[i], start, journal);
        CrashRecovers(fmt, dim, history[i], start, journal, |journal|, 0, |journal|, n);
      }
    }
  }

  /** A directory that reads the same tells the same story. */
  lemma JournaledElsewhere(fmt: Formats, dim: nat, d: Disk, e: Disk, start: Db, journal: seq<Record>, rot: nat,
                           ackLen: nat, acked: nat)
    requires Journaled(fmt, dim, d, start, journal, rot, ackLen, acked) && SameReads(d, e) && Intact(fmt, e)
    ensures Journaled(fmt, dim, e, start, journal, rot, ackLen, acked)
  {
    SameBase(fmt, dim, d, e);
  }

  // ---- Every moment of a run ----

  /** All that a run has left so far: directories, records, answers and where each answer's record ends. */
  datatype Tale = Tale(history: seq<Disk>, journal: seq<Record>, sent: seq<Answer>, ends: seq<nat>)

  /**
   * A moment of the run: the number of the directory there was, the log bytes and the records that were
   * acknowledged, and how many records had been journaled and commands answered.
   */
  datatype Instant = Instant(at: nat, ackLen: nat, acked: nat, written: nat, replied: nat)

  /**
   * A crash then: wherever it tears the log past the acknowledged bytes, recovery gives the journal of the
   * moment up to some entry past all that had been answered Done.
   */
  ghost predicate Safe(fmt: Formats, dim: nat, start: Db, tale: Tale, x: Instant) {
    && x.at < |tale.history| && x.written <= |tale.journal| && x.replied <= |tale.sent| == |tale.ends|
    && Answered(tale, x) && TornSafely(fmt, dim, start, tale.history[x.at], tale.journal[..x.written], x)
  }

  ghost predicate Answered(tale: Tale, x: Instant)
    requires |tale.sent| == |tale.ends|
  {
    forall i :: 0 <= i < x.replied && i < |tale.sent| && tale.sent[i].outcome == Done ==> tale.ends[i] <= x.acked
  }

  ghost predicate TornSafely(fmt: Formats, dim: nat, start: Db, d: Disk, journal: seq<Record>, x: Instant) {
    forall n :: CutPast(x.ackLen, LogBytes(d), n) ==> RecoversTo(fmt, dim, d, n, start, journal, x.acked)
  }

  ghost predicate AllSafe(fmt: Formats, dim: nat, start: Db, tale: Tale, trail: seq<Instant>) {
    forall k :: 0 <= k < |trail| ==> Safe(fmt, dim, start, tale, trail[k])
  }

  /** No directory is left out between the first moment and the last. */
  ghost predicate Gapless(trail: seq<Instant>, last: int) {
    && trail != [] && trail[|trail| - 1].at == last
    && forall k :: 0 <= k < |trail| - 1 ==> trail[k].at <= trail[k + 1].at <= trail[k].at + 1
  }

  /** The run is safe at every moment, at every directory it has gone through. */
  ghost predicate Trailed(fmt: Formats, dim: nat, start: Db, tale: Tale, trail: seq<Instant>) {
    Gapless(trail, |tale.history| - 1) && AllSafe(fmt, dim, start, tale, trail)
  }

  ghost predicate Grows(a: Tale, b: Tale) {
    && a.history <= b.history && a.journal <= b.journal && a.sent <= b.sent && a.ends <= b.ends
    && |b.sent| == |b.ends|
  }

  /** What was safe stays so: the run only goes on. */
  lemma StillSafe(fmt: Formats, dim: nat, start: Db, a: Tale, b: Tale, x: Instant)
    requires Safe(fmt, dim, start, a, x) && Grows(a, b)
    ensures Safe(fmt, dim, start, b, x)
  {
    hide TornSafely;
    assert b.journal[..x.written] == a.journal[..x.written];
    forall i | 0 <= i < x.replied && b.sent[i].outcome == Done ensures b.ends[i] <= x.acked {
      assert a.sent[i] == b.sent[i] && a.ends[i] == b.ends[i];
    }
  }

  /** New moments join the trail. */
  lemma TrailOn(fmt: Formats, dim: nat, start: Db, a: Tale, b: Tale, trail: seq<Instant>, more: seq<Instant>)
    requires Trailed(fmt, dim, start, a, trail) && Grows(a, b) && AllSafe(fmt, dim, start, b, more)
    requires Gapless([trail[|trail| - 1]] + more, |b.history| - 1)
    ensures Trailed(fmt, dim, start, b, trail + more)
  {
    hide Safe;
    var all, m := trail + more, |trail|;
    forall k | 0 <= k < |all| ensures Safe(fmt, dim, start, b, all[k]) {
      if k < m { StillSafe(fmt, dim, start, a, b, trail[k]); }
    }
    forall k | 0 <= k < |all| - 1 ensures all[k].at <= all[k + 1].at <= all[k].at + 1 {
      if k >= m - 1 {
        var tail := [trail[m - 1]] + more;
        assert all[k] == tail[k - (m - 1)] && all[k + 1] == tail[k + 1 - (m - 1)];
      }
    }
    assert all[|all| - 1] == ([trail[m - 1]] + more)[|more|];
  }

  /** The moment itself is safe. */
  lemma NowSafe(fmt: Formats, dim: nat, start: Db, tale: Tale, served: seq<Command>, rot: nat, x: Instant)
    requires x.at == |tale.history| - 1 && x.written == |tale.journal| && x.replied == |tale.sent|
    requires Journaled(fmt, dim, tale.history[x.at], start, tale.journal, rot, x.ackLen, x.acked)
    requires Ledger(tale.sent, served, tale.ends, tale.journal, x.acked)
    ensures Safe(fmt, dim, start, tale, x)
  {
    hide RecoversTo;
    var d := tale.history[x.at];
    assert tale.journal[..x.written] == tale.journal;
    assert x.ackLen <= |LogBytes(d)|;
    hide Journaled;
    forall n | CutPast(x.ackLen, LogBytes(d), n) ensures RecoversTo(fmt, dim, d, n, start, tale.journal, x.acked) {
      CrashRecovers(fmt, dim, d, start, tale.journal, rot, x.ackLen, x.acked, n);
    }
  }

  /** An opened directory: nothing is acknowledged, and the trail begins. */
  lemma FirstMoment(fmt: Formats, dim: nat, history: seq<Disk>, base: Db, log: seq<Record>)
    requires history != [] && Valid(base, log) && Backed(base)
    requires var d := history[|history| - 1];
      && Intact(fmt, d) && OpensClean(fmt, d) && Base(fmt, dim, d) == Some(base)
      && Wal.Replay(fmt.log, LogBytes(d)).stopped.None? && Wal.Replay(fmt.log, LogBytes(d)).records == log
    ensures Journaled(fmt, dim, history[|history| - 1], base, log, 0, 0, 0) && Ledger([], [], [], log, 0)
    ensures Trailed(fmt, dim, base, Tale(history, log, [], []), [Instant(|history| - 1, 0, 0, |log|, 0)])
  {
    hide Journaled, Ledger, Safe;
    var d := history[|history| - 1];
    JournaledAtStart(fmt, dim, d, base, log);
    NothingServed(log);
    NowSafe(fmt, dim, base, Tale(history, log, [], []), [], 0, Instant(|history| - 1, 0, 0, |log|, 0));
  }

  /** The directories of a checkpoint, as moments. */
  ghost function Between(tale: Tale, before: nat, ackLen: nat, acked: nat): (r: seq<Instant>)
    requires before <= |tale.history|
    ensures |r| == |tale.history| - before
    ensures forall k :: 0 <= k < |r| ==> r[k] == Instant(before + k, ackLen, acked, |tale.journal|, |tale.sent|)
  {
    seq(|tale.history| - before, (k: nat) => Instant(before + k, ackLen, acked, |tale.journal|, |tale.sent|))
  }

  lemma CheckpointSafe(fmt: Formats, dim: nat, start: Db, tale: Tale, served: seq<Command>, before: nat, ackLen: nat,
                       acked: nat)
    requires before <= |tale.history| && CrashSafe(fmt, dim, tale.history, before, ackLen, start, tale.journal, acked)
    requires Ledger(tale.sent, served, tale.ends, tale.journal, acked)
    ensures AllSafe(fmt, dim, start, tale, Between(tale, before, ackLen, acked))
  {
    hide RecoversTo;
    var more := Between(tale, before, ackLen, acked);
    assert tale.journal[..|tale.journal|] == tale.journal;
    forall k | 0 <= k < |more| ensures Safe(fmt, dim, start, tale, more[k]) {
      assert more[k].at == before + k;
    }
  }

  /** A checkpoint is safe at each of its directories, and so is what it ends with. */
  lemma TrailThrough(fmt: Formats, dim: nat, start: Db, a: Tale, b: Tale, c: Tale, trail: seq<Instant>,
                     more: seq<Instant>, x: Instant)
    requires Trailed(fmt, dim, start, a, trail) && Grows(a, b) && Grows(b, c) && |c.history| == |b.history|
    requires |more| == |b.history| - |a.history| && forall k :: 0 <= k < |more| ==> more[k].at == |a.history| + k
    requires AllSafe(fmt, dim, start, b, more) && Safe(fmt, dim, start, c, x) && x.at == |c.history| - 1
    ensures Trailed(fmt, dim, start, c, trail + more + [x])
  {
    hide AllSafe, Safe;
    assert [trail[|trail| - 1]] + [] == [trail[|trail| - 1]];
    TrailOn(fmt, dim, start, a, b, trail, more);
    OneMoreSafe(fmt, dim, start, b, c, trail + more, x);
  }

  lemma OneMoreSafe(fmt: Formats, dim: nat, start: Db, a: Tale, b: Tale, trail: seq<Instant>, x: Instant)
    requires Trailed(fmt, dim, start, a, trail) && Grows(a, b) && Safe(fmt, dim, start, b, x)
    requires |a.history| <= |b.history| <= |a.history| + 1 && x.at == |b.history| - 1
    ensures Trailed(fmt, dim, start, b, trail + [x])
  {
    hide Safe;
    TrailOn(fmt, dim, start, a, b, trail, [x]);
  }

  lemma PickEntry(fmt: Formats, dim: nat, d: Disk, n: nat, start: Db, journal: seq<Record>, acked: nat) returns (k: nat)
    requires n <= |LogBytes(d)| && RecoversTo(fmt, dim, d, n, start, journal, acked)
    ensures acked <= k <= |journal| && Openable(fmt, dim, Torn(d, n))
    ensures Recover(fmt, dim, Torn(d, n)) == Some(AppliedAll(start, journal[..k]))
  {
    k :| acked <= k <= |journal| && Recover(fmt, dim, Torn(d, n)) == Some(AppliedAll(start, journal[..k]));
  }

  predicate Mentions(r: Record, id: Id) { r.id == id }

  /** So an acknowledged insert is in the recovered state, with its metadata, unless a later record names its id. */
  lemma {:induction false} InsertIsThere(start: Db, journal: seq<Record>, e: nat, k: nat)
    requires 0 < e <= k <= |journal| && journal[e - 1].Insert?
    requires forall j :: e <= j < k ==> !Mentions(journal[j], journal[e - 1].id)
    ensures var r, db := journal[e - 1], AppliedAll(start, journal[..k]);
      && r.id in db.vectors && db.vectors[r.id] == r.vec
      && (r.meta != map[] ==> r.id in db.metas && db.metas[r.id] == r.meta)
    decreases k
  {
    LastRecord(start, journal, k);
    if k > e {
      assert !Mentions(journal[k - 1], journal[e - 1].id);
      InsertIsThere(start, journal, e, k - 1);
    }
  }

  /** And an acknowledged delete stays deleted, metadata and all. */
  lemma {:induction false} DeleteIsGone(start: Db, journal: seq<Record>, e: nat, k: nat)
    requires 0 < e <= k <= |journal| && journal[e - 1].Delete? && Backed(start)
    requires forall j :: e <= j < k ==> !Mentions(journal[j], journal[e - 1].id)
    ensures var id, db := journal[e - 1].id, AppliedAll(start, journal[..k]);
      id !in db.vectors && id !in db.metas
    decreases k
  {
    LastRecord(start, journal, k);
    StaysBacked(start, journal[..k - 1]);
    if k > e {
      assert !Mentions(journal[k - 1], journal[e - 1].id);
      DeleteIsGone(start, journal, e, k - 1);
    }
  }

  lemma LastRecord(start: Db, journal: seq<Record>, k: nat)
    requires 0 < k <= |journal|
    ensures AppliedAll(start, journal[..k]) == Applied(AppliedAll(start, journal[..k - 1]), journal[k - 1])
  {
    AppliedConcat(start, journal[..k - 1], [journal[k - 1]]);
    assert journal[..k] == journal[..k - 1] + [journal[k - 1]];
    assert [journal[k - 1]][1..] == [];
  }
}
