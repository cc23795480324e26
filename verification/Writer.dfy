/**
 * The single writer over the segmented index: batches of commands, one commit per batch, replies in
 * order, checkpoints in between, sealing and merging beside it all -- and what a crash at any moment,
 * and the reopening after it, leave of what was answered.
 */
module Writer {
  import opened Prelude
  import opened Meta
  import opened Store
  import opened StoreInvariants
  import opened StoreRuns
  import opened StoreWorkers
  import opened StoreFrames
  import opened Records
  import opened Disk
  import opened Checkpoint
  import opened Segmented
  import opened Derived
  import opened Recovery
  import opened Journal
  import Wal

  const MAX_BATCH: nat := 256

  class Writer {
    const dir: DataDirectory
    const index: SegmentedIndex
    const meta: MetadataIndex
    var wal: Wal.WalFile<Record>
    var sent: seq<Answer>
    ghost var db: Db                // the database the index and the metadata stand for
    ghost const start: Db           // what the directory recovered to when the writer started
    ghost var journal: seq<Record>  // every record since, in order
    ghost var rot: nat              // how many of them the last checkpoint took in
    ghost var ackLen: nat           // log length at the last reply
    ghost var acked: nat            // journal length at the last reply
    ghost var served: seq<Command>  // the commands answered so far
    ghost var ends: seq<nat>        // for each, the journal length right after it
    ghost var trail: seq<Instant>   // every moment so far

    /** The directory and the open log are in order and belong together. */
    ghost predicate StorageOk()
      reads this`wal, this`db, dir, wal
    {
      && dir.Valid() && dir.hot && wal.Valid() && wal.codec == dir.fmt.log
      && LogBytes(dir.disk) == wal.contents && start.dim == dir.dim == db.dim
    }

    /** Index and metadata hold the database, and the segments on file are marked as such. */
    ghost predicate MemoryOk()
      reads this`db, dir`stored, dir`contents, index, meta, meta.metadata, meta.numeric.Values
    {
      Mirrors(index, meta, db) && MarksMatch(dir, index.Sources())
    }

    /** Manifest and log tell the same story. */
    ghost predicate HistoryOk()
      reads this`db, this`journal, this`rot, this`ackLen, this`acked, dir`disk
    {
      && Journaled(dir.fmt, dir.dim, dir.disk, start, journal, rot, ackLen, acked)
      && db == AppliedAll(start, journal)
    }

    /** What was answered is as durable as the policy promises. */
    ghost predicate PromisesOk()
      reads this`wal, this`journal, this`ackLen, this`acked, this`sent, this`served, this`ends, wal
    {
      && |wal.appended| <= |journal| && acked <= |journal|
      && ackLen <= wal.handed && (!wal.policy.NoSync? ==> ackLen <= wal.synced)
      && Ledger(sent, served, ends, journal, acked)
    }

    ghost function SoFar(): Tale
      reads this`journal, this`sent, this`ends, dir`history
    {
      Tale(dir.history, journal, sent, ends)
    }

    /** A crash was, or is, safe at every moment of the run. */
    ghost predicate TrailOk()
      reads this`journal, this`sent, this`ends, this`trail, dir`history
    {
      Trailed(dir.fmt, dir.dim, start, SoFar(), trail)
    }

    ghost predicate Running()
      reads this, dir, wal, index, meta, meta.metadata, meta.numeric.Values
    {
      StorageOk() && MemoryOk() && HistoryOk() && PromisesOk() && TrailOk()
    }

    /** The moment that is. */
    ghost function Now(): Instant
      reads this`journal, this`ackLen, this`acked, this`sent, dir`history
      requires dir.history != []
    {
      Instant(|dir.history| - 1, ackLen, acked, |journal|, |sent|)
    }

    /** The run has gone on: what is new is new, and no moment is forgotten. */
    twostate predicate GoneOn()
      reads this, wal, meta
    {
      && (wal == old(wal) || fresh(wal)) && wal.policy == old(wal.policy)
      && fresh(meta.numeric.Values - old(meta.numeric.Values)) && old(trail) <= trail
    }

    /**
     * Starts on an opened directory: `base` is the manifest's database, `log` what its log replays to,
     * `index` and `meta` what the replay has made of them.
     */
    constructor (dir: DataDirectory, index: SegmentedIndex, meta: MetadataIndex,
                 ghost base: Db, ghost log: seq<Record>, durable: nat, policy: Wal.SyncPolicy)
      requires dir.Valid() && dir.hot && Base(dir.fmt, dir.dim, dir.disk) == Some(base) && OpensClean(dir.fmt, dir.disk)
      requires var r := Wal.Replay(dir.fmt.log, LogBytes(dir.disk)); r.stopped.None? && r.records == log
      requires Records.Valid(base, log) && Backed(base) && durable <= |LogBytes(dir.disk)| && base.dim == dir.dim
      requires Mirrors(index, meta, AppliedAll(base, log)) && MarksMatch(dir, index.Sources())
      ensures Running() && this.dir == dir && this.index == index && this.meta == meta
      ensures wal.policy == policy && fresh(wal)
      ensures db == AppliedAll(base, log) && start == base && journal == log && sent == []
      ensures trail == [Now()]
    {
      hide Intact, Harmless, Marks;
      this.dir, this.index, this.meta, db, sent := dir, index, meta, AppliedAll(base, log), [];
      start, journal, rot, ackLen, acked, served, ends := base, log, 0, 0, 0, [], [];
      wal := new Wal.WalFile<Record>.OpenAppend(dir.fmt.log, LogBytes(dir.disk), durable, policy);
      trail := [Instant(|dir.history| - 1, 0, 0, |log|, 0)];
      new;
      hide Running, Mirrors, MarksMatch, OpensClean, DataDirectory.Valid, Records.Valid, AppliedAll, Wal.WalFile.Valid;
      hide Base, Backed, Wal.Replay;
      Starts();
    }

    /** On a directory whose log has been replayed, the writer is in order before its first command. */
    lemma Starts()
      requires dir.Valid() && dir.hot && Base(dir.fmt, dir.dim, dir.disk) == Some(start)
        && OpensClean(dir.fmt, dir.disk)
      requires var r := Wal.Replay(dir.fmt.log, LogBytes(dir.disk)); r.stopped.None? && r.records == journal
      requires Records.Valid(start, journal) && Backed(start) && start.dim == dir.dim
      requires db == AppliedAll(start, journal) && Mirrors(index, meta, db) && MarksMatch(dir, index.Sources())
      requires wal.Valid() && wal.codec == dir.fmt.log && wal.contents == LogBytes(dir.disk) && wal.appended == []
      requires rot == ackLen == acked == 0 && sent == [] && served == [] && ends == []
      requires trail == [Instant(|dir.history| - 1, 0, 0, |journal|, 0)]
      ensures Running()
    {
      hide Mirrors, MarksMatch, Journaled, Ledger, Trailed, OpensClean, Intact, DataDirectory.Valid, LosslessFormats;
      hide Records.Valid, AppliedAll, Base, Backed;
      DimOfAll(start, journal);
      dir.LastIsNow();
      FirstMoment(dir.fmt, dir.dim, dir.history, start, journal);
    }

    // ---- Writes ----

    /** Validates an insert or a delete; other threads run. */
    method Check(c: Command) returns (refused: Option<Outcome>)
      requires Running() && !c.CheckpointCmd?
      modifies index
      ensures Running() && (refused.Some? ==> refused.value != Done && refused.value == OutcomeOf(dir.fmt.log, db, c))
      ensures refused.None? ==> Fits(db, RecordOf(c)) && index.Stands(Checked(RecordOf(c)))
    {
      hide Journaled, Ledger, Trailed, MarksMatch, Descends, DataDirectory.Valid, Wal.WalFile.Valid;
      hide MetadataIndex.Settled, StoreFrames.Sound;
      ghost var from := index.Sources();
      match c {
        case InsertCmd(id, v, _, _) =>
          var status := index.ValidateInsert(id, v);
          refused := match status
            case DimensionMismatch => Some(Outcome.WrongDimension)
            case DuplicateId => Some(Outcome.Duplicate)
            case _ => None;
        case DeleteCmd(id, _) =>
          var live := index.ContainsLive(id);
          refused := if live then None else Some(Outcome.NotFound);
      }
      MarksStillFit(dir, from, index.Sources());
    }

    /** Executes an insert or a delete: validate, append, apply. Nothing is answered yet. */
    method Execute(c: Command) returns (o: Outcome)
      requires Running() && !c.CheckpointCmd?
      modifies this`db, this`journal, this`trail, dir`disk, dir`history, wal, index
      modifies meta, meta.metadata, meta.numeric.Values
      ensures Running() && o == OutcomeOf(dir.fmt.log, old(db), c) && db == Next(dir.fmt.log, old(db), c)
      ensures journal == old(journal) + if o == Done then [RecordOf(c)] else []
      ensures wal.appended == old(wal.appended) + if o == Done then [RecordOf(c)] else []
      ensures wal.policy == old(wal.policy)
      ensures fresh(meta.numeric.Values - old(meta.numeric.Values)) && old(trail) <= trail
    {
      hide Running;
      var refused := Check(c);
      if refused.Some? { return refused.value; }
      var due: bool, spilled: nat := *, *;
      var ok := LogAndApply(RecordOf(c), due, spilled);
      o := if ok then Done else TooLarge;
    }

    /** Write-ahead: the record goes to the log, then to memory; an oversized one goes nowhere. */
    method LogAndApply(rec: Record, due: bool, spilled: nat) returns (ok: bool)
      requires Running() && Fits(db, rec) && index.Stands(Checked(rec))
      modifies this`db, this`journal, this`trail, dir`disk, dir`history, wal, index
      modifies meta, meta.metadata, meta.numeric.Values
      ensures Running() && ok == Wal.Loggable(dir.fmt.log, rec)
      ensures db == if ok then Applied(old(db), rec) else old(db)
      ensures journal == old(journal) + if ok then [rec] else []
      ensures wal.appended == old(wal.appended) + if ok then [rec] else []
      ensures wal.policy == old(wal.policy)
      ensures fresh(meta.numeric.Values - old(meta.numeric.Values)) && old(trail) <= trail
    {
      hide Journaled, Ledger, Trailed, Mirrors, MarksMatch, DataDirectory.Valid, StoreFrames.Sound, Fits;
      hide Wal.Loggable, Wal.WalFile.Valid, AppliedAll;
      ok := AppendRecord(rec, due, spilled);
      if ok { Remember(rec); }
    }

    method AppendRecord(rec: Record, due: bool, spilled: nat) returns (ok: bool)
      requires Running() && Fits(db, rec)
      modifies this`journal, this`trail, dir`disk, dir`history, wal
      ensures StorageOk() && MemoryOk() && PromisesOk() && TrailOk() && ok == Wal.Loggable(dir.fmt.log, rec)
      ensures Journaled(dir.fmt, dir.dim, dir.disk, start, journal, rot, ackLen, acked)
      ensures AppliedAll(start, journal) == if ok then Applied(db, rec) else db
      ensures journal == old(journal) + if ok then [rec] else []
      ensures wal.appended == old(wal.appended) + if ok then [rec] else []
      ensures wal.policy == old(wal.policy) && old(trail) <= trail
    {
      hide Journaled, Ledger, Trailed, Mirrors, MarksMatch, DataDirectory.Valid, Fits;
      hide Wal.Loggable, Wal.Frame, AppliedAll, Applied;
      ok := wal.Append(rec, due, spilled);
      if ok { LogRecord(rec); }
    }

    /** The directory, the journal and the trail follow an append. */
    method LogRecord(rec: Record)
      requires dir.Valid() && HistoryOk() && TrailOk() && Fits(db, rec) && Wal.Loggable(dir.fmt.log, rec)
      requires Ledger(sent, served, ends, journal, acked) && MemoryOk()
      modifies this`journal, this`trail, dir`disk, dir`history
      ensures dir.Valid() && LogBytes(dir.disk) == old(LogBytes(dir.disk)) + Wal.Frame(dir.fmt.log, rec)
      ensures journal == old(journal) + [rec] && AppliedAll(start, journal) == Applied(db, rec) && MemoryOk()
      ensures Journaled(dir.fmt, dir.dim, dir.disk, start, journal, rot, ackLen, acked)
      ensures Ledger(sent, served, ends, journal, acked) && TrailOk() && old(trail) <= trail
    {
      hide Journaled, Ledger, Trailed, Safe, Mirrors, MarksMatch, Fits;
      ghost var before := SoFar();
      JournaledMore(dir.fmt, dir.dim, dir.disk, start, journal, rot, ackLen, acked, rec);
      LedgerMore(sent, served, ends, journal, acked, rec);
      dir.AppendLog(Wal.Frame(dir.fmt.log, rec), index.Sources());
      journal := journal + [rec];
      NowSafe(dir.fmt, dir.dim, start, SoFar(), served, rot, Now());
      OneMoreSafe(dir.fmt, dir.dim, start, before, SoFar(), trail, Now());
      trail := trail + [Now()];
    }

    /** The in-memory side, past the log. */
    method Remember(rec: Record)
      requires MemoryOk() && Fits(db, rec) && index.Stands(Checked(rec))
      modifies this`db, index, meta, meta.metadata, meta.numeric.Values
      ensures MemoryOk() && db == Applied(old(db), rec) && fresh(meta.numeric.Values - old(meta.numeric.Values))
    {
      hide Mirrors, MarksMatch, Descends, StoreFrames.Sound, Fits;
      ghost var from := index.Sources();
      ApplyRecord(index, meta, rec, db);
      db := Applied(db, rec);
      MarksStillFit(dir, from, index.Sources());
    }

    // ---- Replies ----

    /** End of a batch: commit first, then every pending reply, in order. */
    method Reply(pending: seq<nat>, results: seq<Outcome>, ghost cs: seq<Command>, ghost at: seq<nat>)
      requires Running() && pending == Replies(cs)
      requires Waits(journal, |journal| - |wal.appended|, cs, results, at)
      modifies this`sent, this`served, this`ends, this`acked, this`ackLen, this`trail, wal`handed, wal`synced, wal`dirty
      ensures Running() && sent == old(sent) + Zip(pending, results) && served == old(served) + cs
      ensures (wal.appended != [] ==> acked == |journal|) && old(trail) <= trail
    {
      hide Running;
      CommitLog();
      AnswerAll(pending, results, cs, at);
    }

    /** `commit_wal`. */
    method CommitLog()
      requires Running()
      modifies wal`handed, wal`synced, wal`dirty
      ensures Running() && Committed()
    {
      hide Journaled, Ledger, Trailed, Mirrors, MarksMatch, DataDirectory.Valid;
      wal.Commit();
    }

    /** What has been appended is as durable as it will be. */
    ghost predicate Committed()
      reads this`wal, wal
    {
      wal.appended != [] ==> |wal.contents| <= wal.handed && (!wal.policy.NoSync? ==> |wal.contents| <= wal.synced)
    }

    /** What the commit has made durable is answered for. */
    method AnswerAll(pending: seq<nat>, results: seq<Outcome>, ghost cs: seq<Command>, ghost at: seq<nat>)
      requires Running() && Committed() && pending == Replies(cs)
      requires Waits(journal, |journal| - |wal.appended|, cs, results, at)
      modifies this`sent, this`served, this`ends, this`acked, this`ackLen, this`trail
      ensures Running() && sent == old(sent) + Zip(pending, results) && served == old(served) + cs
      ensures (wal.appended != [] ==> acked == |journal|) && old(trail) <= trail
    {
      hide Journaled, Ledger, Waits, Trailed, Safe, Mirrors, MarksMatch, DataDirectory.Valid, Wal.WalFile.Valid;
      ghost var before := SoFar();
      SendAll(pending, results, cs, at);
      if wal.appended != [] { Acknowledge(); }
      Witness(before);
    }

    /** The replies go out and are entered in the ledger. */
    method SendAll(pending: seq<nat>, results: seq<Outcome>, ghost cs: seq<Command>, ghost at: seq<nat>)
      requires pending == Replies(cs) && acked <= |journal| && |wal.appended| <= |journal|
      requires Ledger(sent, served, ends, journal, acked)
      requires Waits(journal, |journal| - |wal.appended|, cs, results, at)
      modifies this`sent, this`served, this`ends
      ensures sent == old(sent) + Zip(pending, results) && served == old(served) + cs && ends == old(ends) + at
      ensures Ledger(sent, served, ends, journal, |journal|)
      ensures wal.appended == [] ==> Ledger(sent, served, ends, journal, acked)
    {
      LedgerAcks(sent, served, ends, journal, acked, |journal| - |wal.appended|, cs, results, at);
      served, ends := served + cs, ends + at;
      Send(pending, results);
    }

    /** Everything appended is committed, so everything counts as acknowledged from here on. */
    ghost method Acknowledge()
      requires StorageOk() && HistoryOk() && |wal.appended| <= |journal|
      requires |wal.contents| <= wal.handed && (!wal.policy.NoSync? ==> |wal.contents| <= wal.synced)
      requires Ledger(sent, served, ends, journal, |journal|)
      modifies this`acked, this`ackLen
      ensures HistoryOk() && PromisesOk() && acked == |journal|
    {
      hide Journaled, Ledger, DataDirectory.Valid, Wal.WalFile.Valid;
      JournaledAcks(dir.fmt, dir.dim, dir.disk, start, journal, rot, ackLen, acked);
      ackLen, acked := |wal.contents|, |journal|;
    }

    /** The moment after the replies joins the trail. */
    ghost method Witness(before: Tale)
      requires dir.Valid() && HistoryOk() && Ledger(sent, served, ends, journal, acked)
      requires Trailed(dir.fmt, dir.dim, start, before, trail) && Grows(before, SoFar())
        && before.history == dir.history
      modifies this`trail
      ensures TrailOk() && old(trail) <= trail
    {
      hide Journaled, Ledger, Trailed, Safe;
      NowSafe(dir.fmt, dir.dim, start, SoFar(), served, rot, Now());
      OneMoreSafe(dir.fmt, dir.dim, start, before, SoFar(), trail, Now());
      trail := trail + [Now()];
    }

    /** The drain: results go to their senders pairwise. */
    method Send(pending: seq<nat>, results: seq<Outcome>)
      requires |pending| == |results|
      modifies this`sent
      ensures sent == old(sent) + Zip(pending, results)
    {
      for i := 0 to |pending|
        invariant sent == old(sent) + Zip(pending, results)[..i]
      {
        sent := sent + [Answer(pending[i], results[i])];
      }
      assert Zip(pending, results)[..|pending|] == Zip(pending, results);
    }

    // ---- Checkpoints ----

    /** The segment list a settled index shows: clean, with exactly the live map in it. */
    ghost predicate MayShow(snapshot: seq<Source>)
      reads this`db, dir`stored, dir`contents
    {
      Distinct(snapshot) && Clean(snapshot) && LiveMap(snapshot) == db.vectors && dir.AllMarksFit(snapshot)
    }

    /** The directory part: afterwards the manifest alone holds the whole journal. */
    method Rotate(snapshot: seq<Source>)
      requires StorageOk() && HistoryOk() && MayShow(snapshot) && Mirrors(index, meta, db)
      modifies dir
      ensures dir.Valid() && LogBytes(dir.disk) == []
      ensures Journaled(dir.fmt, dir.dim, dir.disk, start, journal, |journal|, 0, |journal|)
      ensures old(dir.history) <= dir.history
      ensures CrashSafe(dir.fmt, dir.dim, dir.history, |old(dir.history)|, ackLen, start, journal, acked)
      ensures dir.AllMarksFit(snapshot) && dir.stored.Keys == Uids(snapshot)
    {
      ghost var d0 := dir.disk;
      var entries := meta.metadata.Snapshot();
      ghost var before := dir.Checkpoint(snapshot, entries);
      CheckpointCrashes(dir.fmt, dir.dim, d0, start, journal, rot, ackLen, acked, before, dir.history,
          |old(dir.history)|, db, snapshot);
      CleanAgain(dir.fmt, dir.disk, snapshot);
      JournaledAfresh(dir.fmt, dir.dim, dir.disk, start, journal);
    }

    /**
     * A checkpoint between batches: the index is sealed and settles, its segments are written while
     * merges may already go on, and the log starts afresh. At every directory on the way, a crash
     * recovers to the journal up to some entry past all acknowledged ones.
     */
    method TakeCheckpoint(reply: nat)
      requires Running()
      modifies this, dir, index
      ensures Running() && fresh(wal) && wal.policy == old(wal.policy) && old(trail) <= trail
      ensures db == old(db) && journal == old(journal) && acked == |journal| && wal.appended == []
      ensures sent == old(sent) + [Answer(reply, Checkpointed)] && served == old(served) + [CheckpointCmd(reply)]
      ensures old(dir.history) <= dir.history
      ensures CrashSafe(dir.fmt, dir.dim, dir.history, |old(dir.history)|, old(ackLen), start, journal, old(acked))
    {
      hide Journaled, Ledger, Trailed, Mirrors, MarksMatch, MayShow, CrashSafe;
      hide DataDirectory.Valid, Wal.WalFile.Valid;
      ghost var before, ackedLen, ackedRecords, known := SoFar(), ackLen, acked, served;
      var snapshot := Settle();
      Persist(snapshot);
      ghost var mid := SoFar();
      Restart(reply);
      WitnessCheckpoint(before, mid, ackedLen, ackedRecords, known);
    }

    /** The index comes to rest and shows its segments. */
    method Settle() returns (snapshot: seq<Source>)
      requires Running()
      modifies index
      ensures Running() && MayShow(snapshot)
      ensures index.Sources().stack == snapshot && Below(snapshot, index.Sources().next)
    {
      hide Journaled, Ledger, Trailed, MarksMatch, Descends, DataDirectory.Valid, Wal.WalFile.Valid;
      hide MetadataIndex.Settled, StoreFrames.Sound;
      ghost var from := index.Sources();
      snapshot := index.SettleDown();
      MarksStillFit(dir, from, index.Sources());
      index.SettledSegments();
      MarksOfSegments(dir, index.Sources());
    }

    /** What the settled index shows goes to disk, and its segments are marked. */
    method Persist(snapshot: seq<Source>)
      requires StorageOk() && HistoryOk() && MemoryOk() && MayShow(snapshot)
      requires index.Sources().stack == snapshot && Below(snapshot, index.Sources().next)
      modifies dir, index
      ensures dir.Valid() && LogBytes(dir.disk) == [] && MemoryOk() && old(dir.history) <= dir.history
      ensures Journaled(dir.fmt, dir.dim, dir.disk, start, journal, |journal|, 0, |journal|)
      ensures CrashSafe(dir.fmt, dir.dim, dir.history, |old(dir.history)|, ackLen, start, journal, acked)
    {
      hide Journaled, Mirrors, MarksMatch, MayShow, CrashSafe, Descends, DataDirectory.Valid, Wal.WalFile.Valid;
      ghost var stock := index.Sources();
      LetOthersRun();
      Rotate(snapshot);
      MarksAfresh(dir, stock);
      MarksStillFit(dir, stock, index.Sources());
    }

    /** Merges may go on while the segments are written. */
    method LetOthersRun()
      requires Mirrors(index, meta, db)
      modifies index
      ensures Mirrors(index, meta, db) && Descends(old(index.Sources()), index.Sources())
    {
      hide Descends, StoreFrames.Sound, View;
      index.Others(Idle);
    }

    /** A fresh log, and the checkpoint's own reply. */
    method Restart(reply: nat)
      requires dir.Valid() && dir.hot && LogBytes(dir.disk) == [] && start.dim == dir.dim == db.dim
      requires Journaled(dir.fmt, dir.dim, dir.disk, start, journal, |journal|, 0, |journal|)
      requires db == AppliedAll(start, journal)
      requires Ledger(sent, served, ends, journal, acked) && acked <= |journal|
      modifies this`wal, this`sent, this`served, this`ends, this`rot, this`ackLen, this`acked
      ensures StorageOk() && HistoryOk() && PromisesOk() && Grows(old(SoFar()), SoFar())
      ensures fresh(wal) && wal.policy == old(wal.policy) && wal.appended == [] && acked == |journal|
      ensures sent == old(sent) + [Answer(reply, Checkpointed)] && served == old(served) + [CheckpointCmd(reply)]
    {
      hide Journaled, Intact, Harmless, Marks;
      LedgerCheckpoint(sent, served, ends, journal, acked, reply);
      sent, served, ends := sent + [Answer(reply, Checkpointed)], served + [CheckpointCmd(reply)], ends + [0];
      wal := new Wal.WalFile<Record>.OpenAppend(dir.fmt.log, [], 0, wal.policy);
      rot, ackLen, acked := |journal|, 0, |journal|;
    }

    /** Every directory of the checkpoint joins the trail, and the moment after it. */
    ghost method WitnessCheckpoint(before: Tale, mid: Tale, ackedLen: nat, ackedRecords: nat, known: seq<Command>)
      requires Trailed(dir.fmt, dir.dim, start, before, trail) && Grows(mid, SoFar())
      requires before.history <= mid.history && mid == before.(history := mid.history)
      requires dir.Valid() && HistoryOk() && Ledger(sent, served, ends, journal, acked)
      requires mid.history == dir.history && mid.journal == journal
      requires Ledger(mid.sent, known, mid.ends, mid.journal, ackedRecords)
      requires CrashSafe(dir.fmt, dir.dim, mid.history, |before.history|, ackedLen, start, mid.journal, ackedRecords)
      modifies this`trail
      ensures TrailOk() && old(trail) <= trail
    {
      hide Journaled, Trailed, Safe, CrashSafe;
      ghost var more := Between(mid, |before.history|, ackedLen, ackedRecords);
      CheckpointSafe(dir.fmt, dir.dim, start, mid, known, |before.history|, ackedLen, ackedRecords);
      NowSafe(dir.fmt, dir.dim, start, SoFar(), served, rot, Now());
      TrailThrough(dir.fmt, dir.dim, start, before, mid, SoFar(), trail, more, Now());
      trail := trail + more + [Now()];
    }

    // ---- The loop ----

    /** One command of a batch; what is not answered yet is carried along. */
    method Handle(c: Command, pending: seq<nat>, results: seq<Outcome>, ghost cs: seq<Command>, ghost at: seq<nat>)
      returns (pending': seq<nat>, results': seq<Outcome>, ghost cs': seq<Command>, ghost at': seq<nat>)
      requires Running() && pending == Replies(cs)
      requires Waits(journal, |journal| - |wal.appended|, cs, results, at)
      modifies this, dir, wal, index, meta, meta.metadata, meta.numeric.Values
      ensures Running() && GoneOn()
      ensures pending' == Replies(cs') && Waits(journal, |journal| - |wal.appended|, cs', results', at')
      ensures db == Next(dir.fmt.log, old(db), c)
      ensures sent + Zip(pending', results') ==
        old(sent) + Zip(pending, results) + [Answer(c.reply, OutcomeOf(dir.fmt.log, old(db), c))]
      ensures served + cs' == old(served) + cs + [c]
    {
      hide Running;
      if c.CheckpointCmd? {
        HandleCheckpoint(c, pending, results, cs, at);
        pending', results', cs', at' := [], [], [], [];
        NothingWaits(journal, |journal| - |wal.appended|);
      } else {
        pending', results', cs', at' := HandleWrite(c, pending, results, cs, at);
      }
    }

    /** Everything waiting is committed and answered first. */
    method HandleCheckpoint(c: Command, pending: seq<nat>, results: seq<Outcome>, ghost cs: seq<Command>,
                            ghost at: seq<nat>)
      requires Running() && pending == Replies(cs) && c.CheckpointCmd?
      requires Waits(journal, |journal| - |wal.appended|, cs, results, at)
      modifies this, dir, wal, index
      ensures Running() && GoneOn() && wal.appended == [] && db == old(db)
      ensures sent == old(sent) + Zip(pending, results) + [Answer(c.reply, Checkpointed)]
      ensures served == old(served) + cs + [c]
    {
      hide Running, CrashSafe;
      Reply(pending, results, cs, at);
      TakeCheckpoint(c.reply);
    }

    method HandleWrite(c: Command, pending: seq<nat>, results: seq<Outcome>, ghost cs: seq<Command>, ghost at: seq<nat>)
      returns (pending': seq<nat>, results': seq<Outcome>, ghost cs': seq<Command>, ghost at': seq<nat>)
      requires Running() && pending == Replies(cs) && !c.CheckpointCmd?
      requires Waits(journal, |journal| - |wal.appended|, cs, results, at)
      modifies this`db, this`journal, this`trail, dir`disk, dir`history, wal, index
      modifies meta, meta.metadata, meta.numeric.Values
      ensures Running() && GoneOn()
      ensures pending' == Replies(cs') && Waits(journal, |journal| - |wal.appended|, cs', results', at')
      ensures db == Next(dir.fmt.log, old(db), c)
      ensures Zip(pending', results') == Zip(pending, results) + [Answer(c.reply, OutcomeOf(dir.fmt.log, old(db), c))]
      ensures cs' == cs + [c]
    {
      hide Running;
      ghost var before := journal;
      var o := Execute(c);
      pending', results', cs', at' := pending + [c.reply], results + [o], cs + [c], at + [|journal|];
      WaitsMore(before, journal, |journal| - |wal.appended|, cs, results, at, c, o);
    }

    /** End of a batch: the commit and the replies, if anything is waiting for one. */
    method Close(pending: seq<nat>, results: seq<Outcome>, ghost cs: seq<Command>, ghost at: seq<nat>)
      requires Running() && pending == Replies(cs)
      requires Waits(journal, |journal| - |wal.appended|, cs, results, at)
      modifies this`sent, this`served, this`ends, this`acked, this`ackLen, this`trail, wal`handed, wal`synced, wal`dirty
      ensures Running() && sent == old(sent) + Zip(pending, results) && served == old(served) + cs
      ensures old(trail) <= trail
    {
      hide Running;
      if |pending| > 0 {
        Reply(pending, results, cs, at);
      } else {
        assert cs == [] && Zip(pending, results) == [];
      }
    }

    /** A batch: every command in turn, one commit at the end, then the replies. */
    method Batch(batch: seq<Command>)
      requires Running() && 0 < |batch| <= MAX_BATCH
      modifies this, dir, wal, index, meta, meta.metadata, meta.numeric.Values
      ensures Running() && GoneOn()
      ensures sent == old(sent) + Answers(dir.fmt.log, old(db), batch) && served == old(served) + batch
      ensures db == Final(dir.fmt.log, old(db), batch)
    {
      hide Running, Balanced;
      var pending: seq<nat>, results: seq<Outcome> := [], [];
      ghost var cs: seq<Command>, at: seq<nat> := [], [];
      ghost var begun := Books(db, sent, served);
      NothingWaits(journal, |journal| - |wal.appended|);
      BatchBegins(dir.fmt.log, begun, batch);
      for i := 0 to |batch|
        invariant Running() && GoneOn()
        invariant pending == Replies(cs) && Waits(journal, |journal| - |wal.appended|, cs, results, at)
        invariant Balanced(dir.fmt.log, begun, batch, i, Books(db, sent + Zip(pending, results), served + cs))
      {
        ghost var now := Books(db, sent + Zip(pending, results), served + cs);
        pending, results, cs, at := Handle(batch[i], pending, results, cs, at);
        OneServed(dir.fmt.log, begun, batch, i, now, Books(db, sent + Zip(pending, results), served + cs));
      }
      BatchEnds(dir.fmt.log, begun, batch, Books(db, sent + Zip(pending, results), served + cs));
      Close(pending, results, cs, at);
    }

    /**
     * The whole task: batches of whatever has arrived, until the channel closes; then a last flush. At every
     * moment of it, and so at every directory it went through, a crash would have been safe: the trail says
     * so and has no gap.
     */
    method Serve(commands: seq<Command>)
      requires Running()
      modifies this, dir, wal, index, meta, meta.metadata, meta.numeric.Values
      ensures Running() && GoneOn()
      ensures sent == old(sent) + Answers(dir.fmt.log, old(db), commands) && served == old(served) + commands
      ensures AllHandled(dir.fmt.log, old(db), commands, sent[|old(sent)|..], db)
      ensures Trailed(dir.fmt, dir.dim, start, Tale(dir.history, journal, sent, ends), trail)
    {
      hide Running, Trailed;
      var i := 0;
      while i < |commands|
        invariant 0 <= i <= |commands|
        invariant Running() && GoneOn()
        invariant sent == old(sent) + Answers(dir.fmt.log, old(db), commands[..i])
        invariant served == old(served) + commands[..i]
        invariant db == Final(dir.fmt.log, old(db), commands[..i])
      {
        i := TakeBatch(commands, i, old(db), old(sent), old(served));
      }
      assert commands[..i] == commands;
      Flush();
      IsTrailed();
      AnswersHandle(dir.fmt.log, old(db), commands);
      assert sent[|old(sent)|..] == Answers(dir.fmt.log, old(db), commands);
    }

    lemma IsTrailed()
      requires Running()
      ensures Trailed(dir.fmt, dir.dim, start, Tale(dir.history, journal, sent, ends), trail)
    {
      hide Trailed;
    }

    /** What has arrived by now: at least one command, at most a full batch. */
    method TakeBatch(commands: seq<Command>, i: nat, ghost db0: Db, ghost sent0: seq<Answer>,
                     ghost served0: seq<Command>)
      returns (j: nat)
      requires Running() && i < |commands| && db == Final(dir.fmt.log, db0, commands[..i])
      requires sent == sent0 + Answers(dir.fmt.log, db0, commands[..i]) && served == served0 + commands[..i]
      modifies this, dir, wal, index, meta, meta.metadata, meta.numeric.Values
      ensures Running() && GoneOn()
      ensures i < j <= |commands| && db == Final(dir.fmt.log, db0, commands[..j])
      ensures sent == sent0 + Answers(dir.fmt.log, db0, commands[..j]) && served == served0 + commands[..j]
    {
      hide Running;
      var n: nat :| 1 <= n <= MAX_BATCH && i + n <= |commands|;
      NextBatch(dir.fmt.log, db0, commands, i, n, sent0, served0);
      Batch(commands[i..i + n]);
      j := i + n;
    }

    /** The flush at shutdown. */
    method Flush()
      requires Running()
      modifies wal`handed, wal`synced, wal`dirty
      ensures Running()
    {
      hide Journaled, Ledger, Trailed, Mirrors, MarksMatch, DataDirectory.Valid;
      wal.Sync();
    }
  }

  // ---- What an acknowledged write survives ----

  /**
   * A machine crash keeps at least the synced part of the log, a process crash all that was handed to
   * the operating system.
   */
  ghost predicate Survives(w: Writer, n: nat)
    reads w, w.wal
  {
    n <= |w.wal.contents| && ((!w.wal.policy.NoSync? && n >= w.wal.synced) || n >= w.wal.handed)
  }

  /** Answer `i` was a success. */
  ghost predicate AnsweredOk(w: Writer, i: nat)
    reads w
  {
    i < |w.sent| == |w.served| == |w.ends| && w.sent[i].outcome == Done
  }

  /**
   * Answered Ok means durable: whatever a crash leaves, it opens, and recovery has the answered record in its
   * history.
   */
  lemma AnsweredIsDurable(w: Writer, i: nat, n: nat) returns (k: nat)
    requires w.Running() && AnsweredOk(w, i) && Survives(w, n)
    ensures w.sent[i].reply == w.served[i].reply && InJournal(w.journal, w.served[i], 0, w.ends[i])
    ensures w.ends[i] <= k <= |w.journal| && n <= |LogBytes(w.dir.disk)|
    ensures Openable(w.dir.fmt, w.dir.dim, Torn(w.dir.disk, n))
    ensures Recover(w.dir.fmt, w.dir.dim, Torn(w.dir.disk, n)) == Some(AppliedAll(w.start, w.journal[..k]))
  {
    hide RecoversTo, Trailed, Mirrors, MarksMatch;
    CrashRecovers(w.dir.fmt, w.dir.dim, w.dir.disk, w.start, w.journal, w.rot, w.ackLen, w.acked, n);
    k := PickEntry(w.dir.fmt, w.dir.dim, w.dir.disk, n, w.start, w.journal, w.acked);
  }

  /**
   * ... and it has been at every moment of the run: had the crash come then, whatever was answered Done by
   * then would be in the history that recovery gives.
   */
  lemma AnyMomentIsDurable(w: Writer, m: nat, i: nat, n: nat) returns (k: nat)
    requires w.Running() && m < |w.trail| && AnsweredOk(w, i) && i < w.trail[m].replied
    requires w.trail[m].at < |w.dir.history|
    requires CutPast(w.trail[m].ackLen, LogBytes(w.dir.history[w.trail[m].at]), n)
    ensures w.sent[i].reply == w.served[i].reply && InJournal(w.journal, w.served[i], 0, w.ends[i])
    ensures w.ends[i] <= k <= w.trail[m].written <= |w.journal|
    ensures var d := w.dir.history[w.trail[m].at];
      && Openable(w.dir.fmt, w.dir.dim, Torn(d, n))
      && Recover(w.dir.fmt, w.dir.dim, Torn(d, n)) == Some(AppliedAll(w.start, w.journal[..k]))
  {
    hide RecoversTo, Journaled, Mirrors, MarksMatch;
    var x := w.trail[m];
    var d := w.dir.history[x.at];
    assert Safe(w.dir.fmt, w.dir.dim, w.start, w.SoFar(), x);
    k := PickEntry(w.dir.fmt, w.dir.dim, d, n, w.start, w.journal[..x.written], x.acked);
    assert w.journal[..x.written][..k] == w.journal[..k];
  }

  /**
   * ... down to the store: in every interleaving of the log's replay with sealing and guarded merging,
   * the reopened store is in order and holds the journal up to an entry past the answered one.
   */
  lemma AnsweredIsInStore(w: Writer, i: nat, n: nat, threshold: nat, runs: seq<seq<Label>>) returns (k: nat, t: State)
    requires w.Running() && AnsweredOk(w, i) && Survives(w, n) && n <= |LogBytes(w.dir.disk)|
    requires var d := Torn(w.dir.disk, n);
      Loaded(w.dir.fmt, d).Some? && Base(w.dir.fmt, w.dir.dim, d).Some? &&
      ReplayRuns(LoadedStore(w.dir.fmt, w.dir.dim, threshold, d), Wal.Replay(w.dir.fmt.log, LogBytes(d)).records, runs)
    ensures InJournal(w.journal, w.served[i], 0, w.ends[i]) && w.ends[i] <= k <= |w.journal|
    ensures var d := Torn(w.dir.disk, n);
      t == Rebuilt(LoadedStore(w.dir.fmt, w.dir.dim, threshold, d), Wal.Replay(w.dir.fmt.log, LogBytes(d)).records,
          runs)
    ensures Inv(t) && NewestLive(Layers(t)) && View(t) == AppliedAll(w.start, w.journal[..k]).vectors
  {
    var d := Torn(w.dir.disk, n);
    k := AnsweredIsDurable(w, i, n);
    RecoveredStore(w.dir.fmt, w.dir.dim, threshold, d, runs);
    t := Rebuilt(LoadedStore(w.dir.fmt, w.dir.dim, threshold, d), Wal.Replay(w.dir.fmt.log, LogBytes(d)).records, runs);
  }

  /** `open_durable`: directory, index, replay, writer. */
  method Open(fmt: Formats, dim: nat, threshold: nat, d: Disk, durable: nat, policy: Wal.SyncPolicy) returns (w: Writer)
    requires LosslessFormats(fmt) && Openable(fmt, dim, d)
    ensures fresh(w) && fresh(w.dir) && fresh(w.index) && fresh(w.wal)
    ensures fresh(w.meta) && fresh(w.meta.metadata) && fresh(w.meta.numeric.Values)
    ensures w.Running() && w.dir.fmt == fmt && w.wal.policy == policy && w.sent == []
    ensures Some(w.db) == Recover(fmt, dim, d) && Mirrors(w.index, w.meta, w.db)
  {
    hide Mirrors, MarksMatch, DataDirectory.Valid;
    ghost var base, log := Base(fmt, dim, d).value, Wal.Replay(fmt.log, LogBytes(d)).records;
    var dir, index, meta := OpenStore(fmt, dim, threshold, d);
    ReplayOfValid(base, log);
    OpenedLog(fmt, dim, dir.dim, d);
    w := new Writer(dir, index, meta, base, log, Min(durable, |LogBytes(dir.disk)|), policy);
  }

  /** Directory, index and metadata, the log replayed into them. */
  method OpenStore(fmt: Formats, dim: nat, threshold: nat, d: Disk)
    returns (dir: DataDirectory, index: SegmentedIndex, meta: MetadataIndex)
    requires LosslessFormats(fmt) && Openable(fmt, dim, d)
    ensures fresh(dir) && fresh(index) && fresh(meta) && fresh(meta.metadata) && fresh(meta.numeric.Values)
    ensures dir.Valid() && dir.hot && dir.fmt == fmt && dir.disk == Trimmed(fmt, d)
    ensures MarksMatch(dir, index.Sources()) && OpensClean(fmt, dir.disk)
    ensures dir.dim == Base(fmt, dim, d).value.dim
    ensures Mirrors(index, meta, AppliedAll(Base(fmt, dim, d).value, Wal.Replay(fmt.log, LogBytes(d)).records))
  {
    hide MarksMatch, Mirrors, Descends, DataDirectory.Valid, Intact, LosslessFormats, Records.Valid, AppliedAll;
    var segments, entries, log;
    dir, segments, entries, log := OpenDirectory(fmt, dim, true, d);
    index, meta := Restored(dir.dim, threshold, segments, entries);
    MarksAfresh(dir, index.Sources());
    ghost var stock := index.Sources();
    ReplayLog(index, meta, log, Base(fmt, dim, d).value);
    MarksStillFit(dir, stock, index.Sources());
  }

  /** The manifest's segments and metadata in memory; what is derived from the metadata is built anew. */
  method Restored(dim: nat, threshold: nat, segments: seq<Source>, entries: map<Id, Metadata>)
    returns (index: SegmentedIndex, meta: MetadataIndex)
    requires Distinct(segments) && Below(segments, |segments|) && Clean(segments)
    requires Backed(Image(dim, segments, entries))
    ensures fresh(index) && fresh(meta) && fresh(meta.metadata) && fresh(meta.numeric.Values)
    ensures Mirrors(index, meta, Image(dim, segments, entries)) && index.Sources() == Stock(segments, |segments|)
  {
    hide MetadataIndex.Valid, StoreFrames.Sound, View;
    index := new SegmentedIndex(dim, threshold, true, segments);
    meta := new MetadataIndex.Restored(entries);
  }

  /** The trimmed directory replays cleanly to the same records over the same base. */
  lemma OpenedLog(fmt: Formats, dim: nat, dim': nat, d: Disk)
    requires Intact(fmt, d) && (d.manifest.Some? || dim == dim')
    ensures var e := Trimmed(fmt, d);
      && Wal.Replay(fmt.log, LogBytes(e)).stopped.None?
      && Wal.Replay(fmt.log, LogBytes(e)).records == Wal.Replay(fmt.log, LogBytes(d)).records
      && Base(fmt, dim', e) == Base(fmt, dim, d)
  {
    TruncatedRecovers(fmt, dim, d);
    Wal.TruncationIsStable(fmt.log, LogBytes(d));
  }

  /**
   * A crash and the reopening after it: the new writer holds the old journal up to an entry past every
   * answered one, in the index and in the metadata structures.
   */
  method Reopen(w: Writer, i: nat, n: nat, threshold: nat, durable: nat, policy: Wal.SyncPolicy)
    returns (again: Writer, ghost k: nat)
    requires w.Running() && AnsweredOk(w, i) && Survives(w, n)
    ensures fresh(again) && again.Running()
    ensures InJournal(w.journal, w.served[i], 0, w.ends[i]) && w.ends[i] <= k <= |w.journal|
    ensures again.db == AppliedAll(w.start, w.journal[..k])
    ensures Mirrors(again.index, again.meta, again.db)
  {
    hide Journaled, Ledger, Trailed, Mirrors, MarksMatch;
    k := AnsweredIsDurable(w, i, n);
    again := Open(w.dir.fmt, w.dir.dim, threshold, Torn(w.dir.disk, n), durable, policy);
  }
}
