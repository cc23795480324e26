/**
 * What log records mean: the database they describe, why replaying any prefix of a log the writer
 * produced never collides, and the two directions between the log and the interleaved store --
 * replaying through the store rebuilds the described database, and every run of the store is
 * described by the log it left.
 */
module Records {
  import opened Prelude
  import opened Meta
  import opened Store
  import opened StoreInvariants
  import opened StoreSteps
  import opened StoreMerge
  import opened StoreRuns

  datatype Record = Insert(id: Id, vec: Floats, meta: Metadata) | Delete(id: Id)

  /** The abstract database: live vectors, and the metadata of those that have any. */
  datatype Db = Db(dim: nat, vectors: map<Id, Floats>, metas: map<Id, Metadata>)

  /** The in-memory side of one record. */
  function Applied(db: Db, r: Record): Db {
    match r
    case Insert(id, v, meta) =>
      db.(vectors := db.vectors[id := v], metas := if meta == map[] then db.metas else db.metas[id := meta])
    case Delete(id) =>
      if id in db.vectors then db.(vectors := db.vectors - {id}, metas := db.metas - {id}) else db
  }

  /** The writer logs a record only after validating it. */
  predicate Fits(db: Db, r: Record) {
    match r
    case Insert(id, v, _) => id !in db.vectors && |v| == db.dim
    case Delete(id) => id in db.vectors
  }

  function AppliedAll(db: Db, rs: seq<Record>): Db
    decreases |rs|
  {
    if |rs| == 0 then db else AppliedAll(Applied(db, rs[0]), rs[1..])
  }

  /** A log the writer can have produced, starting from `db`. */
  predicate Valid(db: Db, rs: seq<Record>)
    decreases |rs|
  {
    |rs| == 0 || (Fits(db, rs[0]) && Valid(Applied(db, rs[0]), rs[1..]))
  }

  /** Replay: an insert that does not fit makes opening fail, a delete that does not is skipped. */
  function ReplayInto(db: Db, rs: seq<Record>): Option<Db>
    decreases |rs|
  {
    if |rs| == 0 then Some(db)
    else if rs[0].Insert? && !Fits(db, rs[0]) then None
    else ReplayInto(Applied(db, rs[0]), rs[1..])
  }

  /** Replay, record by record: a colliding insert is fatal, and a delete of nothing changes nothing. */
  lemma ReplayMeans(db: Db, rest: seq<Record>, id: Id, v: Floats, meta: Metadata)
    ensures ReplayInto(db, []) == Some(db)
    ensures var r := ReplayInto(db, [Insert(id, v, meta)] + rest);
      if id in db.vectors || |v| != db.dim then r.None?
      else var metas := if meta == map[] then db.metas else db.metas[id := meta];
        r == ReplayInto(Db(db.dim, db.vectors[id := v], metas), rest)
    ensures ReplayInto(db, [Delete(id)] + rest) ==
      if id in db.vectors then ReplayInto(Db(db.dim, db.vectors - {id}, db.metas - {id}), rest)
      else ReplayInto(db, rest)
  {
    assert ([Insert(id, v, meta)] + rest)[1..] == rest && ([Delete(id)] + rest)[1..] == rest;
  }

  lemma {:induction false} ReplayOfValid(db: Db, rs: seq<Record>)
    requires Valid(db, rs)
    ensures ReplayInto(db, rs) == Some(AppliedAll(db, rs))
    decreases |rs|
  {
    if |rs| > 0 { ReplayOfValid(Applied(db, rs[0]), rs[1..]); }
  }

  /** Cutting a log anywhere leaves a log that replays without a collision. */
  lemma {:induction false} PrefixReplays(db: Db, rs: seq<Record>, n: nat)
    requires Valid(db, rs) && n <= |rs|
    ensures Valid(db, rs[..n]) && ReplayInto(db, rs[..n]) == Some(AppliedAll(db, rs[..n]))
    decreases |rs|
  {
    if n > 0 {
      PrefixReplays(Applied(db, rs[0]), rs[1..], n - 1);
      assert rs[..n][1..] == rs[1..][..n - 1];
    }
    ReplayOfValid(db, rs[..n]);
  }

  lemma {:induction false} AppliedConcat(db: Db, a: seq<Record>, b: seq<Record>)
    ensures AppliedAll(db, a + b) == AppliedAll(AppliedAll(db, a), b)
    ensures Valid(db, a + b) <==> Valid(db, a) && Valid(AppliedAll(db, a), b)
    decreases |a|
  {
    if |a| == 0 {
      assert a + b == b;
    } else {
      AppliedConcat(Applied(db, a[0]), a[1..], b);
      assert (a + b)[1..] == a[1..] + b;
    }
  }

  // ---- Replaying through the store ----

  function WriteFor(r: Record): Write {
    match r case Insert(id, v, _) => Put(id, v) case Delete(id) => Cut(id)
  }

  /** Where the writer enters the store with a replayed record: past the checks. */
  function Entry(r: Record): Pc {
    match r case Insert(id, v, _) => InsApply(id, v) case Delete(id) => DelBuffer(id)
  }

  /** The blocks that can run while a record is being replayed. */
  predicate Replaying(l: Label) {
    Worker(l) || l.ApplyInsert? || l.TakeBuffer? || l.PushSealing? || l.SwapFlag? || l.Spawn?
    || l.Throttled? || l.Valve? || Erases(l)
  }

  /** The record is still waiting to take effect. */
  predicate Waiting(pc: Pc, r: Record) {
    match r
    case Insert(id, v, _) => pc == InsApply(id, v)
    case Delete(id) => (pc.DelBuffer? || pc.DelSealing? || pc.DelSegments?) && pc.id == id
  }

  /** It has taken effect; a seal it triggered may still be under way. */
  predicate Done(pc: Pc) {
    pc.Idle? || ((pc.SealTake? || pc.SealPush? || pc.SealSwap? || pc.SealSpawn? || pc.SealDone?) && pc.after.Throttle?)
  }

  lemma EntryHolds(s: State, r: Record)
    requires Inv(s) && s.pc.Idle?
    requires match r case Insert(id, v, _) => id !in View(s) && |v| == s.dim case Delete(id) => id in View(s)
    ensures var e := s.(pc := Entry(r)); Inv(e) && Layers(e) == Layers(s)
  {
    var e := s.(pc := Entry(r));
    assert Layers(e) == Layers(s);
    ViewMembers(s, r.id);
  }

  /** The block at which an operation takes effect. */
  predicate Takes(s: State, l: Label)
    requires Enabled(s, l)
  {
    l.ApplyInsert? || (Erases(l) && ReplyOf(s, l) == Some(Erased))
  }

  /** One step, seen from the writer: its position and the map it acts on. */
  ghost predicate Moves(before: Pc, m: map<Id, Floats>, after: Pc, m': map<Id, Floats>, r: Record) {
    || (Waiting(before, r) && Waiting(after, r) && m' == m)
    || (Waiting(before, r) && Done(after) && m' == Written(m, WriteFor(r)))
    || (Done(before) && Done(after) && m' == m)
  }

  lemma TakingMoves(s: State, l: Label, r: Record)
    requires Enabled(s, l) && Takes(s, l) && PcOk(s) && (Waiting(s.pc, r) || Done(s.pc))
    ensures Waiting(s.pc, r) && Done(Apply(s, l).pc)
    ensures WriteFor(r) == if l.ApplyInsert? then Put(s.pc.id, s.pc.v) else Cut(s.pc.id)
  {
  }

  lemma ErasingMoves(s: State, l: Label, r: Record)
    requires Enabled(s, l) && Erases(l) && ReplyOf(s, l) == None && (Waiting(s.pc, r) || Done(s.pc))
    ensures Waiting(s.pc, r) && Waiting(Apply(s, l).pc, r)
  {
  }

  lemma ErasesAnswer(s: State, l: Label)
    requires Enabled(s, l) && Erases(l)
    ensures ReplyOf(s, l) in {None, Some(Missing), Some(Erased)}
  {
  }

  lemma OtherMoves(s: State, l: Label, r: Record)
    requires Enabled(s, l) && Replaying(l) && !l.ApplyInsert? && !Erases(l) && (Waiting(s.pc, r) || Done(s.pc))
    ensures Waiting(s.pc, r) ==> Waiting(Apply(s, l).pc, r)
    ensures Done(s.pc) ==> Done(Apply(s, l).pc)
  {
  }

  lemma EffectOf(s: State, l: Label, s': State)
    requires Enabled(s, l) && Effect(s, l, s')
    ensures Takes(s, l) ==>
      View(s') == Written(View(s), if l.ApplyInsert? then Put(s.pc.id, s.pc.v) else Cut(s.pc.id))
    ensures !Takes(s, l) ==> View(s') == View(s)
  {
  }

  lemma ReplayStep(s: State, l: Label, r: Record)
    requires Inv(s) && NewestLive(Layers(s)) && Enabled(s, l) && Replaying(l)
    requires Waiting(s.pc, r) || Done(s.pc)
    ensures Inv(Apply(s, l)) && Moves(s.pc, View(s), Apply(s, l).pc, View(Apply(s, l)), r)
  {
    StepHolds(s, l);
    EffectOf(s, l, Apply(s, l));
    ReplayMoves(s, l, r);
  }

  lemma ReplayMoves(s: State, l: Label, r: Record)
    requires Inv(s) && NewestLive(Layers(s)) && Enabled(s, l) && Replaying(l)
    requires Waiting(s.pc, r) || Done(s.pc)
    ensures Takes(s, l) ==> Waiting(s.pc, r) && Done(Apply(s, l).pc)
    ensures Takes(s, l) ==> WriteFor(r) == if l.ApplyInsert? then Put(s.pc.id, s.pc.v) else Cut(s.pc.id)
    ensures !Takes(s, l) ==>
      (Waiting(s.pc, r) && Waiting(Apply(s, l).pc, r)) || (Done(s.pc) && Done(Apply(s, l).pc))
  {
    if Takes(s, l) {
      TakingMoves(s, l, r);
    } else if Erases(l) {
      DeleteOfLiveSucceeds(s, l);
      ErasesAnswer(s, l);
      ErasingMoves(s, l, r);
    } else {
      OtherMoves(s, l, r);
    }
  }

  /** Before the record took effect the map is `m`, afterwards it is `m` with the record written. */
  ghost predicate OnTrack(s: State, m: map<Id, Floats>, r: Record) {
    (Waiting(s.pc, r) && View(s) == m) || (Done(s.pc) && View(s) == Written(m, WriteFor(r)))
  }

  lemma TrackStep(s: State, m: map<Id, Floats>, r: Record, l: Label)
    requires Inv(s) && NewestLive(Layers(s)) && Enabled(s, l) && Replaying(l) && OnTrack(s, m, r)
    requires l.Swap? ==> HidesNothing(s, l.jid)
    ensures Inv(Apply(s, l)) && NewestLive(Layers(Apply(s, l))) && OnTrack(Apply(s, l), m, r)
  {
    ReplayStep(s, l, r);
    StepKeepsNewestIff(s, l);
    NeverBoth(s.pc, r);
  }

  lemma NeverBoth(pc: Pc, r: Record)
    ensures !(Waiting(pc, r) && Done(pc))
  {
  }

  lemma {:induction false} ReplayBlocks(s: State, m: map<Id, Floats>, r: Record, ls: seq<Label>)
    requires Inv(s) && NewestLive(Layers(s)) && OnTrack(s, m, r)
    requires IsRun(s, ls) && Guarded(s, ls) && forall l :: l in ls ==> Replaying(l)
    ensures Inv(After(s, ls)) && NewestLive(Layers(After(s, ls))) && OnTrack(After(s, ls), m, r)
    decreases |ls|
  {
    if |ls| > 0 {
      assert ls[0] in ls;
      TrackStep(s, m, r, ls[0]);
      ReplayBlocks(Apply(s, ls[0]), m, r, ls[1..]);
    }
  }

  /** Replay as recovery runs it: one record after the other, workers in between, every swap guarded. */
  ghost predicate ReplayRuns(s: State, rs: seq<Record>, runs: seq<seq<Label>>)
    decreases |rs|
  {
    && |rs| == |runs| && s.pc.Idle?
    && (|rs| == 0 ||
        (var e := s.(pc := Entry(rs[0]));
         && IsRun(e, runs[0]) && Guarded(e, runs[0]) && (forall l :: l in runs[0] ==> Replaying(l))
         && ReplayRuns(After(e, runs[0]), rs[1..], runs[1..])))
  }

  ghost function Rebuilt(s: State, rs: seq<Record>, runs: seq<seq<Label>>): State
    requires ReplayRuns(s, rs, runs)
    decreases |rs|
  {
    if |rs| == 0 then s else Rebuilt(After(s.(pc := Entry(rs[0])), runs[0]), rs[1..], runs[1..])
  }

  lemma {:induction false} DimKept(s: State, ls: seq<Label>)
    requires IsRun(s, ls)
    ensures After(s, ls).dim == s.dim
    decreases |ls|
  {
    if |ls| > 0 {
      StepKeepsDim(s, ls[0]);
      DimKept(Apply(s, ls[0]), ls[1..]);
    }
  }

  lemma StepKeepsDim(s: State, l: Label)
    requires Enabled(s, l)
    ensures Apply(s, l).dim == s.dim
  {
    match l {
      case BeginInsert(_, _) =>
      case ApplyInsert =>
      case EraseSealing =>
      case EraseSegments =>
      case Publish(_) =>
      case Swap(_) =>
      case _ =>
    }
  }

  /** Whatever the workers do during recovery, the store ends up holding the database the log describes. */
  lemma {:induction false} ReplayRefines(s: State, db: Db, rs: seq<Record>, runs: seq<seq<Label>>)
    requires Inv(s) && NewestLive(Layers(s)) && ReplayRuns(s, rs, runs)
    requires View(s) == db.vectors && s.dim == db.dim && Valid(db, rs)
    ensures var t := Rebuilt(s, rs, runs);
      Inv(t) && NewestLive(Layers(t)) && View(t) == AppliedAll(db, rs).vectors
    decreases |rs|
  {
    if |rs| > 0 {
      var e := s.(pc := Entry(rs[0]));
      EntryHolds(s, rs[0]);
      assert View(e) == View(s);
      ReplayBlocks(e, View(s), rs[0], runs[0]);
      DimKept(e, runs[0]);
      ReplayRefines(After(e, runs[0]), Applied(db, rs[0]), rs[1..], runs[1..]);
    }
  }

  // ---- The log a run leaves ----

  /** The append that follows a block: an insert after its last check, a delete after its liveness check. */
  function Logged(s: State, l: Label): seq<Write>
    requires Enabled(s, l)
  {
    match l
    case CheckSegments => if AnyLive(s.segments, s.pc.id) then [] else [Put(s.pc.id, s.pc.v)]
    case BeginDelete(id) => if id in s.buffer then [Cut(id)] else []
    case FindSealing => if AnyLive(s.sealing, s.pc.id) then [Cut(s.pc.id)] else []
    case FindSegments => if AnyLive(s.segments, s.pc.id) then [Cut(s.pc.id)] else []
    case _ => []
  }

  function LogOf(s: State, ls: seq<Label>): seq<Write>
    requires IsRun(s, ls)
    decreases |ls|
  {
    if |ls| == 0 then [] else Logged(s, ls[0]) + LogOf(Apply(s, ls[0]), ls[1..])
  }

  /** Logged but not yet applied. */
  function Pending(pc: Pc): seq<Write> {
    match pc
    case InsApply(id, v) => [Put(id, v)]
    case DelBuffer(id) => [Cut(id)]
    case DelSealing(id) => [Cut(id)]
    case DelSegments(id) => [Cut(id)]
    case _ => []
  }

  lemma TakingPending(s: State, l: Label)
    requires Enabled(s, l) && Takes(s, l) && PcOk(s)
    ensures Pending(s.pc) == [if l.ApplyInsert? then Put(s.pc.id, s.pc.v) else Cut(s.pc.id)]
    ensures Pending(Apply(s, l).pc) == [] && Logged(s, l) == []
  {
    match l
    case ApplyInsert => InsertFields(s);
    case EraseBuffer =>
    case EraseSealing => EraseSealingShape(s);
    case EraseSegments =>
  }

  lemma ErasingPending(s: State, l: Label)
    requires Enabled(s, l) && Erases(l) && ReplyOf(s, l) == None
    ensures Pending(Apply(s, l).pc) == Pending(s.pc) + Logged(s, l)
  {
  }

  predicate Asks(l: Label) { l.CheckSegments? || l.BeginDelete? || l.FindSealing? || l.FindSegments? }

  lemma AskingPending(s: State, l: Label)
    requires Enabled(s, l) && Asks(l)
    ensures Pending(Apply(s, l).pc) == Pending(s.pc) + Logged(s, l)
  {
  }

  lemma QuietPending(s: State, l: Label)
    requires Enabled(s, l) && !Asks(l) && !Erases(l) && !l.ApplyInsert?
    ensures Pending(Apply(s, l).pc) == Pending(s.pc) && Logged(s, l) == []
  {
  }

  lemma KeepPending(s: State, l: Label)
    requires Inv(s) && NewestLive(Layers(s)) && Enabled(s, l) && !Takes(s, l)
    ensures Pending(Apply(s, l).pc) == Pending(s.pc) + Logged(s, l)
  {
    if Erases(l) {
      DeleteOfLiveSucceeds(s, l);
      ErasesAnswer(s, l);
      ErasingPending(s, l);
    } else if Asks(l) {
      AskingPending(s, l);
    } else {
      QuietPending(s, l);
    }
  }

  lemma LogStep(s: State, l: Label)
    requires Inv(s) && NewestLive(Layers(s)) && Enabled(s, l)
    ensures Inv(Apply(s, l)) && |Pending(s.pc) + Logged(s, l)| <= 1
    ensures Legal(View(s), Pending(s.pc) + Logged(s, l))
    ensures WrittenAll(View(s), Pending(s.pc) + Logged(s, l)) == WrittenAll(View(Apply(s, l)), Pending(Apply(s, l).pc))
  {
    StepHolds(s, l);
    EffectOf(s, l, Apply(s, l));
    PendingLegal(s);
    PendingLegal(Apply(s, l));
    if Takes(s, l) {
      TakingPending(s, l);
      OneWrite(View(s), Pending(s.pc));
      assert Pending(s.pc) + Logged(s, l) == Pending(s.pc);
    } else {
      KeepPending(s, l);
    }
  }

  lemma OneWrite(m: map<Id, Floats>, w: seq<Write>)
    requires |w| == 1
    ensures WrittenAll(m, w) == Written(m, w[0])
  {
    assert w[1..] == [];
  }

  lemma PendingLegal(s: State)
    requires Inv(s)
    ensures Legal(View(s), Pending(s.pc)) && |Pending(s.pc)| <= 1
  {
    if s.pc.InsApply? { ViewMembers(s, s.pc.id); }
  }

  /**
   * Write-ahead: at every moment of every guarded run, replaying the log over the starting map gives
   * the live map with the operation in progress completed -- so between operations, the live map.
   */
  lemma {:induction false} LogDescribesRun(s: State, ls: seq<Label>)
    requires Inv(s) && NewestLive(Layers(s)) && IsRun(s, ls) && Guarded(s, ls)
    ensures var t, log := After(s, ls), Pending(s.pc) + LogOf(s, ls);
      Legal(View(s), log) && WrittenAll(View(s), log) == WrittenAll(View(t), Pending(t.pc))
    decreases |ls|
  {
    if |ls| == 0 {
      PendingLegal(s);
      assert Pending(s.pc) + LogOf(s, ls) == Pending(s.pc);
    } else {
      LogStep(s, ls[0]);
      StepKeepsNewestIff(s, ls[0]);
      LogDescribesRun(Apply(s, ls[0]), ls[1..]);
      LogFirst(s, ls);
    }
  }

  lemma LogFirst(s: State, ls: seq<Label>)
    requires IsRun(s, ls) && |ls| > 0 && |Pending(s.pc) + Logged(s, ls[0])| <= 1
    requires Legal(View(s), Pending(s.pc) + Logged(s, ls[0]))
    requires var s', w := Apply(s, ls[0]), Pending(s.pc) + Logged(s, ls[0]);
      WrittenAll(View(s), w) == WrittenAll(View(s'), Pending(s'.pc)) && |Pending(s'.pc)| <= 1
      && Legal(View(s'), Pending(s'.pc) + LogOf(s', ls[1..]))
    ensures var s', log := Apply(s, ls[0]), Pending(s.pc) + LogOf(s, ls);
      Legal(View(s), log)
      && WrittenAll(View(s), log) == WrittenAll(View(s'), Pending(s'.pc) + LogOf(s', ls[1..]))
  {
    var s' := Apply(s, ls[0]);
    LogGlue(View(s), View(s'), Pending(s.pc) + Logged(s, ls[0]), Pending(s'.pc), LogOf(s', ls[1..]));
    Regroup(Pending(s.pc), Logged(s, ls[0]), LogOf(s', ls[1..]));
  }

  lemma LogGlue(m: map<Id, Floats>, m': map<Id, Floats>, a: seq<Write>, p: seq<Write>, b: seq<Write>)
    requires |a| <= 1 && |p| <= 1 && Legal(m, a) && WrittenAll(m, a) == WrittenAll(m', p) && Legal(m', p + b)
    ensures Legal(m, a + b) && WrittenAll(m, a + b) == WrittenAll(m', p + b)
  {
    SplitWrites(m', p, b);
    WriteFirst(m, a, b);
  }

  lemma SplitWrites(m: map<Id, Floats>, p: seq<Write>, b: seq<Write>)
    requires |p| <= 1 && Legal(m, p + b)
    ensures Legal(m, p) && Legal(WrittenAll(m, p), b) && WrittenAll(m, p + b) == WrittenAll(WrittenAll(m, p), b)
  {
    if p == [] {
      assert p + b == b;
    } else {
      assert p == [p[0]];
      assert p[1..] == [];
      WriteCons(m, p[0], b);
    }
  }

  // ---- Without the guard: exactly what the log forgets ----

  /** What memory holds once the logged operation in progress is done. */
  function Memory(s: State): map<Id, Floats> { WrittenAll(View(s), Pending(s.pc)) }

  /** A delete that was logged and that memory then answers NotFound, its copy being hidden. */
  predicate Refused(s: State, l: Label)
    requires Enabled(s, l)
  {
    Erases(l) && ReplyOf(s, l) == Some(Missing)
  }

  /** The ids whose latest logged delete was refused, one block later. */
  function Forgets(s: State, l: Label, lost: set<Id>): set<Id>
    requires Enabled(s, l)
  {
    if Refused(s, l) then lost + {s.pc.id}
    else if |Logged(s, l)| == 1 && Logged(s, l)[0].Cut? then lost - {Logged(s, l)[0].id}
    else lost
  }

  function Forgotten(s: State, ls: seq<Label>, lost: set<Id>): set<Id>
    requires IsRun(s, ls)
    decreases |ls|
  {
    if |ls| == 0 then lost else Forgotten(Apply(s, ls[0]), ls[1..], Forgets(s, ls[0], lost))
  }

  /** Replay accepts the log: an insert never meets its own id. Deletes of absent ids are skipped. */
  predicate Replays(m: map<Id, Floats>, ws: seq<Write>)
    decreases |ws|
  {
    |ws| == 0 || ((ws[0].Put? ==> ws[0].id !in m) && Replays(Written(m, ws[0]), ws[1..]))
  }

  lemma MemoryOf(s: State)
    requires Inv(s)
    ensures Memory(s) == if Pending(s.pc) == [] then View(s) else Written(View(s), Pending(s.pc)[0])
    ensures |Pending(s.pc)| <= 1 && forall w :: w in Pending(s.pc) ==> if w.Put? then w.id !in View(s) else w.id in View(s)
  {
    PendingLegal(s);
    if Pending(s.pc) != [] { OneWrite(View(s), Pending(s.pc)); }
  }

  lemma RefusedPending(s: State, l: Label)
    requires Enabled(s, l) && Refused(s, l)
    ensures Pending(s.pc) == [Cut(s.pc.id)] && Pending(Apply(s, l).pc) == [] && Logged(s, l) == []
  {
    match l
    case EraseBuffer =>
    case EraseSealing =>
    case EraseSegments =>
  }

  /** What is logged names an id that is not waiting for anything else. */
  lemma LoggedFits(s: State, l: Label)
    requires Inv(s) && Enabled(s, l) && Logged(s, l) != []
    ensures Asks(l) && |Logged(s, l)| == 1 && Pending(s.pc) == [] && !Refused(s, l)
    ensures Logged(s, l)[0].Put? ==> Logged(s, l)[0].id !in View(s)
    ensures Pending(Apply(s, l).pc) == Logged(s, l)
  {
    if l.CheckSegments? { ViewMembers(s, s.pc.id); }
    AskingPending(s, l);
  }

  lemma ForgetStep(s: State, l: Label, lost: set<Id>)
    requires Inv(s) && Enabled(s, l) && lost <= Memory(s).Keys
    ensures Inv(Apply(s, l)) && Forgets(s, l, lost) <= Memory(Apply(s, l)).Keys
    ensures WrittenAll(Memory(s) - lost, Logged(s, l)) == Memory(Apply(s, l)) - Forgets(s, l, lost)
    ensures Replays(Memory(s) - lost, Logged(s, l)) && |Logged(s, l)| <= 1
  {
    StepHolds(s, l);
    if Logged(s, l) != [] {
      ForgetOnLog(s, l, lost);
    } else if Refused(s, l) {
      ForgetOnRefusal(s, l, lost);
    } else {
      SameMemory(s, l);
    }
  }

  lemma ForgetOnLog(s: State, l: Label, lost: set<Id>)
    requires Inv(s) && Enabled(s, l) && Effect(s, l, Apply(s, l)) && lost <= Memory(s).Keys && Logged(s, l) != []
    ensures Forgets(s, l, lost) <= Memory(Apply(s, l)).Keys && |Logged(s, l)| == 1
    ensures WrittenAll(Memory(s) - lost, Logged(s, l)) == Memory(Apply(s, l)) - Forgets(s, l, lost)
    ensures Replays(Memory(s) - lost, Logged(s, l))
  {
    LoggedFits(s, l);
    var w := Logged(s, l)[0];
    assert Logged(s, l) == [w];
    assert Memory(s) == View(s);
    OneWrite(View(s), [w]);
    OneWrite(View(s) - lost, [w]);
    ForgetLogged(View(s), w, lost);
    assert View(Apply(s, l)) == View(s);
  }

  lemma ForgetOnRefusal(s: State, l: Label, lost: set<Id>)
    requires Inv(s) && Enabled(s, l) && Effect(s, l, Apply(s, l)) && lost <= Memory(s).Keys && Refused(s, l)
    ensures Forgets(s, l, lost) <= Memory(Apply(s, l)).Keys && Logged(s, l) == []
    ensures Memory(s) - lost == Memory(Apply(s, l)) - Forgets(s, l, lost)
  {
    RefusedPending(s, l);
    MemoryOf(s);
    assert View(Apply(s, l)) == View(s) && Memory(s) == View(s) - {s.pc.id};
    assert s.pc.id in View(s) by { assert Cut(s.pc.id) in Pending(s.pc); }
  }

  lemma ForgetLogged(m: map<Id, Floats>, w: Write, lost: set<Id>)
    requires lost <= m.Keys && (w.Put? ==> w.id !in m)
    ensures Written(m - lost, w) == Written(m, w) - (if w.Cut? then lost - {w.id} else lost)
    ensures (if w.Cut? then lost - {w.id} else lost) <= Written(m, w).Keys
    ensures Replays(m - lost, [w])
  {
  }

  /** A block that neither logs nor refuses leaves memory, the pending operation included, as it is. */
  lemma SameMemory(s: State, l: Label)
    requires Inv(s) && Enabled(s, l) && Effect(s, l, Apply(s, l)) && Logged(s, l) == [] && !Refused(s, l)
    ensures Memory(Apply(s, l)) == Memory(s)
  {
    EffectOf(s, l, Apply(s, l));
    if Takes(s, l) {
      TakingPending(s, l);
      OneWrite(View(s), Pending(s.pc));
    } else {
      SamePending(s, l);
    }
  }

  lemma SamePending(s: State, l: Label)
    requires Enabled(s, l) && !Takes(s, l) && Logged(s, l) == [] && !Refused(s, l)
    ensures Pending(Apply(s, l).pc) == Pending(s.pc)
  {
    if Erases(l) {
      ErasesAnswer(s, l);
      ErasingPending(s, l);
    } else if Asks(l) {
      AskingPending(s, l);
    } else {
      QuietPending(s, l);
    }
  }

  lemma WritesConcat(m: map<Id, Floats>, a: seq<Write>, b: seq<Write>)
    requires |a| <= 1
    ensures WrittenAll(m, a + b) == WrittenAll(WrittenAll(m, a), b)
    ensures Replays(m, a + b) <==> Replays(m, a) && Replays(WrittenAll(m, a), b)
  {
    if a == [] {
      assert a + b == b;
    } else {
      assert (a + b)[1..] == b && a[1..] == [];
    }
  }

  /**
   * Every run, guarded or not: the log always replays, and it rebuilds what memory holds except exactly
   * the ids whose latest logged delete was answered NotFound.
   */
  lemma {:induction false} LogForgetsExactly(s: State, ls: seq<Label>, lost: set<Id>)
    requires Inv(s) && IsRun(s, ls) && lost <= Memory(s).Keys
    ensures Forgotten(s, ls, lost) <= Memory(After(s, ls)).Keys
    ensures WrittenAll(Memory(s) - lost, LogOf(s, ls)) == Memory(After(s, ls)) - Forgotten(s, ls, lost)
    ensures Replays(Memory(s) - lost, LogOf(s, ls))
    decreases |ls|
  {
    if |ls| > 0 {
      ForgetStep(s, ls[0], lost);
      LogForgetsExactly(Apply(s, ls[0]), ls[1..], Forgets(s, ls[0], lost));
      WritesConcat(Memory(s) - lost, Logged(s, ls[0]), LogOf(Apply(s, ls[0]), ls[1..]));
    }
  }

  /** Log and memory agree after a run if and only if no logged delete is still refused. */
  lemma LogAgreesIff(s: State, ls: seq<Label>)
    requires Inv(s) && IsRun(s, ls)
    ensures WrittenAll(Memory(s), LogOf(s, ls)) == Memory(After(s, ls)) <==> Forgotten(s, ls, {}) == {}
  {
    hide Inv, Memory;
    LogForgetsExactly(s, ls, {});
    var m, lost := Memory(After(s, ls)), Forgotten(s, ls, {});
    assert Memory(s) - {} == Memory(s);
    if lost == {} {
      assert m - lost == m;
    } else {
      var id :| id in lost;
      assert id in m && id !in m - lost;
    }
  }
}
