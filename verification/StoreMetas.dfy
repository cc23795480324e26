/**
 * The store together with its metadata, block by block. Writing or deleting a record changes the vectors
 * first and then, one lock after the other, the posting lists, the numeric fields and the metadata store;
 * the workers and the readers come in between.
 */
module StoreMetas {
  import opened Prelude
  import opened Meta
  import opened Store
  import opened StoreInvariants
  import opened StoreSteps
  import opened StoreRuns
  import opened StoreWorkers
  import opened StoreReads

  /** What the writer still has to do for the metadata of the record it has just added or erased. */
  datatype Phase =
    | AtRest
    | ToPost(id: Id, meta: Metadata) | ToRange(id: Id, meta: Metadata) | ToKeep(id: Id, meta: Metadata)
    | ToForget(id: Id) | ToUnpost(id: Id) | ToUnrange(id: Id)

  /** `posted`, `ranged` and `metas` are what posting lists, numeric fields and metadata store stand for. */
  datatype Moment = Moment(s: State, posted: map<Id, Metadata>, ranged: map<Id, Metadata>, metas: map<Id, Metadata>,
                           phase: Phase)

  /** A block of the vector side, or one lock of the metadata side; an append brings the record's metadata along. */
  datatype Block = Vectors(l: Label, meta: Metadata) | Posting | Ranging | Keeping | Forgetting | Unposting | Unranging

  /** The writer goes on with the vectors when the metadata is done; the workers never wait. */
  predicate CanRun(m: Moment, b: Block) {
    match b
    case Vectors(l, _) => Enabled(m.s, l) && (m.phase.AtRest? || Worker(l))
    case Posting => m.phase.ToPost?
    case Ranging => m.phase.ToRange?
    case Keeping => m.phase.ToKeep?
    case Forgetting => m.phase.ToForget?
    case Unposting => m.phase.ToUnpost?
    case Unranging => m.phase.ToUnrange?
  }

  /** A record without metadata is not indexed; a delete that found nothing leaves the metadata alone. */
  function PhaseAfter(m: Moment, l: Label, meta: Metadata): Phase
    requires Enabled(m.s, l)
  {
    if l.ApplyInsert? then if meta == map[] then AtRest else ToPost(m.s.pc.id, meta)
    else if Erases(l) && ReplyOf(m.s, l) == Some(Erased) then ToForget(m.s.pc.id)
    else m.phase
  }

  function Ran(m: Moment, b: Block): Moment
    requires CanRun(m, b)
  {
    match b
    case Vectors(l, meta) => m.(s := Apply(m.s, l), phase := PhaseAfter(m, l, meta))
    case Posting => m.(posted := m.posted[m.phase.id := m.phase.meta], phase := ToRange(m.phase.id, m.phase.meta))
    case Ranging => m.(ranged := m.ranged[m.phase.id := m.phase.meta], phase := ToKeep(m.phase.id, m.phase.meta))
    case Keeping => m.(metas := m.metas[m.phase.id := m.phase.meta], phase := AtRest)
    case Forgetting =>
      m.(metas := m.metas - {m.phase.id}, phase := if m.phase.id in m.metas then ToUnpost(m.phase.id) else AtRest)
    case Unposting => m.(posted := m.posted - {m.phase.id}, phase := ToUnrange(m.phase.id))
    case Unranging => m.(ranged := m.ranged - {m.phase.id}, phase := AtRest)
  }

  predicate IsCourse(m: Moment, bs: seq<Block>)
    decreases |bs|
  {
    |bs| == 0 || (CanRun(m, bs[0]) && IsCourse(Ran(m, bs[0]), bs[1..]))
  }

  function Later(m: Moment, bs: seq<Block>): Moment
    requires IsCourse(m, bs)
    decreases |bs|
  {
    if |bs| == 0 then m else Later(Ran(m, bs[0]), bs[1..])
  }

  function Outset(dim: nat, threshold: nat): Moment { Moment(Init(dim, threshold), map[], map[], map[], AtRest) }

  // ---- What holds at every moment ----

  /** Metadata belongs to live records, and the three structures differ by the record in hand alone. */
  ghost predicate Booked(m: Moment) { BookedOver(View(m.s).Keys, m.posted, m.ranged, m.metas, m.phase) }

  ghost predicate BookedOver(live: set<Id>, posted: map<Id, Metadata>, ranged: map<Id, Metadata>,
                             metas: map<Id, Metadata>, phase: Phase) {
    match phase
    case AtRest => posted == ranged == metas && metas.Keys <= live
    case ToPost(id, _) => posted == ranged == metas && metas.Keys <= live && id in live && id !in metas
    case ToRange(id, meta) =>
      posted == metas[id := meta] && ranged == metas && metas.Keys <= live && id in live && id !in metas
    case ToKeep(id, meta) => posted == ranged == metas[id := meta] && metas.Keys <= live && id in live && id !in metas
    case ToForget(id) => posted == ranged == metas && metas.Keys <= live + {id} && id !in live
    case ToUnpost(id) =>
      posted == ranged && id in posted && metas == posted - {id} && metas.Keys <= live && id !in live
    case ToUnrange(id) =>
      posted == metas && id in ranged && metas == ranged - {id} && metas.Keys <= live && id !in live
  }

  lemma OutsetBooked(dim: nat, threshold: nat)
    ensures Inv(Outset(dim, threshold).s) && Booked(Outset(dim, threshold))
  {
    InitHolds(dim, threshold);
  }

  lemma BlockHolds(m: Moment, b: Block)
    requires Inv(m.s) && Booked(m) && CanRun(m, b)
    ensures Inv(Ran(m, b).s) && Booked(Ran(m, b))
  {
    if b.Vectors? {
      StepHolds(m.s, b.l);
      VectorsBooked(m, b.l, b.meta);
    }
  }

  lemma VectorsBooked(m: Moment, l: Label, meta: Metadata)
    requires Booked(m) && CanRun(m, Vectors(l, meta)) && Effect(m.s, l, Apply(m.s, l))
    ensures Booked(Ran(m, Vectors(l, meta)))
  {
    hide View, Apply;
    var live, live' := View(m.s).Keys, View(Apply(m.s, l)).Keys;
    if l.ApplyInsert? {
      assert live' == live + {m.s.pc.id};
    } else if Erases(l) && ReplyOf(m.s, l) == Some(Erased) {
      assert live' == live - {m.s.pc.id};
    }
  }

  /** Over every course of blocks, whoever runs them. */
  lemma {:induction false} CourseHolds(m: Moment, bs: seq<Block>)
    requires Inv(m.s) && Booked(m) && IsCourse(m, bs)
    ensures Inv(Later(m, bs).s) && Booked(Later(m, bs))
    decreases |bs|
  {
    if |bs| > 0 {
      BlockHolds(m, bs[0]);
      CourseHolds(Ran(m, bs[0]), bs[1..]);
    }
  }

  // ---- Reachable moments ----

  ghost predicate Reaches(from: Moment, m: Moment) {
    exists bs :: IsCourse(from, bs) && Later(from, bs) == m
  }

  lemma Here(m: Moment)
    ensures Reaches(m, m)
  {
    assert IsCourse(m, []) && Later(m, []) == m;
  }

  lemma Onward(from: Moment, m: Moment, b: Block, next: Moment)
    requires Reaches(from, m) && CanRun(m, b) && Ran(m, b) == next
    ensures Reaches(from, next)
  {
    var bs :| IsCourse(from, bs) && Later(from, bs) == m;
    Longer(from, bs, b);
  }

  lemma {:induction false} Longer(from: Moment, bs: seq<Block>, b: Block)
    requires IsCourse(from, bs) && CanRun(Later(from, bs), b)
    ensures IsCourse(from, bs + [b]) && Later(from, bs + [b]) == Ran(Later(from, bs), b)
    decreases |bs|
  {
    if |bs| == 0 {
      assert bs + [b] == [b] && [b][1..] == [];
    } else {
      Longer(Ran(from, bs[0]), bs[1..], b);
      assert (bs + [b])[1..] == bs[1..] + [b];
    }
  }

  lemma ReachesHold(dim: nat, threshold: nat, m: Moment)
    requires Reaches(Outset(dim, threshold), m)
    ensures Inv(m.s) && Booked(m)
  {
    var bs :| IsCourse(Outset(dim, threshold), bs) && Later(Outset(dim, threshold), bs) == m;
    OutsetBooked(dim, threshold);
    CourseHolds(Outset(dim, threshold), bs);
  }
}
