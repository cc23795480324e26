/**
 * The segmented store as an interleaving machine.
 *
 * One writer, the sealing workers and any number of merge workers share the write buffer, the
 * sealing queue and the segment list. Every block the program runs under one lock is one label;
 * the lock-free HNSW builds are the gaps between labels, where any other thread may step.
 */
module Store {
  import opened Prelude

  /**
   * A sealed segment or a buffer being sealed: immutable contents plus its own tombstones.
   * `uid` stands for the identity of the shared pointer.
   */
  datatype Source = Source(uid: nat, data: map<Id, Floats>, tombs: set<Id>) {
    predicate Live(id: Id) { id in data && id !in tombs }

    function LiveData(): map<Id, Floats> { data - tombs }

    /** Number of live records; `usize` subtraction in the program, so it must not go negative. */
    function LiveCount(): int { |data| - |tombs| }
  }

  /** What the writer does once a seal is over: throttle (insert) or wait for quiet (checkpoint). */
  datatype Resume = Throttle | Settle

  /** Where the single writer stands between two locked blocks. */
  datatype Pc =
    | Idle
    | InsSealing(id: Id, v: Floats)
    | InsSegments(id: Id, v: Floats)
    | InsApply(id: Id, v: Floats)
    | SealTake(after: Resume)
    | SealPush(taken: map<Id, Floats>, after: Resume)
    | SealSwap(after: Resume)
    | SealSpawn(after: Resume)
    | SealDone(after: Resume)
    | HasSealing(id: Id)
    | HasSegments(id: Id)
    | DelBuffer(id: Id)
    | DelSealing(id: Id)
    | DelSegments(id: Id)

  /** Where a sealing worker stands. The first three phases own the queue. */
  datatype SealerPc = Scanning | Building(uid: nat) | Drained | Rechecking | Reclaiming

  /** A merge between its tombstone snapshot and its swap. */
  datatype Job = Job(a: nat, b: nat, aData: map<Id, Floats>, bData: map<Id, Floats>,
                     aSnap: set<Id>, bSnap: set<Id>) {
    /** The rebuilt contents: what the two snapshots show as live. */
    function Merged(): map<Id, Floats> { (aData - aSnap) + (bData - bSnap) }
  }

  datatype State = State(
    dim: nat,
    threshold: nat,
    buffer: map<Id, Floats>,
    sealing: seq<Source>,   // oldest first
    segments: seq<Source>,  // in list order
    inFlight: bool,         // the sealing flag
    sealers: map<nat, SealerPc>,
    jobs: map<nat, Job>,
    pc: Pc,
    nextUid: nat,             // next unused uid
    valveFired: bool)       // history: the 60 s backpressure valve let an insert through

  datatype Label =
    // insert: duplicate checks, then the buffer append
    | BeginInsert(newId: Id, vec: Floats) | CheckSealing | CheckSegments | ApplyInsert
    // seal: buffer swap, queue push, flag swap, thread start, then backpressure or quiescence
    | BeginSeal | TakeBuffer | PushSealing | SwapFlag | Spawn(tid: nat) | Throttled | Valve | Settled
    // delete: liveness check, then the three places a copy can be
    | BeginDelete(oldId: Id) | FindSealing | FindSegments | EraseBuffer | EraseSealing | EraseSegments
    // sealing worker
    | Scan(tid: nat) | Publish(tid: nat) | Clear(tid: nat) | Recheck(tid: nat) | Reclaim(tid: nat)
    // merge worker
    | Snapshot(jid: nat, i: nat, j: nat) | Swap(jid: nat)

  datatype Reply = Inserted | Erased | Duplicate | Missing | WrongDimension | AllQuiet

  /** Index of the newest source that contains `id`, tombstoned or not; -1 when none does. */
  function Newest(ls: seq<Source>, id: Id): (i: int)
    ensures -1 <= i < |ls|
    ensures i >= 0 ==> id in ls[i].data
    ensures forall j :: i < j < |ls| ==> id !in ls[j].data
  {
    if |ls| == 0 then -1
    else if id in ls[|ls| - 1].data then |ls| - 1
    else Newest(ls[..|ls| - 1], id)
  }

  predicate AnyLive(ls: seq<Source>, id: Id) { exists i :: 0 <= i < |ls| && ls[i].Live(id) }

  /** Writes a tombstone for `id` into source `i`. */
  function Bury(ls: seq<Source>, i: nat, id: Id): seq<Source>
    requires i < |ls|
  {
    ls[i := ls[i].(tombs := ls[i].tombs + {id})]
  }

  function Find(ls: seq<Source>, uid: nat): (i: int)
    ensures -1 <= i < |ls|
    ensures i >= 0 ==> ls[i].uid == uid
    ensures i < 0 ==> forall k :: 0 <= k < |ls| ==> ls[k].uid != uid
  {
    if |ls| == 0 then -1
    else if ls[|ls| - 1].uid == uid then |ls| - 1
    else Find(ls[..|ls| - 1], uid)
  }

  /** The list without the two merged sources. */
  function Retain(ls: seq<Source>, a: nat, b: nat): seq<Source> {
    if |ls| == 0 then []
    else if ls[0].uid == a || ls[0].uid == b then Retain(ls[1..], a, b)
    else [ls[0]] + Retain(ls[1..], a, b)
  }

  /** Stable order by live count: earlier in the list wins a tie. */
  predicate Smaller(ls: seq<Source>, i: nat, k: nat)
    requires i < |ls| && k < |ls|
  {
    ls[i].LiveCount() < ls[k].LiveCount() || (ls[i].LiveCount() == ls[k].LiveCount() && i < k)
  }

  /** `i` and `j` are the first two segments of the stable sort by live count. */
  predicate Victims(ls: seq<Source>, i: nat, j: nat) {
    && i < |ls| && j < |ls| && i != j
    && (forall k: nat :: k < |ls| && k != i ==> Smaller(ls, i, k))
    && (forall k: nat :: k < |ls| && k != i && k != j ==> Smaller(ls, j, k))
  }

  /** Tombstones that landed on the sources of a merge after its snapshot. */
  function Carried(s: State, job: Job): set<Id>
    requires Find(s.segments, job.a) >= 0 && Find(s.segments, job.b) >= 0
  {
    (s.segments[Find(s.segments, job.a)].tombs - job.aSnap) +
    (s.segments[Find(s.segments, job.b)].tombs - job.bSnap)
  }

  predicate Enabled(s: State, l: Label) {
    match l
    case BeginInsert(_, _) => s.pc.Idle?
    case CheckSealing => s.pc.InsSealing?
    case CheckSegments => s.pc.InsSegments?
    case ApplyInsert => s.pc.InsApply?
    case BeginSeal => s.pc.Idle?
    case TakeBuffer => s.pc.SealTake?
    case PushSealing => s.pc.SealPush?
    case SwapFlag => s.pc.SealSwap?
    case Spawn(tid) => s.pc.SealSpawn? && tid !in s.sealers
    case Throttled => s.pc == SealDone(Throttle) && |s.sealing| <= 2
    case Valve => s.pc == SealDone(Throttle) && |s.sealing| > 2
    case Settled => s.pc == SealDone(Settle) && !s.inFlight && s.sealing == []
    case BeginDelete(_) => s.pc.Idle?
    case FindSealing => s.pc.HasSealing?
    case FindSegments => s.pc.HasSegments?
    case EraseBuffer => s.pc.DelBuffer?
    case EraseSealing => s.pc.DelSealing?
    case EraseSegments => s.pc.DelSegments?
    case Scan(tid) => tid in s.sealers && s.sealers[tid].Scanning?
    case Publish(tid) => tid in s.sealers && s.sealers[tid].Building?
    case Clear(tid) => tid in s.sealers && s.sealers[tid].Drained?
    case Recheck(tid) => tid in s.sealers && s.sealers[tid].Rechecking?
    case Reclaim(tid) => tid in s.sealers && s.sealers[tid].Reclaiming?
    case Snapshot(jid, i, j) => jid !in s.jobs && Victims(s.segments, i, j)
    case Swap(jid) => jid in s.jobs
  }

  /** One locked block. */
  function Apply(s: State, l: Label): State
    requires Enabled(s, l)
  {
    match l
    case BeginInsert(id, v) =>
      if |v| != s.dim || id in s.buffer then s else s.(pc := InsSealing(id, v))
    case CheckSealing =>
      s.(pc := if AnyLive(s.sealing, s.pc.id) then Idle else InsSegments(s.pc.id, s.pc.v))
    case CheckSegments =>
      s.(pc := if AnyLive(s.segments, s.pc.id) then Idle else InsApply(s.pc.id, s.pc.v))
    case ApplyInsert =>
      if s.pc.id in s.buffer then s.(pc := Idle) else
      var buffer := s.buffer[s.pc.id := s.pc.v];
      s.(buffer := buffer, pc := if |buffer| >= s.threshold then SealTake(Throttle) else Idle)
    case BeginSeal => s.(pc := SealTake(Settle))
    case TakeBuffer =>
      if s.buffer == map[] then s.(pc := SealDone(s.pc.after))
      else s.(buffer := map[], pc := SealPush(s.buffer, s.pc.after))
    case PushSealing =>
      s.(sealing := s.sealing + [Source(s.nextUid, s.pc.taken, {})], nextUid := s.nextUid + 1,
         pc := SealSwap(s.pc.after))
    case SwapFlag =>
      if s.inFlight then s.(pc := SealDone(s.pc.after))
      else s.(inFlight := true, pc := SealSpawn(s.pc.after))
    case Spawn(tid) => s.(sealers := s.sealers[tid := Scanning], pc := SealDone(s.pc.after))
    case Throttled => s.(pc := Idle)
    case Valve => s.(pc := Idle, valveFired := true)
    case Settled => s.(pc := Idle)
    case BeginDelete(id) =>
      s.(pc := if id in s.buffer then DelBuffer(id) else HasSealing(id))
    case FindSealing =>
      s.(pc := if AnyLive(s.sealing, s.pc.id) then DelBuffer(s.pc.id) else HasSegments(s.pc.id))
    case FindSegments =>
      s.(pc := if AnyLive(s.segments, s.pc.id) then DelBuffer(s.pc.id) else Idle)
    case EraseBuffer =>
      if s.pc.id in s.buffer then s.(buffer := s.buffer - {s.pc.id}, pc := Idle)
      else s.(pc := DelSealing(s.pc.id))
    case EraseSealing =>
      var i := Newest(s.sealing, s.pc.id);
      if i < 0 then s.(pc := DelSegments(s.pc.id))
      else if s.pc.id in s.sealing[i].tombs then s.(pc := Idle)
      else s.(sealing := Bury(s.sealing, i, s.pc.id), pc := Idle)
    case EraseSegments =>
      var i := Newest(s.segments, s.pc.id);
      if i < 0 || s.pc.id in s.segments[i].tombs then s.(pc := Idle)
      else s.(segments := Bury(s.segments, i, s.pc.id), pc := Idle)
    case Scan(tid) =>
      s.(sealers := s.sealers[tid := if s.sealing == [] then Drained else Building(s.sealing[0].uid)])
    case Publish(tid) =>
      // the finished HNSW joins the segments with the tombstones it has by now
      var i := Find(s.sealing, s.sealers[tid].uid);
      s.(sealers := s.sealers[tid := Scanning],
         segments := if i < 0 then s.segments else s.segments + [s.sealing[i]],
         sealing := if i < 0 then s.sealing else s.sealing[..i] + s.sealing[i + 1..])
    case Clear(tid) => s.(sealers := s.sealers[tid := Rechecking], inFlight := false)
    case Recheck(tid) =>
      if s.sealing == [] then s.(sealers := s.sealers - {tid})
      else s.(sealers := s.sealers[tid := Reclaiming])
    case Reclaim(tid) =>
      if s.inFlight then s.(sealers := s.sealers - {tid})
      else s.(sealers := s.sealers[tid := Scanning], inFlight := true)
    case Snapshot(jid, i, j) =>
      var a, b := s.segments[i], s.segments[j];
      s.(jobs := s.jobs[jid := Job(a.uid, b.uid, a.data, b.data, a.tombs, b.tombs)])
    case Swap(jid) =>
      var job := s.jobs[jid];
      if Find(s.segments, job.a) < 0 || Find(s.segments, job.b) < 0 then s.(jobs := s.jobs - {jid})
      else
        s.(jobs := s.jobs - {jid}, nextUid := s.nextUid + 1,
           segments := Retain(s.segments, job.a, job.b) + [Source(s.nextUid, job.Merged(), Carried(s, job))])
  }

  /** What the block answers to its client, if it ends an operation. */
  function ReplyOf(s: State, l: Label): Option<Reply>
    requires Enabled(s, l)
  {
    match l
    case BeginInsert(id, v) =>
      if |v| != s.dim then Some(WrongDimension) else if id in s.buffer then Some(Duplicate) else None
    case CheckSealing => if AnyLive(s.sealing, s.pc.id) then Some(Duplicate) else None
    case CheckSegments => if AnyLive(s.segments, s.pc.id) then Some(Duplicate) else None
    case ApplyInsert =>
      if s.pc.id in s.buffer then Some(Duplicate)
      else if |s.buffer[s.pc.id := s.pc.v]| >= s.threshold then None else Some(Inserted)
    case Throttled => Some(Inserted)
    case Valve => Some(Inserted)
    case Settled => Some(AllQuiet)
    case FindSegments => if AnyLive(s.segments, s.pc.id) then None else Some(Missing)
    case EraseBuffer => if s.pc.id in s.buffer then Some(Erased) else None
    case EraseSealing =>
      var i := Newest(s.sealing, s.pc.id);
      if i < 0 then None else if s.pc.id in s.sealing[i].tombs then Some(Missing) else Some(Erased)
    case EraseSegments =>
      var i := Newest(s.segments, s.pc.id);
      if i < 0 || s.pc.id in s.segments[i].tombs then Some(Missing) else Some(Erased)
    case _ => None
  }

  /** An empty store with no thread running. */
  function Init(dim: nat, threshold: nat): State {
    State(dim, threshold, map[], [], [], false, map[], map[], Idle, 0, false)
  }

  /** Every label of the run is enabled when its turn comes. */
  predicate IsRun(s: State, ls: seq<Label>)
    decreases |ls|
  {
    |ls| == 0 || (Enabled(s, ls[0]) && IsRun(Apply(s, ls[0]), ls[1..]))
  }

  function After(s: State, ls: seq<Label>): State
    requires IsRun(s, ls)
    decreases |ls|
  {
    if |ls| == 0 then s else After(Apply(s, ls[0]), ls[1..])
  }
}
