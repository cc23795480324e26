/** Every locked block keeps the invariant and acts on the live map as its operation says. */
module StoreSteps {
  import opened Prelude
  import opened Store
  import opened StoreInvariants

  predicate Erases(l: Label) { l.EraseBuffer? || l.EraseSealing? || l.EraseSegments? }

  /** What a block does to the live map: the two writing operations at their one point, nothing else. */
  ghost predicate Effect(s: State, l: Label, s': State)
    requires Enabled(s, l)
  {
    if l.ApplyInsert? then s.pc.id !in View(s) && View(s') == View(s)[s.pc.id := s.pc.v]
    else if Erases(l) && ReplyOf(s, l) == Some(Erased)
    then s.pc.id in View(s) && View(s') == View(s) - {s.pc.id}
    else View(s') == View(s)
  }

  /** What a reply says about the live map at the moment it is decided. */
  ghost predicate ReplyTrue(s: State, l: Label)
    requires Enabled(s, l)
  {
    && (l.BeginInsert? && ReplyOf(s, l) == Some(Duplicate) ==> l.newId in View(s))
    && (l.CheckSealing? && ReplyOf(s, l) == Some(Duplicate) ==> s.pc.id in View(s))
    && (l.CheckSegments? && ReplyOf(s, l) == Some(Duplicate) ==> s.pc.id in View(s))
    && (l.ApplyInsert? ==> ReplyOf(s, l) != Some(Duplicate))
    && (l.FindSegments? && ReplyOf(s, l) == Some(Missing) ==> s.pc.id !in View(s))
  }

  // ---- Blocks that leave all records where they are ----

  /** Blocks that leave every record, tombstone and merge where it is. */
  ghost predicate Still(s: State, s': State) {
    && s'.dim == s.dim && s'.segments == s.segments && s'.sealing == s.sealing && s'.buffer == s.buffer
    && s'.jobs == s.jobs && s'.nextUid == s.nextUid && Hand(s'.pc) == Hand(s.pc)
  }

  lemma StillKeeps(s: State, s': State)
    requires Records(s) && Still(s, s')
    ensures Records(s') && Layers(s') == Layers(s) && View(s') == View(s)
  {
    assert Stack(s') == Stack(s);
    assert Layers(s') == Layers(s);
  }

  predicate Checking(l: Label) {
    l.BeginInsert? || l.CheckSealing? || l.CheckSegments? || l.BeginSeal?
    || l.BeginDelete? || l.FindSealing? || l.FindSegments?
  }

  lemma CheckingStill(s: State, l: Label)
    requires Enabled(s, l) && Checking(l)
    ensures Still(s, Apply(s, l))
    ensures Protocol(s) ==> Protocol(Apply(s, l))
  {
    hide AnyLive;
  }

  /** The writer's reads: each adds one source to what it has ruled out, whatever moved since the last one. */
  lemma CheckingPc(s: State, l: Label)
    requires PcOk(s) && Enabled(s, l) && Checking(l)
    ensures PcOk(Apply(s, l)) && ReplyTrue(s, l)
  {
    CheckingStill(s, l);
    if l.BeginInsert? { ViewMembers(s, l.newId); }
    else if l.BeginDelete? { ViewMembers(s, l.oldId); ViewMembers(Apply(s, l), l.oldId); }
    else if !l.BeginSeal? { ViewMembers(s, s.pc.id); ViewMembers(Apply(s, l), s.pc.id); }
  }

  lemma CheckingStep(s: State, l: Label)
    requires Inv(s) && Enabled(s, l) && Checking(l)
    ensures Inv(Apply(s, l)) && Effect(s, l, Apply(s, l)) && ReplyTrue(s, l)
    ensures Layers(Apply(s, l)) == Layers(s)
  {
    CheckingStill(s, l);
    StillKeeps(s, Apply(s, l));
    CheckingPc(s, l);
  }

  predicate Signalling(l: Label) {
    l.SwapFlag? || l.Spawn? || l.Throttled? || l.Valve? || l.Settled?
    || l.Scan? || l.Clear? || l.Recheck? || l.Reclaim?
  }

  lemma WriterSignals(s: State, l: Label)
    requires Protocol(s) && Enabled(s, l) && (l.SwapFlag? || l.Spawn? || l.Throttled? || l.Valve? || l.Settled?)
    ensures Protocol(Apply(s, l))
  {
    var s' := Apply(s, l);
    if l.Spawn? { assert Owns(s'.sealers[l.tid]); }
    else {
      assert s'.sealers == s.sealers;
    }
  }

  lemma WorkerSignals(s: State, l: Label)
    requires Protocol(s) && Enabled(s, l) && (l.Scan? || l.Clear? || l.Recheck? || l.Reclaim?)
    ensures Protocol(Apply(s, l))
  {
    var s', t := Apply(s, l), l.tid;
    if t in s'.sealers {
      assert Owns(s'.sealers[t]) || !Owns(s'.sealers[t]);
    }
    if s'.inFlight && s.inFlight && !s.pc.SealSpawn? {
      var u :| u in s.sealers && Owns(s.sealers[u]);
      assert u in s'.sealers && Owns(s'.sealers[u]);
    }
    if s'.sealing != [] && !s'.inFlight && !s.inFlight && !s.pc.SealSwap? {
      var u :| u in s.sealers && !Owns(s.sealers[u]);
      assert u in s'.sealers && !Owns(s'.sealers[u]);
    }
  }

  /** A worker's signalling block touches its own entry and the flag. */
  lemma WorkerFields(s: State, l: Label)
    requires Enabled(s, l) && (l.Scan? || l.Clear? || l.Recheck? || l.Reclaim?)
    ensures Apply(s, l) == s.(sealers := Apply(s, l).sealers, inFlight := Apply(s, l).inFlight)
  {
    match l
    case Scan(_) =>
    case Clear(_) =>
    case Recheck(_) =>
    case Reclaim(_) =>
  }

  /** The writer's signalling blocks also move the writer, never into or out of the hand-over. */
  lemma WriterFields(s: State, l: Label)
    requires Enabled(s, l) && (l.SwapFlag? || l.Spawn? || l.Throttled? || l.Valve? || l.Settled?)
    ensures var s' := Apply(s, l);
      && s' == s.(sealers := s'.sealers, inFlight := s'.inFlight, pc := s'.pc, valveFired := s'.valveFired)
      && (s.pc.SealSwap? || s.pc.SealSpawn? || s.pc.SealDone?) && (s'.pc.SealSpawn? || s'.pc.SealDone? || s'.pc.Idle?)
  {
    match l
    case SwapFlag =>
    case Spawn(_) =>
    case Throttled =>
    case Valve =>
    case Settled =>
  }

  lemma SignallingStill(s: State, l: Label)
    requires Enabled(s, l) && Signalling(l)
    ensures Still(s, Apply(s, l)) && ReplyTrue(s, l)
    ensures PcOk(s) && View(Apply(s, l)) == View(s) ==> PcOk(Apply(s, l))
  {
    if l.Scan? || l.Clear? || l.Recheck? || l.Reclaim? {
      WorkerFields(s, l);
    } else {
      WriterFields(s, l);
    }
  }

  /** The flag, the threads and the waits: no record moves. */
  lemma SignallingStep(s: State, l: Label)
    requires Inv(s) && Enabled(s, l) && Signalling(l)
    ensures Inv(Apply(s, l)) && Effect(s, l, Apply(s, l)) && ReplyTrue(s, l)
    ensures Layers(Apply(s, l)) == Layers(s)
  {
    SignallingStill(s, l);
    StillKeeps(s, Apply(s, l));
    if l.SwapFlag? || l.Spawn? || l.Throttled? || l.Valve? || l.Settled? {
      WriterSignals(s, l);
    } else {
      WorkerSignals(s, l);
    }
  }

  // ---- Blocks that move records without changing a live copy ----

  /** Lists whose sources agree in contents and tombstones read alike. */
  lemma {:induction false} SameContents(ls: seq<Source>, ms: seq<Source>)
    requires |ls| == |ms|
    requires forall i :: 0 <= i < |ls| ==> ls[i].data == ms[i].data && ls[i].tombs == ms[i].tombs
    ensures LiveMap(ls) == LiveMap(ms)
    ensures UniqueLive(ls) ==> UniqueLive(ms)
    ensures NewestLive(ls) ==> NewestLive(ms)
  {
    if |ls| > 0 { SameContents(ls[..|ls| - 1], ms[..|ms| - 1]); }
    if UniqueLive(ls) {
      forall i, j, id | 0 <= i < j < |ms| && ms[i].Live(id) ensures !ms[j].Live(id) {
        assert ls[i].Live(id) && !ls[j].Live(id);
      }
    }
    if NewestLive(ls) {
      forall i, j, id | 0 <= i < j < |ms| && ms[i].Live(id) ensures id !in ms[j].data {
        assert ls[i].Live(id) && id !in ls[j].data;
      }
    }
  }

  /** An empty source at the end is invisible. */
  lemma EmptyTop(ls: seq<Source>, e: Source)
    requires e.data == map[]
    ensures LiveMap(ls + [e]) == LiveMap(ls)
    ensures UniqueLive(ls) ==> UniqueLive(ls + [e])
    ensures NewestLive(ls) ==> NewestLive(ls + [e])
  {
    var ms := ls + [e];
    assert ms[..|ms| - 1] == ls;
    assert e.LiveData() == map[];
    if UniqueLive(ls) {
      forall i, j, id | 0 <= i < j < |ms| && ms[i].Live(id) ensures !ms[j].Live(id) {
        assert ls[i] == ms[i] && (j < |ls| ==> ls[j] == ms[j]);
      }
    }
    if NewestLive(ls) {
      forall i, j, id | 0 <= i < j < |ms| && ms[i].Live(id) ensures id !in ms[j].data {
        assert ls[i] == ms[i] && (j < |ls| ==> ls[j] == ms[j]);
      }
    }
  }

  /** Taking the buffer out leaves it readable in the writer's hand. */
  lemma TakeStep(s: State)
    requires Inv(s) && Enabled(s, TakeBuffer)
    ensures var s' := Apply(s, TakeBuffer); Inv(s') && View(s') == View(s)
    ensures NewestLive(Layers(s)) ==> NewestLive(Layers(Apply(s, TakeBuffer)))
  {
    var s' := Apply(s, TakeBuffer);
    TakeProtocol(s);
    if s.buffer == map[] {
      StillKeeps(s, s');
    } else {
      TakenHand(s, s');
      EmptyTop(Layers(s), Source(0, map[], {}));
    }
  }

  lemma TakenHand(s: State, s': State)
    requires s.pc.SealTake? && s' == s.(buffer := map[], pc := SealPush(s.buffer, s.pc.after))
    ensures Stack(s') == Stack(s) && Layers(s') == Layers(s) + [Source(0, map[], {})]
  {
  }

  lemma TakeProtocol(s: State)
    requires Protocol(s) && Enabled(s, TakeBuffer)
    ensures Protocol(Apply(s, TakeBuffer))
  {
  }

  /** Queueing it moves it from the hand to the young end of the queue. */
  lemma PushStep(s: State)
    requires Inv(s) && Enabled(s, PushSealing)
    ensures var s' := Apply(s, PushSealing); Inv(s') && View(s') == View(s)
    ensures NewestLive(Layers(s)) ==> NewestLive(Layers(Apply(s, PushSealing)))
  {
    var s' := Apply(s, PushSealing);
    assert Stack(s') == Stack(s) + [Source(s.nextUid, s.pc.taken, {})];
    SameContents(Layers(s), Layers(s'));
    PushRecords(s);
    PushProtocol(s);
  }

  lemma PushRecords(s: State)
    requires Records(s) && Enabled(s, PushSealing)
    ensures var s' := Apply(s, PushSealing);
      && Distinct(Stack(s')) && Below(Stack(s'), s'.nextUid) && TombsInside(Stack(s'))
      && forall jid :: jid in s'.jobs ==> JobOk(Stack(s'), s'.nextUid, s'.jobs[jid])
  {
    assert Stack(Apply(s, PushSealing)) == Stack(s) + [Source(s.nextUid, s.pc.taken, {})];
  }

  lemma PushProtocol(s: State)
    requires Protocol(s) && Enabled(s, PushSealing)
    ensures Protocol(Apply(s, PushSealing))
  {
  }

  lemma FindHead(ls: seq<Source>, ms: seq<Source>)
    requires Distinct(ls + ms) && ms != []
    ensures Find(ms, ms[0].uid) == 0
  {
    assert forall j :: 0 <= j < |ms| ==> (ls + ms)[|ls| + j] == ms[j];
  }

  lemma PublishShape(s: State, tid: nat)
    requires Enabled(s, Publish(tid)) && s.sealing != [] && Find(s.sealing, s.sealers[tid].uid) == 0
    ensures Apply(s, Publish(tid)) ==
      s.(sealers := s.sealers[tid := Scanning], segments := s.segments + [s.sealing[0]], sealing := s.sealing[1..])
  {
    assert s.sealing[..0] + s.sealing[1..] == s.sealing[1..];
  }

  /** The sealing worker's publish moves the border between queue and segments; the stack stays as it is. */
  lemma PublishStack(s: State, tid: nat)
    requires Distinct(Stack(s)) && Protocol(s) && Enabled(s, Publish(tid))
    ensures var s' := Apply(s, Publish(tid));
      && s.sealing != []
      && s' == s.(sealers := s.sealers[tid := Scanning], segments := s.segments + [s.sealing[0]],
                  sealing := s.sealing[1..])
      && Stack(s') == Stack(s) && Layers(s') == Layers(s)
  {
    FindHead(s.segments, s.sealing);
    PublishShape(s, tid);
    MoveBorder(s.segments, s.sealing);
  }

  lemma MoveBorder(ls: seq<Source>, ms: seq<Source>)
    requires ms != []
    ensures (ls + [ms[0]]) + ms[1..] == ls + ms
  {
  }

  lemma PublishPc(s: State, s': State)
    requires PcOk(s) && s.sealing != [] && View(s') == View(s)
    requires s'.segments == s.segments + [s.sealing[0]] && s'.sealing == s.sealing[1..]
    requires s'.pc == s.pc && s'.buffer == s.buffer && s'.dim == s.dim
    ensures PcOk(s')
  {
    forall id | AnyLive(s'.sealing, id) ensures AnyLive(s.sealing, id) {
      var i :| 0 <= i < |s'.sealing| && s'.sealing[i].Live(id);
      assert s.sealing[i + 1].Live(id);
    }
    forall id | !AnyLive(s.sealing, id) && !AnyLive(s.segments, id) ensures !AnyLive(s'.segments, id) {
      forall i | 0 <= i < |s'.segments| ensures !s'.segments[i].Live(id) {
        assert s'.segments[i] == if i < |s.segments| then s.segments[i] else s.sealing[0];
      }
    }
    forall id | Newest(s.sealing, id) < 0 ensures Newest(s'.sealing, id) < 0 {
      assert forall n :: 0 <= n < |s'.sealing| ==> s'.sealing[n] == s.sealing[n + 1];
    }
  }

  lemma PublishProtocol(s: State, tid: nat)
    requires Distinct(Stack(s)) && Protocol(s) && Enabled(s, Publish(tid))
    ensures Protocol(Apply(s, Publish(tid)))
  {
    PublishStack(s, tid);
    var s' := Apply(s, Publish(tid));
    assert s'.inFlight == s.inFlight && s'.pc == s.pc && s'.sealers == s.sealers[tid := Scanning];
    assert Owns(s'.sealers[tid]);
  }

  lemma PublishStep(s: State, tid: nat)
    requires Inv(s) && Enabled(s, Publish(tid))
    ensures var s' := Apply(s, Publish(tid));
      Inv(s') && View(s') == View(s) && Layers(s') == Layers(s)
  {
    PublishStack(s, tid);
    PublishPc(s, Apply(s, Publish(tid)));
    PublishProtocol(s, tid);
  }

  // ---- The two writes ----

  /** Removing a live copy, by tombstone or for real, removes the id from the live map. */
  lemma KillCopy(ls: seq<Source>, i: nat, x: Source, id: Id)
    requires UniqueLive(ls) && i < |ls| && ls[i].Live(id)
    requires x.LiveData() == ls[i].LiveData() - {id} && x.data.Keys <= ls[i].data.Keys
    ensures UniqueLive(ls[i := x]) && LiveMap(ls[i := x]) == LiveMap(ls) - {id} && id in LiveMap(ls)
    ensures NewestLive(ls) ==> NewestLive(ls[i := x])
  {
    var ms := ls[i := x];
    forall k ensures x.Live(k) <==> ls[i].Live(k) && k != id {
      assert x.Live(k) <==> k in x.LiveData();
      assert ls[i].Live(k) <==> k in ls[i].LiveData();
    }
    assert UniqueLive(ms);
    LiveMapValue(ls, i, id);
    forall k ensures k in LiveMap(ms) <==> k in LiveMap(ls) - {id} {
      LiveMapMembers(ls, k);
      LiveMapMembers(ms, k);
      if AnyLive(ls, k) && k != id {
        var j :| 0 <= j < |ls| && ls[j].Live(k);
        assert ms[j].Live(k);
      }
      if AnyLive(ms, k) {
        var j :| 0 <= j < |ms| && ms[j].Live(k);
        assert ls[j].Live(k);
      }
    }
    forall k | k in LiveMap(ms) ensures LiveMap(ms)[k] == LiveMap(ls)[k] {
      LiveMapMembers(ms, k);
      var j :| 0 <= j < |ms| && ms[j].Live(k);
      LiveMapValue(ms, j, k);
      LiveMapValue(ls, j, k);
      if j == i {
        assert x.data[k] == x.LiveData()[k] == ls[i].LiveData()[k] == ls[i].data[k];
      }
    }
  }

  /** Adding a copy of an id that is live nowhere, in the newest source. */
  lemma AddCopy(ls: seq<Source>, x: Source, id: Id, v: Floats)
    requires UniqueLive(ls) && |ls| > 0 && id !in LiveMap(ls)
    requires ls[|ls| - 1].tombs == {} && x.tombs == {} && x.data == ls[|ls| - 1].data[id := v]
    ensures var ms := ls[|ls| - 1 := x];
      && UniqueLive(ms) && LiveMap(ms) == LiveMap(ls)[id := v] && (NewestLive(ls) ==> NewestLive(ms))
  {
    var n := |ls| - 1;
    var ms := ls[n := x];
    assert ms[..n] == ls[..n];
    assert x.LiveData() == ls[n].LiveData()[id := v];
    LiveMapMembers(ls, id);
    AddCopyOrder(ls, x, id, v);
  }

  lemma AddCopyOrder(ls: seq<Source>, x: Source, id: Id, v: Floats)
    requires UniqueLive(ls) && |ls| > 0 && !AnyLive(ls, id)
    requires ls[|ls| - 1].tombs == {} && x.tombs == {} && x.data == ls[|ls| - 1].data[id := v]
    ensures var ms := ls[|ls| - 1 := x]; UniqueLive(ms) && (NewestLive(ls) ==> NewestLive(ms))
  {
    var ms := ls[|ls| - 1 := x];
    forall i, j, k | 0 <= i < j < |ms| && ms[i].Live(k) ensures !ms[j].Live(k) {
      assert ls[i].Live(k);
    }
    if NewestLive(ls) {
      forall i, j, k | 0 <= i < j < |ms| && ms[i].Live(k) ensures k !in ms[j].data {
        assert ls[i].Live(k);
      }
    }
  }

  lemma InsertStep(s: State)
    requires Inv(s) && Enabled(s, ApplyInsert)
    ensures var s' := Apply(s, ApplyInsert); Inv(s') && Effect(s, ApplyInsert, s') && ReplyTrue(s, ApplyInsert)
    ensures NewestLive(Layers(s)) ==> NewestLive(Layers(Apply(s, ApplyInsert)))
  {
    var s' := Apply(s, ApplyInsert);
    InsertProtocol(s);
    ViewMembers(s, s.pc.id);
    InsertFields(s);
    InsertRecords(s, s', s.pc.id, s.pc.v);
  }

  lemma InsertFields(s: State)
    requires Enabled(s, ApplyInsert) && s.pc.id !in s.buffer
    ensures var s' := Apply(s, ApplyInsert);
      && s' == s.(buffer := s.buffer[s.pc.id := s.pc.v], pc := s'.pc) && (s'.pc.Idle? || s'.pc.SealTake?)
      && ReplyOf(s, ApplyInsert) != Some(Duplicate)
  {
  }

  lemma InsertRecords(s: State, s': State, id: Id, v: Floats)
    requires Records(s) && Hand(s.pc) == [] && Hand(s'.pc) == [] && id !in View(s) && id !in s.buffer
    requires s' == s.(buffer := s.buffer[id := v], pc := s'.pc)
    ensures Records(s') && View(s') == View(s)[id := v]
    ensures NewestLive(Layers(s)) ==> NewestLive(Layers(s'))
  {
    TopReplaced(s, s');
    AddCopy(Layers(s), Source(0, s'.buffer, {}), id, v);
  }

  lemma InsertProtocol(s: State)
    requires Protocol(s) && Enabled(s, ApplyInsert)
    ensures Protocol(Apply(s, ApplyInsert))
  {
  }

  /** A write that leaves the queue's shape and the threads alone keeps the worker protocol. */
  lemma SameQueueProtocol(s: State, s': State)
    requires Protocol(s)
    requires s'.sealers == s.sealers && s'.inFlight == s.inFlight && s'.valveFired == s.valveFired
    requires |s'.sealing| == |s.sealing| && (s.sealing != [] ==> s'.sealing[0].uid == s.sealing[0].uid)
    requires !(s.pc.SealSwap? || s.pc.SealSpawn? || s.pc.SealDone?)
    requires !(s'.pc.SealSwap? || s'.pc.SealSpawn? || s'.pc.SealDone?)
    ensures Protocol(s')
  {
  }

  /** Tombstones only grow, so sources and merges in flight stay described. */
  lemma BuryRecords(stack: seq<Source>, i: nat, id: Id, n: nat)
    requires Distinct(stack) && Below(stack, n) && TombsInside(stack)
    requires i < |stack| && id in stack[i].data
    ensures var t := Bury(stack, i, id); Distinct(t) && Below(t, n) && TombsInside(t)
    ensures forall job: Job :: JobOk(stack, n, job) ==> JobOk(Bury(stack, i, id), n, job)
  {
  }

  lemma EraseBufferStep(s: State)
    requires Inv(s) && Enabled(s, EraseBuffer)
    ensures var s' := Apply(s, EraseBuffer); Inv(s') && Effect(s, EraseBuffer, s')
    ensures NewestLive(Layers(s)) ==> NewestLive(Layers(Apply(s, EraseBuffer)))
  {
    var s', ls, id := Apply(s, EraseBuffer), Layers(s), s.pc.id;
    SameQueueProtocol(s, s');
    if id in s.buffer {
      EraseBufferRecords(s, id);
    } else {
      StillKeeps(s, s');
    }
  }

  lemma EraseBufferRecords(s: State, id: Id)
    requires Records(s) && id in s.buffer && Hand(s.pc) == []
    ensures var s' := s.(buffer := s.buffer - {id}, pc := Idle);
      Records(s') && id in View(s) && View(s') == View(s) - {id}
      && (NewestLive(Layers(s)) ==> NewestLive(Layers(s')))
  {
    var s', ls := s.(buffer := s.buffer - {id}, pc := Idle), Layers(s);
    TopReplaced(s, s');
    BufferErased(s.buffer, id);
    KillCopy(ls, |ls| - 1, Source(0, s'.buffer, {}), id);
  }

  /** Two states that differ in the buffer only, outside the hand-over. */
  lemma TopReplaced(s: State, s': State)
    requires Hand(s.pc) == [] && Hand(s'.pc) == [] && s'.segments == s.segments && s'.sealing == s.sealing
    ensures Stack(s') == Stack(s) && |Layers(s)| > 0
    ensures Layers(s)[|Layers(s)| - 1] == Source(0, s.buffer, {})
    ensures Layers(s') == Layers(s)[|Layers(s)| - 1 := Source(0, s'.buffer, {})]
  {
  }

  lemma BufferErased(buffer: map<Id, Floats>, id: Id)
    ensures Source(0, buffer - {id}, {}).LiveData() == Source(0, buffer, {}).LiveData() - {id}
    ensures id in buffer ==> Source(0, buffer, {}).Live(id)
  {
  }

  /** A tombstone on a live copy anywhere in the stack. */
  lemma BuryStep(s: State, s': State, k: nat, id: Id)
    requires Records(s) && Hand(s.pc) == [] && Hand(s'.pc) == []
    requires k < |Stack(s)| && Stack(s)[k].Live(id) && Stack(s') == Bury(Stack(s), k, id)
    requires s'.buffer == s.buffer && s'.jobs == s.jobs && s'.nextUid == s.nextUid
    ensures Records(s') && id in View(s) && View(s') == View(s) - {id}
    ensures NewestLive(Layers(s)) ==> NewestLive(Layers(s'))
  {
    var ls := Layers(s);
    var x := Stack(s')[k];
    BuryRecords(Stack(s), k, id, s.nextUid);
    assert Layers(s') == ls[k := x];
    assert x.LiveData() == ls[k].LiveData() - {id};
    KillCopy(ls, k, x, id);
  }

  lemma EraseSealingStep(s: State)
    requires Inv(s) && Enabled(s, EraseSealing)
    ensures var s' := Apply(s, EraseSealing); Inv(s') && Effect(s, EraseSealing, s')
    ensures NewestLive(Layers(s)) ==> NewestLive(Layers(Apply(s, EraseSealing)))
  {
    var s', id, i := Apply(s, EraseSealing), s.pc.id, Newest(s.sealing, s.pc.id);
    EraseSealingShape(s);
    EraseSealingProtocol(s);
    if i >= 0 && id !in s.sealing[i].tombs {
      EraseSealingHit(s, s', i);
    } else {
      EraseSealingMiss(s, s', i);
    }
  }

  lemma EraseSealingProtocol(s: State)
    requires Protocol(s) && Enabled(s, EraseSealing)
    ensures Protocol(Apply(s, EraseSealing))
  {
    EraseSealingShape(s);
    SameQueueProtocol(s, Apply(s, EraseSealing));
  }

  lemma EraseSealingMiss(s: State, s': State, i: int)
    requires Records(s) && PcOk(s) && s.pc.DelSealing? && i == Newest(s.sealing, s.pc.id)
    requires s' == s.(pc := if i < 0 then DelSegments(s.pc.id) else Idle)
    ensures Records(s') && PcOk(s') && Layers(s') == Layers(s) && View(s') == View(s)
  {
    StillKeeps(s, s');
  }

  lemma EraseSealingHit(s: State, s': State, i: nat)
    requires Records(s) && s.pc.DelSealing? && i < |s.sealing| && s.sealing[i].Live(s.pc.id)
    requires s' == s.(sealing := Bury(s.sealing, i, s.pc.id), pc := Idle)
    ensures Records(s') && s.pc.id in View(s) && View(s') == View(s) - {s.pc.id}
    ensures NewestLive(Layers(s)) ==> NewestLive(Layers(s'))
  {
    BuryRight(s.segments, s.sealing, i, s.pc.id);
    BuryStep(s, s', |s.segments| + i, s.pc.id);
  }

  lemma EraseSealingShape(s: State)
    requires Enabled(s, EraseSealing)
    ensures var id, i := s.pc.id, Newest(s.sealing, s.pc.id);
      Apply(s, EraseSealing) ==
        if i >= 0 && id !in s.sealing[i].tombs then s.(sealing := Bury(s.sealing, i, id), pc := Idle)
        else s.(pc := if i < 0 then DelSegments(id) else Idle)
    ensures ReplyOf(s, EraseSealing) == Some(Erased) <==>
      Newest(s.sealing, s.pc.id) >= 0 && s.pc.id !in s.sealing[Newest(s.sealing, s.pc.id)].tombs
  {
  }

  lemma BuryRight(ls: seq<Source>, ms: seq<Source>, i: nat, id: Id)
    requires i < |ms|
    ensures ls + Bury(ms, i, id) == Bury(ls + ms, |ls| + i, id) && (ls + ms)[|ls| + i] == ms[i]
  {
  }

  lemma BuryLeft(ls: seq<Source>, ms: seq<Source>, i: nat, id: Id)
    requires i < |ls|
    ensures Bury(ls, i, id) + ms == Bury(ls + ms, i, id) && (ls + ms)[i] == ls[i]
  {
  }

  lemma EraseSegmentsStep(s: State)
    requires Inv(s) && Enabled(s, EraseSegments)
    ensures var s' := Apply(s, EraseSegments); Inv(s') && Effect(s, EraseSegments, s')
    ensures NewestLive(Layers(s)) ==> NewestLive(Layers(Apply(s, EraseSegments)))
  {
    var s', id, i := Apply(s, EraseSegments), s.pc.id, Newest(s.segments, s.pc.id);
    if i >= 0 && id !in s.segments[i].tombs {
      assert s' == s.(segments := Bury(s.segments, i, id), pc := Idle);
      BuryLeft(s.segments, s.sealing, i, id);
      BuryStep(s, s', i, id);
    } else {
      assert s' == s.(pc := Idle);
      StillKeeps(s, s');
    }
    SameQueueProtocol(s, s');
  }
}
