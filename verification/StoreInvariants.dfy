/** What holds between any two locked blocks of the store, and the facts about source lists behind it. */
module StoreInvariants {
  import opened Prelude
  import opened Store

  // ---- The live map of a list of sources, oldest first ----

  /** id -> vector over all live copies; a newer source wins. */
  function LiveMap(ls: seq<Source>): map<Id, Floats> {
    if |ls| == 0 then map[] else LiveMap(ls[..|ls| - 1]) + ls[|ls| - 1].LiveData()
  }

  /** No id is live in two sources. */
  ghost predicate UniqueLive(ls: seq<Source>) {
    forall i, j, id :: 0 <= i < j < |ls| && ls[i].Live(id) ==> !ls[j].Live(id)
  }

  /** The newest-copy property: nothing newer than a live copy contains its id, not even as a tombstone. */
  ghost predicate NewestLive(ls: seq<Source>) {
    forall i, j, id :: 0 <= i < j < |ls| && ls[i].Live(id) ==> id !in ls[j].data
  }

  ghost predicate Distinct(ls: seq<Source>) {
    forall i, j :: 0 <= i < j < |ls| ==> ls[i].uid != ls[j].uid
  }

  ghost predicate Below(ls: seq<Source>, n: nat) {
    forall i :: 0 <= i < |ls| ==> ls[i].uid < n
  }

  ghost predicate TombsInside(ls: seq<Source>) {
    forall i :: 0 <= i < |ls| ==> ls[i].tombs <= ls[i].data.Keys
  }

  lemma FoundAt(ls: seq<Source>, i: nat)
    requires Distinct(ls) && i < |ls|
    ensures Find(ls, ls[i].uid) == i
  {
  }

  lemma {:induction false} LiveMapMembers(ls: seq<Source>, id: Id)
    ensures id in LiveMap(ls) <==> AnyLive(ls, id)
  {
    if |ls| > 0 {
      var n := |ls| - 1;
      LiveMapMembers(ls[..n], id);
      assert ls[n].Live(id) <==> id in ls[n].LiveData();
      if AnyLive(ls, id) && !ls[n].Live(id) {
        var i :| 0 <= i < |ls| && ls[i].Live(id);
        assert ls[..n][i].Live(id);
      }
      if AnyLive(ls[..n], id) {
        var i :| 0 <= i < n && ls[..n][i].Live(id);
        assert ls[i].Live(id);
      }
    }
  }

  lemma {:induction false} LiveMapValue(ls: seq<Source>, i: nat, id: Id)
    requires UniqueLive(ls) && i < |ls| && ls[i].Live(id)
    ensures id in LiveMap(ls) && LiveMap(ls)[id] == ls[i].data[id]
  {
    var n := |ls| - 1;
    if i < n {
      assert UniqueLive(ls[..n]);
      assert ls[..n][i] == ls[i];
      LiveMapValue(ls[..n], i, id);
      assert !ls[n].Live(id);
    }
  }

  /** Two lists with the same live copies have the same live map. */
  lemma SameLiveMap(old_: seq<Source>, new_: seq<Source>)
    requires UniqueLive(old_) && UniqueLive(new_)
    requires forall i, id :: 0 <= i < |old_| && old_[i].Live(id) ==>
      exists j :: 0 <= j < |new_| && new_[j].Live(id) && new_[j].data[id] == old_[i].data[id]
    requires forall j, id :: 0 <= j < |new_| && new_[j].Live(id) ==> AnyLive(old_, id)
    ensures LiveMap(old_) == LiveMap(new_)
  {
    forall id ensures id in LiveMap(old_) <==> id in LiveMap(new_) {
      LiveMapMembers(old_, id);
      LiveMapMembers(new_, id);
    }
    forall id | id in LiveMap(old_) ensures LiveMap(old_)[id] == LiveMap(new_)[id] {
      LiveMapMembers(old_, id);
      var i :| 0 <= i < |old_| && old_[i].Live(id);
      var j :| 0 <= j < |new_| && new_[j].Live(id) && new_[j].data[id] == old_[i].data[id];
      LiveMapValue(old_, i, id);
      LiveMapValue(new_, j, id);
    }
  }

  // ---- Reading through the layers ----

  /** What the scan arm and `vector_of` chains see: the newest source containing the id decides. */
  function Lookup(ls: seq<Source>, id: Id): Option<Floats> {
    var i := Newest(ls, id);
    if i >= 0 && ls[i].Live(id) then Some(ls[i].data[id]) else None
  }

  function Get(m: map<Id, Floats>, id: Id): Option<Floats> {
    if id in m then Some(m[id]) else None
  }

  lemma NewestHere(ls: seq<Source>, n: nat, id: Id)
    requires n < |ls| && id in ls[n].data && forall j :: n < j < |ls| ==> id !in ls[j].data
    ensures Newest(ls, id) == n
  {
  }

  /** Stopping at the first source that contains an id is exact for every id iff the newest-copy property holds. */
  lemma LookupExactIff(ls: seq<Source>)
    requires UniqueLive(ls)
    ensures (forall id :: Lookup(ls, id) == Get(LiveMap(ls), id)) <==> NewestLive(ls)
  {
    if NewestLive(ls) {
      forall id ensures Lookup(ls, id) == Get(LiveMap(ls), id) {
        LiveMapMembers(ls, id);
        if AnyLive(ls, id) {
          var i :| 0 <= i < |ls| && ls[i].Live(id);
          assert Newest(ls, id) == i;
          LiveMapValue(ls, i, id);
        } else {
          assert Lookup(ls, id) == None;
        }
      }
    }
    if forall id :: Lookup(ls, id) == Get(LiveMap(ls), id) {
      forall i, j, id | 0 <= i < j < |ls| && ls[i].Live(id) ensures id !in ls[j].data {
        LiveMapValue(ls, i, id);
        assert Lookup(ls, id) == Get(LiveMap(ls), id);
        assert Newest(ls, id) == i;
      }
    }
  }

  // ---- The state ----

  /** Segments, then the sealing queue: a publish moves the border and nothing else. */
  function Stack(s: State): seq<Source> { s.segments + s.sealing }

  /** The buffer the writer holds between swapping it out and queueing it. */
  function Hand(pc: Pc): seq<Source> { if pc.SealPush? then [Source(0, pc.taken, {})] else [] }

  /** Everything that holds records, oldest first. */
  function Layers(s: State): seq<Source> { Stack(s) + Hand(s.pc) + [Source(0, s.buffer, {})] }

  /** The abstract state: the live map. */
  function View(s: State): map<Id, Floats> { LiveMap(Layers(s)) }

  /** A merge in flight still describes its two sources, as long as they are there. */
  ghost predicate JobOk(stack: seq<Source>, nextUid: nat, job: Job) {
    && job.a < nextUid && job.b < nextUid && job.a != job.b
    && job.aSnap <= job.aData.Keys && job.bSnap <= job.bData.Keys
    && (job.aData.Keys - job.aSnap) !! (job.bData.Keys - job.bSnap)
    && (forall k :: 0 <= k < |stack| && stack[k].uid == job.a ==>
          stack[k].data == job.aData && job.aSnap <= stack[k].tombs)
    && (forall k :: 0 <= k < |stack| && stack[k].uid == job.b ==>
          stack[k].data == job.bData && job.bSnap <= stack[k].tombs)
  }

  /** What the writer has established so far, whatever the workers did in between. */
  ghost predicate PcOk(s: State) {
    match s.pc
    case InsSealing(id, v) => |v| == s.dim && id !in s.buffer
    case InsSegments(id, v) => |v| == s.dim && id !in s.buffer && !AnyLive(s.sealing, id)
    case InsApply(id, v) =>
      |v| == s.dim && id !in s.buffer && !AnyLive(s.sealing, id) && !AnyLive(s.segments, id)
    case SealPush(taken, _) => s.buffer == map[] && taken != map[]
    case SealSwap(_) => s.buffer == map[]
    case SealSpawn(_) => s.buffer == map[]
    case SealDone(_) => s.buffer == map[]
    case HasSealing(id) => id !in s.buffer
    case HasSegments(id) => id !in s.buffer && !AnyLive(s.sealing, id)
    case DelBuffer(id) => id in View(s)
    case DelSealing(id) => id in View(s) && id !in s.buffer
    case DelSegments(id) => id in View(s) && id !in s.buffer && Newest(s.sealing, id) < 0
    case _ => true
  }

  predicate Owns(p: SealerPc) { p.Scanning? || p.Building? || p.Drained? }

  /** Somebody will look at the queue again after the flag was dropped. */
  ghost predicate WillLook(s: State) {
    s.pc.SealSwap? || exists t :: t in s.sealers && !Owns(s.sealers[t])
  }

  /** The sealing-worker protocol. */
  ghost predicate Protocol(s: State) {
    // at most one owner of the queue, and the flag is up exactly while there is one (or one is being started)
    && (forall t, u :: t in s.sealers && u in s.sealers && Owns(s.sealers[t]) && Owns(s.sealers[u]) ==> t == u)
    && (s.pc.SealSpawn? ==> s.inFlight && forall t :: t in s.sealers ==> !Owns(s.sealers[t]))
    && (s.inFlight ==> s.pc.SealSpawn? || exists t :: t in s.sealers && Owns(s.sealers[t]))
    && (!s.inFlight ==> forall t :: t in s.sealers ==> !Owns(s.sealers[t]))
    // what the owner builds is still the oldest of the queue
    && (forall t :: t in s.sealers && s.sealers[t].Building? ==>
          s.sealing != [] && s.sealing[0].uid == s.sealers[t].uid)
    // no lost wakeup
    && (s.sealing != [] && !s.inFlight ==> WillLook(s))
    // backpressure
    && (!s.valveFired ==> |s.sealing| <= 3)
    && (!s.valveFired && !(s.pc.SealSwap? || s.pc.SealSpawn? || s.pc.SealDone?) ==> |s.sealing| <= 2)
  }

  /** The records: distinct immutable sources, one live copy per id, merges that match their sources. */
  ghost predicate Records(s: State) {
    && Distinct(Stack(s)) && Below(Stack(s), s.nextUid) && TombsInside(Stack(s))
    && UniqueLive(Layers(s))
    && (forall jid :: jid in s.jobs ==> JobOk(Stack(s), s.nextUid, s.jobs[jid]))
  }

  ghost predicate Inv(s: State) { Records(s) && PcOk(s) && Protocol(s) }

  lemma InitHolds(dim: nat, threshold: nat)
    ensures Inv(Init(dim, threshold)) && NewestLive(Layers(Init(dim, threshold)))
    ensures View(Init(dim, threshold)) == map[]
  {
    var ls := Layers(Init(dim, threshold));
    assert ls == [Source(0, map[], {})];
    assert LiveMap(ls) == LiveMap(ls[..0]) + map[];
  }

  /** Where a copy can live: the segments, the queue, the writer's hand or the buffer. */
  lemma ViewMembers(s: State, id: Id)
    ensures id in View(s) <==>
      AnyLive(s.segments, id) || AnyLive(s.sealing, id)
      || (s.pc.SealPush? && id in s.pc.taken) || id in s.buffer
  {
    var ls, h := Layers(s), Hand(s.pc);
    var a, b := |s.segments|, |s.sealing|;
    LiveMapMembers(ls, id);
    assert ls[|ls| - 1] == Source(0, s.buffer, {});
    if i :| 0 <= i < a && s.segments[i].Live(id) { assert ls[i].Live(id); }
    if i :| 0 <= i < b && s.sealing[i].Live(id) { assert ls[a + i].Live(id); }
    if s.pc.SealPush? && id in s.pc.taken { assert ls[a + b].Live(id); }
    if id in s.buffer { assert ls[|ls| - 1].Live(id); }
    if i :| 0 <= i < |ls| && ls[i].Live(id) {
      if i < a { assert s.segments[i].Live(id); }
      else if i < a + b { assert s.sealing[i - a].Live(id); }
      else if i < a + b + |h| { assert h[0].Live(id); }
    }
  }
}
