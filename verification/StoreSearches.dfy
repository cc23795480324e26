/**
 * A search reads the segment list, the queue and the buffer at three moments, and records move while it
 * reads: from the buffer into the writer's hand, on into the queue, and at last into a segment. Which of
 * the records that were there all along it finds depends on the order in which it reads.
 */
module StoreSearches {
  import opened Prelude
  import opened Store
  import opened StoreInvariants
  import opened StoreSteps
  import opened StoreMerge
  import opened StoreRuns
  import opened StoreWorkers
  import opened StoreHiding

  // ---- Where a record is ----

  datatype Place = InBuffer | InHand | InQueue | InSegments

  function Rank(p: Place): nat { match p case InBuffer => 0 case InHand => 1 case InQueue => 2 case InSegments => 3 }

  predicate At(s: State, p: Place, id: Id) {
    match p
    case InBuffer => id in s.buffer
    case InHand => s.pc.SealPush? && id in s.pc.taken
    case InQueue => AnyLive(s.sealing, id)
    case InSegments => AnyLive(s.segments, id)
  }

  function PlaceOf(s: State, id: Id): Place {
    if At(s, InBuffer, id) then InBuffer else if At(s, InHand, id) then InHand
    else if At(s, InQueue, id) then InQueue else InSegments
  }

  /** A live record is in exactly one place. */
  lemma OnePlace(s: State, id: Id, p: Place)
    requires Inv(s)
    ensures id in View(s) ==> (At(s, p, id) <==> PlaceOf(s, id) == p)
    ensures At(s, p, id) ==> id in View(s)
  {
    ViewMembers(s, id);
    if At(s, p, id) && PlaceOf(s, id) != p { TwoPlaces(s, id, PlaceOf(s, id), p); }
  }

  lemma TwoPlaces(s: State, id: Id, p: Place, q: Place)
    requires UniqueLive(Layers(s)) && (s.pc.SealPush? ==> s.buffer == map[])
    requires At(s, p, id) && At(s, q, id)
    ensures p == q
  {
    var i := Spot(s, id, p);
    var j := Spot(s, id, q);
    assert Layers(s)[i].Live(id) && Layers(s)[j].Live(id);
  }

  /** The layer behind a place. */
  lemma Spot(s: State, id: Id, p: Place) returns (i: nat)
    requires At(s, p, id)
    ensures i < |Layers(s)| && Layers(s)[i].Live(id)
    ensures p.InSegments? <==> i < |s.segments|
    ensures p.InQueue? <==> |s.segments| <= i < |s.segments| + |s.sealing|
    ensures p.InBuffer? <==> i == |Layers(s)| - 1
  {
    var a, b := |s.segments|, |s.sealing|;
    match p {
      case InBuffer => i := |Layers(s)| - 1;
      case InHand => i := a + b;
      case InQueue =>
        i :| 0 <= i < b && s.sealing[i].Live(id);
        i := a + i;
      case InSegments =>
        i :| 0 <= i < a && s.segments[i].Live(id);
    }
  }

  // ---- How it moves ----

  /** What a block leaves below the segments was there before, or further down. */
  lemma ComesFrom(s: State, l: Label, id: Id, p: Place) returns (q: Place)
    requires Enabled(s, l) && At(Apply(s, l), p, id) && p != InSegments && (l.ApplyInsert? ==> id != s.pc.id)
    ensures At(s, q, id) && Rank(q) <= Rank(p)
  {
    hide Newest, Find, Retain, Carried, Victims;
    q := if l.TakeBuffer? && p.InHand? then InBuffer
         else if l.PushSealing? && p.InQueue? && id in s.pc.taken then InHand else p;
    if p.InQueue? {
      if l.PushSealing? || l.EraseSealing? || l.Publish? {
        QueueFrom(s, l, id);
      } else {
        QueueUntouched(s, l);
      }
    }
  }

  lemma QueueFrom(s: State, l: Label, id: Id)
    requires Enabled(s, l) && AnyLive(Apply(s, l).sealing, id) && (l.PushSealing? || l.EraseSealing? || l.Publish?)
    ensures AnyLive(s.sealing, id) || (l.PushSealing? && id in s.pc.taken)
  {
    hide Newest, Find, Retain, Carried, Victims, AnyLive;
    if l.PushSealing? {
      Joined(s.sealing, Source(s.nextUid, s.pc.taken, {}), id);
    } else if l.EraseSealing? {
      var i := Newest(s.sealing, s.pc.id);
      if Apply(s, l).sealing != s.sealing { BuriedLess(s.sealing, i, s.pc.id, id); }
    } else {
      var i := Find(s.sealing, s.sealers[l.tid].uid);
      if i >= 0 { WithoutLess(s.sealing, i, id); }
    }
  }

  lemma Joined(ls: seq<Source>, x: Source, id: Id)
    ensures AnyLive(ls + [x], id) <==> AnyLive(ls, id) || x.Live(id)
  {
    if i :| 0 <= i < |ls + [x]| && (ls + [x])[i].Live(id) { assert i < |ls| ==> ls[i].Live(id); }
    if i :| 0 <= i < |ls| && ls[i].Live(id) { assert (ls + [x])[i].Live(id); }
    assert (ls + [x])[|ls|] == x;
  }

  lemma BuriedLess(ls: seq<Source>, i: nat, gone: Id, id: Id)
    requires i < |ls| && AnyLive(Bury(ls, i, gone), id)
    ensures AnyLive(ls, id)
  {
    var k :| 0 <= k < |ls| && Bury(ls, i, gone)[k].Live(id);
    assert ls[k].Live(id);
  }

  lemma WithoutLess(ls: seq<Source>, i: nat, id: Id)
    requires i < |ls| && AnyLive(ls[..i] + ls[i + 1..], id)
    ensures AnyLive(ls, id)
  {
    var rest := ls[..i] + ls[i + 1..];
    var k :| 0 <= k < |rest| && rest[k].Live(id);
    assert ls[if k < i then k else k + 1].Live(id);
  }

  /** A record that lives on keeps its vector and never moves back. */
  lemma MovesOn(s: State, l: Label, id: Id)
    requires Inv(s) && Enabled(s, l) && id in View(s) && id in View(Apply(s, l))
    ensures Rank(PlaceOf(s, id)) <= Rank(PlaceOf(Apply(s, l), id))
    ensures View(Apply(s, l))[id] == View(s)[id]
  {
    hide Inv, View, Apply, Enabled;
    StepHolds(s, l);
    var t := Apply(s, l);
    var p := PlaceOf(t, id);
    if p != InSegments {
      var q := ComesFrom(s, l, id, p);
      OnePlace(s, id, q);
    }
  }

  /** Only a publish takes a record into the segments, and only a seal takes it out of the buffer. */
  lemma StaysBelow(s: State, l: Label, id: Id)
    requires Inv(s) && Enabled(s, l) && id in View(s) && id in View(Apply(s, l))
    ensures !l.Publish? && PlaceOf(Apply(s, l), id) == InSegments ==> PlaceOf(s, id) == InSegments
    ensures !l.TakeBuffer? && PlaceOf(s, id) == InBuffer ==> PlaceOf(Apply(s, l), id) == InBuffer
  {
    hide Inv, View, Apply, Enabled;
    StepHolds(s, l);
    var t, p := Apply(s, l), PlaceOf(s, id);
    OnePlace(s, id, p);
    if p != InSegments && !(l.Publish? && p.InQueue?) {
      HandEmptiesBuffer(s);
      var q := GoesTo(s, l, id, p);
      OnePlace(t, id, q);
    }
  }

  lemma HandEmptiesBuffer(s: State)
    requires Inv(s)
    ensures s.pc.SealPush? ==> s.buffer == map[]
  {
  }

  lemma GoesTo(s: State, l: Label, id: Id, p: Place) returns (q: Place)
    requires Enabled(s, l) && At(s, p, id) && p != InSegments && !(l.Publish? && p.InQueue?)
    requires !Erases(l) || id != s.pc.id || ReplyOf(s, l) != Some(Erased)
    requires s.pc.SealPush? ==> s.buffer == map[]
    ensures At(Apply(s, l), q, id) && q != InSegments
    ensures p == InBuffer && !l.TakeBuffer? ==> q == InBuffer
  {
    hide Newest, Find, Retain, Carried, Victims;
    q := if l.TakeBuffer? && p.InBuffer? then InHand else if l.PushSealing? && p.InHand? then InQueue else p;
    if p.InQueue? {
      QueueTo(s, l, id);
    } else if l.PushSealing? && p.InHand? {
      Joined(s.sealing, Source(s.nextUid, s.pc.taken, {}), id);
    }
  }

  lemma QueueTo(s: State, l: Label, id: Id)
    requires Enabled(s, l) && AnyLive(s.sealing, id) && !l.Publish?
    requires !Erases(l) || id != s.pc.id || ReplyOf(s, l) != Some(Erased)
    ensures AnyLive(Apply(s, l).sealing, id)
  {
    if l.PushSealing? {
      Joined(s.sealing, Source(s.nextUid, s.pc.taken, {}), id);
    } else if l.EraseSealing? {
      var i := Newest(s.sealing, s.pc.id);
      if Apply(s, l).sealing != s.sealing { BuriedRest(s.sealing, i, s.pc.id, id); }
    } else {
      QueueUntouched(s, l);
    }
  }

  lemma BuriedRest(ls: seq<Source>, i: nat, gone: Id, id: Id)
    requires i < |ls| && AnyLive(ls, id) && id != gone
    ensures AnyLive(Bury(ls, i, gone), id)
  {
    var k :| 0 <= k < |ls| && ls[k].Live(id);
    assert Bury(ls, i, gone)[k].Live(id);
  }

  // ---- Over a run ----

  /** The record is live before, after and at every step of the run; so it is the same record throughout. */
  ghost predicate LivesOn(s: State, ls: seq<Label>, id: Id)
    requires IsRun(s, ls)
    decreases |ls|
  {
    id in View(s) && (|ls| > 0 ==> LivesOn(Apply(s, ls[0]), ls[1..], id))
  }

  lemma {:induction false} OverRun(s: State, ls: seq<Label>, id: Id)
    requires Inv(s) && IsRun(s, ls) && LivesOn(s, ls, id)
    ensures var t := After(s, ls);
      && Inv(t) && id in View(t) && View(t)[id] == View(s)[id] && Rank(PlaceOf(s, id)) <= Rank(PlaceOf(t, id))
    decreases |ls|
  {
    hide Inv, View, Apply, Enabled;
    if |ls| > 0 {
      StepHolds(s, ls[0]);
      MovesOn(s, ls[0], id);
      OverRun(Apply(s, ls[0]), ls[1..], id);
    }
  }

  predicate Publishes(ls: seq<Label>) { exists i :: 0 <= i < |ls| && ls[i].Publish? }

  predicate Seals(ls: seq<Label>) { exists i :: 0 <= i < |ls| && ls[i].TakeBuffer? }

  lemma {:induction false} CalmRun(s: State, ls: seq<Label>, id: Id)
    requires Inv(s) && IsRun(s, ls) && LivesOn(s, ls, id)
    ensures var t := After(s, ls);
      && (!Publishes(ls) && PlaceOf(t, id) == InSegments ==> PlaceOf(s, id) == InSegments)
      && (!Seals(ls) && PlaceOf(s, id) == InBuffer ==> PlaceOf(t, id) == InBuffer)
    decreases |ls|
  {
    hide Inv, View, Apply, Enabled, PlaceOf;
    if |ls| > 0 {
      var rest := ls[1..];
      assert forall i :: 0 <= i < |rest| ==> rest[i] == ls[i + 1];
      StepHolds(s, ls[0]);
      StaysBelow(s, ls[0], id);
      CalmRun(Apply(s, ls[0]), rest, id);
    }
  }

  // ---- What a search finds ----

  /** The segment list was read at `a`, the queue at `b` and the buffer at `c`. */
  predicate Found(a: State, b: State, c: State, id: Id) {
    At(a, InSegments, id) || At(b, InQueue, id) || At(c, InBuffer, id)
  }

  /** Nothing it finds is made up: it was live at the moment its place was read. */
  lemma FoundWasLive(a: State, b: State, c: State, id: Id)
    requires Inv(a) && Inv(b) && Inv(c) && Found(a, b, c, id)
    ensures id in View(a) || id in View(b) || id in View(c)
  {
    ViewMembers(a, id);
    ViewMembers(b, id);
    ViewMembers(c, id);
  }

  /**
   * The unfiltered search and the graph arms read the segments first, then the queue, then the buffer. Of
   * a record that lives on they miss exactly: one that is published between the first two reads, and one
   * that at the second is in the writer's hand, or in the buffer and taken out of it before the third.
   */
  lemma ForwardMissesIff(s: State, first: seq<Label>, second: seq<Label>, id: Id)
    requires Inv(s) && IsRun(s, first) && LivesOn(s, first, id)
    requires IsRun(After(s, first), second) && LivesOn(After(s, first), second, id)
    ensures var b, c := After(s, first), After(After(s, first), second);
      !Found(s, b, c, id) <==>
        || (PlaceOf(s, id) != InSegments && PlaceOf(b, id) == InSegments)
        || PlaceOf(b, id) == InHand
        || (PlaceOf(b, id) == InBuffer && PlaceOf(c, id) != InBuffer)
  {
    hide Inv, View, Apply, Enabled;
    var b, c := After(s, first), After(After(s, first), second);
    OverRun(s, first, id);
    OverRun(b, second, id);
    OnePlace(s, id, InSegments);
    OnePlace(b, id, InQueue);
    OnePlace(c, id, InBuffer);
  }

  /** And never twice. */
  lemma ForwardFindsOnce(s: State, first: seq<Label>, second: seq<Label>, id: Id)
    requires Inv(s) && IsRun(s, first) && LivesOn(s, first, id)
    requires IsRun(After(s, first), second) && LivesOn(After(s, first), second, id)
    ensures var b, c := After(s, first), After(After(s, first), second);
      && !(At(s, InSegments, id) && At(b, InQueue, id)) && !(At(s, InSegments, id) && At(c, InBuffer, id))
      && !(At(b, InQueue, id) && At(c, InBuffer, id))
  {
    hide Inv, View, Apply, Enabled;
    var b, c := After(s, first), After(After(s, first), second);
    OverRun(s, first, id);
    OverRun(b, second, id);
    OnePlace(s, id, InSegments);
    OnePlace(b, id, InQueue);
    OnePlace(c, id, InBuffer);
  }

  /** So with no publish before the second read and no seal under way or after it, it finds all that lives on. */
  lemma CalmSearchFinds(s: State, first: seq<Label>, second: seq<Label>, id: Id)
    requires Inv(s) && IsRun(s, first) && LivesOn(s, first, id)
    requires IsRun(After(s, first), second) && LivesOn(After(s, first), second, id)
    requires !Publishes(first) && !After(s, first).pc.SealPush? && !Seals(second)
    ensures Found(s, After(s, first), After(After(s, first), second), id)
  {
    hide Inv, View, Apply, Enabled;
    ForwardMissesIff(s, first, second, id);
    CalmRun(s, first, id);
    OverRun(s, first, id);
    CalmRun(After(s, first), second, id);
    OnePlace(After(s, first), id, InHand);
  }

  /**
   * The scan reads the buffer first, then the segments, then the queue. Of a record that lives on it misses
   * exactly: one that is in the hand at the first read and still there at the last, and one that has left the
   * buffer by the first read, is not in the segments at the second and is there at the last.
   */
  lemma ScanMissesIff(s: State, first: seq<Label>, second: seq<Label>, id: Id)
    requires Inv(s) && IsRun(s, first) && LivesOn(s, first, id)
    requires IsRun(After(s, first), second) && LivesOn(After(s, first), second, id)
    ensures var a, b := After(s, first), After(After(s, first), second);
      !Found(a, b, s, id) <==>
        || PlaceOf(s, id) == PlaceOf(b, id) == InHand
        || (PlaceOf(s, id) != InBuffer && PlaceOf(a, id) != InSegments && PlaceOf(b, id) == InSegments)
  {
    hide Inv, View, Apply, Enabled;
    var a, b := After(s, first), After(After(s, first), second);
    OverRun(s, first, id);
    OverRun(a, second, id);
    OnePlace(s, id, InBuffer);
    OnePlace(a, id, InSegments);
    OnePlace(b, id, InQueue);
  }

  /**
   * Reading along with the records -- the buffer, the queue, the segments -- would miss those in the hand
   * at the second read alone, unless they are published by the third.
   */
  lemma BackwardMissesIff(s: State, first: seq<Label>, second: seq<Label>, id: Id)
    requires Inv(s) && IsRun(s, first) && LivesOn(s, first, id)
    requires IsRun(After(s, first), second) && LivesOn(After(s, first), second, id)
    ensures var b, a := After(s, first), After(After(s, first), second);
      !Found(a, b, s, id) <==>
        PlaceOf(s, id) == PlaceOf(b, id) == InHand && PlaceOf(a, id) != InSegments
  {
    hide Inv, View, Apply, Enabled;
    var b, a := After(s, first), After(After(s, first), second);
    OverRun(s, first, id);
    OverRun(b, second, id);
    OnePlace(s, id, InBuffer);
    OnePlace(b, id, InQueue);
    OnePlace(a, id, InSegments);
  }

  // ---- It does happen ----

  /** One record, inserted and answered for, waits in the queue. */
  function QueuedRun(): seq<Label> { StartLabels(5, X) + [Throttled] }

  function QueuedState(): State { Started(A).(pc := Idle) }

  lemma QueuedReached()
    ensures IsRun(Init(1, 1), QueuedRun()) && After(Init(1, 1), QueuedRun()) == QueuedState()
  {
    Start(5, X);
    RunStep(Started(A), Throttled, QueuedState());
    RunConcat(Init(1, 1), StartLabels(5, X), [Throttled]);
  }

  /**
   * A search reads the segment list; the worker publishes; the search reads the queue and the buffer. It has
   * missed a record that nobody ever touched.
   */
  lemma LiveRecordMissed()
    ensures IsRun(Init(1, 1), QueuedRun())
    ensures var s, first := After(Init(1, 1), QueuedRun()), [Scan(0), Publish(0)];
      && s.pc.Idle? && IsRun(s, first) && LivesOn(s, first, 5) && LivesOn(After(s, first), [], 5)
      && !Found(s, After(s, first), After(After(s, first), []), 5)
  {
    hide View, LivesOn;
    QueuedReached();
    var s := QueuedState();
    QueuePublished(s, A);
    PublishedLives(s, s.(sealers := map[0 := Building(0)]), s.(segments := [A], sealing := []));
  }

  lemma PublishedLives(s: State, mid: State, t: State)
    requires s == QueuedState() && mid == s.(sealers := map[0 := Building(0)]) && t == s.(segments := [A], sealing := [])
    requires IsRun(s, [Scan(0), Publish(0)]) && After(s, [Scan(0), Publish(0)]) == t
    ensures LivesOn(s, [Scan(0), Publish(0)], 5) && LivesOn(t, [], 5)
    ensures !Found(s, t, t, 5)
  {
    hide View;
    assert A.Live(5);
    assert At(s, InQueue, 5) && At(mid, InQueue, 5) by { assert [A][0].Live(5); }
    assert At(t, InSegments, 5) by { assert [A][0].Live(5); }
    ViewMembers(s, 5);
    ViewMembers(mid, 5);
    ViewMembers(t, 5);
    assert [Scan(0), Publish(0)][1..] == [Publish(0)] && [Publish(0)][1..] == [];
    assert s.sealers[0 := Building(0)] == mid.sealers;
    assert Apply(s, Scan(0)) == mid;
    assert Apply(mid, Publish(0)) == t;
    assert LivesOn(t, [], 5) && LivesOn(mid, [Publish(0)], 5);
  }
}
