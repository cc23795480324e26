/**
 * What a reader sees between two locked blocks. Searches, scans and `len` walk the segments, the queue
 * and the buffer; while the writer holds a buffer it has swapped out but not yet queued, that is not
 * everything.
 */
module StoreReads {
  import opened Prelude
  import opened Store
  import opened StoreInvariants
  import opened StoreSteps
  import opened StoreRuns
  import opened StoreWorkers
  import opened StoreHiding

  /** The three places a reader walks, oldest first. */
  function Visible(s: State): seq<Source> { Stack(s) + [Source(0, s.buffer, {})] }

  /** The records in the writer's hand. */
  function Taken(s: State): map<Id, Floats> { if s.pc.SealPush? then s.pc.taken else map[] }

  /** Outside the hand-over the visible places are all there is; inside it they are the stack alone. */
  lemma VisibleShape(s: State)
    requires s.pc.SealPush? ==> s.buffer == map[]
    ensures !s.pc.SealPush? ==> Visible(s) == Layers(s) && View(s) - Taken(s).Keys == View(s)
    ensures s.pc.SealPush? ==> Layers(s) == (Stack(s) + [Source(0, s.pc.taken, {})]) + [Source(0, map[], {})]
  {
    assert Hand(s.pc) == [] ==> Stack(s) + Hand(s.pc) == Stack(s);
  }

  /** What the visible places hold: the live map without the records in the hand. */
  lemma VisibleMap(s: State)
    requires Inv(s)
    ensures UniqueLive(Visible(s)) && TombsInside(Visible(s))
    ensures NewestLive(Layers(s)) ==> NewestLive(Visible(s))
    ensures LiveMap(Visible(s)) == View(s) - Taken(s).Keys
    ensures Taken(s).Keys <= View(s).Keys
  {
    VisibleParts(s);
  }

  lemma VisibleParts(s: State)
    requires TombsInside(Stack(s)) && UniqueLive(Layers(s)) && (s.pc.SealPush? ==> s.buffer == map[])
    ensures UniqueLive(Visible(s)) && TombsInside(Visible(s))
    ensures NewestLive(Layers(s)) ==> NewestLive(Visible(s))
    ensures LiveMap(Visible(s)) == View(s) - Taken(s).Keys
    ensures Taken(s).Keys <= View(s).Keys
  {
    VisibleShape(s);
    VisibleTombs(s);
    if s.pc.SealPush? {
      WithoutHand(Stack(s), Source(0, s.pc.taken, {}), Source(0, map[], {}));
    }
  }

  lemma VisibleTombs(s: State)
    requires TombsInside(Stack(s))
    ensures TombsInside(Visible(s))
  {
  }

  lemma WithoutHand(stack: seq<Source>, hand: Source, none: Source)
    requires UniqueLive((stack + [hand]) + [none]) && hand.tombs == {} && none.data == map[]
    ensures UniqueLive(stack + [none])
    ensures NewestLive((stack + [hand]) + [none]) ==> NewestLive(stack + [none])
    ensures LiveMap(stack + [none]) == LiveMap((stack + [hand]) + [none]) - hand.data.Keys
    ensures hand.data.Keys <= LiveMap((stack + [hand]) + [none]).Keys
  {
    EmptyTop(stack + [hand], none);
    DropTop(stack, hand, none);
    EmptyTop(stack, none);
  }

  /** Leaving out a source without tombstones takes exactly its records from the live map. */
  lemma DropTop(stack: seq<Source>, hand: Source, none: Source)
    requires UniqueLive((stack + [hand]) + [none]) && hand.tombs == {} && none.data == map[]
    ensures UniqueLive(stack) && (NewestLive((stack + [hand]) + [none]) ==> NewestLive(stack))
    ensures LiveMap(stack) == LiveMap(stack + [hand]) - hand.data.Keys
    ensures hand.data.Keys <= LiveMap(stack + [hand]).Keys
  {
    var ls := (stack + [hand]) + [none];
    assert forall i :: 0 <= i < |stack| ==> stack[i] == ls[i];
    assert (stack + [hand])[..|stack|] == stack && hand.LiveData() == hand.data;
    forall id | id in hand.data ensures id !in LiveMap(stack) {
      LiveMapMembers(stack, id);
      assert ls[|stack|].Live(id);
      assert forall i :: 0 <= i < |stack| && ls[i].Live(id) ==> !ls[|stack|].Live(id);
    }
  }

  /**
   * Stopping at the first place that knows an id, when a record is in the hand: it is missed, all others are
   * read right.
   */
  lemma ReadsAllButTaken(s: State, id: Id)
    requires Inv(s) && NewestLive(Layers(s))
    ensures Lookup(Visible(s), id) == if id in Taken(s) then None else Get(View(s), id)
  {
    VisibleMap(s);
    LookupExactIff(Visible(s));
    assert Lookup(Visible(s), id) == Get(LiveMap(Visible(s)), id);
  }

  /** The readers are exact for every id if and only if the newest-copy rule holds and nothing is in the hand. */
  lemma ReadsRightIff(s: State)
    requires Inv(s)
    ensures (forall id :: Lookup(Visible(s), id) == Get(View(s), id)) <==> NewestLive(Layers(s)) && !s.pc.SealPush?
  {
    VisibleShape(s);
    if s.pc.SealPush? {
      var id :| id in s.pc.taken;
      VisibleMap(s);
      LookupIsLive(Visible(s), id);
      assert id in View(s);
    } else {
      LookupExactIff(Layers(s));
    }
  }

  /** Whatever a reader finds is live. */
  lemma LookupIsLive(ls: seq<Source>, id: Id)
    ensures Lookup(ls, id).Some? ==> id in LiveMap(ls)
  {
    LiveMapMembers(ls, id);
  }

  /** In a guarded run reading is exact for every id at every moment except, exactly, during the hand-over. */
  lemma GuardedRunReadsRight(s: State, ls: seq<Label>)
    requires Inv(s) && NewestLive(Layers(s)) && IsRun(s, ls) && Guarded(s, ls)
    ensures var t := After(s, ls);
      (forall id :: Lookup(Visible(t), id) == Get(View(t), id)) <==> !t.pc.SealPush?
  {
    GuardedRunKeepsNewest(s, ls);
    ReadsRightIff(After(s, ls));
  }

  /** `len` counts the visible places: it is short by the records in the hand, and right if there are none. */
  lemma LenIsViewSize(s: State)
    requires Inv(s)
    ensures CountAll(Visible(s)) == |View(s)| - |Taken(s)|
    ensures CountAll(Visible(s)) == |View(s)| <==> !s.pc.SealPush?
  {
    VisibleMap(s);
    CountIsSize(Visible(s));
    CutSize(View(s), Taken(s));
    TakenSome(s);
  }

  lemma TakenSome(s: State)
    requires PcOk(s)
    ensures |Taken(s)| == 0 <==> !s.pc.SealPush?
  {
  }

  lemma CutSize(m: map<Id, Floats>, gone: map<Id, Floats>)
    requires gone.Keys <= m.Keys
    ensures |m - gone.Keys| == |m| - |gone|
  {
    assert (m - gone.Keys).Keys == m.Keys - gone.Keys;
    assert |m.Keys - gone.Keys| == |m.Keys| - |gone.Keys|;
    assert |m.Keys| == |m| && |gone.Keys| == |gone|;
    assert |(m - gone.Keys).Keys| == |m - gone.Keys|;
  }

  // ---- The window is reachable ----

  /** One record in a segment, a second one whose seal has just taken it out of the buffer. */
  function WindowRun(): seq<Label> {
    BootLabels(5, X) + [BeginInsert(6, Y), CheckSealing, CheckSegments, ApplyInsert] + [TakeBuffer]
  }

  function Window(): State {
    Rest([A], map[], 1).(pc := SealPush(map[6 := Y], Throttle))
  }

  lemma WindowReached()
    ensures IsRun(Init(1, 1), WindowRun()) && After(Init(1, 1), WindowRun()) == Window()
  {
    var s, begin := Init(1, 1), [BeginInsert(6, Y), CheckSealing, CheckSegments, ApplyInsert];
    Boot(5, X);
    var s1 := Rest([A], map[], 1);
    assert !AnyLive([A], 6);
    InsertBuffered(s1, 6, Y);
    RunConcat(s, BootLabels(5, X), begin);
    var s2 := s1.(buffer := map[6 := Y], pc := SealTake(Throttle));
    assert 6 in s2.buffer;
    RunStep(s2, TakeBuffer, Window());
    RunConcat(s, BootLabels(5, X) + begin, [TakeBuffer]);
  }

  /** There the second record is live and answered for, yet no reader finds it and `len` does not count it. */
  lemma TakenRecordUnseen()
    ensures IsRun(Init(1, 1), WindowRun()) && Guarded(Init(1, 1), WindowRun())
    ensures var s := After(Init(1, 1), WindowRun());
      && View(s) == map[5 := X, 6 := Y] && Lookup(Visible(s), 6) == None
      && LiveMap(Visible(s)) == map[5 := X] && CountAll(Visible(s)) == 1
  {
    WindowReached();
    WindowUnseen(Window());
    WindowSwapless();
    NoSwap(Init(1, 1), WindowRun());
  }

  lemma WindowUnseen(s: State)
    requires s == Window()
    ensures View(s) == map[5 := X, 6 := Y] && Lookup(Visible(s), 6) == None
    ensures LiveMap(Visible(s)) == map[5 := X] && CountAll(Visible(s)) == 1
  {
    WindowView(s);
    assert Visible(s) == [A, Source(0, map[], {})];
    OneRecord(A, Source(0, map[], {}));
    LookupIsLive(Visible(s), 6);
  }

  lemma OneRecord(x: Source, none: Source)
    requires x == A && none == Source(0, map[], {})
    ensures LiveMap([x, none]) == map[5 := X] && CountAll([x, none]) == 1
  {
    WithNothing(x, none);
    assert |map[5 := X]| == 1;
  }

  /** A source without tombstones, and an empty one. */
  lemma WithNothing(x: Source, none: Source)
    requires x.tombs == none.tombs == {} && none.data == map[]
    ensures LiveMap([x, none]) == x.data && CountAll([x, none]) == |x.data|
  {
    OneOnTop([], x);
    OneOnTop([x], none);
    assert [x] + [none] == [x, none] && [] + [x] == [x];
    assert x.LiveData() == x.data && none.LiveData() == map[];
  }

  lemma OneOnTop(ls: seq<Source>, x: Source)
    ensures LiveMap(ls + [x]) == LiveMap(ls) + x.LiveData() && CountAll(ls + [x]) == CountAll(ls) + x.LiveCount()
  {
    assert (ls + [x])[..|ls|] == ls;
  }

  lemma WindowSwapless()
    ensures Swapless(WindowRun())
  {
    var begin := [BeginInsert(5, X), CheckSealing, CheckSegments, ApplyInsert];
    BothSwapless(begin, [TakeBuffer, PushSealing, SwapFlag, Spawn(0)]);
    BothSwapless(StartLabels(5, X), [Throttled]);
    BothSwapless(StartLabels(5, X) + [Throttled], [Scan(0), Publish(0)]);
    BothSwapless(BootLabels(5, X), [BeginInsert(6, Y), CheckSealing, CheckSegments, ApplyInsert]);
    BothSwapless(BootLabels(5, X) + [BeginInsert(6, Y), CheckSealing, CheckSegments, ApplyInsert], [TakeBuffer]);
  }

  predicate Swapless(ls: seq<Label>) { forall l :: l in ls ==> !l.Swap? }

  lemma BothSwapless(a: seq<Label>, b: seq<Label>)
    requires Swapless(a) && Swapless(b)
    ensures Swapless(a + b)
  {
  }

  lemma WindowView(s: State)
    requires s == Window()
    ensures View(s) == map[5 := X, 6 := Y]
  {
    var hand, none := Source(0, map[6 := Y], {}), Source(0, map[], {});
    assert Layers(s) == [A, hand, none];
    assert [A, hand, none][..2] == [A, hand] && [A, hand][..1] == [A] && [A][..0] == [];
    assert LiveMap([A]) == LiveMap([]) + A.LiveData() == map[5 := X];
    assert LiveMap([A, hand]) == LiveMap([A]) + hand.LiveData() == map[5 := X, 6 := Y];
    assert LiveMap([A, hand, none]) == LiveMap([A, hand]) + none.LiveData();
  }

  lemma {:induction false} NoSwap(s: State, ls: seq<Label>)
    requires IsRun(s, ls) && Swapless(ls)
    ensures Guarded(s, ls)
    decreases |ls|
  {
    if |ls| > 0 {
      assert ls[0] in ls;
      NoSwap(Apply(s, ls[0]), ls[1..]);
    }
  }
}
