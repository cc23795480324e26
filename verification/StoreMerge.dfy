/**
 * Background merging: the snapshot, the swap with diff-replay, and exactly when the swap keeps the
 * newest-copy property.
 */
module StoreMerge {
  import opened Prelude
  import opened Store
  import opened StoreInvariants
  import opened StoreSteps

  lemma SnapshotStep(s: State, l: Label)
    requires Inv(s) && l.Snapshot? && Enabled(s, l)
    ensures var s' := Apply(s, l); Inv(s') && Layers(s') == Layers(s)
  {
    var s' := Apply(s, l);
    var stack := Stack(s);
    assert stack[l.i] == s.segments[l.i] && stack[l.j] == s.segments[l.j];
    SnapshotJob(stack, Layers(s), l.i, l.j, s.nextUid);
    SnapshotRest(s, l);
  }

  /** At the snapshot no id is live in both victims, so rebuilding them into one index cannot collide. */
  lemma SnapshotJob(stack: seq<Source>, layers: seq<Source>, i: nat, j: nat, n: nat)
    requires Distinct(stack) && Below(stack, n) && TombsInside(stack) && UniqueLive(layers)
    requires stack <= layers && i < |stack| && j < |stack| && i != j
    ensures var a, b := stack[i], stack[j];
      JobOk(stack, n, Job(a.uid, b.uid, a.data, b.data, a.tombs, b.tombs))
  {
    var a, b := layers[i], layers[j];
    forall id | id in a.data.Keys - a.tombs && id in b.data.Keys - b.tombs ensures false {
      assert a.Live(id) && b.Live(id);
    }
  }

  lemma SnapshotRest(s: State, l: Label)
    requires l.Snapshot? && Enabled(s, l) && Protocol(s) && PcOk(s)
    ensures var s', a, b := Apply(s, l), s.segments[l.i], s.segments[l.j];
      && Protocol(s') && PcOk(s') && Layers(s') == Layers(s) && Stack(s') == Stack(s)
      && (forall jid :: jid in s'.jobs && jid != l.jid ==> jid in s.jobs && s'.jobs[jid] == s.jobs[jid])
      && s'.jobs[l.jid] == Job(a.uid, b.uid, a.data, b.data, a.tombs, b.tombs)
  {
  }

  // ---- The swap on lists ----

  /** Sources `p` and `q` of the first `n` give way to `m`, placed right after the survivors. */
  function Swapped(ls: seq<Source>, n: nat, p: nat, q: nat, m: Source): seq<Source>
    requires p < q < n <= |ls|
  {
    ls[..p] + ls[p + 1..q] + ls[q + 1..n] + [m] + ls[n..]
  }

  /** Where the source now at `k` was before; the place of `m` itself has no answer. */
  function Was(n: nat, p: nat, q: nat, k: nat): nat
    requires p < q < n
  {
    if k < p then k else if k < q - 1 then k + 1 else if k < n - 2 then k + 2 else k + 1
  }

  lemma SwappedAt(ls: seq<Source>, n: nat, p: nat, q: nat, m: Source, k: nat)
    requires p < q < n <= |ls| && k < |ls| - 1
    ensures |Swapped(ls, n, p, q, m)| == |ls| - 1
    ensures Swapped(ls, n, p, q, m)[k] == if k == n - 2 then m else ls[Was(n, p, q, k)]
  {
  }

  /** `m` holds exactly the live records of the two sources, and only ids they contained. */
  ghost predicate Unites(x: Source, y: Source, m: Source) {
    && (forall id :: m.Live(id) <==> x.Live(id) || y.Live(id))
    && (forall id :: m.Live(id) && x.Live(id) ==> m.data[id] == x.data[id])
    && (forall id :: m.Live(id) && y.Live(id) ==> m.data[id] == y.data[id])
    && m.data.Keys <= x.data.Keys + y.data.Keys
  }

  lemma SwapUnique(ls: seq<Source>, n: nat, p: nat, q: nat, m: Source)
    requires p < q < n <= |ls| && UniqueLive(ls) && Unites(ls[p], ls[q], m)
    ensures UniqueLive(Swapped(ls, n, p, q, m))
  {
    var ms := Swapped(ls, n, p, q, m);
    forall i, j, id | 0 <= i < j < |ms| && ms[i].Live(id) ensures !ms[j].Live(id) {
      SwappedAt(ls, n, p, q, m, i);
      SwappedAt(ls, n, p, q, m, j);
      if i == n - 2 {
        assert ls[p].Live(id) || ls[q].Live(id);
        assert Was(n, p, q, j) > q;
      } else if j == n - 2 {
        var k := Was(n, p, q, i);
        assert ls[k].Live(id) && k != p && k != q;
        assert !ls[p].Live(id) && !ls[q].Live(id);
      } else {
        assert Was(n, p, q, i) < Was(n, p, q, j);
      }
    }
  }

  lemma SwapKeepsLiveMap(ls: seq<Source>, n: nat, p: nat, q: nat, m: Source)
    requires p < q < n <= |ls| && UniqueLive(ls) && Unites(ls[p], ls[q], m)
    ensures UniqueLive(Swapped(ls, n, p, q, m)) && LiveMap(Swapped(ls, n, p, q, m)) == LiveMap(ls)
  {
    var ms := Swapped(ls, n, p, q, m);
    SwapUnique(ls, n, p, q, m);
    forall i, id | 0 <= i < |ls| && ls[i].Live(id)
      ensures exists j :: 0 <= j < |ms| && ms[j].Live(id) && ms[j].data[id] == ls[i].data[id]
    {
      var j := CopyMoved(ls, n, p, q, m, i, id);
    }
    forall j, id | 0 <= j < |ms| && ms[j].Live(id) ensures AnyLive(ls, id) {
      CopyCame(ls, n, p, q, m, j, id);
    }
    SameLiveMap(ls, ms);
  }

  /** Where a live copy is after the swap. */
  lemma CopyMoved(ls: seq<Source>, n: nat, p: nat, q: nat, m: Source, i: nat, id: Id) returns (j: nat)
    requires p < q < n <= |ls| && Unites(ls[p], ls[q], m) && i < |ls| && ls[i].Live(id)
    ensures var ms := Swapped(ls, n, p, q, m); j < |ms| && ms[j].Live(id) && ms[j].data[id] == ls[i].data[id]
  {
    j := if i == p || i == q then n - 2 else if i < p then i else if i < q then i - 1
         else if i < n then i - 2 else i - 1;
    SwappedAt(ls, n, p, q, m, j);
  }

  /** Where it came from. */
  lemma CopyCame(ls: seq<Source>, n: nat, p: nat, q: nat, m: Source, j: nat, id: Id)
    requires p < q < n <= |ls| && Unites(ls[p], ls[q], m)
    requires j < |Swapped(ls, n, p, q, m)| && Swapped(ls, n, p, q, m)[j].Live(id)
    ensures AnyLive(ls, id)
  {
    SwappedAt(ls, n, p, q, m, 0);
    SwappedAt(ls, n, p, q, m, j);
    var i := if j == n - 2 then (if ls[p].Live(id) then p else q) else Was(n, p, q, j);
    assert ls[i].Live(id);
  }

  /** No tombstone that `m` carries names an id that is live in another of the first `n` sources. */
  ghost predicate NoHiding(ls: seq<Source>, n: nat, p: nat, q: nat, m: Source)
    requires p < q < n <= |ls|
  {
    forall k, id :: 0 <= k < n && k != p && k != q && id in m.data && id in m.tombs ==> !ls[k].Live(id)
  }

  /** The swap keeps the newest-copy property exactly when its tombstones hide nothing. */
  lemma SwapNewestIff(ls: seq<Source>, n: nat, p: nat, q: nat, m: Source)
    requires p < q < n <= |ls| && UniqueLive(ls) && NewestLive(ls) && Unites(ls[p], ls[q], m)
    ensures NewestLive(Swapped(ls, n, p, q, m)) <==> NoHiding(ls, n, p, q, m)
  {
    var ms := Swapped(ls, n, p, q, m);
    if NoHiding(ls, n, p, q, m) {
      forall i, j, id | 0 <= i < j < |ms| && ms[i].Live(id) ensures id !in ms[j].data {
        SwappedAt(ls, n, p, q, m, i);
        SwappedAt(ls, n, p, q, m, j);
        var a, b := Was(n, p, q, i), Was(n, p, q, j);
        if i == n - 2 {
          assert ls[p].Live(id) || ls[q].Live(id);
          assert b > q && ms[j] == ls[b];
        } else if j == n - 2 {
          assert ls[a].Live(id) && a != p && a != q;
          assert !m.Live(id);
        } else {
          assert a < b;
        }
      }
    }
    if NewestLive(ms) {
      forall k, id | 0 <= k < n && k != p && k != q && id in m.data && id in m.tombs ensures !ls[k].Live(id) {
        var j := if k < p then k else if k < q then k - 1 else k - 2;
        SwappedAt(ls, n, p, q, m, j);
        SwappedAt(ls, n, p, q, m, n - 2);
        assert ms[j] == ls[k] && ms[n - 2] == m;
      }
    }
  }

  // ---- The swap on states ----

  lemma {:induction false} RetainNone(ls: seq<Source>, a: nat, b: nat)
    requires forall k :: 0 <= k < |ls| ==> ls[k].uid != a && ls[k].uid != b
    ensures Retain(ls, a, b) == ls
  {
    if |ls| > 0 { RetainNone(ls[1..], a, b); }
  }

  lemma {:induction false} RetainAppend(ls: seq<Source>, ms: seq<Source>, a: nat, b: nat)
    ensures Retain(ls + ms, a, b) == Retain(ls, a, b) + Retain(ms, a, b)
  {
    if |ls| == 0 {
      assert ls + ms == ms;
    } else {
      assert (ls + ms)[1..] == ls[1..] + ms;
      RetainAppend(ls[1..], ms, a, b);
    }
  }

  lemma RetainSkip(x: seq<Source>, gone: Source, rest: seq<Source>, a: nat, b: nat)
    requires forall k :: 0 <= k < |x| ==> x[k].uid != a && x[k].uid != b
    requires gone.uid == a || gone.uid == b
    ensures Retain(x + ([gone] + rest), a, b) == x + Retain(rest, a, b)
  {
    RetainAppend(x, [gone] + rest, a, b);
    RetainNone(x, a, b);
    assert ([gone] + rest)[1..] == rest;
  }

  lemma RetainTwo(ls: seq<Source>, p: nat, q: nat, a: nat, b: nat)
    requires Distinct(ls) && p < q < |ls|
    requires (ls[p].uid == a && ls[q].uid == b) || (ls[p].uid == b && ls[q].uid == a)
    ensures Retain(ls, a, b) == ls[..p] + ls[p + 1..q] + ls[q + 1..]
  {
    SplitTwo(ls, p, q);
    OthersDiffer(ls, p, q);
    assert forall ms :: Apart(ms, ls[p].uid, ls[q].uid) ==> Apart(ms, a, b);
    RetainParts(ls[..p], ls[p], ls[p + 1..q], ls[q], ls[q + 1..], a, b);
  }

  lemma SplitTwo(ls: seq<Source>, p: nat, q: nat)
    requires p < q < |ls|
    ensures ls == ls[..p] + ([ls[p]] + (ls[p + 1..q] + ([ls[q]] + ls[q + 1..])))
  {
  }

  lemma OthersDiffer(ls: seq<Source>, p: nat, q: nat)
    requires Distinct(ls) && p < q < |ls|
    ensures Apart(ls[..p], ls[p].uid, ls[q].uid) && Apart(ls[p + 1..q], ls[p].uid, ls[q].uid)
    ensures Apart(ls[q + 1..], ls[p].uid, ls[q].uid)
  {
  }

  /** Neither of two sources is in the list. */
  ghost predicate Apart(ls: seq<Source>, a: nat, b: nat) {
    forall k :: 0 <= k < |ls| ==> ls[k].uid != a && ls[k].uid != b
  }

  lemma RetainParts(x: seq<Source>, g: Source, y: seq<Source>, h: Source, z: seq<Source>, a: nat, b: nat)
    requires (g.uid == a || g.uid == b) && (h.uid == a || h.uid == b)
    requires Apart(x, a, b) && Apart(y, a, b) && Apart(z, a, b)
    ensures Retain(x + ([g] + (y + ([h] + z))), a, b) == x + y + z
  {
    RetainSkip(x, g, y + ([h] + z), a, b);
    RetainSkip(y, h, z, a, b);
    RetainNone(z, a, b);
    assert x + (y + z) == x + y + z;
  }

  /** Both sources of the merge are still in the list; otherwise the swap is cancelled. */
  predicate Present(s: State, jid: nat) {
    jid in s.jobs && Find(s.segments, s.jobs[jid].a) >= 0 && Find(s.segments, s.jobs[jid].b) >= 0
  }

  /** The segment the swap installs: the rebuilt records and the tombstones that landed meanwhile. */
  function Product(s: State, jid: nat): Source
    requires Present(s, jid)
  {
    Source(s.nextUid, s.jobs[jid].Merged(), Carried(s, s.jobs[jid]))
  }

  /** The guard: no carried tombstone names an id that is live in another segment. */
  predicate HidesNothing(s: State, jid: nat) {
    Present(s, jid) ==>
      forall k, id :: 0 <= k < |s.segments| && id in Carried(s, s.jobs[jid]) && s.segments[k].Live(id)
        ==> s.segments[k].uid == s.jobs[jid].a || s.segments[k].uid == s.jobs[jid].b
  }

  function Lower(s: State, jid: nat): nat
    requires Present(s, jid)
  {
    Min(Find(s.segments, s.jobs[jid].a), Find(s.segments, s.jobs[jid].b))
  }

  function Upper(s: State, jid: nat): nat
    requires Present(s, jid)
  {
    Max(Find(s.segments, s.jobs[jid].a), Find(s.segments, s.jobs[jid].b))
  }

  /** Diff-replay: because the carried tombstones are added, the product unites what is live NOW. */
  lemma ProductUnites(s: State, jid: nat)
    requires Records(s) && Present(s, jid)
    ensures Lower(s, jid) < Upper(s, jid) < |s.segments|
    ensures Unites(s.segments[Lower(s, jid)], s.segments[Upper(s, jid)], Product(s, jid))
    ensures Product(s, jid).tombs <= Product(s, jid).data.Keys
  {
    var job := s.jobs[jid];
    var i, j := Find(s.segments, job.a), Find(s.segments, job.b);
    var a, b := s.segments[i], s.segments[j];
    assert Stack(s)[i] == a && Stack(s)[j] == b;
    assert JobOk(Stack(s), s.nextUid, job);
    assert Product(s, jid).tombs <= Product(s, jid).data.Keys;
    DiffReplay(a, b, job, Product(s, jid));
    UnitesBoth(a, b, Product(s, jid));
  }

  /** The tombstone difference is the one set of tombstones with which the rebuilt records are what is live now. */
  lemma DiffReplay(a: Source, b: Source, job: Job, m: Source)
    requires a.data == job.aData && job.aSnap <= a.tombs <= a.data.Keys
    requires b.data == job.bData && job.bSnap <= b.tombs <= b.data.Keys
    requires (job.aData.Keys - job.aSnap) !! (job.bData.Keys - job.bSnap)
    requires m.data == job.Merged() && m.tombs <= m.data.Keys
    ensures Unites(a, b, m) <==> m.tombs == (a.tombs - job.aSnap) + (b.tombs - job.bSnap)
  {
    var diff := (a.tombs - job.aSnap) + (b.tombs - job.bSnap);
    forall id ensures id in diff <==> id in m.data && !(a.Live(id) || b.Live(id)) {
      assert id in m.data <==> (id in a.data && id !in job.aSnap) || (id in b.data && id !in job.bSnap);
      assert id in a.data && id !in job.aSnap ==> id !in b.data || id in job.bSnap;
    }
    assert Unites(a, b, m) ==> forall id :: id in m.tombs <==> id in m.data && !m.Live(id);
    if Unites(a, b, m) { assert forall id :: id in m.tombs <==> id in diff; }
  }

  lemma UnitesBoth(a: Source, b: Source, m: Source)
    requires Unites(a, b, m)
    ensures Unites(b, a, m)
  {
  }

  lemma SwapShape(s: State, jid: nat)
    requires Records(s) && Present(s, jid)
    ensures Lower(s, jid) < Upper(s, jid) < |s.segments|
    ensures var s', p, q := Apply(s, Swap(jid)), Lower(s, jid), Upper(s, jid);
      && s' == s.(jobs := s.jobs - {jid}, nextUid := s.nextUid + 1, segments := s'.segments)
      && s'.segments == s.segments[..p] + s.segments[p + 1..q] + s.segments[q + 1..] + [Product(s, jid)]
  {
    ProductUnites(s, jid);
    DistinctSegments(s);
    RetainTwo(s.segments, Lower(s, jid), Upper(s, jid), s.jobs[jid].a, s.jobs[jid].b);
    SwapFields(s, jid);
  }

  lemma DistinctSegments(s: State)
    requires Distinct(Stack(s))
    ensures Distinct(s.segments)
  {
    assert forall k :: 0 <= k < |s.segments| ==> Stack(s)[k] == s.segments[k];
  }

  lemma SwapFields(s: State, jid: nat)
    requires Present(s, jid)
    ensures Apply(s, Swap(jid)) == s.(jobs := s.jobs - {jid}, nextUid := s.nextUid + 1,
      segments := Retain(s.segments, s.jobs[jid].a, s.jobs[jid].b) + [Product(s, jid)])
  {
  }

  lemma SwapLayers(s: State, jid: nat)
    requires Records(s) && Present(s, jid)
    ensures Lower(s, jid) < Upper(s, jid) < |s.segments|
    ensures var s', p, q, n := Apply(s, Swap(jid)), Lower(s, jid), Upper(s, jid), |s.segments|;
      && Layers(s') == Swapped(Layers(s), n, p, q, Product(s, jid))
      && Stack(s') == Swapped(Stack(s), n, p, q, Product(s, jid))
  {
    SwapShape(s, jid);
    SwappedWhole(s.segments, Lower(s, jid), Upper(s, jid), Product(s, jid));
    SwapAbove(s, Apply(s, Swap(jid)), Lower(s, jid), Upper(s, jid), Product(s, jid));
  }

  lemma SwapAbove(s: State, s': State, p: nat, q: nat, m: Source)
    requires p < q < |s.segments| && s'.segments == Swapped(s.segments, |s.segments|, p, q, m)
    requires s'.sealing == s.sealing && s'.buffer == s.buffer && s'.pc == s.pc
    ensures Layers(s') == Swapped(Layers(s), |s.segments|, p, q, m)
    ensures Stack(s') == Swapped(Stack(s), |s.segments|, p, q, m)
  {
    var n := |s.segments|;
    SwappedPrefix(s.segments, s.sealing, n, p, q, m);
    SwappedPrefix(Stack(s), Hand(s.pc), n, p, q, m);
    SwappedPrefix(Stack(s) + Hand(s.pc), [Source(0, s.buffer, {})], n, p, q, m);
  }

  lemma SwappedWhole(ls: seq<Source>, p: nat, q: nat, m: Source)
    requires p < q < |ls|
    ensures Swapped(ls, |ls|, p, q, m) == ls[..p] + ls[p + 1..q] + ls[q + 1..] + [m]
  {
  }

  lemma SwappedPrefix(ls: seq<Source>, rest: seq<Source>, n: nat, p: nat, q: nat, m: Source)
    requires p < q < n <= |ls|
    ensures Swapped(ls + rest, n, p, q, m) == Swapped(ls, n, p, q, m) + rest
  {
    assert (ls + rest)[n..] == ls[n..] + rest;
  }

  lemma SwapBooks(stack: seq<Source>, n: nat, p: nat, q: nat, m: Source, job: Job)
    requires p < q < n <= |stack| && Distinct(stack) && Below(stack, m.uid) && TombsInside(stack)
    requires m.tombs <= m.data.Keys
    ensures var t := Swapped(stack, n, p, q, m);
      && Distinct(t) && Below(t, m.uid + 1) && TombsInside(t)
      && (JobOk(stack, m.uid, job) ==> JobOk(t, m.uid + 1, job))
  {
    var t := Swapped(stack, n, p, q, m);
    forall k | 0 <= k < |t|
      ensures t[k] == if k == n - 2 then m else stack[Was(n, p, q, k)]
    {
      SwappedAt(stack, n, p, q, m, k);
    }
  }

  lemma SwapRecords(s: State, jid: nat)
    requires Records(s) && Present(s, jid)
    ensures Records(Apply(s, Swap(jid))) && View(Apply(s, Swap(jid))) == View(s)
  {
    SwapShape(s, jid);
    SwapLayers(s, jid);
    ProductUnites(s, jid);
    var s', p, q, n := Apply(s, Swap(jid)), Lower(s, jid), Upper(s, jid), |s.segments|;
    assert Layers(s)[p] == s.segments[p] && Layers(s)[q] == s.segments[q];
    SwapKeepsLiveMap(Layers(s), n, p, q, Product(s, jid));
    SwapBooks(Stack(s), n, p, q, Product(s, jid), s.jobs[jid]);
    forall j | j in s'.jobs ensures JobOk(Stack(s'), s'.nextUid, s'.jobs[j]) {
      SwapBooks(Stack(s), n, p, q, Product(s, jid), s.jobs[j]);
    }
  }

  lemma SwapPc(s: State, jid: nat)
    requires Records(s) && PcOk(s) && Present(s, jid)
    ensures PcOk(Apply(s, Swap(jid)))
  {
    SwapShape(s, jid);
    SwapRecords(s, jid);
    ProductUnites(s, jid);
    var s', p, q := Apply(s, Swap(jid)), Lower(s, jid), Upper(s, jid);
    forall id | !AnyLive(s.segments, id) ensures !AnyLive(s'.segments, id) {
      StillDead(s.segments, s'.segments, p, q, Product(s, jid), id);
    }
  }

  lemma StillDead(ls: seq<Source>, ms: seq<Source>, p: nat, q: nat, m: Source, id: Id)
    requires p < q < |ls| && Unites(ls[p], ls[q], m) && !AnyLive(ls, id)
    requires ms == ls[..p] + ls[p + 1..q] + ls[q + 1..] + [m]
    ensures !AnyLive(ms, id)
  {
    assert !ls[p].Live(id) && !ls[q].Live(id);
    forall k | 0 <= k < |ms| ensures !ms[k].Live(id) {
      SwapSources(ls, p, q, m, k);
    }
  }

  /** A source after the swap is the product or one of the others. */
  lemma SwapSources(ls: seq<Source>, p: nat, q: nat, m: Source, k: nat)
    requires p < q < |ls| && k < |ls| - 1
    ensures var ms := ls[..p] + ls[p + 1..q] + ls[q + 1..] + [m];
      |ms| == |ls| - 1 && (ms[k] == m || exists i :: 0 <= i < |ls| && ms[k] == ls[i])
  {
    SwappedWhole(ls, p, q, m);
    SwappedAt(ls, |ls|, p, q, m, k);
    if k < |ls| - 2 { assert ls[Was(|ls|, p, q, k)] == ls[Was(|ls|, p, q, k)]; }
  }

  lemma SwapProtocol(s: State, jid: nat)
    requires Protocol(s) && Enabled(s, Swap(jid))
    requires var s' := Apply(s, Swap(jid));
      s'.sealers == s.sealers && s'.inFlight == s.inFlight && s'.pc == s.pc
      && s'.sealing == s.sealing && s'.valveFired == s.valveFired
    ensures Protocol(Apply(s, Swap(jid)))
  {
  }

  /** A merge swap never changes the live map, guarded or not. */
  lemma SwapStep(s: State, jid: nat)
    requires Inv(s) && Enabled(s, Swap(jid))
    ensures var s' := Apply(s, Swap(jid)); Inv(s') && View(s') == View(s)
  {
    var s' := Apply(s, Swap(jid));
    if Present(s, jid) {
      SwapShape(s, jid);
      SwapRecords(s, jid);
      SwapPc(s, jid);
    } else {
      SwapCancelled(s, jid);
    }
    SwapProtocol(s, jid);
  }

  lemma SwapCancelled(s: State, jid: nat)
    requires Records(s) && PcOk(s) && jid in s.jobs && !Present(s, jid)
    ensures var s' := Apply(s, Swap(jid));
      && s' == s.(jobs := s.jobs - {jid}) && Records(s') && PcOk(s') && Layers(s') == Layers(s)
  {
    var s' := Apply(s, Swap(jid));
    assert Stack(s') == Stack(s) && Layers(s') == Layers(s);
  }

  /** The swap keeps "the newest source decides" exactly when its guard holds. */
  lemma SwapKeepsNewestIff(s: State, jid: nat)
    requires Inv(s) && NewestLive(Layers(s)) && Enabled(s, Swap(jid))
    ensures NewestLive(Layers(Apply(s, Swap(jid)))) <==> HidesNothing(s, jid)
  {
    if Present(s, jid) {
      SwapLayers(s, jid);
      ProductUnites(s, jid);
      var p, q, n, ls := Lower(s, jid), Upper(s, jid), |s.segments|, Layers(s);
      assert forall k :: 0 <= k < n ==> ls[k] == s.segments[k];
      SwapNewestIff(ls, n, p, q, Product(s, jid));
      GuardIsNoHiding(s, jid);
    } else {
      SwapCancelled(s, jid);
    }
  }

  lemma GuardIsNoHiding(s: State, jid: nat)
    requires Records(s) && Present(s, jid) && Lower(s, jid) < Upper(s, jid) < |s.segments|
    requires Product(s, jid).tombs <= Product(s, jid).data.Keys
    ensures HidesNothing(s, jid) <==>
      NoHiding(Layers(s), |s.segments|, Lower(s, jid), Upper(s, jid), Product(s, jid))
  {
    var ls, p, q, job := Layers(s), Lower(s, jid), Upper(s, jid), s.jobs[jid];
    forall k | 0 <= k < |s.segments|
      ensures ls[k] == s.segments[k] && (s.segments[k].uid == job.a || s.segments[k].uid == job.b <==> k == p || k == q)
    {
      assert Stack(s)[k] == s.segments[k] && Stack(s)[p] == s.segments[p] && Stack(s)[q] == s.segments[q];
    }
  }
}
