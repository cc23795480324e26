/**
 * The whole index at work: the store, the indexes behind its sources and the metadata, block by block. No
 * thread can bring them apart, so a search needs no assumption about any of them.
 */
module Live {
  import opened Prelude
  import opened Meta
  import opened TopK
  import opened ExactSearch
  import opened Store
  import opened StoreInvariants
  import opened StoreWorkers
  import opened StoreReads
  import opened StoreMetas
  import opened SourceSearch
  import opened Shelves
  import opened Derived
  import opened Planner
  import opened Shortcut
  import StoreFrames
  import H = Hnsw

  function AtOpening(dim: nat, threshold: nat, segments: seq<Source>, entries: map<Id, Metadata>): Moment {
    Moment(StoreFrames.Opened(dim, threshold, segments), entries, entries, entries, AtRest)
  }

  lemma OpenedBooked(dim: nat, threshold: nat, segments: seq<Source>, entries: map<Id, Metadata>)
    requires Distinct(segments) && Below(segments, |segments|) && TombsInside(segments) && UniqueLive(segments)
    requires entries.Keys <= LiveMap(segments).Keys
    ensures var m := AtOpening(dim, threshold, segments, entries); Inv(m.s) && Booked(m)
  {
    hide Inv, View;
    StoreFrames.OpenedHolds(dim, threshold, segments);
  }

  class LiveIndex {
    var at: Moment
    const shelf: Shelf
    const meta: MetadataIndex

    /** Every source has its index, and each metadata structure is what the moment says. */
    ghost predicate Valid()
      reads this, shelf, shelf.graphs, shelf.queue, if shelf.hand.Some? then {shelf.hand.value} else {}, shelf.active
      reads meta, meta.metadata, meta.numeric.Values
    {
      Inv(at.s) && Booked(at) && shelf.Matches(at.s) && Keeps(at.posted, at.ranged, at.metas)
    }

    ghost predicate Keeps(posted: map<Id, Metadata>, ranged: map<Id, Metadata>, metas: map<Id, Metadata>)
      reads meta, meta.metadata, meta.numeric.Values
    {
      meta.Valid() && meta.posted == posted && meta.ranged == ranged && meta.Metas() == metas
    }

    /** A new index. */
    constructor (dim: nat, metric: Metric, params: H.Params, threshold: nat)
      requires Proper(metric) && H.Sane(params)
      ensures Valid() && at == Outset(dim, threshold) && shelf.metric == metric
      ensures fresh(shelf) && fresh(shelf.active) && fresh(meta) && fresh(meta.metadata) && meta.numeric == map[]
    {
      OutsetBooked(dim, threshold);
      at := Outset(dim, threshold);
      shelf := new Shelf(dim, metric, params, threshold);
      meta := new MetadataIndex();
    }

    /** An index opened on segments and metadata from disk; what is derived from the metadata is built anew. */
    constructor Opened(shelf: Shelf, threshold: nat, segments: seq<Source>, entries: map<Id, Metadata>)
      requires shelf.Matches(StoreFrames.Opened(shelf.dim, threshold, segments))
      requires Distinct(segments) && Below(segments, |segments|) && TombsInside(segments) && UniqueLive(segments)
      requires entries.Keys <= LiveMap(segments).Keys
      ensures Valid() && this.shelf == shelf
      ensures at == AtOpening(shelf.dim, threshold, segments, entries)
      ensures fresh(meta) && fresh(meta.metadata) && fresh(meta.numeric.Values)
    {
      hide Inv, Booked, Shelf.Matches, MetadataIndex.Valid, View, Distinct, Below, TombsInside, UniqueLive, LiveMap;
      OpenedBooked(shelf.dim, threshold, segments, entries);
      at := AtOpening(shelf.dim, threshold, segments, entries);
      this.shelf := shelf;
      meta := new MetadataIndex.Restored(entries);
    }

    /** One block, of the writer or a worker. */
    method Do(b: Block)
      requires Valid() && CanRun(at, b)
      modifies this, shelf, shelf.active, meta, meta.metadata, meta.numeric.Values
      ensures Valid() && at == Ran(old(at), b)
      ensures (shelf.active == old(shelf.active) || fresh(shelf.active))
        && fresh(meta.numeric.Values - old(meta.numeric.Values))
    {
      hide Inv, Booked, Shelf.Matches, Keeps;
      BlockHolds(at, b);
      if b.Vectors? {
        shelf.Follow(at.s, b.l);
        at := Ran(at, b);
      } else {
        Book(b);
      }
    }

    /** A lock of the metadata side. */
    method Book(b: Block)
      requires Keeps(at.posted, at.ranged, at.metas) && Booked(at) && CanRun(at, b) && !b.Vectors?
      modifies this, meta, meta.metadata, meta.numeric.Values
      ensures Keeps(at.posted, at.ranged, at.metas) && at == Ran(old(at), b) && at.s == old(at.s)
        && fresh(meta.numeric.Values - old(meta.numeric.Values))
    {
      hide MetadataIndex.Valid, MetadataIndex.Metas, View;
      var phase := at.phase;
      match b {
        case Posting => meta.IndexPostings(phase.id, phase.meta);
        case Ranging => meta.IndexNumbers(phase.id, phase.meta);
        case Keeping => meta.StoreMetadata(phase.id, phase.meta);
        case Forgetting => var found := meta.TakeMetadata(phase.id);
        case Unposting => meta.DropPostings(phase.id, at.posted[phase.id]);
        case Unranging => meta.DropNumbers(phase.id, at.ranged[phase.id]);
      }
      at := Ran(at, b);
    }

    /** Any course of blocks, whoever runs them. */
    method Run(bs: seq<Block>)
      requires Valid() && IsCourse(at, bs)
      modifies this, shelf, shelf.active, meta, meta.metadata, meta.numeric.Values
      ensures Valid() && at == Later(old(at), bs)
      ensures (shelf.active == old(shelf.active) || fresh(shelf.active))
        && fresh(meta.numeric.Values - old(meta.numeric.Values))
      decreases |bs|
    {
      hide Valid, CanRun, Ran;
      if |bs| > 0 {
        Do(bs[0]);
        Run(bs[1..]);
      }
    }

    /**
     * A filtered search at whatever moment. It assumes nothing of the indexes: what it finds is right for
     * the records seen, under the metadata with or without the record in the writer's hand -- except that
     * the shortcut may misfire while the posting lists name a record that is not seen.
     */
    method Search(query: Vector, d: Vector -> real, k: nat, f: Filter, config: Config, efSearch: nat)
      returns (out: seq<Ranked>, how: How)
      requires Valid() && Sensible(config) && d == Dist(shelf.metric, query)
      requires OrderedRanges(f) && ExactData(at.posted, f)
      ensures var sight := Sight(Seen(at.s), Readable(Visible(at.s)));
        Answers(Sides(at.posted, at.ranged, at.metas), sight, f, d, k, out, how,
                Sure(shelf.Shown(), Visible(at.s), ModeOf(how, k, efSearch)))
      ensures Harvested(shelf.Shown(), Visible(at.s), shelf.metric, query, Seen(at.s),
                        Sides(at.posted, at.ranged, at.metas), f, d, k, efSearch, out, how)
      ensures how.Unfiltered? ==> f == [] || Stale(at) || AllWanted(Seen(at.s), at.posted, f)
      ensures (NewestLive(Layers(at.s)) ==> Readable(Visible(at.s)) == Seen(at.s))
        && (!at.s.pc.SealPush? ==> Seen(at.s) == View(at.s))
    {
      hide Inv, Booked, Shelf.Matches, MetadataIndex.Valid, Answers, Dist, OrderedRanges, ExactData, AllServe;
      hide Stale, Harvested;
      AlwaysInStep(at);
      StaleIff(at);
      shelf.ServesVisible(at.s);
      ghost var collected;
      out, how, collected := SearchFiltered(meta, at.s, shelf.Shown(), shelf.metric, query, d, k, f, config, efSearch);
    }
  }
}
