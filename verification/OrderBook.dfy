/** The order book object: two sides kept in step with the messages, and cached best levels. */
module OrderBooks {
  import opened Common
  import opened PriceLevels
  import opened Replay

  datatype BookData = BookData(kind: Kind, execAt: int, arrivedAt: int, asks: seq<Level>, bids: seq<Level>)

  // ---------------------------------------------------------------------------------------------
  // The book as a function of its history
  // ---------------------------------------------------------------------------------------------

  function SideOf(side: Side, d: BookData): Update {
    Update(d.kind, if side.Ask? then d.asks else d.bids)
  }

  ghost function SideUpdates(side: Side, h: seq<BookData>): seq<Update> {
    seq(|h|, i requires 0 <= i < |h| => SideOf(side, h[i]))
  }

  /** The rows of one side after a history of messages. */
  ghost function SideAfter(side: Side, h: seq<BookData>): SideMap {
    ApplyUpdates(map[], SideUpdates(side, h))
  }

  lemma OneMoreMessage(side: Side, h: seq<BookData>, d: BookData)
    ensures SideAfter(side, h + [d]) == ApplyUpdate(SideAfter(side, h), SideOf(side, d))
  {
    var us := SideUpdates(side, h + [d]);
    assert us[..|us| - 1] == SideUpdates(side, h);
    assert us[|us| - 1] == SideOf(side, d);
  }

  /** The asks of the messages, and their bids. */
  ghost function AskUpdates(h: seq<BookData>): seq<Update> {
    seq(|h|, i requires 0 <= i < |h| => Update(h[i].kind, h[i].asks))
  }
  ghost function BidUpdates(h: seq<BookData>): seq<Update> {
    seq(|h|, i requires 0 <= i < |h| => Update(h[i].kind, h[i].bids))
  }

  /** On an ordered feed the asks are the naive replay of the messages' asks, and the bids that of their bids. */
  lemma OrderedBookIsNaive(h: seq<BookData>, ids: seq<int>)
    requires InOrder(AskUpdates(h), ids) && InOrder(BidUpdates(h), ids)
    ensures SideAfter(Ask, h) == NaiveUpdates(map[], AskUpdates(h)) && Proper(SideAfter(Ask, h))
    ensures SideAfter(Bid, h) == NaiveUpdates(map[], BidUpdates(h)) && Proper(SideAfter(Bid, h))
  {
    assert SideUpdates(Ask, h) == AskUpdates(h) && SideUpdates(Bid, h) == BidUpdates(h);
    OrderedFeedIsNaive(AskUpdates(h), ids);
    OrderedFeedIsNaive(BidUpdates(h), ids);
    ApplyUpdatesProper(map[], AskUpdates(h));
    ApplyUpdatesProper(map[], BidUpdates(h));
  }

  /** On any feed, every row of the asks is one of some message's asks, and every row of the bids one of its bids. */
  lemma RowsComeFromTheirSide(h: seq<BookData>, p: real)
    ensures p in SideAfter(Ask, h) ==> exists i :: 0 <= i < |h| && SideAfter(Ask, h)[p] in h[i].asks
    ensures p in SideAfter(Bid, h) ==> exists i :: 0 <= i < |h| && SideAfter(Bid, h)[p] in h[i].bids
  {
    assert SideUpdates(Ask, h) == AskUpdates(h) && SideUpdates(Bid, h) == BidUpdates(h);
    if p in SideAfter(Ask, h) {
      var i := RowFromUpdates(AskUpdates(h), p);
    }
    if p in SideAfter(Bid, h) {
      var i := RowFromUpdates(BidUpdates(h), p);
    }
  }

  lemma Pick<T>(s: set<T>) returns (x: T)
    requires |s| > 0
    ensures x in s
  {
    x :| x in s;
  }

  ghost predicate BestAmong(side: Side, ps: set<real>, p: real) {
    p in ps && forall q | q in ps && q != p :: Before(side, p, q)
  }

  /** The better of a price and the best of the others. */
  lemma BetterOf(side: Side, ps: set<real>, p: real, b: real)
    requires p in ps && BestAmong(side, ps - {p}, b)
    ensures BestAmong(side, ps, if Before(side, b, p) then b else p)
  {
    assert forall q | q in ps && q != p :: q in ps - {p};
  }

  lemma {:induction false} BestPriceExists(side: Side, ps: set<real>) returns (p: real)
    requires |ps| > 0
    ensures BestAmong(side, ps, p)
    decreases |ps|
  {
    p := Pick(ps);
    var rest := ps - {p};
    if |rest| == 0 {
      assert forall q | q in ps && q != p :: q in rest;
    } else {
      var b := BestPriceExists(side, rest);
      BetterOf(side, ps, p, b);
      p := if Before(side, b, p) then b else p;
    }
  }

  lemma BestLevelExists(side: Side, m: SideMap)
    requires Proper(m)
    ensures exists l :: IsBest(side, m, l)
  {
    if m == map[] {
      assert IsBest(side, m, ZERO_LEVEL);
    } else {
      var p := BestPriceExists(side, m.Keys);
      assert IsBest(side, m, m[p]);
    }
  }

  /** The best level of a side. */
  ghost function BestOf(side: Side, m: SideMap): (l: Level)
    requires Proper(m)
    ensures IsBest(side, m, l)
  {
    BestLevelExists(side, m);
    var l :| IsBest(side, m, l);
    l
  }

  lemma BestIsUnique(side: Side, m: SideMap, a: Level, b: Level)
    requires IsBest(side, m, a) && IsBest(side, m, b)
    ensures a == b
  {
  }

  ghost function BestAfter(side: Side, h: seq<BookData>): Level {
    ApplyUpdatesProper(map[], SideUpdates(side, h));
    BestOf(side, SideAfter(side, h))
  }

  function Sum(xs: seq<real>): real {
    if xs == [] then 0.0 else Sum(xs[..|xs| - 1]) + xs[|xs| - 1]
  }

  /** Neighbouring differences add up to the last value minus the first. */
  lemma {:induction false} Telescope(values: seq<real>, ds: seq<real>)
    requires |values| == |ds| + 1 && forall i | 0 <= i < |ds| :: ds[i] == values[i + 1] - values[i]
    ensures values[0] + Sum(ds) == values[|ds|]
  {
    if ds != [] {
      var n := |ds| - 1;
      Telescope(values[..n + 1], ds[..n]);
    }
  }

  /** The best level after each message of a history. */
  ghost function Bests(side: Side, h: seq<BookData>): seq<Level> {
    seq(|h|, i requires 0 <= i < |h| => BestAfter(side, h[..i + 1]))
  }

  function Prices(ls: seq<Level>): seq<real> {
    seq(|ls|, i requires 0 <= i < |ls| => ls[i].price)
  }
  function Volumes(ls: seq<Level>): seq<real> {
    seq(|ls|, i requires 0 <= i < |ls| => ls[i].volume)
  }

  /** `ds[i]` is what the client is told after message `i + 1`: by how much the best level went up. */
  ghost predicate AreDiffs(side: Side, h: seq<BookData>, ds: seq<Level>) {
    && |ds| == |h| - 1
    && forall i | 0 <= i < |ds| ::
         && ds[i].price == BestAfter(side, h[..i + 2]).price - BestAfter(side, h[..i + 1]).price
         && ds[i].volume == BestAfter(side, h[..i + 2]).volume - BestAfter(side, h[..i + 1]).volume
  }

  /** The first best level plus all differences is the present one, in price and in volume. */
  lemma DiffsTelescope(side: Side, h: seq<BookData>, ds: seq<Level>)
    requires h != [] && AreDiffs(side, h, ds)
    ensures BestAfter(side, h[..1]).price + Sum(Prices(ds)) == BestAfter(side, h).price
    ensures BestAfter(side, h[..1]).volume + Sum(Volumes(ds)) == BestAfter(side, h).volume
  {
    var bests := Bests(side, h);
    assert h[..|h|] == h;
    Telescope(Prices(bests), Prices(ds));
    Telescope(Volumes(bests), Volumes(ds));
  }

  // ---------------------------------------------------------------------------------------------
  // Updating one side
  // ---------------------------------------------------------------------------------------------

  method UpdateByDelta(m: PriceLevelMap, rs: seq<Level>)
    requires m.Valid()
    modifies m
    ensures m.Valid() && m.View() == ApplyAll(old(m.View()), rs)
  {
    for i := 0 to |rs|
      invariant m.Valid() && m.View() == ApplyAll(old(m.View()), rs[..i])
    {
      var a := rs[i];
      assert rs[..i + 1][..i] == rs[..i];
      var r := m.Get(a.price);
      if r.Some? && r.value.seqId >= a.seqId {
        continue;
      }
      if a.volume == 0.0 {
        m.Drop(a.price);
      } else {
        m.Set(a);
      }
    }
    assert rs[..|rs|] == rs;
  }

  /** Existing rows that are newer than the row at their price take its place. */
  function Overwrite(m: SideMap, ls: seq<Level>): SideMap {
    if ls == [] then m
    else
      var n := |ls| - 1;
      var w, l := Overwrite(m, ls[..n]), ls[n];
      if l.price in w && w[l.price].seqId < l.seqId then w[l.price := l] else w
  }

  lemma ContentsLast(side: Side, ls: seq<Level>)
    requires Sorted(side, ls) && ls != []
    ensures var n := |ls| - 1;
      && ls[n].price !in Contents(side, ls[..n])
      && Contents(side, ls) == Contents(side, ls[..n])[ls[n].price := ls[n]]
  {
    var n := |ls| - 1;
    var c := Contents(side, ls[..n])[ls[n].price := ls[n]];
    forall l ensures l in ls <==> l.price in c && c[l.price] == l {
      assert ls == ls[..n] + [ls[n]];
      InContents(side, ls[..n], l.price, l);
    }
    ContentsBy(side, ls, c);
  }

  lemma MergeOneMore(c: SideMap, m: SideMap, l: Level)
    requires l.price !in c
    ensures var w := MergeNewer(c, m);
      MergeNewer(c[l.price := l], m) == if l.price in w && w[l.price].seqId < l.seqId then w[l.price := l] else w
  {
  }

  lemma {:induction false} OverwriteRows(side: Side, m: SideMap, ls: seq<Level>)
    requires Sorted(side, ls)
    ensures Overwrite(m, ls) == MergeNewer(Contents(side, ls), m)
  {
    if ls == [] {
      assert MergeNewer(Contents(side, ls), m) == m;
    } else {
      OverwriteRows(side, m, ls[..|ls| - 1]);
      ContentsLast(side, ls);
      MergeOneMore(Contents(side, ls[..|ls| - 1]), m, ls[|ls| - 1]);
    }
  }

  /** The rows of a snapshot, on their own. */
  method BuildSnapshot(side: Side, rs: seq<Level>) returns (built: PriceLevelMap)
    ensures fresh(built) && built.Valid() && built.side == side && built.View() == PutAll(map[], rs)
  {
    built := new PriceLevelMap(side);
    for i := 0 to |rs|
      invariant fresh(built) && built.Valid() && built.View() == PutAll(map[], rs[..i])
    {
      assert rs[..i + 1][..i] == rs[..i];
      built.Set(rs[i]);
    }
    assert rs[..|rs|] == rs;
  }

  /** Existing rows that are newer than the snapshot's row at their price overwrite it. */
  method KeepNewer(m: PriceLevelMap, built: PriceLevelMap)
    requires m.Valid() && built.Valid() && m != built
    modifies built
    ensures built.Valid() && built.View() == MergeNewer(m.View(), old(built.View()))
  {
    ghost var snap := built.View();
    for i := 0 to |m.tree|
      invariant built.Valid() && m.tree == old(m.tree) && built.View() == Overwrite(snap, m.tree[..i])
    {
      var record := m.tree[i];
      assert record in m.tree;
      assert m.tree[..i + 1][..i] == m.tree[..i];
      var sr := built.Get(record.price);
      if sr.Some? && sr.value.seqId < record.seqId {
        built.Set(record);
      }
    }
    assert m.tree[..|m.tree|] == m.tree;
    OverwriteRows(m.side, snap, m.tree);
  }

  method ResetBySnapshot(m: PriceLevelMap, rs: seq<Level>)
    requires m.Valid()
    modifies m
    ensures m.Valid()
    ensures m.View() == ApplyUpdate(old(m.View()), Update(Snapshot, rs))
  {
    if |rs| > 0 {
      var built := BuildSnapshot(m.side, rs);
      KeepNewer(m, built);
      m.Replace(built);
    }
  }

  // ---------------------------------------------------------------------------------------------
  // The book
  // ---------------------------------------------------------------------------------------------

  /** The cached levels of a side are its best levels after the last message and after the one before. */
  ghost predicate CachesFollow(side: Side, h: seq<BookData>, current: Option<Level>, before: Option<Level>) {
    && current == (if |h| == 0 then None else Some(BestAfter(side, h)))
    && before == (if |h| < 2 then None else Some(BestAfter(side, h[..|h| - 1])))
  }

  /** What the previous best level must be when the next message is handled. */
  ghost predicate BeforeFollows(side: Side, h: seq<BookData>, before: Option<Level>) {
    before == if h == [] then None else Some(BestAfter(side, h))
  }

  lemma CachesMoveOn(side: Side, h: seq<BookData>, d: BookData, before: Option<Level>)
    requires BeforeFollows(side, h, before)
    ensures CachesFollow(side, h + [d], Some(BestAfter(side, h + [d])), before)
  {
    assert (h + [d])[..|h|] == h;
  }

  class OrderBook {
    const asks: PriceLevelMap
    const bids: PriceLevelMap
    var currentBestAsk: Option<Level>
    var currentBestBid: Option<Level>
    var beforeBestAsk: Option<Level>
    var beforeBestBid: Option<Level>
    var lastExecAt: Option<int>
    var lastArrivedAt: Option<int>
    /** Every message handled so far. */
    ghost var history: seq<BookData>

    ghost predicate SidesFollow()
      reads this, asks, bids
    {
      && asks != bids && asks.side == Ask && bids.side == Bid && asks.Valid() && bids.Valid()
      && asks.View() == SideAfter(Ask, history) && bids.View() == SideAfter(Bid, history)
    }

    /** Both sides follow the history, and so do the cached levels. */
    ghost predicate Valid()
      reads this, asks, bids
    {
      var n := |history|;
      && SidesFollow()
      && CachesFollow(Ask, history, currentBestAsk, beforeBestAsk)
      && CachesFollow(Bid, history, currentBestBid, beforeBestBid)
      && lastExecAt == (if n == 0 then None else Some(history[n - 1].execAt))
      && lastArrivedAt == (if n == 0 then None else Some(history[n - 1].arrivedAt))
    }

    constructor ()
      ensures Valid() && history == [] && fresh(asks) && fresh(bids)
    {
      asks := new PriceLevelMap(Ask);
      bids := new PriceLevelMap(Bid);
      currentBestAsk, currentBestBid, beforeBestAsk, beforeBestBid := None, None, None, None;
      lastExecAt, lastArrivedAt := None, None;
      history := [];
    }

    method UpdateSides(d: BookData)
      requires SidesFollow()
      modifies asks, bids, this`history
      ensures history == old(history) + [d] && SidesFollow()
    {
      OneMoreMessage(Ask, history, d);
      OneMoreMessage(Bid, history, d);
      match d.kind {
        case Snapshot =>
          ResetBySnapshot(asks, d.asks);
          ResetBySnapshot(bids, d.bids);
        case Delta =>
          UpdateByDelta(asks, d.asks);
          UpdateByDelta(bids, d.bids);
        case UnknownKind =>
      }
      history := history + [d];
    }

    /** The best levels of both sides become the current ones. */
    method RefreshBests()
      requires SidesFollow()
      modifies this`currentBestAsk, this`currentBestBid
      ensures SidesFollow()
      ensures currentBestAsk == Some(BestAfter(Ask, history)) && currentBestBid == Some(BestAfter(Bid, history))
    {
      var ask := asks.BestLevel();
      var bid := bids.BestLevel();
      BestIsUnique(Ask, asks.View(), ask, BestAfter(Ask, history));
      BestIsUnique(Bid, bids.View(), bid, BestAfter(Bid, history));
      currentBestAsk := Some(ask);
      currentBestBid := Some(bid);
    }

    /** The current best levels become the previous ones; the history has not moved on yet. */
    method RememberBests()
      requires Valid()
      modifies this`beforeBestAsk, this`beforeBestBid
      ensures SidesFollow() && BeforeFollows(Ask, history, beforeBestAsk) && BeforeFollows(Bid, history, beforeBestBid)
    {
      if currentBestAsk.Some? && currentBestBid.Some? {
        beforeBestAsk := currentBestAsk;
        beforeBestBid := currentBestBid;
      }
    }

    /** The message goes into the sides, and the current best levels follow. */
    method TakeIn(d: BookData)
      requires SidesFollow() && BeforeFollows(Ask, history, beforeBestAsk) && BeforeFollows(Bid, history, beforeBestBid)
      modifies asks, bids, this`history, this`currentBestAsk, this`currentBestBid
      ensures SidesFollow() && history == old(history) + [d]
      ensures CachesFollow(Ask, history, currentBestAsk, beforeBestAsk)
      ensures CachesFollow(Bid, history, currentBestBid, beforeBestBid)
    {
      UpdateSides(d);
      RefreshBests();
      CachesMoveOn(Ask, old(history), d, beforeBestAsk);
      CachesMoveOn(Bid, old(history), d, beforeBestBid);
    }

    method UpdateByOBData(d: BookData)
      requires Valid()
      modifies this, asks, bids
      ensures Valid() && history == old(history) + [d]
    {
      RememberBests();
      lastExecAt := Some(d.execAt);
      lastArrivedAt := Some(d.arrivedAt);
      TakeIn(d);
    }

    method IsReady() returns (ready: bool)
      requires Valid()
      ensures ready <==> |history| >= 2
    {
      ready := currentBestBid.Some? && currentBestAsk.Some?
        && beforeBestBid.Some? && beforeBestAsk.Some? && lastExecAt.Some?;
    }

    /** The asks are made of the messages' asks and the bids of their bids; the best ones are what is cached. */
    lemma SidesAreTheirOwn()
      requires Valid()
      ensures forall p | p in asks.View() :: exists i :: 0 <= i < |history| && asks.View()[p] in history[i].asks
      ensures forall p | p in bids.View() :: exists i :: 0 <= i < |history| && bids.View()[p] in history[i].bids
      ensures currentBestAsk.Some? ==> IsBest(Ask, asks.View(), currentBestAsk.value)
      ensures currentBestBid.Some? ==> IsBest(Bid, bids.View(), currentBestBid.value)
    {
      forall p | p in asks.View() ensures exists i :: 0 <= i < |history| && asks.View()[p] in history[i].asks {
        RowsComeFromTheirSide(history, p);
      }
      forall p | p in bids.View() ensures exists i :: 0 <= i < |history| && bids.View()[p] in history[i].bids {
        RowsComeFromTheirSide(history, p);
      }
    }

    /** Only a ready book has differences; before that the source would dereference nil. */
    method GetDiffBestAsk() returns (d: Level)
      requires Valid() && |history| >= 2
      ensures var now, before := BestAfter(Ask, history), BestAfter(Ask, history[..|history| - 1]);
        && d.price == now.price - before.price && d.volume == now.volume - before.volume
        && d.seqId == now.seqId - before.seqId
    {
      var now, before := currentBestAsk.value, beforeBestAsk.value;
      d := Level(now.seqId - before.seqId, now.price - before.price, now.volume - before.volume);
    }

    method GetDiffBestBid() returns (d: Level)
      requires Valid() && |history| >= 2
      ensures var now, before := BestAfter(Bid, history), BestAfter(Bid, history[..|history| - 1]);
        && d.price == now.price - before.price && d.volume == now.volume - before.volume
        && d.seqId == now.seqId - before.seqId
    {
      var now, before := currentBestBid.value, beforeBestBid.value;
      d := Level(now.seqId - before.seqId, now.price - before.price, now.volume - before.volume);
    }
  }
}
