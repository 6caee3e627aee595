/** Feeds in which the newest message wins: best quotes and the account position. */
module Quotes {
  import opened Common
  import opened PriceLevels

  datatype QuoteData = QuoteData(seqId: int, execAt: int, eventAt: int, arrivedAt: int, bestAsk: Level, bestBid: Level)

  /** What the quote shows, apart from the previous best levels. */
  datatype Shown = Shown(seqId: int, execAt: Option<int>, message: Option<QuoteData>)

  const Blank := Shown(0, None, None)

  predicate IsStale(q: Shown, m: QuoteData) {
    (q.execAt.Some? && m.execAt < q.execAt.value) || q.seqId > m.seqId
  }

  function Accept(q: Shown, m: QuoteData): Shown {
    if IsStale(q, m) then q else Shown(m.seqId, Some(m.execAt), Some(m))
  }

  function AcceptAll(q: Shown, ms: seq<QuoteData>): Shown {
    if ms == [] then q else Accept(AcceptAll(q, ms[..|ms| - 1]), ms[|ms| - 1])
  }

  // ---------------------------------------------------------------------------------------------
  // Delivery order
  // ---------------------------------------------------------------------------------------------

  /** `a` is not after `b`, and before it in at least one of the two counts. */
  predicate Earlier(a: QuoteData, b: QuoteData) {
    a.seqId <= b.seqId && a.execAt <= b.execAt && (a.seqId < b.seqId || a.execAt < b.execAt)
  }

  predicate Comparable(a: QuoteData, b: QuoteData) {
    a == b || Earlier(a, b) || Earlier(b, a)
  }

  /** Two messages may arrive in either order, whatever is shown, if and only if they are comparable. */
  lemma QuoteOrderIff(a: QuoteData, b: QuoteData)
    ensures (forall q: Shown :: Accept(Accept(q, a), b) == Accept(Accept(q, b), a)) <==> Comparable(a, b)
  {
    if Comparable(a, b) {
      forall q: Shown ensures Accept(Accept(q, a), b) == Accept(Accept(q, b), a) {
      }
    } else {
      var q := Shown(if a.seqId < b.seqId then a.seqId else b.seqId, None, None);
      assert Accept(Accept(q, a), b) != Accept(Accept(q, b), a);
    }
  }

  /** The messages of one feed: any two are comparable, and sequence ids are not negative. */
  ghost predicate OneChain(ms: seq<QuoteData>) {
    && (forall a, b | a in ms && b in ms :: Comparable(a, b))
    && (forall a | a in ms :: a.seqId >= 0)
  }

  lemma NewestOfTwo(top: QuoteData, m: QuoteData, last: QuoteData)
    requires Comparable(top, m) && (last == m || last == top || Earlier(last, top))
    requires (top == last || Earlier(top, last)) && (m == last || Earlier(m, last))
    ensures Accept(Shown(top.seqId, Some(top.execAt), Some(top)), m) == Shown(last.seqId, Some(last.execAt), Some(last))
  {
  }

  /** Every delivery of a chain, in any order and with any duplication, ends at its last message. */
  lemma {:induction false} LastMessageShown(ms: seq<QuoteData>, last: QuoteData)
    requires OneChain(ms) && last in ms && forall m | m in ms :: m == last || Earlier(m, last)
    ensures AcceptAll(Blank, ms) == Shown(last.seqId, Some(last.execAt), Some(last))
  {
    var n := |ms| - 1;
    var init, m := ms[..n], ms[n];
    assert forall x :: x in ms <==> x in init || x == m;
    if init != [] {
      var top := Greatest(init);
      LastMessageShown(init, top);
      assert top in ms && Comparable(top, m);
      NewestOfTwo(top, m, last);
    }
  }

  /** A chain has a last message. */
  lemma {:induction false} Greatest(ms: seq<QuoteData>) returns (top: QuoteData)
    requires ms != [] && OneChain(ms)
    ensures top in ms && forall m | m in ms :: m == top || Earlier(m, top)
  {
    var n := |ms| - 1;
    top := ms[n];
    if n > 0 {
      var init := ms[..n];
      assert forall x :: x in ms <==> x in init || x == ms[n];
      var t := Greatest(init);
      assert Comparable(t, ms[n]);
      if Earlier(ms[n], t) {
        top := t;
      }
    }
  }

  lemma QuotesConverge(a: seq<QuoteData>, b: seq<QuoteData>)
    requires OneChain(a) && forall m :: m in a <==> m in b
    ensures AcceptAll(Blank, a) == AcceptAll(Blank, b)
  {
    assert |b| > 0 ==> b[0] in a;
    if a != [] {
      var top := Greatest(a);
      LastMessageShown(a, top);
      LastMessageShown(b, top);
    }
  }

  /** Whatever arrives, the shown sequence id and execution time never go back. */
  lemma {:induction false} NeverGoesBack(q: Shown, ms: seq<QuoteData>)
    ensures AcceptAll(q, ms).seqId >= q.seqId
    ensures q.execAt.Some? ==> AcceptAll(q, ms).execAt.Some? && AcceptAll(q, ms).execAt.value >= q.execAt.value
  {
    if ms != [] {
      NeverGoesBack(q, ms[..|ms| - 1]);
    }
  }

  // ---------------------------------------------------------------------------------------------
  // The object
  // ---------------------------------------------------------------------------------------------

  class Quote {
    var seqId: int
    var lastExecAt: Option<int>
    var lastEventAt: Option<int>
    var lastArrivedAt: Option<int>
    var bestAsk: Option<Level>
    var bestBid: Option<Level>
    var beforeBestAsk: Option<Level>
    var beforeBestBid: Option<Level>
    ghost var shown: Shown

    ghost predicate Valid()
      reads this
    {
      && seqId == shown.seqId && lastExecAt == shown.execAt
      && (shown.message.None? ==>
            lastEventAt.None? && lastArrivedAt.None? && bestAsk.None? && bestBid.None? && lastExecAt.None?)
      && (shown.message.Some? ==>
            var m := shown.message.value;
            && lastEventAt == Some(m.eventAt) && lastArrivedAt == Some(m.arrivedAt)
            && bestAsk == Some(m.bestAsk) && bestBid == Some(m.bestBid))
    }

    constructor ()
      ensures Valid() && shown == Blank && beforeBestAsk.None? && beforeBestBid.None?
    {
      seqId, lastExecAt, lastEventAt, lastArrivedAt := 0, None, None, None;
      bestAsk, bestBid, beforeBestAsk, beforeBestBid := None, None, None, None;
      shown := Blank;
    }

    /** The previous best levels are recorded even when the message turns out to be stale. */
    method Update(m: QuoteData)
      requires Valid()
      modifies this
      ensures Valid() && shown == Accept(old(shown), m)
      ensures beforeBestAsk == if old(bestAsk).Some? then old(bestAsk) else old(beforeBestAsk)
      ensures beforeBestBid == if old(bestBid).Some? then old(bestBid) else old(beforeBestBid)
    {
      if bestAsk.Some? && bestBid.Some? {
        beforeBestAsk := bestAsk;
        beforeBestBid := bestBid;
      }
      if lastExecAt.Some? && m.execAt < lastExecAt.value {
        return;
      }
      if seqId > m.seqId {
        return;
      }
      seqId := m.seqId;
      lastExecAt := Some(m.execAt);
      lastEventAt := Some(m.eventAt);
      lastArrivedAt := Some(m.arrivedAt);
      bestAsk := Some(m.bestAsk);
      bestBid := Some(m.bestBid);
      shown := Accept(shown, m);
    }
  }
}

module Positions {
  import opened Common

  datatype Side = NoSide | Buy | Sell
  datatype Mode = UnknownMode | OneWay | HedgeBuy | HedgeSell
  datatype PositionData = PositionData(timestamp: int, mode: Mode, side: Side, qty: real)

  datatype Position = Position(value: real, lastUpdateAt: int)

  function Signed(d: PositionData): real {
    match d.side
    case Buy => d.qty
    case Sell => -d.qty
    case NoSide => 0.0
  }

  /** How the client reads a position: its side, and its size without sign. */
  function PosSide(value: real): Side {
    if value > 0.0 then Buy else if value < 0.0 then Sell else NoSide
  }

  function Size(value: real): real {
    if value < 0.0 then -value else value
  }

  /** What was sent is what is read. */
  lemma ReadsBack(d: PositionData)
    ensures d.qty > 0.0 && d.side != NoSide ==> PosSide(Signed(d)) == d.side && Size(Signed(d)) == d.qty
    ensures d.qty == 0.0 || d.side == NoSide ==> PosSide(Signed(d)) == NoSide && Size(Signed(d)) == 0.0
    ensures d.side == Buy ==> Signed(d) == d.qty
    ensures d.side == Sell ==> Signed(d) == -d.qty
  {
  }

  function Update(p: Position, d: PositionData): Position {
    if d.timestamp >= p.lastUpdateAt then Position(Signed(d), d.timestamp) else p
  }

  function UpdateAll(p: Position, ds: seq<PositionData>): Position {
    if ds == [] then p else Update(UpdateAll(p, ds[..|ds| - 1]), ds[|ds| - 1])
  }

  /** The last message with the greatest timestamp, none of them before the start. */
  ghost predicate Decisive(p: Position, ds: seq<PositionData>, k: int) {
    && 0 <= k < |ds| && ds[k].timestamp >= p.lastUpdateAt
    && (forall j | 0 <= j < k :: ds[j].timestamp <= ds[k].timestamp)
    && (forall j | k < j < |ds| :: ds[j].timestamp < ds[k].timestamp)
  }

  lemma {:induction false} UpdateSplits(p: Position, a: seq<PositionData>, b: seq<PositionData>)
    ensures UpdateAll(p, a + b) == UpdateAll(UpdateAll(p, a), b)
  {
    if b == [] {
      assert a + b == a;
    } else {
      var n := |b| - 1;
      assert (a + b)[..|a + b| - 1] == a + b[..n] && (a + b)[|a + b| - 1] == b[n];
      UpdateSplits(p, a, b[..n]);
    }
  }

  /** Messages older than the position change nothing. */
  lemma {:induction false} OldNewsIgnored(p: Position, ds: seq<PositionData>)
    requires forall i | 0 <= i < |ds| :: ds[i].timestamp < p.lastUpdateAt
    ensures UpdateAll(p, ds) == p
  {
    if ds != [] {
      OldNewsIgnored(p, ds[..|ds| - 1]);
    }
  }

  lemma {:induction false} NeverBeyond(p: Position, ds: seq<PositionData>, t: int)
    requires p.lastUpdateAt <= t && forall i | 0 <= i < |ds| :: ds[i].timestamp <= t
    ensures UpdateAll(p, ds).lastUpdateAt <= t
  {
    if ds != [] {
      NeverBeyond(p, ds[..|ds| - 1], t);
    }
  }

  lemma LatestDecides(p: Position, ds: seq<PositionData>, k: int)
    requires Decisive(p, ds, k)
    ensures UpdateAll(p, ds) == Position(Signed(ds[k]), ds[k].timestamp)
  {
    var a, b := ds[..k + 1], ds[k + 1..];
    assert a[..k] == ds[..k] && a[k] == ds[k];
    NeverBeyond(p, ds[..k], ds[k].timestamp);
    assert ds == a + b;
    UpdateSplits(p, a, b);
    OldNewsIgnored(UpdateAll(p, a), b);
  }

  /** Among the greatest timestamps the latest arrival wins, and the client reads its side and quantity. */
  lemma LatestWins(p: Position, ds: seq<PositionData>, k: int)
    requires Decisive(p, ds, k)
    ensures UpdateAll(p, ds).lastUpdateAt == ds[k].timestamp
    ensures var d, q := ds[k], UpdateAll(p, ds).value;
      && (d.side == Buy ==> q == d.qty) && (d.side == Sell ==> q == -d.qty) && (d.side == NoSide ==> q == 0.0)
      && (d.qty > 0.0 && d.side != NoSide ==> PosSide(q) == d.side && Size(q) == d.qty)
  {
    LatestDecides(p, ds, k);
    ReadsBack(ds[k]);
  }

  /** Some message decides, unless all of them are older than the position. */
  lemma {:induction false} SomeDecides(p: Position, ds: seq<PositionData>, i: int) returns (k: int)
    requires 0 <= i < |ds| && ds[i].timestamp >= p.lastUpdateAt
    ensures Decisive(p, ds, k)
    decreases |ds|
  {
    var n := |ds| - 1;
    k := n;
    if exists j :: 0 <= j < n && ds[j].timestamp > ds[n].timestamp && ds[j].timestamp >= p.lastUpdateAt {
      var j :| 0 <= j < n && ds[j].timestamp > ds[n].timestamp && ds[j].timestamp >= p.lastUpdateAt;
      k := SomeDecides(p, ds[..n], j);
      assert ds[..n][j] == ds[j];
    }
  }

  /** Messages with distinct timestamps lead to one position, in any arrival order. */
  lemma PositionsConverge(p: Position, a: seq<PositionData>, b: seq<PositionData>)
    requires forall d :: d in a <==> d in b
    requires forall x, y | x in a && y in a && x.timestamp == y.timestamp :: x == y
    ensures UpdateAll(p, a) == UpdateAll(p, b)
  {
    if i :| 0 <= i < |a| && a[i].timestamp >= p.lastUpdateAt {
      assert a[i] in b;
      var j :| 0 <= j < |b| && b[j] == a[i];
      var k := SomeDecides(p, a, i);
      var l := SomeDecides(p, b, j);
      assert a[k] in b && b[l] in a;
      var x :| 0 <= x < |b| && b[x] == a[k];
      var y :| 0 <= y < |a| && a[y] == b[l];
      assert a[k].timestamp == b[l].timestamp;
      LatestDecides(p, a, k);
      LatestDecides(p, b, l);
    } else {
      forall j | 0 <= j < |b| ensures b[j].timestamp < p.lastUpdateAt {
        assert b[j] in a;
      }
      OldNewsIgnored(p, a);
      OldNewsIgnored(p, b);
    }
  }

  class Tracker {
    var value: real
    var lastUpdateAt: int

    ghost function View(): Position
      reads this
    {
      Position(value, lastUpdateAt)
    }

    constructor (start: int)
      ensures View() == Position(0.0, start)
    {
      value, lastUpdateAt := 0.0, start;
    }

    /** A message is usable when it is a single one-way entry. */
    static method Extract(datas: seq<PositionData>) returns (d: Option<PositionData>)
      ensures d == if |datas| == 1 && datas[0].mode.OneWay? then Some(datas[0]) else None
    {
      var oneWay, invalid := [], [];
      for i := 0 to |datas|
        invariant |oneWay| + |invalid| == i
        invariant invalid == [] <==> forall j | 0 <= j < i :: datas[j].mode.OneWay?
        invariant invalid == [] ==> oneWay == datas[..i]
      {
        if datas[i].mode == OneWay {
          oneWay := oneWay + [datas[i]];
        } else {
          invalid := invalid + [datas[i]];
        }
      }
      if |invalid| > 0 || |oneWay| >= 2 || |oneWay| == 0 {
        return None;
      }
      return Some(oneWay[0]);
    }

    method GetQty() returns (side: Side, qty: real)
      ensures side == PosSide(value) && qty == Size(value)
      ensures qty >= 0.0 && (side == NoSide <==> qty == 0.0)
      ensures value == if side == Sell then -qty else qty
    {
      side := if value > 0.0 then Buy else if value < 0.0 then Sell else NoSide;
      qty := if value < 0.0 then -value else value;
    }

    method HandlePositionData(datas: seq<PositionData>) returns (ok: bool)
      modifies this
      ensures ok <==> |datas| == 1 && datas[0].mode.OneWay?
      ensures View() == if ok then Update(old(View()), datas[0]) else old(View())
      ensures ok && datas[0].timestamp >= old(lastUpdateAt) ==>
        && lastUpdateAt == datas[0].timestamp
        && (datas[0].side == Buy ==> value == datas[0].qty) && (datas[0].side == Sell ==> value == -datas[0].qty)
        && (datas[0].side == NoSide ==> value == 0.0)
      ensures !ok || datas[0].timestamp < old(lastUpdateAt) ==> value == old(value) && lastUpdateAt == old(lastUpdateAt)
    {
      var d := Extract(datas);
      if d.None? {
        return false;
      }
      var data := d.value;
      if data.timestamp >= lastUpdateAt {
        var size := 0.0;
        if data.side == Buy {
          size := data.qty;
        }
        if data.side == Sell {
          size := -data.qty;
        }
        value, lastUpdateAt := size, data.timestamp;
      }
      return true;
    }
  }
}
