/**
 What the average execution price means: the walk is optimal among all ways to fill the quantity,
 the average never improves with size, and cumulative volume agrees with the per-price query.
 */
module Execution {
  import opened PriceLevels
  import opened Replay

  ghost predicate NonNegative(ls: seq<Level>) {
    forall i | 0 <= i < |ls| :: ls[i].volume >= 0.0
  }

  // ---------------------------------------------------------------------------------------------
  // Allocations
  // ---------------------------------------------------------------------------------------------

  function Sum(a: seq<real>): real {
    if a == [] then 0.0 else a[0] + Sum(a[1..])
  }

  /** What taking `a[i]` from level `i` costs. */
  function CostOf(ls: seq<Level>, a: seq<real>): real
    requires |a| == |ls|
  {
    if ls == [] then 0.0 else Pay(ls[0], a[0]) + CostOf(ls[1..], a[1..])
  }

  /** A way to take `q` in all without taking more than any level offers. */
  ghost predicate Feasible(ls: seq<Level>, a: seq<real>, q: real) {
    && |a| == |ls| && Sum(a) == q
    && forall i | 0 <= i < |a| :: 0.0 <= a[i] <= ls[i].volume
  }

  lemma MulMono(a: real, b: real, c: real)
    requires a <= b && c >= 0.0
    ensures a * c <= b * c
  {
    assert (b - a) * c >= 0.0;
  }

  lemma AddAtLeast(p: real, c: real, x: real, s: real, w: real)
    requires p <= c && x >= 0.0 && w >= p * s
    ensures c * x + w >= p * (x + s)
  {
    MulMono(p, c, x);
    assert p * (x + s) == p * x + p * s;
  }

  lemma {:induction false} SumWithinTotal(ls: seq<Level>, a: seq<real>)
    requires |a| == |ls| && forall i | 0 <= i < |a| :: 0.0 <= a[i] <= ls[i].volume
    ensures 0.0 <= Sum(a) <= Total(ls)
  {
    if a != [] {
      SumWithinTotal(ls[1..], a[1..]);
    }
  }

  /** If every price is at least `p`, so is the price paid per unit. */
  lemma {:induction false} CostAtLeast(ls: seq<Level>, a: seq<real>, p: real, sum: real)
    requires |a| == |ls| && sum == Sum(a)
    requires forall i | 0 <= i < |ls| :: ls[i].price >= p && a[i] >= 0.0
    ensures CostOf(ls, a) >= p * sum
  {
    if ls != [] {
      CostAtLeast(ls[1..], a[1..], p, sum - a[0]);
      AddAtLeast(p, ls[0].price, a[0], sum - a[0], CostOf(ls[1..], a[1..]));
    }
  }

  /** A walk for nothing costs nothing. */
  lemma WalkZero(ls: seq<Level>)
    requires NonNegative(ls)
    ensures WalkCost(ls, 0.0) == 0.0
  {
  }

  lemma MulDiff(c: real, x: real, y: real, d: real)
    requires d == y - x
    ensures c * y - c * x == c * d
  {
  }

  lemma GrowWithin(p: real, c: real, x: real, y: real, d: real)
    requires p <= c && x <= y && d == y - x
    ensures c * y - c * x >= p * d
  {
    MulMono(p, c, d);
    MulDiff(c, x, y, d);
  }

  lemma GrowStep(p: real, c: real, x: real, v: real, rest: real, w: real, d: real)
    requires p <= c && x <= v && w >= p * rest && d == v - x + rest
    ensures c * v + w - c * x >= p * d
  {
    AddAtLeast(p, c, v - x, rest, w);
    MulDiff(c, x, v, v - x);
  }

  /** The case in which the first level runs out between `x` and `y`. */
  lemma GrowAcross(ls: seq<Level>, x: real, y: real, p: real, d: real, u: real)
    requires ls != [] && x <= ls[0].volume < y && ls[0].price >= p && d == y - x && u == y - ls[0].volume
    requires WalkCost(ls[1..], u) >= p * u
    ensures WalkCost(ls, y) - WalkCost(ls, x) >= p * d
  {
    GrowStep(p, ls[0].price, x, ls[0].volume, u, WalkCost(ls[1..], u), d);
  }

  /** If every price is at least `p`, every further unit costs at least `p`. */
  lemma {:induction false} WalkGrows(ls: seq<Level>, x: real, y: real, p: real, d: real)
    requires NonNegative(ls) && 0.0 <= x <= y <= Total(ls) && d == y - x
    requires forall i | 0 <= i < |ls| :: ls[i].price >= p
    ensures WalkCost(ls, y) - WalkCost(ls, x) >= p * d
  {
    if ls != [] {
      var rest, c, v := ls[1..], ls[0].price, ls[0].volume;
      if y <= v {
        GrowWithin(p, c, x, y, d);
      } else if x <= v {
        var u := y - v;
        WalkZero(rest);
        WalkGrows(rest, 0.0, u, p, u);
        GrowAcross(ls, x, y, p, d, u);
      } else {
        WalkGrows(rest, x - v, y - v, p, d);
      }
    }
  }

  /** Units left at a price of `c` and bought later cost at least as much there. */
  lemma Exchange(c: real, v: real, x: real, d: real, w: real, w': real)
    requires d == v - x && w' - w >= c * d
    ensures c * v + w <= c * x + w'
  {
    MulDiff(c, x, v, d);
  }

  /** Taking less than all of the best level, and the rest in order, costs no less than the walk. */
  lemma TakeLessFirst(ls: seq<Level>, x: real, q: real)
    requires Sorted(Ask, ls) && NonNegative(ls) && ls != []
    requires 0.0 <= x <= ls[0].volume < q && q - x <= Total(ls[1..])
    ensures WalkCost(ls, q) <= Pay(ls[0], x) + WalkCost(ls[1..], q - x)
  {
    var rest, c, v := ls[1..], ls[0].price, ls[0].volume;
    WalkGrows(rest, q - v, q - x, c, v - x);
    Exchange(c, v, x, v - x, WalkCost(rest, q - v), WalkCost(rest, q - x));
  }

  lemma RestFeasible(ls: seq<Level>, a: seq<real>, q: real)
    requires Feasible(ls, a, q) && ls != []
    ensures Feasible(ls[1..], a[1..], q - a[0]) && NonNegative(ls) && q - a[0] <= Total(ls[1..])
  {
    SumWithinTotal(ls[1..], a[1..]);
    assert forall i | 0 <= i < |ls| :: 0.0 <= a[i] <= ls[i].volume;
  }

  lemma CheapestWithinBest(ls: seq<Level>, a: seq<real>, q: real)
    requires Sorted(Ask, ls) && Feasible(ls, a, q) && ls != [] && q <= ls[0].volume
    ensures WalkCost(ls, q) <= CostOf(ls, a)
  {
    CostAtLeast(ls, a, ls[0].price, q);
  }

  /** On the ask side no allocation is cheaper than the walk. */
  lemma {:induction false} WalkIsCheapest(ls: seq<Level>, a: seq<real>, q: real)
    requires Sorted(Ask, ls) && Feasible(ls, a, q)
    ensures WalkCost(ls, q) <= CostOf(ls, a)
  {
    if ls != [] {
      if q <= ls[0].volume {
        CheapestWithinBest(ls, a, q);
      } else {
        RestFeasible(ls, a, q);
        WalkIsCheapest(ls[1..], a[1..], q - a[0]);
        TakeLessFirst(ls, a[0], q);
      }
    }
  }

  /** The walk is itself an allocation. */
  function Greedy(ls: seq<Level>, q: real): seq<real> {
    if ls == [] then []
    else if q - ls[0].volume <= 0.0 then [q] + Greedy(ls[1..], 0.0)
    else [ls[0].volume] + Greedy(ls[1..], q - ls[0].volume)
  }

  /** Taking `x` from the first level and the rest by `a`. */
  lemma TakeFirst(ls: seq<Level>, x: real, a: seq<real>, q: real)
    requires ls != [] && 0.0 <= x <= ls[0].volume && Feasible(ls[1..], a, q - x)
    ensures Feasible(ls, [x] + a, q)
    ensures CostOf(ls, [x] + a) == Pay(ls[0], x) + CostOf(ls[1..], a)
  {
    assert ([x] + a)[1..] == a;
  }

  lemma {:induction false} GreedyNothing(ls: seq<Level>)
    requires NonNegative(ls)
    ensures Feasible(ls, Greedy(ls, 0.0), 0.0) && CostOf(ls, Greedy(ls, 0.0)) == 0.0
  {
    if ls != [] {
      GreedyNothing(ls[1..]);
      TakeFirst(ls, 0.0, Greedy(ls[1..], 0.0), 0.0);
    }
  }

  lemma {:induction false} GreedyAttains(ls: seq<Level>, q: real)
    requires NonNegative(ls) && 0.0 <= q <= Total(ls)
    ensures Feasible(ls, Greedy(ls, q), q) && CostOf(ls, Greedy(ls, q)) == WalkCost(ls, q)
  {
    if ls != [] {
      var v := ls[0].volume;
      if q <= v {
        GreedyNothing(ls[1..]);
        TakeFirst(ls, q, Greedy(ls[1..], 0.0), q);
      } else {
        GreedyAttains(ls[1..], q - v);
        TakeFirst(ls, v, Greedy(ls[1..], q - v), q);
      }
    }
  }

  // ---------------------------------------------------------------------------------------------
  // Bids are asks in a mirror
  // ---------------------------------------------------------------------------------------------

  function Mirror(ls: seq<Level>): (m: seq<Level>)
    ensures |m| == |ls|
    ensures forall i | 0 <= i < |ls| :: m[i] == ls[i].(price := -ls[i].price)
  {
    if ls == [] then [] else [ls[0].(price := -ls[0].price)] + Mirror(ls[1..])
  }

  lemma {:induction false} MirrorWalk(ls: seq<Level>, q: real)
    ensures WalkCost(Mirror(ls), q) == -WalkCost(ls, q)
    ensures Total(Mirror(ls)) == Total(ls)
  {
    if ls != [] {
      assert Mirror(ls)[1..] == Mirror(ls[1..]);
      MirrorWalk(ls[1..], q - ls[0].volume);
    }
  }

  lemma {:induction false} MirrorCost(ls: seq<Level>, a: seq<real>)
    requires |a| == |ls|
    ensures CostOf(Mirror(ls), a) == -CostOf(ls, a)
  {
    if ls != [] {
      assert Mirror(ls)[1..] == Mirror(ls[1..]);
      MirrorCost(ls[1..], a[1..]);
    }
  }

  /** On the bid side no allocation earns more than the walk. */
  lemma WalkEarnsMost(ls: seq<Level>, a: seq<real>, q: real)
    requires Sorted(Bid, ls) && Feasible(ls, a, q)
    ensures WalkCost(ls, q) >= CostOf(ls, a)
  {
    MirrorWalk(ls, q);
    MirrorCost(ls, a);
    WalkIsCheapest(Mirror(ls), a, q);
  }

  // ---------------------------------------------------------------------------------------------
  // The average
  // ---------------------------------------------------------------------------------------------

  function Average(ls: seq<Level>, q: real): real
    requires q != 0.0
  {
    WalkCost(ls, q) / q
  }

  /** The price of the level that fills the last unit. */
  function LastPrice(ls: seq<Level>, q: real): real
    requires ls != []
  {
    if |ls| == 1 || q - ls[0].volume <= 0.0 then ls[0].price else LastPrice(ls[1..], q - ls[0].volume)
  }

  lemma {:induction false} LastIsWorst(ls: seq<Level>, q: real)
    requires Sorted(Ask, ls) && ls != []
    ensures ls[0].price <= LastPrice(ls, q)
  {
    if |ls| > 1 && q > ls[0].volume {
      LastIsWorst(ls[1..], q - ls[0].volume);
    }
  }

  lemma AddAtMost(p: real, c: real, x: real, s: real, w: real)
    requires c <= p && x >= 0.0 && w <= p * s
    ensures c * x + w <= p * (x + s)
  {
    MulMono(c, p, x);
    assert p * (x + s) == p * x + p * s;
  }

  lemma BetweenStep(c: real, d: real, last: real, v: real, u: real, w: real, q: real)
    requires c <= d <= last && v >= 0.0 && u >= 0.0 && d * u <= w <= last * u && q == v + u
    ensures c * q <= c * v + w
    ensures c * v + w <= last * q
  {
    MulMono(c, d, u);
    AddAtLeast(c, c, v, u, w);
    AddAtMost(last, c, v, u, w);
  }

  lemma {:induction false} CostBetween(ls: seq<Level>, q: real, best: real, last: real)
    requires Sorted(Ask, ls) && NonNegative(ls) && ls != [] && 0.0 <= q <= Total(ls)
    requires best == ls[0].price && last == LastPrice(ls, q)
    ensures best * q <= WalkCost(ls, q) <= last * q
  {
    var v := ls[0].volume;
    if q > v {
      var rest, u := ls[1..], q - v;
      assert rest != [];
      var d := rest[0].price;
      CostBetween(rest, u, d, last);
      LastIsWorst(rest, u);
      BetweenStep(best, d, last, v, u, WalkCost(rest, u), q);
    }
  }

  /** Beyond `x`, every unit costs at least what the last unit of `x` cost. */
  lemma {:induction false} GrowsFromLast(ls: seq<Level>, x: real, y: real, last: real, d: real)
    requires Sorted(Ask, ls) && NonNegative(ls) && ls != [] && 0.0 <= x <= y <= Total(ls)
    requires last == LastPrice(ls, x) && d == y - x
    ensures WalkCost(ls, y) - WalkCost(ls, x) >= last * d
  {
    var v := ls[0].volume;
    if x <= v || |ls| == 1 {
      WalkGrows(ls, x, y, last, d);
    } else {
      GrowsFromLast(ls[1..], x - v, y - v, last, d);
    }
  }

  lemma DivTimes(a: real, q: real, k: real)
    requires q > 0.0 && a == k * q
    ensures a / q == k
  {
  }

  lemma DivMono(a: real, b: real, q: real)
    requires q > 0.0 && a <= b
    ensures a / q <= b / q
  {
    var d := b - a;
    assert b / q - a / q == d / q;
    assert d / q >= 0.0;
  }

  lemma DivLe(a: real, q: real, b: real, r: real)
    requires q > 0.0 && r > 0.0 && a * r <= b * q
    ensures a / q <= b / r
  {
    assert q * r > 0.0;
    DivMono(a * r, b * q, q * r);
    assert a * r / (q * r) == a / q;
    assert b * q / (q * r) == b / r;
  }

  /** If the first `x` units cost at most `p` each and the rest at least `p` each, the average grows. */
  lemma AverageGrows(x: real, y: real, cx: real, cy: real, p: real, d: real)
    requires 0.0 < x <= y && d == y - x && cx <= p * x && cy - cx >= p * d
    ensures cx / x <= cy / y
  {
    MulMono(cx, p * x, d);
    MulMono(p * d, cy - cx, x);
    assert p * x * d == p * d * x;
    assert cx * d <= (cy - cx) * x;
    assert cx * y == cx * x + cx * d;
    assert cy * x == cx * x + (cy - cx) * x;
    DivLe(cx, x, cy, y);
  }

  lemma AverageBetween(x: real, cx: real, lo: real, hi: real)
    requires 0.0 < x && lo * x <= cx <= hi * x
    ensures lo <= cx / x <= hi
  {
    DivMono(lo * x, cx, x);
    DivMono(cx, hi * x, x);
    DivTimes(lo * x, x, lo);
    DivTimes(hi * x, x, hi);
  }

  /** The average lies between the best price and the price of the last unit. */
  lemma AskAverageBetween(ls: seq<Level>, x: real)
    requires Sorted(Ask, ls) && NonNegative(ls) && 0.0 < x <= Total(ls)
    ensures ls != [] && ls[0].price <= Average(ls, x) <= LastPrice(ls, x)
  {
    var best, last := ls[0].price, LastPrice(ls, x);
    CostBetween(ls, x, best, last);
    AverageBetween(x, WalkCost(ls, x), best, last);
  }

  /** Buying more never lowers the average. */
  lemma AskAverageMonotone(ls: seq<Level>, x: real, y: real)
    requires Sorted(Ask, ls) && NonNegative(ls) && 0.0 < x <= y <= Total(ls)
    ensures Average(ls, x) <= Average(ls, y)
  {
    var last, d := LastPrice(ls, x), y - x;
    CostBetween(ls, x, ls[0].price, last);
    GrowsFromLast(ls, x, y, last, d);
    AverageGrows(x, y, WalkCost(ls, x), WalkCost(ls, y), last, d);
  }

  lemma {:induction false} MirrorLast(ls: seq<Level>, q: real)
    requires ls != []
    ensures LastPrice(Mirror(ls), q) == -LastPrice(ls, q)
  {
    assert Mirror(ls)[1..] == Mirror(ls[1..]);
    if |ls| > 1 && q > ls[0].volume {
      MirrorLast(ls[1..], q - ls[0].volume);
    }
  }

  lemma NegDiv(a: real, q: real)
    requires q != 0.0
    ensures (-a) / q == -(a / q)
  {
  }

  lemma MirrorAverage(ls: seq<Level>, x: real)
    requires x != 0.0
    ensures Average(Mirror(ls), x) == -Average(ls, x)
  {
    MirrorWalk(ls, x);
    NegDiv(WalkCost(ls, x), x);
  }

  lemma BidAverageBetween(ls: seq<Level>, x: real)
    requires Sorted(Bid, ls) && NonNegative(ls) && 0.0 < x <= Total(ls)
    ensures ls != [] && ls[0].price >= Average(ls, x) >= LastPrice(ls, x)
  {
    MirrorWalk(ls, x);
    AskAverageBetween(Mirror(ls), x);
    MirrorAverage(ls, x);
    MirrorLast(ls, x);
  }

  /** Selling more never raises the average. */
  lemma BidAverageMonotone(ls: seq<Level>, x: real, y: real)
    requires Sorted(Bid, ls) && NonNegative(ls) && 0.0 < x <= y <= Total(ls)
    ensures Average(ls, x) >= Average(ls, y)
  {
    MirrorWalk(ls, x);
    AskAverageMonotone(Mirror(ls), x, y);
    MirrorAverage(ls, x);
    MirrorAverage(ls, y);
  }

  /** Beyond the book the walk pays for the whole side and no more. */
  lemma {:induction false} WalkBeyond(ls: seq<Level>, q: real)
    requires NonNegative(ls) && q >= Total(ls)
    ensures WalkCost(ls, q) == WalkCost(ls, Total(ls))
  {
    if ls != [] {
      var rest, v := ls[1..], ls[0].volume;
      TotalNonNegative(rest);
      WalkBeyond(rest, q - v);
      WalkBeyond(rest, Total(ls) - v);
      if q == v || Total(ls) == v {
        WalkZero(rest);
        assert Total(rest) == 0.0 || q > v;
      }
    }
  }

  lemma {:induction false} TotalNonNegative(ls: seq<Level>)
    requires NonNegative(ls)
    ensures Total(ls) >= 0.0
  {
    if ls != [] {
      TotalNonNegative(ls[1..]);
    }
  }

  /**
   Beyond the book, on either side, the reported average is the cost of the whole side spread over the
   quantity asked for: with a larger quantity it falls if and only if that cost is positive.
   */
  lemma AverageBeyond(ls: seq<Level>, x: real, y: real)
    requires NonNegative(ls) && 0.0 < x < y && Total(ls) <= x
    ensures Average(ls, x) == WalkCost(ls, Total(ls)) / x && Average(ls, y) == WalkCost(ls, Total(ls)) / y
    ensures Average(ls, y) < Average(ls, x) <==> WalkCost(ls, Total(ls)) > 0.0
  {
    WalkBeyond(ls, x);
    WalkBeyond(ls, y);
    SpreadIff(WalkCost(ls, Total(ls)), x, y);
  }

  lemma SpreadIff(c: real, x: real, y: real)
    requires 0.0 < x < y
    ensures c / y < c / x <==> c > 0.0
  {
    if c > 0.0 {
      Thinner(c, x, y, c / x, c / y);
    } else {
      MulMono(x, y, -c);
      DivLe(c, x, c, y);
    }
  }

  /** The same amount over more units is less per unit. */
  lemma Thinner(c: real, x: real, y: real, a: real, b: real)
    requires 0.0 < x < y && c > 0.0 && a * x == c && b * y == c
    ensures b < a
  {
    assert b > 0.0;
    assert b * (y - x) > 0.0;
    ScaleIff(b, a, x);
  }

  // ---------------------------------------------------------------------------------------------
  // Rounding to the tick size
  // ---------------------------------------------------------------------------------------------

  /** The integer part, towards zero. */
  function Truncate(x: real): int {
    if x >= 0.0 then x.Floor else -((-x).Floor)
  }

  function RoundToTickSize(tick: real, price: real): real
    requires tick > 0.0
  {
    Truncate(price / tick) as real * tick
  }

  lemma TruncateMonotone(x: real, y: real)
    requires x <= y
    ensures Truncate(x) <= Truncate(y)
  {
  }

  /** Truncating goes down except between two negative integers. */
  lemma TruncateDownIff(x: real)
    ensures Truncate(x) as real <= x <==> x >= 0.0 || x.Floor as real == x
    ensures Truncate(x) == x.Floor <==> x >= 0.0 || x.Floor as real == x
  {
    var f := x.Floor;
    FloorIs(-x, if f as real == x then -f else -f - 1);
  }

  lemma FloorIs(x: real, n: int)
    requires n as real <= x < n as real + 1.0
    ensures x.Floor == n
  {
  }

  lemma ScaleIff(a: real, b: real, c: real)
    requires c > 0.0
    ensures a * c <= b * c <==> a <= b
    ensures a * c == b * c <==> a == b
  {
    if a <= b {
      MulMono(a, b, c);
    } else {
      assert (a - b) * c > 0.0;
    }
    if a < b {
      assert (b - a) * c > 0.0;
    }
  }

  /** Rounding down, as documented, is what happens if and only if the price is not negative or on a tick. */
  lemma RoundsDownIff(tick: real, p: real)
    requires tick > 0.0
    ensures RoundToTickSize(tick, p) <= p <==> p >= 0.0 || (p / tick).Floor as real == p / tick
    ensures RoundToTickSize(tick, p) == (p / tick).Floor as real * tick
       <==> p >= 0.0 || (p / tick).Floor as real == p / tick
  {
    var x := p / tick;
    assert x * tick == p;
    TruncateDownIff(x);
    ScaleIff(0.0, x, tick);
    ScaleIff(Truncate(x) as real, x, tick);
    ScaleIff(Truncate(x) as real, x.Floor as real, tick);
  }

  lemma TruncateNear(x: real)
    ensures var t := Truncate(x) as real;
      if x >= 0.0 then 0.0 <= t <= x < t + 1.0 else t - 1.0 < x <= t <= 0.0
  {
  }

  lemma OneTickMore(t: real, x: real, tick: real, r: real, p: real)
    requires tick > 0.0 && r == t * tick && p == x * tick && x < t + 1.0
    ensures p < r + tick
  {
    var gap := t + 1.0 - x;
    assert gap * tick > 0.0;
    assert gap * tick == r + tick - p;
  }

  lemma NearScaled(t: real, x: real, tick: real, r: real, p: real)
    requires tick > 0.0 && r == t * tick && p == x * tick && 0.0 <= t <= x < t + 1.0
    ensures 0.0 <= r <= p < r + tick
  {
    MulMono(0.0, t, tick);
    MulMono(t, x, tick);
    OneTickMore(t, x, tick, r, p);
  }

  /** The rounded price is a multiple of the tick, not farther from zero than the price, and less than a tick away. */
  lemma RoundsTowardsZero(tick: real, p: real) returns (n: int)
    requires tick > 0.0
    ensures var r := RoundToTickSize(tick, p);
      && r == n as real * tick
      && if p >= 0.0 then 0.0 <= r <= p < r + tick else r - tick < p <= r <= 0.0
  {
    var x := p / tick;
    n := Truncate(x);
    var t, r := n as real, RoundToTickSize(tick, p);
    TimesTick(p, tick, x);
    TruncateNear(x);
    if p >= 0.0 {
      NearScaled(t, x, tick, r, p);
    } else {
      NearScaled(-t, -x, tick, -r, -p);
    }
  }

  lemma TimesTick(p: real, tick: real, x: real)
    requires tick > 0.0 && x == p / tick
    ensures p == x * tick && (p >= 0.0 <==> x >= 0.0)
  {
    assert x * tick == p;
    ScaleIff(0.0, x, tick);
  }

  /** A negative price that is rounded up. */
  lemma NegativeRoundsUp()
    ensures RoundToTickSize(1.0, -0.5) > -0.5
  {
    assert -0.5 / 1.0 == -0.5 && Truncate(-0.5) == 0;
  }

  lemma RoundingMonotone(tick: real, x: real, y: real)
    requires tick > 0.0 && x <= y
    ensures RoundToTickSize(tick, x) <= RoundToTickSize(tick, y)
  {
    DivMono(x, y, tick);
    TruncateMonotone(x / tick, y / tick);
    MulMono(Truncate(x / tick) as real, Truncate(y / tick) as real, tick);
  }

  /** The book reports averages rounded to the tick size; they are as monotone as the exact ones. */
  lemma ReportedAverageMonotone(tick: real, asks: seq<Level>, bids: seq<Level>, x: real, y: real)
    requires tick > 0.0 && 0.0 < x <= y
    requires Sorted(Ask, asks) && NonNegative(asks) && y <= Total(asks)
    requires Sorted(Bid, bids) && NonNegative(bids) && y <= Total(bids)
    ensures RoundToTickSize(tick, Average(asks, x)) <= RoundToTickSize(tick, Average(asks, y))
    ensures RoundToTickSize(tick, Average(bids, x)) >= RoundToTickSize(tick, Average(bids, y))
  {
    AskAverageMonotone(asks, x, y);
    BidAverageMonotone(bids, x, y);
    RoundingMonotone(tick, Average(asks, x), Average(asks, y));
    RoundingMonotone(tick, Average(bids, y), Average(bids, x));
  }

  // ---------------------------------------------------------------------------------------------
  // Cumulative volume
  // ---------------------------------------------------------------------------------------------

  /** Each level with the volume from the best level down to it. */
  function Cumulative(ls: seq<Level>): (c: seq<Level>)
    ensures |c| == |ls|
    ensures forall i | 0 <= i < |ls| :: c[i] == Level(0, ls[i].price, Total(ls[..i + 1]))
  {
    if ls == [] then []
    else
      var n := |ls| - 1;
      assert ls[..n + 1] == ls;
      assert forall i {:trigger ls[..i + 1]} | 0 <= i < n :: ls[..n][..i + 1] == ls[..i + 1];
      Cumulative(ls[..n]) + [Level(0, ls[n].price, Total(ls))]
  }

  lemma {:induction false} TotalPositive(ls: seq<Level>)
    requires ls != [] && forall i | 0 <= i < |ls| :: ls[i].volume > 0.0
    ensures Total(ls) > 0.0
  {
    if |ls| > 1 {
      TotalPositive(ls[1..]);
    }
  }

  /** A level worse than all others goes to the end. */
  lemma InsertWorst(side: Side, ls: seq<Level>, r: Level)
    requires Sorted(side, ls) && forall i | 0 <= i < |ls| :: Before(side, ls[i].price, r.price)
    ensures Insert(side, ls, r) == ls + [r]
  {
    assert Rank(side, ls, r.price) == |ls|;
  }

  /** One level more: the same sums, and one more level to store. */
  lemma CumulativeGrows(side: Side, ls: seq<Level>, i: nat)
    requires i < |ls|
    ensures Total(ls[..i + 1]) == Total(ls[..i]) + ls[i].volume
    ensures PutAll(map[], Cumulative(ls[..i + 1]))
         == PutLevel(PutAll(map[], Cumulative(ls[..i])), Level(0, ls[i].price, Total(ls[..i + 1])))
  {
    assert ls[..i + 1] == ls[..i] + [ls[i]];
    SumSplits(side, ls[..i], [ls[i]], 0.0);
    var c := Cumulative(ls[..i + 1]);
    assert ls[..i + 1][..i] == ls[..i];
    assert c[..i] == Cumulative(ls[..i]);
  }

  /** Sums that come out as zero are not stored; with positive volumes every price has its entry. */
  method VolSumMap(book: PriceLevelMap) returns (sums: PriceLevelMap)
    requires book.Valid()
    ensures sums.Valid() && fresh(sums) && sums.side == book.side
    ensures sums.View() == PutAll(map[], Cumulative(book.tree))
    ensures (forall l | l in book.tree :: l.volume > 0.0) ==> sums.tree == Cumulative(book.tree)
  {
    sums := new PriceLevelMap(book.side);
    var sum := 0.0;
    assert book.tree[..0] == [];
    for i := 0 to |book.tree|
      invariant fresh(sums) && sums.Valid() && sums.side == book.side
      invariant sum == Total(book.tree[..i])
      invariant sums.View() == PutAll(map[], Cumulative(book.tree[..i]))
      invariant (forall l | l in book.tree :: l.volume > 0.0) ==> sums.tree == Cumulative(book.tree[..i])
    {
      CumulativeGrows(book.side, book.tree, i);
      if forall l | l in book.tree :: l.volume > 0.0 {
        CumulativeStep(book.side, book.tree, i);
      }
      sum := sum + book.tree[i].volume;
      sums.Set(Level(0, book.tree[i].price, sum));
    }
    assert book.tree[..|book.tree|] == book.tree;
  }

  lemma CumulativeStep(side: Side, ls: seq<Level>, i: nat)
    requires Sorted(side, ls) && i < |ls| && forall l | l in ls :: l.volume > 0.0
    ensures Total(ls[..i + 1]) == Total(ls[..i]) + ls[i].volume && Total(ls[..i + 1]) > 0.0
    ensures Sorted(side, Cumulative(ls[..i]))
    ensures Insert(side, Cumulative(ls[..i]), Level(0, ls[i].price, Total(ls[..i + 1]))) == Cumulative(ls[..i + 1])
  {
    assert ls[..i + 1] == ls[..i] + [ls[i]];
    SumSplits(side, ls[..i], [ls[i]], 0.0);
    TotalPositive(ls[..i + 1]);
    var c := Cumulative(ls[..i]);
    InsertWorst(side, c, Level(0, ls[i].price, Total(ls[..i + 1])));
    assert ls[..i + 1][..i] == ls[..i];
  }

  /** The entry of the cumulative map at a price is the volume query at that price. */
  lemma CumulativeIsSum(side: Side, ls: seq<Level>, i: nat)
    requires Sorted(side, ls) && i < |ls|
    ensures Cumulative(ls)[i].volume == SumAtOrBetter(side, ls, ls[i].price)
  {
    var p := ls[i].price;
    assert ls == ls[..i + 1] + ls[i + 1..];
    SumSplits(side, ls[..i + 1], ls[i + 1..], p);
    AllBetter(side, ls[..i + 1], p);
    NoneBetter(side, ls[i + 1..], p);
  }

  /** The query grows from best to worst. */
  lemma {:induction false} SumMonotone(side: Side, ls: seq<Level>, p: real, q: real)
    requires NonNegative(ls) && !Before(side, q, p)
    ensures SumAtOrBetter(side, ls, p) <= SumAtOrBetter(side, ls, q)
  {
    if ls != [] {
      SumMonotone(side, ls[1..], p, q);
    }
  }
}
