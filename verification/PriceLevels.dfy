/** One side of an order book: price levels kept in best-to-worst order. */
module PriceLevels {
  import opened Common

  datatype Side = Bid | Ask

  datatype Level = Level(seqId: int, price: real, volume: real)

  const ZERO_LEVEL := Level(0, 0.0, 0.0)

  /** Asks are best when low, bids when high. */
  predicate Before(side: Side, p: real, q: real) {
    match side
    case Bid => p > q
    case Ask => p < q
  }

  ghost predicate Sorted(side: Side, ls: seq<Level>) {
    forall i, j | 0 <= i < j < |ls| :: Before(side, ls[i].price, ls[j].price)
  }

  /** The levels by price. */
  ghost function Contents(side: Side, ls: seq<Level>): (m: map<real, Level>)
    requires Sorted(side, ls)
  {
    map i | 0 <= i < |ls| :: ls[i].price := ls[i]
  }

  // ---------------------------------------------------------------------------------------------
  // The ordered tree, as a sorted sequence
  // ---------------------------------------------------------------------------------------------

  /** How many levels are strictly better than `p`. */
  function Rank(side: Side, ls: seq<Level>, p: real): (k: nat)
    ensures k <= |ls|
    ensures forall i | 0 <= i < k :: Before(side, ls[i].price, p)
    ensures k < |ls| ==> !Before(side, ls[k].price, p)
  {
    if ls == [] || !Before(side, ls[0].price, p) then 0 else 1 + Rank(side, ls[1..], p)
  }

  function Lookup(side: Side, ls: seq<Level>, p: real): (r: Option<Level>)
    requires Sorted(side, ls)
    ensures r == if p in Contents(side, ls) then Some(Contents(side, ls)[p]) else None
  {
    var k := Rank(side, ls, p);
    assert p in Contents(side, ls) <==> exists i :: 0 <= i < |ls| && ls[i].price == p;
    if k < |ls| && ls[k].price == p then Some(ls[k]) else None
  }

  function Insert(side: Side, ls: seq<Level>, r: Level): (t: seq<Level>)
    requires Sorted(side, ls)
    ensures Sorted(side, t)
    ensures forall l :: l in t <==> l == r || (l in ls && l.price != r.price)
  {
    var k := Rank(side, ls, r.price);
    if k < |ls| && ls[k].price == r.price then
      var t := ls[k := r];
      assert forall i | 0 <= i < |t| :: t[i] == if i == k then r else ls[i];
      t
    else
      var t := ls[..k] + [r] + ls[k..];
      assert forall i | 0 <= i < |t| :: t[i] == if i < k then ls[i] else if i == k then r else ls[i - 1];
      t
  }

  function Remove(side: Side, ls: seq<Level>, p: real): (t: seq<Level>)
    requires Sorted(side, ls)
    ensures Sorted(side, t)
    ensures forall l :: l in t <==> l in ls && l.price != p
  {
    var k := Rank(side, ls, p);
    if k < |ls| && ls[k].price == p then
      var t := ls[..k] + ls[k + 1..];
      assert forall i | 0 <= i < |t| :: t[i] == if i < k then ls[i] else ls[i + 1];
      t
    else ls
  }

  lemma InContents(side: Side, ls: seq<Level>, p: real, l: Level)
    requires Sorted(side, ls)
    ensures p in Contents(side, ls) && Contents(side, ls)[p] == l <==> l in ls && l.price == p
  {
    var m := Contents(side, ls);
    if l in ls && l.price == p {
      var i :| 0 <= i < |ls| && ls[i] == l;
      assert ls[i].price in m;
    }
  }

  /** Two sequences with the same levels have the same contents. */
  lemma ContentsBy(side: Side, ls: seq<Level>, m: map<real, Level>)
    requires Sorted(side, ls)
    requires forall l :: l in ls <==> l.price in m && m[l.price] == l
    requires forall p | p in m :: m[p].price == p
    ensures Contents(side, ls) == m
  {
    var c := Contents(side, ls);
    forall p | p in c ensures p in m && m[p] == c[p] {
      InContents(side, ls, p, c[p]);
    }
    forall p | p in m ensures p in c {
      InContents(side, ls, p, m[p]);
    }
  }

  lemma InsertContents(side: Side, ls: seq<Level>, r: Level)
    requires Sorted(side, ls)
    ensures Contents(side, Insert(side, ls, r)) == Contents(side, ls)[r.price := r]
  {
    var m := Contents(side, ls)[r.price := r];
    forall l ensures l in Insert(side, ls, r) <==> l.price in m && m[l.price] == l {
      InContents(side, ls, l.price, l);
    }
    ContentsBy(side, Insert(side, ls, r), m);
  }

  lemma RemoveContents(side: Side, ls: seq<Level>, p: real)
    requires Sorted(side, ls)
    ensures Contents(side, Remove(side, ls, p)) == Contents(side, ls) - {p}
  {
    var m := Contents(side, ls) - {p};
    forall l ensures l in Remove(side, ls, p) <==> l.price in m && m[l.price] == l {
      InContents(side, ls, l.price, l);
    }
    ContentsBy(side, Remove(side, ls, p), m);
  }

  lemma {:induction false} SameLevels(side: Side, a: seq<Level>, b: seq<Level>)
    requires Sorted(side, a) && Sorted(side, b)
    requires forall l :: l in a <==> l in b
    ensures a == b
  {
    assert |b| > 0 ==> b[0] in a;
    if a != [] {
      assert a[0] in a && a[0] in b;
      assert b[0] in b && b[0] in a;
      var i :| 0 <= i < |b| && b[i] == a[0];
      var j :| 0 <= j < |a| && a[j] == b[0];
      assert a[0] == b[0];
      forall l ensures l in a[1..] <==> l in b[1..] {
        assert l in a <==> l == a[0] || l in a[1..];
        assert l in b <==> l == b[0] || l in b[1..];
        assert a[0] !in a[1..] && b[0] !in b[1..];
      }
      SameLevels(side, a[1..], b[1..]);
      assert a == [a[0]] + a[1..] && b == [b[0]] + b[1..];
    }
  }

  /** The contents determine the tree: there is one sorted listing of a side. */
  lemma OneListing(side: Side, a: seq<Level>, b: seq<Level>)
    requires Sorted(side, a) && Sorted(side, b) && Contents(side, a) == Contents(side, b)
    ensures a == b
  {
    forall l ensures l in a <==> l in b {
      InContents(side, a, l.price, l);
      InContents(side, b, l.price, l);
    }
    SameLevels(side, a, b);
  }

  // ---------------------------------------------------------------------------------------------
  // What a walk from the best level computes
  // ---------------------------------------------------------------------------------------------

  function Total(ls: seq<Level>): real {
    if ls == [] then 0.0 else ls[0].volume + Total(ls[1..])
  }

  /** What `x` units cost at a level. */
  function Pay(l: Level, x: real): real {
    l.price * x
  }

  /** The amount a market order of quantity `q` pays (or earns) walking the side level by level. */
  function WalkCost(ls: seq<Level>, q: real): real {
    if ls == [] then 0.0
    else if q - ls[0].volume <= 0.0 then Pay(ls[0], q)
    else Pay(ls[0], ls[0].volume) + WalkCost(ls[1..], q - ls[0].volume)
  }

  /** The volume resting at `p` or better. */
  function SumAtOrBetter(side: Side, ls: seq<Level>, p: real): real {
    if ls == [] then 0.0
    else (if Before(side, p, ls[0].price) then 0.0 else ls[0].volume) + SumAtOrBetter(side, ls[1..], p)
  }

  lemma {:induction false} NoneBetter(side: Side, ls: seq<Level>, p: real)
    requires forall i | 0 <= i < |ls| :: Before(side, p, ls[i].price)
    ensures SumAtOrBetter(side, ls, p) == 0.0
  {
    if ls != [] {
      NoneBetter(side, ls[1..], p);
    }
  }

  lemma {:induction false} SumSplits(side: Side, a: seq<Level>, b: seq<Level>, p: real)
    ensures SumAtOrBetter(side, a + b, p) == SumAtOrBetter(side, a, p) + SumAtOrBetter(side, b, p)
    ensures Total(a + b) == Total(a) + Total(b)
  {
    if a == [] {
      assert a + b == b;
    } else {
      assert (a + b)[0] == a[0] && (a + b)[1..] == a[1..] + b;
      SumSplits(side, a[1..], b, p);
    }
  }

  lemma {:induction false} AllBetter(side: Side, ls: seq<Level>, p: real)
    requires forall i | 0 <= i < |ls| :: !Before(side, p, ls[i].price)
    ensures SumAtOrBetter(side, ls, p) == Total(ls)
  {
    if ls != [] {
      AllBetter(side, ls[1..], p);
    }
  }

  // ---------------------------------------------------------------------------------------------
  // The map of price levels
  // ---------------------------------------------------------------------------------------------

  class PriceLevelMap {
    const side: Side
    var tree: seq<Level>

    /** Strict price order, and no level without volume. */
    ghost predicate Valid()
      reads this
    {
      Sorted(side, tree) && forall l | l in tree :: l.volume != 0.0
    }

    ghost function View(): map<real, Level>
      requires Valid()
      reads this
    {
      Contents(side, tree)
    }

    constructor (side: Side)
      ensures Valid() && this.side == side && tree == []
    {
      this.side := side;
      tree := [];
    }

    method Set(r: Level)
      requires Valid()
      modifies this
      ensures Valid()
      ensures View() == if r.volume == 0.0 then old(View()) - {r.price} else old(View())[r.price := r]
      ensures r.volume != 0.0 ==> tree == Insert(side, old(tree), r)
    {
      if r.volume == 0.0 {
        RemoveContents(side, tree, r.price);
        tree := Remove(side, tree, r.price);
        return;
      }
      InsertContents(side, tree, r);
      tree := Insert(side, tree, r);
    }

    method Get(p: real) returns (r: Option<Level>)
      requires Valid()
      ensures r == if p in View() then Some(View()[p]) else None
    {
      r := Lookup(side, tree, p);
    }

    method Drop(p: real)
      requires Valid()
      modifies this
      ensures Valid() && View() == old(View()) - {p}
    {
      RemoveContents(side, tree, p);
      tree := Remove(side, tree, p);
    }

    method Replace(r: PriceLevelMap)
      requires Valid() && r.Valid() && r.side == side
      modifies this
      ensures Valid() && View() == old(r.View())
    {
      tree := r.tree;
    }

    method BestLevel() returns (best: Level)
      requires Valid()
      ensures IsBest(side, View(), best)
    {
      if tree == [] {
        return ZERO_LEVEL;
      }
      InContents(side, tree, tree[0].price, tree[0]);
      return tree[0];
    }

    method SumVolume(p: real) returns (sum: real)
      requires Valid()
      ensures sum == SumAtOrBetter(side, tree, p)
    {
      sum := 0.0;
      var i := 0;
      while i < |tree|
        invariant 0 <= i <= |tree|
        invariant sum + SumAtOrBetter(side, tree[i..], p) == SumAtOrBetter(side, tree, p)
      {
        if Before(side, p, tree[i].price) {
          NoneBetter(side, tree[i..], p);
          return;
        }
        assert tree[i..][1..] == tree[i + 1..];
        sum := sum + tree[i].volume;
        i := i + 1;
      }
    }

    /** The weighted sum of the walk for a market order of quantity `qty`. */
    method WeightedSum(qty: real) returns (weighted: real)
      requires Valid()
      ensures weighted == WalkCost(tree, qty)
    {
      var remaining := qty;
      weighted := 0.0;
      for i := 0 to |tree|
        invariant weighted + WalkCost(tree[i..], remaining) == WalkCost(tree, qty)
      {
        assert tree[i..][0] == tree[i] && tree[i..][1..] == tree[i + 1..];
        var next := remaining - tree[i].volume;
        if next <= 0.0 {
          return weighted + tree[i].price * remaining;
        }
        weighted := weighted + tree[i].price * tree[i].volume;
        remaining := next;
      }
    }

    method AvgExecPrice(qty: real) returns (avg: real)
      requires Valid() && qty != 0.0
      ensures avg == WalkCost(tree, qty) / qty
    {
      var weighted := WeightedSum(qty);
      avg := weighted / qty;
    }

    /** The best levels, at most `depth` of them, but never fewer than one when there is one. */
    method Top(depth: int) returns (levels: seq<Level>)
      requires Valid()
      ensures var wanted := if depth <= 1 then 1 else depth;
        levels == tree[..if wanted < |tree| then wanted else |tree|]
    {
      levels := [];
      while |levels| < |tree|
        invariant levels <= tree
        invariant levels == [] || |levels| < depth
        decreases |tree| - |levels|
      {
        levels := levels + [tree[|levels|]];
        if |levels| >= depth {
          return;
        }
      }
    }
  }

  /** The level a client is shown as best; the zero level when the side is empty. */
  ghost predicate IsBest(side: Side, m: map<real, Level>, l: Level) {
    if m == map[] then l == ZERO_LEVEL
    else l.price in m && m[l.price] == l && forall p | p in m && p != l.price :: Before(side, l.price, p)
  }
}
