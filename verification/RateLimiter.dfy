/**
 The rate limiter: units are taken now and given back one second later.
 It follows that no one-second window ever grants more than the capacity.
 */
module RateLimits {
  /** Time is counted in nanoseconds. */
  const SECOND: int := 1_000_000_000

  datatype Grant = Grant(at: int, n: int)

  /** One quota group: `sleeping` are the grants whose refund has not happened yet. */
  datatype Bucket = Bucket(
    capacity: int,
    quota: int,
    sleeping: seq<Grant>,
    refunded: seq<Grant>,
    granted: seq<Grant>,
    now: int)

  datatype Event = Consume(at: int, n: int) | Refund(at: int, k: nat)

  function Full(capacity: int, now: int): Bucket {
    Bucket(capacity, capacity, [], [], [], now)
  }

  function Without<T>(s: seq<T>, k: nat): seq<T>
    requires k < |s|
  {
    s[..k] + s[k + 1..]
  }

  /** The clock does not run backwards, and a refund sleeps for at least `sleep`. */
  predicate Possible(b: Bucket, e: Event, sleep: int) {
    && b.now <= e.at
    && match e
       case Consume(_, _) => true
       case Refund(at, k) => k < |b.sleeping| && b.sleeping[k].at + sleep <= at
  }

  predicate Granted(b: Bucket, n: int) { b.quota - n >= 0 }

  function Step(b: Bucket, e: Event): Bucket
    requires e.Refund? ==> e.k < |b.sleeping|
  {
    match e
    case Consume(at, n) =>
      if !Granted(b, n) then b.(now := at)
      else
        var g := Grant(at, n);
        b.(quota := b.quota - n, sleeping := b.sleeping + [g], granted := b.granted + [g], now := at)
    case Refund(at, k) =>
      var g := b.sleeping[k];
      var q := b.quota + g.n;
      b.(quota := if q > b.capacity then b.capacity else q,
         sleeping := Without(b.sleeping, k), refunded := b.refunded + [g], now := at)
  }

  ghost predicate Legal(b: Bucket, es: seq<Event>, sleep: int)
    decreases |es|
  {
    es == [] || (Possible(b, es[0], sleep) && Legal(Step(b, es[0]), es[1..], sleep))
  }

  ghost function Run(b: Bucket, es: seq<Event>, sleep: int): Bucket
    requires Legal(b, es, sleep)
    decreases |es|
  {
    if es == [] then b else Run(Step(b, es[0]), es[1..], sleep)
  }

  lemma StepOf(b: Bucket, e: Event, es: seq<Event>, sleep: int)
    requires Possible(b, e, sleep) && Legal(Step(b, e), es, sleep)
    ensures Legal(b, [e] + es, sleep) && Run(b, [e] + es, sleep) == Run(Step(b, e), es, sleep)
  {
    assert ([e] + es)[0] == e && ([e] + es)[1..] == es;
  }

  /** Nobody asks for a negative number of units. */
  ghost predicate Sensible(es: seq<Event>) {
    forall i | 0 <= i < |es| && es[i].Consume? :: es[i].n >= 0
  }

  // ---------------------------------------------------------------------------------------------
  // Sums over grants
  // ---------------------------------------------------------------------------------------------

  function Units(gs: seq<Grant>): int {
    if gs == [] then 0 else gs[0].n + Units(gs[1..])
  }

  /** Units granted from `w` on and less than one second later. */
  function InWindow(gs: seq<Grant>, w: int): int {
    if gs == [] then 0
    else (if w <= gs[0].at < w + SECOND then gs[0].n else 0) + InWindow(gs[1..], w)
  }

  ghost predicate NoneNegative(gs: seq<Grant>) {
    forall i | 0 <= i < |gs| :: gs[i].n >= 0
  }

  lemma {:induction false} SumsSplit(a: seq<Grant>, b: seq<Grant>, w: int)
    ensures Units(a + b) == Units(a) + Units(b)
    ensures InWindow(a + b, w) == InWindow(a, w) + InWindow(b, w)
  {
    if a == [] {
      assert a + b == b;
    } else {
      assert (a + b)[0] == a[0] && (a + b)[1..] == a[1..] + b;
      SumsSplit(a[1..], b, w);
    }
  }

  lemma {:induction false} WindowWithinUnits(gs: seq<Grant>, w: int)
    requires NoneNegative(gs)
    ensures 0 <= InWindow(gs, w) <= Units(gs)
  {
    if gs != [] {
      WindowWithinUnits(gs[1..], w);
    }
  }

  lemma {:induction false} OldGrantsOutside(gs: seq<Grant>, w: int)
    requires forall i | 0 <= i < |gs| :: gs[i].at < w
    ensures InWindow(gs, w) == 0
  {
    if gs != [] {
      OldGrantsOutside(gs[1..], w);
    }
  }

  lemma WithoutSums(gs: seq<Grant>, k: nat, w: int)
    requires k < |gs|
    ensures Units(gs) == Units(Without(gs, k)) + gs[k].n
    ensures InWindow(gs, w) == InWindow(Without(gs, k), w) + InWindow([gs[k]], w)
  {
    assert gs == gs[..k] + ([gs[k]] + gs[k + 1..]);
    SumsSplit(gs[..k], [gs[k]] + gs[k + 1..], w);
    SumsSplit([gs[k]], gs[k + 1..], w);
    SumsSplit(gs[..k], gs[k + 1..], w);
  }

  // ---------------------------------------------------------------------------------------------
  // The invariant and the window bound
  // ---------------------------------------------------------------------------------------------

  /** Nothing leaks: what is free and what is to be refunded is the capacity. */
  ghost predicate Balanced(b: Bucket) {
    b.quota + Units(b.sleeping) == b.capacity && b.quota >= 0 && NoneNegative(b.sleeping)
  }

  ghost predicate Inv(b: Bucket) {
    && Balanced(b)
    && (forall i | 0 <= i < |b.refunded| :: b.refunded[i].at + SECOND <= b.now)
    && (forall w :: InWindow(b.granted, w) == InWindow(b.sleeping, w) + InWindow(b.refunded, w))
    && (forall w :: InWindow(b.granted, w) <= b.capacity)
  }

  /** A request keeps the balance if and only if it is not for a negative number of units. */
  lemma ConsumeBalancedIff(b: Bucket, at: int, n: int)
    requires Balanced(b)
    ensures Balanced(Step(b, Consume(at, n))) <==> n >= 0
  {
    if Granted(b, n) {
      var g := Grant(at, n);
      SumsSplit(b.sleeping, [g], 0);
      assert (b.sleeping + [g])[|b.sleeping|] == g;
    }
  }

  /** A refund keeps the balance, and the clamp in it never takes effect. */
  lemma RefundBalanced(b: Bucket, at: int, k: nat)
    requires Balanced(b) && k < |b.sleeping|
    ensures Balanced(Step(b, Refund(at, k)))
    ensures b.quota + b.sleeping[k].n <= b.capacity
  {
    WithoutSums(b.sleeping, k, 0);
    WindowWithinUnits(Without(b.sleeping, k), 0);
  }

  lemma ConsumeKeeps(b: Bucket, at: int, n: int)
    requires Inv(b) && b.now <= at && n >= 0
    ensures Inv(Step(b, Consume(at, n)))
  {
    var t := Step(b, Consume(at, n));
    ConsumeBalancedIff(b, at, n);
    if Granted(b, n) {
      var g := Grant(at, n);
      SumsSplit(b.sleeping, [g], 0);
      forall w
        ensures InWindow(t.granted, w) == InWindow(t.sleeping, w) + InWindow(t.refunded, w)
        ensures InWindow(t.granted, w) <= t.capacity
      {
        SumsSplit(b.sleeping, [g], w);
        SumsSplit(b.granted, [g], w);
        assert InWindow(b.granted, w) == InWindow(b.sleeping, w) + InWindow(b.refunded, w);
        if w <= at < w + SECOND {
          OldGrantsOutside(b.refunded, w);
          WindowWithinUnits(b.sleeping, w);
        }
      }
    }
  }

  lemma RefundKeeps(b: Bucket, at: int, k: nat)
    requires Inv(b) && Possible(b, Refund(at, k), SECOND)
    ensures Inv(Step(b, Refund(at, k)))
  {
    var t, g := Step(b, Refund(at, k)), b.sleeping[k];
    RefundBalanced(b, at, k);
    forall w ensures InWindow(t.granted, w) == InWindow(t.sleeping, w) + InWindow(t.refunded, w) {
      WithoutSums(b.sleeping, k, w);
      SumsSplit(b.refunded, [g], w);
    }
  }

  lemma {:induction false} RunKeeps(b: Bucket, es: seq<Event>, sleep: int)
    requires Inv(b) && sleep >= SECOND && Legal(b, es, sleep) && Sensible(es)
    ensures Inv(Run(b, es, sleep)) && Run(b, es, sleep).capacity == b.capacity
    decreases |es|
  {
    if es != [] {
      match es[0] {
        case Consume(at, n) => ConsumeKeeps(b, at, n);
        case Refund(at, k) => RefundKeeps(b, at, k);
      }
      RunKeeps(Step(b, es[0]), es[1..], sleep);
    }
  }

  /** In every run, every one-second window grants at most the capacity. */
  lemma WindowBound(capacity: int, start: int, es: seq<Event>, w: int, sleep: int)
    requires capacity >= 0 && sleep >= SECOND && Legal(Full(capacity, start), es, sleep) && Sensible(es)
    ensures InWindow(Run(Full(capacity, start), es, sleep).granted, w) <= capacity
  {
    RunKeeps(Full(capacity, start), es, sleep);
  }

  /** In every run nothing leaks. */
  lemma QuotaConserved(capacity: int, start: int, es: seq<Event>)
    requires capacity >= 0 && Legal(Full(capacity, start), es, SECOND) && Sensible(es)
    ensures Balanced(Run(Full(capacity, start), es, SECOND))
  {
    RunKeeps(Full(capacity, start), es, SECOND);
  }

  // ---------------------------------------------------------------------------------------------
  // Why the second, and why not negative
  // ---------------------------------------------------------------------------------------------

  /** With a shorter sleep there is a run that grants two units of a capacity of one within a second. */
  lemma EarlyRefundBreaksBound(sleep: int)
    requires sleep < SECOND
    ensures var t := if sleep < 0 then 0 else sleep;
      var es := [Consume(0, 1), Refund(t, 0), Consume(t, 1)];
      && Sensible(es) && Legal(Full(1, 0), es, sleep)
      && InWindow(Run(Full(1, 0), es, sleep).granted, 0) == 2
  {
    var t := if sleep < 0 then 0 else sleep;
    var es := [Consume(0, 1), Refund(t, 0), Consume(t, 1)];
    var b1 := Step(Full(1, 0), es[0]);
    assert b1.sleeping == [Grant(0, 1)] && b1.granted == [Grant(0, 1)];
    var b2 := Step(b1, es[1]);
    assert b2.quota == 1 && b2.sleeping == [] && b2.granted == [Grant(0, 1)];
    var b3 := Step(b2, es[2]);
    assert b3.granted == [Grant(0, 1)] + [Grant(t, 1)];
    SumsSplit([Grant(0, 1)], [Grant(t, 1)], 0);
    assert InWindow([Grant(0, 1)], 0) == 1 && InWindow([Grant(t, 1)], 0) == 1;
    StepOf(b2, es[2], [], sleep);
    StepOf(b1, es[1], [es[2]], sleep);
    StepOf(Full(1, 0), es[0], [es[1], es[2]], sleep);
    assert [es[2]] + [] == [es[2]] && [es[1]] + [es[2]] == [es[1], es[2]] && [es[0]] + [es[1], es[2]] == es;
  }

  /** The window bound holds for every capacity and every run if and only if refunds sleep a full second. */
  lemma WindowBoundIff(sleep: int)
    ensures (forall capacity, start, es, w |
               capacity >= 0 && Legal(Full(capacity, start), es, sleep) && Sensible(es) ::
               InWindow(Run(Full(capacity, start), es, sleep).granted, w) <= capacity)
       <==> sleep >= SECOND
  {
    if sleep >= SECOND {
      forall capacity, start, es, w | capacity >= 0 && Legal(Full(capacity, start), es, sleep) && Sensible(es)
        ensures InWindow(Run(Full(capacity, start), es, sleep).granted, w) <= capacity
      {
        WindowBound(capacity, start, es, w, sleep);
      }
    } else {
      EarlyRefundBreaksBound(sleep);
    }
  }

  /** A negative request lets the clamp take effect, and units are lost for good. */
  lemma NegativeRequestLeaks()
    ensures var es := [Consume(0, -5), Consume(0, 25), Refund(SECOND, 1), Refund(SECOND, 0)];
      && Legal(Full(20, 0), es, SECOND)
      && Run(Full(20, 0), es, SECOND).quota == 15 && Run(Full(20, 0), es, SECOND).sleeping == []
  {
    var es := [Consume(0, -5), Consume(0, 25), Refund(SECOND, 1), Refund(SECOND, 0)];
    var b1 := Step(Full(20, 0), es[0]);
    var b2 := Step(b1, es[1]);
    assert b2.sleeping == [Grant(0, -5), Grant(0, 25)] && b2.quota == 0;
    var b3 := Step(b2, es[2]);
    assert b3.sleeping == [Grant(0, -5)] && b3.quota == 20;
    var b4 := Step(b3, es[3]);
    assert b4.sleeping == [] && b4.quota == 15;
    StepOf(b3, es[3], [], SECOND);
    StepOf(b2, es[2], [es[3]], SECOND);
    StepOf(b1, es[1], [es[2], es[3]], SECOND);
    StepOf(Full(20, 0), es[0], [es[1], es[2], es[3]], SECOND);
    assert [es[3]] + [] == [es[3]] && [es[2]] + [es[3]] == [es[2], es[3]];
    assert [es[1]] + [es[2], es[3]] == [es[1], es[2], es[3]] && [es[0]] + [es[1], es[2], es[3]] == es;
  }

  // ---------------------------------------------------------------------------------------------
  // The limiter
  // ---------------------------------------------------------------------------------------------

  /** As long as nobody asked for a negative number, the window bound and the balance hold. */
  ghost predicate Sound(b: Bucket) {
    NoneNegative(b.granted) ==> Inv(b)
  }

  lemma ConsumeSound(b: Bucket, at: int, n: int)
    requires Sound(b) && b.now <= at
    ensures Sound(Step(b, Consume(at, n)))
  {
    var t := Step(b, Consume(at, n));
    if NoneNegative(b.granted) && n >= 0 {
      ConsumeKeeps(b, at, n);
    } else if Granted(b, n) {
      assert forall i | 0 <= i < |b.granted| :: t.granted[i] == b.granted[i];
      assert t.granted[|b.granted|] == Grant(at, n);
    }
  }

  lemma RefundSound(b: Bucket, at: int, k: nat)
    requires Sound(b) && Possible(b, Refund(at, k), SECOND)
    ensures Sound(Step(b, Refund(at, k)))
    ensures NoneNegative(b.granted) ==> b.quota + b.sleeping[k].n <= b.capacity
  {
    if NoneNegative(b.granted) {
      RefundKeeps(b, at, k);
      RefundBalanced(b, at, k);
    }
  }

  /** A table of groups, each with the capacity its exchange documents. */
  class RateLimiter {
    const capacity: map<nat, nat>
    var quotas: map<nat, int>
    /** One entry per sleeping goroutine. */
    var sleeping: map<nat, seq<Grant>>
    /** Each group as a bucket with its whole history. */
    ghost var buckets: map<nat, Bucket>

    ghost predicate Valid()
      reads this
    {
      && capacity.Keys <= buckets.Keys && quotas.Keys == buckets.Keys && sleeping.Keys == buckets.Keys
      && forall g | g in buckets ::
           && Sound(buckets[g]) && buckets[g].capacity == Limit(g)
           && buckets[g].quota == quotas[g] && buckets[g].sleeping == sleeping[g]
    }

    /** Go reads zero for a group that is not in the table. */
    function Limit(g: nat): int {
      if g in capacity then capacity[g] else 0
    }

    /** The bucket of a group; one not seen before is full. */
    ghost function Group(g: nat, now: int): Bucket
      reads this
    {
      if g in buckets then buckets[g] else Full(Limit(g), now)
    }

    constructor (capacity: map<nat, nat>, ghost start: int)
      ensures Valid() && this.capacity == capacity
      ensures buckets == map g | g in capacity :: Full(capacity[g], start)
    {
      this.capacity := capacity;
      quotas := map g | g in capacity :: capacity[g];
      sleeping := map g | g in capacity :: [];
      buckets := map g | g in capacity :: Full(capacity[g], start);
    }

    method Consume(g: nat, n: int, now: int) returns (ok: bool)
      requires Valid() && Group(g, now).now <= now
      modifies this
      ensures Valid() && ok == Granted(old(Group(g, now)), n)
      ensures ok <==> n <= if g in old(quotas) then old(quotas)[g] else 0
      ensures g in quotas && quotas[g] == (if g in old(quotas) then old(quotas)[g] else 0) - (if ok then n else 0)
      ensures buckets == old(buckets)[g := Step(old(Group(g, now)), Event.Consume(now, n))]
    {
      ghost var was := Group(g, now);
      ConsumeSound(was, now, n);
      ghost var b := Step(was, Event.Consume(now, n));
      var quota, waiting := 0, [];
      if g in quotas {
        quota, waiting := quotas[g], sleeping[g];
      }
      if quota - n < 0 {
        Install(g, quota, waiting, b);
        return false;
      }
      Install(g, quota - n, waiting + [Grant(now, n)], b);
      return true;
    }

    /** The goroutine of grant `k` wakes up; unless somebody asked for a negative number, the clamp is idle. */
    method WakeUp(g: nat, k: nat, now: int)
      requires Valid() && g in buckets && Possible(buckets[g], Refund(now, k), SECOND)
      modifies this
      ensures Valid()
      ensures buckets == old(buckets)[g := Step(old(buckets[g]), Refund(now, k))]
      ensures NoneNegative(old(buckets[g]).granted) ==>
        quotas == old(quotas)[g := old(quotas[g]) + old(sleeping[g][k]).n]
    {
      ghost var was := buckets[g];
      RefundSound(was, now, k);
      var q, limit := quotas[g] + sleeping[g][k].n, Limit(g);
      if q > limit {
        q := limit;
      }
      ghost var b := Step(was, Refund(now, k));
      assert b.quota == q && b.sleeping == Without(sleeping[g], k) && b.capacity == limit;
      Install(g, q, Without(sleeping[g], k), b);
    }

    /** Group `g` takes new values; no other group is touched. */
    method Install(g: nat, q: int, s: seq<Grant>, ghost b: Bucket)
      requires Valid() && Sound(b) && b.capacity == Limit(g)
      requires b.quota == q && b.sleeping == s
      modifies this
      ensures Valid() && buckets == old(buckets)[g := b]
      ensures quotas == old(quotas)[g := q] && sleeping == old(sleeping)[g := s]
    {
      quotas := quotas[g := q];
      sleeping := sleeping[g := s];
      buckets := buckets[g := b];
    }

    /** What the exchange sees: no window of a second holds more than the capacity of the group. */
    lemma GroupWithinLimit(g: nat, w: int)
      requires Valid() && g in buckets && NoneNegative(buckets[g].granted)
      ensures InWindow(buckets[g].granted, w) <= Limit(g)
      ensures quotas[g] + Units(sleeping[g]) == Limit(g)
    {
      assert Inv(buckets[g]);
    }
  }
}
