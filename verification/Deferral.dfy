/**
 What becomes of amends and cancels asked for while an operation is under way.

 The rule is "only the last amend, and a cancel beats every amend". Any sequence of calls leaves the
 callback list the rule needs, behind a create and behind an amend alike. Whether the rule is then kept
 depends on three things: the list is never emptied after it fired, so amends and cancels of earlier
 operations run again; the callbacks run in goroutines, in any order; and a refused amend runs none of
 them. The exact condition is given for every list, every order and both outcomes.
 */
module Deferral {
  import opened Common
  import opened Protocol
  import opened Runs

  // ---------------------------------------------------------------------------------------------
  // Queueing
  // ---------------------------------------------------------------------------------------------

  /** A client call on one order; `ok` is what the agent would answer if it were asked. */
  datatype Call = ToAmend(detail: Detail, ok: bool) | ToCancel(ok: bool)

  function One(s: State, id: string, c: Call): (t: State)
    requires id in s.orders
    ensures id in t.orders
  {
    match c
    case ToAmend(d, ok) => AmendOrder(s, id, d, ok)
    case ToCancel(ok) => CancelOrder(s, id, ok)
  }

  function AfterCalls(s: State, id: string, cs: seq<Call>): (t: State)
    requires id in s.orders
    ensures id in t.orders
  {
    if cs == [] then s else One(AfterCalls(s, id, cs[..|cs| - 1]), id, cs[|cs| - 1])
  }

  ghost predicate HasCancel(cs: seq<Call>) {
    exists i :: 0 <= i < |cs| && cs[i].ToCancel?
  }

  /** The details of the amends after the last cancel, in call order. */
  function LateAmends(cs: seq<Call>): seq<Detail> {
    if cs == [] then []
    else
      match cs[|cs| - 1]
      case ToCancel(_) => []
      case ToAmend(d, _) => LateAmends(cs[..|cs| - 1]) + [d]
  }

  /** A create or an amend of the order is unanswered, so calls on it wait. */
  ghost predicate Busy(s: State, id: string) {
    && s.accepting && id in s.orders
    && s.orders[id].status.IsBusy() && s.orders[id].orderType.IsAmendable()
  }

  /** The callbacks that wait for the operation under way. */
  function ListOf(o: Order): seq<Callback> {
    if o.status.Sending? then o.onCreate else o.onAmend
  }

  function WithList(o: Order, list: seq<Callback>): Order {
    if o.status.Sending? then o.(onCreate := list) else o.(onAmend := list)
  }

  /** The state with another callback list for one order and other queued details. */
  function WithQueue(s: State, id: string, list: seq<Callback>, q: map<string, Detail>): State
    requires id in s.orders
  {
    s.(orders := s.orders[id := WithList(s.orders[id], list)], queued := q)
  }

  /** What the calls make of a callback list; `waiting` tells whether an amend was queued before. */
  ghost function LeftList(list: seq<Callback>, waiting: bool, cs: seq<Call>): seq<Callback> {
    (if HasCancel(cs) then [CancelCb] else list)
    + (if LateAmends(cs) == [] || (waiting && !HasCancel(cs)) then [] else [AmendCb(LateAmends(cs)[0])])
  }

  /** The queued detail is that of the last amend; a cancel removes it. */
  ghost function LeftQueue(q: map<string, Detail>, id: string, cs: seq<Call>): map<string, Detail> {
    var late := LateAmends(cs);
    if late != [] then q[id := late[|late| - 1]] else if HasCancel(cs) then q - {id} else q
  }

  lemma OneMoreCall(s: State, id: string, list: seq<Callback>, q: map<string, Detail>, c: Call)
    requires Busy(s, id)
    ensures One(WithQueue(s, id, list, q), id, c)
         == match c
            case ToCancel(_) => WithQueue(s, id, [CancelCb], q - {id})
            case ToAmend(d, _) => WithQueue(s, id, if id in q then list else list + [AmendCb(d)], q[id := d])
  {
    var o, t := s.orders[id], WithQueue(s, id, list, q);
    assert t.orders[id] == WithList(o, list);
    var a := WithList(o, [CancelCb]);
    var b := WithList(o, if id in q || c.ToCancel? then list else list + [AmendCb(c.detail)]);
    assert t.orders[id := a] == s.orders[id := a];
    assert t.orders[id := b] == s.orders[id := b];
  }

  lemma HasCancelSplits(cs: seq<Call>, n: nat)
    requires n == |cs| - 1
    ensures HasCancel(cs) <==> HasCancel(cs[..n]) || cs[n].ToCancel?
  {
    if HasCancel(cs[..n]) {
      var i :| 0 <= i < n && cs[..n][i].ToCancel?;
      assert cs[i].ToCancel?;
    }
    if HasCancel(cs) && !cs[n].ToCancel? {
      var i :| 0 <= i < |cs| && cs[i].ToCancel?;
      assert cs[..n][i].ToCancel?;
    }
  }

  /** How the list and the queued detail change with one more call. */
  lemma LeftGrows(list: seq<Callback>, q0: map<string, Detail>, id: string, cs: seq<Call>)
    requires cs != []
    ensures var n := |cs| - 1;
      var left, q := LeftList(list, id in q0, cs[..n]), LeftQueue(q0, id, cs[..n]);
      match cs[n]
      case ToCancel(_) => LeftList(list, id in q0, cs) == [CancelCb] && LeftQueue(q0, id, cs) == q - {id}
      case ToAmend(d, _) =>
        && LeftList(list, id in q0, cs) == (if id in q then left else left + [AmendCb(d)])
        && LeftQueue(q0, id, cs) == q[id := d]
  {
    HasCancelSplits(cs, |cs| - 1);
  }

  /**
   Any sequence of calls behind a create or an amend leaves one cancel in place of the list, if there was
   a cancel, then at most one amend, and the detail of the last amend; nothing else changes.
   */
  lemma {:induction false} CallsCoalesce(s: State, id: string, cs: seq<Call>)
    requires Busy(s, id)
    ensures AfterCalls(s, id, cs)
         == WithQueue(s, id, LeftList(ListOf(s.orders[id]), id in s.queued, cs), LeftQueue(s.queued, id, cs))
  {
    var o := s.orders[id];
    if cs == [] {
      assert LeftList(ListOf(o), id in s.queued, cs) == ListOf(o);
      assert WithList(o, ListOf(o)) == o;
      assert s.orders[id := o] == s.orders;
    } else {
      var n := |cs| - 1;
      CallsCoalesce(s, id, cs[..n]);
      OneMoreCall(s, id, LeftList(ListOf(o), id in s.queued, cs[..n]), LeftQueue(s.queued, id, cs[..n]), cs[n]);
      LeftGrows(ListOf(o), s.queued, id, cs);
    }
  }

  // ---------------------------------------------------------------------------------------------
  // What one callback, and a list of them, does to its order
  // ---------------------------------------------------------------------------------------------

  function NowOf(o: Order): Detail { Detail(o.price, o.qty) }

  /** The agent accepts what the callback asks; `q` is the queued detail, which an amend prefers to its own. */
  function Fire(o: Order, cb: Callback, q: Option<Detail>): Order {
    match cb
    case UserCb => o
    case CancelCb => if o.status.Pending? then Requested(o.(status := Canceling), Cancel) else o
    case AmendCb(captured) =>
      var d := if q.Some? then q.value else captured;
      if !NeedToAmend(o, d) then o
      else if o.status.Pending? then Requested(o.(status := Amending, amending := Some(d)), Amend)
      else o.(status := Pending, amending := None)
  }

  /** The first amend of the list takes the queued detail away. */
  function FireAll(o: Order, list: seq<Callback>, q: Option<Detail>): Order
    decreases |list|
  {
    if list == [] then o
    else FireAll(Fire(o, list[0], q), list[1..], if list[0].AmendCb? then None else q)
  }

  /** The list issues nothing for an order that is Pending at `now`. */
  predicate Quiet(list: seq<Callback>, q: Option<Detail>, now: Detail)
    decreases |list|
  {
    list == []
    || match list[0]
       case UserCb => Quiet(list[1..], q, now)
       case CancelCb => false
       case AmendCb(captured) =>
         (if q.Some? then q.value else captured) == now && Quiet(list[1..], None, now)
  }

  /** The list does not disturb an amend from `now` to `d` that is under way. */
  predicate Undisturbed(list: seq<Callback>, now: Detail, d: Detail) {
    forall i | 0 <= i < |list| :: list[i].AmendCb? ==> list[i].detail == now || list[i].detail == d
  }

  /** The list issues the amend from `now` to `d` and nothing else. */
  predicate Issues(list: seq<Callback>, q: Option<Detail>, now: Detail, d: Detail)
    decreases |list|
  {
    list != []
    && match list[0]
       case UserCb => Issues(list[1..], q, now, d)
       case CancelCb => false
       case AmendCb(captured) =>
         var x := if q.Some? then q.value else captured;
         if x == now then Issues(list[1..], None, now, d) else x == d && Undisturbed(list[1..], now, d)
  }

  function Load(o: Order): nat { o.inFlight.amends + o.inFlight.cancels }

  lemma {:induction false} CancelingStays(o: Order, list: seq<Callback>, q: Option<Detail>)
    requires o.status.Canceling?
    ensures FireAll(o, list, q) == o
    decreases |list|
  {
    if list != [] {
      CancelingStays(o, list[1..], if list[0].AmendCb? then None else q);
    }
  }

  /** Requests only accumulate, and an order that was Pending is untouched or has a new one. */
  lemma {:induction false} FireAllGrows(o: Order, list: seq<Callback>, q: Option<Detail>)
    ensures var p := FireAll(o, list, q);
      && p.price == o.price && p.qty == o.qty && Load(p) >= Load(o) && p.inFlight.amends >= o.inFlight.amends
      && (o.status.Pending? ==> p == o || Load(p) > Load(o))
    decreases |list|
  {
    if list != [] {
      FireAllGrows(Fire(o, list[0], q), list[1..], if list[0].AmendCb? then None else q);
    }
  }

  /** An amend under way is left alone, abandoned for a Pending order, or joined by a new request. */
  lemma {:induction false} AmendingEnds(o: Order, list: seq<Callback>, q: Option<Detail>)
    requires o.status.Amending?
    ensures var p := FireAll(o, list, q); p == o || p.status.Pending? || Load(p) > Load(o)
    decreases |list|
  {
    if list != [] {
      var o1, q1 := Fire(o, list[0], q), if list[0].AmendCb? then None else q;
      if o1 == o {
        AmendingEnds(o, list[1..], q1);
      } else {
        FireAllGrows(o1, list[1..], q1);
      }
    }
  }

  lemma {:induction false} QuietIff(o: Order, list: seq<Callback>, q: Option<Detail>)
    requires o.status.Pending?
    ensures var p := FireAll(o, list, q);
      p.status.Pending? && p.inFlight == o.inFlight <==> Quiet(list, q, NowOf(o))
    decreases |list|
  {
    if list != [] {
      var o1, q1 := Fire(o, list[0], q), if list[0].AmendCb? then None else q;
      if o1 == o {
        QuietIff(o, list[1..], q1);
      } else {
        FireAllGrows(o1, list[1..], q1);
      }
    }
  }

  lemma {:induction false} UndisturbedIff(o: Order, list: seq<Callback>, d: Detail)
    requires o.status.Amending? && o.amending == Some(d)
    ensures var p := FireAll(o, list, None);
      p.status.Amending? && p.inFlight == o.inFlight <==> Undisturbed(list, NowOf(o), d)
    ensures Undisturbed(list, NowOf(o), d) ==> FireAll(o, list, None) == o
    decreases |list|
  {
    if list != [] {
      var o1 := Fire(o, list[0], None);
      if o1 == o {
        UndisturbedIff(o, list[1..], d);
        assert forall i | 0 < i < |list| :: list[i] == list[1..][i - 1];
      } else {
        FireAllGrows(o1, list[1..], None);
      }
    }
  }

  /** The order is being amended to `d` and one amend more than before is in flight. */
  ghost predicate AmendsTo(o: Order, p: Order, d: Detail) {
    p.status.Amending? && p.amending == Some(d) && p.inFlight == Requested(o, Amend).inFlight
  }

  lemma {:induction false} IssuesIff(o: Order, list: seq<Callback>, q: Option<Detail>, d: Detail)
    requires o.status.Pending? && d != NowOf(o)
    ensures AmendsTo(o, FireAll(o, list, q), d) <==> Issues(list, q, NowOf(o), d)
    decreases |list|
  {
    if list != [] {
      var o1, q1 := Fire(o, list[0], q), if list[0].AmendCb? then None else q;
      if o1 == o {
        IssuesIff(o, list[1..], q1, d);
      } else if o1.status.Canceling? {
        CancelingStays(o1, list[1..], q1);
      } else if o1.amending == Some(d) {
        UndisturbedIff(o1, list[1..], d);
      } else {
        AmendingEnds(o1, list[1..], q1);
      }
    }
  }

  // ---------------------------------------------------------------------------------------------
  // Running the deferred callbacks
  // ---------------------------------------------------------------------------------------------

  /** From position `k` on, the waiting callbacks are those of `list`, all for this order. */
  ghost predicate Waiting(s: State, id: string, k: nat, list: seq<Callback>) {
    && id in s.orders && id in s.living && s.orders[id].amendCount < AMEND_LIMIT
    && |s.jobs| == k + |list|
    && forall j | k <= j < |s.jobs| :: s.jobs[j] == Job(id, list[j - k])
  }

  ghost predicate JobsKnown(s: State, k: nat) {
    forall j | k <= j < |s.jobs| :: s.jobs[j].id in s.orders
  }

  /** The callbacks from position `k` on run in list order, and the agent accepts what they ask. */
  ghost function DrainFrom(s: State, k: nat): State
    requires JobsKnown(s, k)
    decreases |s.jobs|
  {
    if |s.jobs| <= k then s
    else
      TakeOne(s, k);
      DrainFrom(RunJob(s, k, true), k)
  }

  lemma TakeOne(s: State, k: nat)
    requires JobsKnown(s, k) && k < |s.jobs|
    ensures var t := RunJob(s, k, true);
      t.jobs == s.jobs[..k] + s.jobs[k + 1..] && JobsKnown(t, k) && t.orders.Keys == s.orders.Keys
  {
  }

  function QueuedFor(s: State, id: string): Option<Detail> {
    if id in s.queued then Some(s.queued[id]) else None
  }

  lemma RunFirst(s: State, id: string, k: nat, list: seq<Callback>)
    requires Waiting(s, id, k, list) && list != []
    ensures var t := RunJob(s, k, true);
      && Waiting(t, id, k, list[1..]) && t.jobs[..k] == s.jobs[..k]
      && t.orders[id] == Fire(s.orders[id], list[0], QueuedFor(s, id))
      && QueuedFor(t, id) == if list[0].AmendCb? then None else QueuedFor(s, id)
  {
    TakeOne(s, k);
  }

  /** Running the callbacks is firing the list; callbacks that waited before go on waiting. */
  lemma {:induction false} DrainIs(s: State, id: string, k: nat, list: seq<Callback>)
    requires Waiting(s, id, k, list)
    ensures JobsKnown(s, k) && id in DrainFrom(s, k).orders
    ensures DrainFrom(s, k).orders[id] == FireAll(s.orders[id], list, QueuedFor(s, id))
    ensures DrainFrom(s, k).jobs == s.jobs[..k]
    decreases |list|
  {
    if list != [] {
      RunFirst(s, id, k, list);
      DrainIs(RunJob(s, k, true), id, k, list[1..]);
    }
  }

  // ---------------------------------------------------------------------------------------------
  // The rule, in list order
  // ---------------------------------------------------------------------------------------------

  /** The order once its operation is accepted; an accepted amend makes it `r`. */
  function Accept(o: Order, r: Detail): Order {
    if o.status.Sending? then Answered(o, Create).(status := Pending)
    else Answered(o, Amend).(status := Pending, amending := None, price := r.price, qty := r.qty)
  }

  function Accepted(s: State, id: string, r: Detail): State
    requires id in s.orders
  {
    if s.orders[id].status.Sending? then HandleSend(Receive(s, id, Create), id, None)
    else HandleAmend(Receive(s, id, Amend), id, r, None)
  }

  lemma AcceptedIs(s: State, id: string, r: Detail)
    requires Busy(s, id) && id in s.living && s.orders[id].amendCount < AMEND_LIMIT
    ensures var t := Accepted(s, id, r);
      && Waiting(t, id, |s.jobs|, ListOf(s.orders[id])) && t.jobs[..|s.jobs|] == s.jobs
      && t.orders[id] == Accept(s.orders[id], r) && t.queued == s.queued
      && JobsKnown(t, |s.jobs|)
  {
    var o, t := s.orders[id], Accepted(s, id, r);
    assert t.jobs == s.jobs + Jobs(id, ListOf(o));
    assert forall j | |s.jobs| <= j < |t.jobs| :: t.jobs[j] == Job(id, ListOf(o)[j - |s.jobs|]);
  }

  /** The operation under way is accepted and everything queued behind it runs. */
  ghost function Settles(s: State, id: string, r: Detail): State
    requires Busy(s, id) && id in s.living && s.orders[id].amendCount < AMEND_LIMIT
  {
    AcceptedIs(s, id, r);
    DrainFrom(Accepted(s, id, r), |s.jobs|)
  }

  lemma SettlesIs(s: State, id: string, r: Detail)
    requires Busy(s, id) && id in s.living && s.orders[id].amendCount < AMEND_LIMIT
    ensures var t, o := Settles(s, id, r), s.orders[id];
      && id in t.orders && t.jobs == s.jobs
      && t.orders[id] == FireAll(Accept(o, r), ListOf(o), QueuedFor(s, id))
  {
    AcceptedIs(s, id, r);
    DrainIs(Accepted(s, id, r), id, |s.jobs|, ListOf(s.orders[id]));
  }

  /** From `o`, just accepted, to `p`: the one operation the calls amount to, and no other. */
  ghost predicate AsAsked(o: Order, p: Order, cs: seq<Call>) {
    var late := LateAmends(cs);
    && p.price == o.price && p.qty == o.qty
    && if HasCancel(cs) then p.status.Canceling? && p.inFlight == Requested(o, Cancel).inFlight
       else if late != [] && late[|late| - 1] != NowOf(o) then AmendsTo(o, p, late[|late| - 1])
       else p.status.Pending? && p.inFlight == o.inFlight
  }

  /** What the callback list must be for the calls to have their effect on an order that is now `now`. */
  ghost predicate Harmless(list: seq<Callback>, q: Option<Detail>, cs: seq<Call>, now: Detail) {
    var late := LateAmends(cs);
    var left := LeftList(list, q.Some?, cs);
    if late == [] then Quiet(left, q, now)
    else
      var last := late[|late| - 1];
      if last == now then Quiet(left, Some(last), now) else Issues(left, Some(last), now, last)
  }

  /**
   The rule, behind a create or an amend, for every callback list and every sequence of calls: the calls
   have exactly the effect asked for if and only if there was a cancel among them or the list is harmless.
   */
  lemma RuleHoldsIff(s: State, id: string, cs: seq<Call>, r: Detail)
    requires Busy(s, id) && id in s.living && s.orders[id].amendCount < AMEND_LIMIT
    ensures var t := AfterCalls(s, id, cs);
      Busy(t, id) && id in t.living && t.orders[id].amendCount < AMEND_LIMIT && id in Settles(t, id, r).orders
    ensures var o := Accept(s.orders[id], r);
      AsAsked(o, Settles(AfterCalls(s, id, cs), id, r).orders[id], cs)
      <==> HasCancel(cs) || Harmless(ListOf(s.orders[id]), QueuedFor(s, id), cs, NowOf(o))
  {
    CallsCoalesce(s, id, cs);
    var t, late := AfterCalls(s, id, cs), LateAmends(cs);
    var list, q := ListOf(t.orders[id]), QueuedFor(t, id);
    SettlesIs(t, id, r);
    assert list == LeftList(ListOf(s.orders[id]), id in s.queued, cs);
    RuleForList(Accept(s.orders[id], r), Accept(t.orders[id], r), list, q, cs);
  }

  /** The same for the order alone; `o` and `o'` differ in their callback lists only. */
  lemma RuleForList(o: Order, o': Order, list: seq<Callback>, q: Option<Detail>, cs: seq<Call>)
    requires o.status.Pending? && o'.status.Pending? && NowOf(o') == NowOf(o) && o'.inFlight == o.inFlight
    requires HasCancel(cs) ==> list != [] && list[0].CancelCb?
    requires LateAmends(cs) != [] ==> q == Some(LateAmends(cs)[|LateAmends(cs)| - 1])
    ensures var late := LateAmends(cs);
      AsAsked(o, FireAll(o', list, q), cs)
      <==> HasCancel(cs)
           || if late == [] || late[|late| - 1] == NowOf(o) then Quiet(list, q, NowOf(o))
              else Issues(list, q, NowOf(o), late[|late| - 1])
  {
    FireAllGrows(o', list, q);
    var late := LateAmends(cs);
    if HasCancel(cs) {
      CancelingStays(Fire(o', CancelCb, q), list[1..], q);
    } else if late == [] || late[|late| - 1] == NowOf(o) {
      QuietIff(o', list, q);
    } else {
      IssuesIff(o', list, q, late[|late| - 1]);
    }
  }

  // ---------------------------------------------------------------------------------------------
  // Behind a create, in list order
  // ---------------------------------------------------------------------------------------------

  ghost predicate OnlyClient(list: seq<Callback>) {
    forall i | 0 <= i < |list| :: list[i].UserCb?
  }

  /** Client callbacks issue nothing. */
  lemma {:induction false} ClientPasses(
    list: seq<Callback>, more: seq<Callback>, q: Option<Detail>, now: Detail, d: Detail)
    requires OnlyClient(list)
    ensures Quiet(list + more, q, now) <==> Quiet(more, q, now)
    ensures Issues(list + more, q, now, d) <==> Issues(more, q, now, d)
    decreases |list|
  {
    if list == [] {
      assert list + more == more;
    } else {
      assert (list + more)[0] == list[0] && (list + more)[1..] == list[1..] + more;
      ClientPasses(list[1..], more, q, now, d);
    }
  }

  /**
   A maker order whose list holds client callbacks only, as when its create was just sent: when the
   operation is accepted and the callbacks run in list order, the calls have exactly the effect asked for.
   */
  lemma OneOperationAfterCreate(s: State, id: string, cs: seq<Call>, r: Detail)
    requires Busy(s, id) && id in s.living && s.orders[id].amendCount < AMEND_LIMIT
    requires id !in s.queued && OnlyClient(ListOf(s.orders[id]))
    ensures var t := AfterCalls(s, id, cs);
      Busy(t, id) && id in t.living && t.orders[id].amendCount < AMEND_LIMIT && id in Settles(t, id, r).orders
    ensures AsAsked(Accept(s.orders[id], r), Settles(AfterCalls(s, id, cs), id, r).orders[id], cs)
  {
    RuleHoldsIff(s, id, cs, r);
    var list, now, late := ListOf(s.orders[id]), NowOf(Accept(s.orders[id], r)), LateAmends(cs);
    if !HasCancel(cs) {
      if late == [] {
        assert LeftList(list, false, cs) == list + [];
        ClientPasses(list, [], None, now, now);
      } else {
        ClientPasses(list, [AmendCb(late[0])], Some(late[|late| - 1]), now, late[|late| - 1]);
      }
    }
  }

  /** A maker order just taken by the agent is such an order. */
  lemma SentMakerIsFresh(s: State, id: string)
    requires s.accepting && id in s.orders && id !in s.living && id !in s.queued
    requires s.orders[id] == NewOrder(s.orders[id].orderType, s.orders[id].price, s.orders[id].qty)
    requires s.orders[id].orderType.IsAmendable()
    ensures var t := SendOrder(s, id, true);
      Busy(t, id) && id in t.living && id !in t.queued && t.orders[id].status.Sending? && ListOf(t.orders[id]) == []
  {
  }

  // ---------------------------------------------------------------------------------------------
  // Behind an amend, in list order: what the retained callbacks do
  // ---------------------------------------------------------------------------------------------

  lemma {:induction false} QuietMeans(list: seq<Callback>, now: Detail)
    ensures Quiet(list, None, now) <==> forall i | 0 <= i < |list| :: list[i].UserCb? || list[i] == AmendCb(now)
    decreases |list|
  {
    if list != [] {
      QuietMeans(list[1..], now);
      assert forall i | 0 < i < |list| :: list[i] == list[1..][i - 1];
    }
  }

  /**
   With nothing queued and no call made, an accepted amend stays accepted if and only if every retained
   callback is the client's own or captured that very detail.
   */
  lemma AcceptedAmendSticksIff(s: State, id: string, r: Detail)
    requires Busy(s, id) && id in s.living && s.orders[id].amendCount < AMEND_LIMIT
    requires s.orders[id].status.Amending? && id !in s.queued
    ensures id in Settles(s, id, r).orders
    ensures var p := Settles(s, id, r).orders[id];
      p.status.Pending? && NowOf(p) == r && p.inFlight == Answered(s.orders[id], Amend).inFlight
      <==> forall i | 0 <= i < |s.orders[id].onAmend| ::
             s.orders[id].onAmend[i].UserCb? || s.orders[id].onAmend[i] == AmendCb(r)
  {
    var o := s.orders[id];
    SettlesIs(s, id, r);
    FireAllGrows(Accept(o, r), o.onAmend, None);
    QuietIff(Accept(o, r), o.onAmend, None);
    QuietMeans(o.onAmend, r);
  }

  /** The one request in flight more than before, if any, is the amend to the last detail asked for. */
  ghost predicate LastAmendWon(o: Order, p: Order, last: Detail) {
    && p.price == o.price && p.qty == o.qty
    && if last == NowOf(o) then p.status.Pending? && p.inFlight == o.inFlight else AmendsTo(o, p, last)
  }

  /**
   With a detail queued behind an amend and the callbacks in list order, the queued amend wins if and only if
   the list, whatever it holds, allows it. A detail queued behind an earlier, refused amend counts as well.
   */
  lemma AmendBehindAmendIff(s: State, id: string, r: Detail)
    requires Busy(s, id) && id in s.living && s.orders[id].amendCount < AMEND_LIMIT
    requires s.orders[id].status.Amending? && id in s.queued
    ensures id in Settles(s, id, r).orders
    ensures var list, last := s.orders[id].onAmend, s.queued[id];
      LastAmendWon(Accept(s.orders[id], r), Settles(s, id, r).orders[id], last)
      <==> if last == r then Quiet(list, Some(last), r) else Issues(list, Some(last), r, last)
  {
    var o, last := s.orders[id], s.queued[id];
    SettlesIs(s, id, r);
    FireAllGrows(Accept(o, r), o.onAmend, Some(last));
    if last == r {
      QuietIff(Accept(o, r), o.onAmend, Some(last));
    } else {
      IssuesIff(Accept(o, r), o.onAmend, Some(last), last);
    }
  }

  lemma {:induction false} ClientFires(o: Order, list: seq<Callback>, more: seq<Callback>, q: Option<Detail>)
    requires OnlyClient(list)
    ensures FireAll(o, list + more, q) == FireAll(o, more, q)
    decreases |list|
  {
    if list == [] {
      assert list + more == more;
    } else {
      assert (list + more)[0] == list[0] && (list + more)[1..] == list[1..] + more;
      ClientFires(o, list[1..], more, q);
    }
  }

  /** A retained cancel with only client callbacks before it fires again, whoever asked for what since. */
  lemma RetainedCancelFires(s: State, id: string, r: Detail, before: seq<Callback>, after: seq<Callback>)
    requires Busy(s, id) && id in s.living && s.orders[id].amendCount < AMEND_LIMIT
    requires ListOf(s.orders[id]) == before + ([CancelCb] + after) && OnlyClient(before)
    ensures var o := Accept(s.orders[id], r);
      id in Settles(s, id, r).orders
      && Settles(s, id, r).orders[id] == Requested(o.(status := Canceling), Cancel)
  {
    var o, q := Accept(s.orders[id], r), QueuedFor(s, id);
    SettlesIs(s, id, r);
    ClientFires(o, before, [CancelCb] + after, q);
    assert ([CancelCb] + after)[1..] == after;
    CancelingStays(Fire(o, CancelCb, q), after, q);
  }

  // ---------------------------------------------------------------------------------------------
  // Every order of the callbacks
  // ---------------------------------------------------------------------------------------------

  /** Go starts one goroutine per callback and may run them in any order. */
  ghost predicate Shuffle(p: seq<Callback>, list: seq<Callback>) {
    multiset(p) == multiset(list)
  }

  ghost predicate NoCancelIn(m: multiset<Callback>) { CancelCb !in m }

  ghost predicate NoAmendIn(m: multiset<Callback>) {
    forall cb | cb in m :: !cb.AmendCb?
  }

  ghost predicate OneAmendIn(m: multiset<Callback>) {
    forall x, y | x in m && y in m && x.AmendCb? && y.AmendCb? :: x == y && m[x] == 1
  }

  ghost predicate Captured(m: multiset<Callback>, a: Detail, b: Detail) {
    forall cb | cb in m && cb.AmendCb? :: cb.detail == a || cb.detail == b
  }

  /** No amend of the list, in whatever order, changes an order that is Pending at `now`. */
  ghost predicate Steady(m: multiset<Callback>, q: Option<Detail>, now: Detail) {
    match q
    case None => Captured(m, now, now)
    case Some(x) => NoAmendIn(m) || (x == now && (OneAmendIn(m) || Captured(m, now, now)))
  }

  /** In whatever order, the first amend to run is the one to `d`, and the others do not disturb it. */
  ghost predicate Agreeing(m: multiset<Callback>, now: Detail, d: Detail) {
    NoCancelIn(m) && !NoAmendIn(m) && (OneAmendIn(m) || Captured(m, now, d))
  }

  lemma FirstOut(p: seq<Callback>)
    requires p != []
    ensures multiset(p) == multiset{p[0]} + multiset(p[1..])
  {
    assert p == [p[0]] + p[1..];
  }

  /** A shuffle may start with any callback of the list. */
  lemma StartWith(list: seq<Callback>, x: Callback) returns (rest: seq<Callback>)
    requires x in list
    ensures Shuffle([x] + rest, list)
  {
    var i :| 0 <= i < |list| && list[i] == x;
    rest := list[..i] + list[i + 1..];
    assert list == list[..i] + [x] + list[i + 1..];
  }

  lemma SteadyRest(p: seq<Callback>, q: Option<Detail>, now: Detail)
    requires p != [] && Steady(multiset(p), q, now)
    ensures Steady(multiset(p[1..]), if p[0].AmendCb? then None else q, now)
    ensures p[0].AmendCb? ==> (if q.Some? then q.value else p[0].detail) == now
  {
    FirstOut(p);
    assert p[0] in multiset(p);
    assert forall cb | cb in multiset(p[1..]) :: cb in multiset(p);
  }

  lemma {:induction false} SteadyIsQuiet(p: seq<Callback>, q: Option<Detail>, now: Detail)
    requires NoCancelIn(multiset(p)) && Steady(multiset(p), q, now)
    ensures Quiet(p, q, now)
    decreases |p|
  {
    if p != [] {
      SteadyRest(p, q, now);
      FirstOut(p);
      SteadyIsQuiet(p[1..], if p[0].AmendCb? then None else q, now);
    }
  }

  /** The cancel of a steady list is sent, once, whenever its turn comes. */
  lemma {:induction false} SteadyCancels(o: Order, p: seq<Callback>, q: Option<Detail>)
    requires o.status.Pending? && CancelCb in p && Steady(multiset(p), q, NowOf(o))
    ensures FireAll(o, p, q) == Requested(o.(status := Canceling), Cancel)
    decreases |p|
  {
    if p[0].CancelCb? {
      CancelingStays(Fire(o, p[0], q), p[1..], q);
    } else {
      SteadyRest(p, q, NowOf(o));
      SteadyCancels(o, p[1..], if p[0].AmendCb? then None else q);
    }
  }

  /** Some other amend of a list with several. */
  lemma AnotherAmend(m: multiset<Callback>, z: Callback) returns (w: Callback)
    requires z in m && z.AmendCb? && !OneAmendIn(m)
    ensures w in m && w.AmendCb? && multiset{w, z} <= m
  {
    var x, y :| x in m && y in m && x.AmendCb? && y.AmendCb? && !(x == y && m[x] == 1);
    w := if x == z then y else x;
  }

  /** Two callbacks of the list may come first. */
  lemma StartWithTwo(list: seq<Callback>, w: Callback, z: Callback) returns (rest: seq<Callback>)
    requires multiset{w, z} <= multiset(list)
    ensures Shuffle([w] + ([z] + rest), list)
  {
    assert w in multiset(list);
    var r := StartWith(list, w);
    assert multiset(r) == multiset(list) - multiset{w};
    assert z in multiset(r);
    rest := StartWith(r, z);
  }

  /** An amend that changes the order is sent if it comes first, */
  lemma FirstAmends(o: Order, z: Callback, rest: seq<Callback>, q: Option<Detail>)
    requires o.status.Pending? && z.AmendCb? && (if q.Some? then q.value else z.detail) != NowOf(o)
    ensures FireAll(o, [z] + rest, q).inFlight.amends > o.inFlight.amends
  {
    assert ([z] + rest)[1..] == rest;
    FireAllGrows(Fire(o, z, q), rest, None);
  }

  /** or right after an amend that takes the queued detail and changes nothing. */
  lemma SecondAmends(o: Order, w: Callback, z: Callback, rest: seq<Callback>)
    requires o.status.Pending? && w.AmendCb? && z.AmendCb? && z.detail != NowOf(o)
    ensures FireAll(o, [w] + ([z] + rest), Some(NowOf(o))).inFlight.amends > o.inFlight.amends
  {
    var p := [w] + ([z] + rest);
    assert p[0] == w && p[1..] == [z] + rest;
    FirstAmends(o, z, rest, None);
  }

  /** In some order, an unsteady list sends an amend. */
  lemma UnsteadyAmends(o: Order, list: seq<Callback>, q: Option<Detail>) returns (p: seq<Callback>)
    requires o.status.Pending? && !Steady(multiset(list), q, NowOf(o))
    ensures Shuffle(p, list) && FireAll(o, p, q).inFlight.amends > o.inFlight.amends
  {
    var now, m := NowOf(o), multiset(list);
    if q == Some(now) {
      var z :| z in m && z.AmendCb? && z.detail != now;
      var w := AnotherAmend(m, z);
      var rest := StartWithTwo(list, w, z);
      p := [w] + ([z] + rest);
      SecondAmends(o, w, z, rest);
    } else {
      var z :| z in m && z.AmendCb? && (q.None? ==> z.detail != now);
      var rest := StartWith(list, z);
      p := [z] + rest;
      FirstAmends(o, z, rest, q);
    }
  }

  /** From `o` to `p`, nothing is issued; or the cancel is, and nothing else. */
  ghost predicate LeftAlone(o: Order, p: Order) { p.status.Pending? && p.inFlight == o.inFlight }
  ghost predicate CancelSent(o: Order, p: Order) {
    p.status.Canceling? && p.inFlight == Requested(o, Cancel).inFlight
  }

  lemma LeftAloneIff(o: Order, list: seq<Callback>, q: Option<Detail>)
    requires o.status.Pending?
    ensures (forall p | Shuffle(p, list) :: LeftAlone(o, FireAll(o, p, q)))
       <==> NoCancelIn(multiset(list)) && Steady(multiset(list), q, NowOf(o))
  {
    if !NoCancelIn(multiset(list)) {
      var rest := StartWith(list, CancelCb);
      var p := [CancelCb] + rest;
      assert p[0] == CancelCb && p[1..] == rest;
      CancelingStays(Fire(o, CancelCb, q), rest, q);
      assert Shuffle(p, list) && !LeftAlone(o, FireAll(o, p, q));
    } else if !Steady(multiset(list), q, NowOf(o)) {
      var p := UnsteadyAmends(o, list, q);
      assert Shuffle(p, list) && !LeftAlone(o, FireAll(o, p, q));
    } else {
      forall p | Shuffle(p, list) ensures LeftAlone(o, FireAll(o, p, q)) {
        SteadyIsQuiet(p, q, NowOf(o));
        QuietIff(o, p, q);
      }
    }
  }

  lemma CancelSentIff(o: Order, list: seq<Callback>, q: Option<Detail>)
    requires o.status.Pending? && CancelCb in list
    ensures (forall p | Shuffle(p, list) :: CancelSent(o, FireAll(o, p, q))) <==> Steady(multiset(list), q, NowOf(o))
  {
    if Steady(multiset(list), q, NowOf(o)) {
      forall p | Shuffle(p, list) ensures CancelSent(o, FireAll(o, p, q)) {
        assert CancelCb in multiset(list);
        SteadyCancels(o, p, q);
      }
    } else {
      var p := UnsteadyAmends(o, list, q);
      assert Shuffle(p, list) && !CancelSent(o, FireAll(o, p, q));
    }
  }

  lemma {:induction false} AgreeingIssues(p: seq<Callback>, now: Detail, d: Detail)
    requires d != now && Agreeing(multiset(p), now, d)
    ensures Issues(p, Some(d), now, d)
    decreases |p|
  {
    assert p != [];
    FirstOut(p);
    assert forall cb | cb in multiset(p[1..]) :: cb in multiset(p);
    assert p[0] in multiset(p);
    if p[0].AmendCb? {
      forall i | 0 <= i < |p| - 1 && p[1..][i].AmendCb? ensures p[1..][i].detail == now || p[1..][i].detail == d {
        assert p[1..][i] in multiset(p[1..]);
      }
    } else {
      AgreeingIssues(p[1..], now, d);
    }
  }

  /** In some order, a list that does not agree fails to issue just the amend to `d`. */
  lemma DisagreeingFails(list: seq<Callback>, now: Detail, d: Detail) returns (p: seq<Callback>)
    requires d != now && !Agreeing(multiset(list), now, d)
    ensures Shuffle(p, list) && !Issues(p, Some(d), now, d)
  {
    var m := multiset(list);
    if CancelCb in m {
      var rest := StartWith(list, CancelCb);
      p := [CancelCb] + rest;
    } else if NoAmendIn(m) {
      p := list;
      NoAmendIssuesNothing(list, Some(d), now, d);
    } else {
      var z :| z in m && z.AmendCb? && z.detail != now && z.detail != d;
      var w := AnotherAmend(m, z);
      var rest := StartWithTwo(list, w, z);
      p := [w] + ([z] + rest);
      assert p[1..] == [z] + rest && p[1..][0] == z;
    }
  }

  lemma {:induction false} NoAmendIssuesNothing(p: seq<Callback>, q: Option<Detail>, now: Detail, d: Detail)
    requires NoAmendIn(multiset(p))
    ensures !Issues(p, q, now, d)
    decreases |p|
  {
    if p != [] {
      FirstOut(p);
      assert p[0] in multiset(p);
      assert forall cb | cb in multiset(p[1..]) :: cb in multiset(p);
      NoAmendIssuesNothing(p[1..], q, now, d);
    }
  }

  lemma AmendSentIff(o: Order, list: seq<Callback>, d: Detail)
    requires o.status.Pending? && d != NowOf(o)
    ensures (forall p | Shuffle(p, list) :: AmendsTo(o, FireAll(o, p, Some(d)), d))
       <==> Agreeing(multiset(list), NowOf(o), d)
  {
    if Agreeing(multiset(list), NowOf(o), d) {
      forall p | Shuffle(p, list) ensures AmendsTo(o, FireAll(o, p, Some(d)), d) {
        AgreeingIssues(p, NowOf(o), d);
        IssuesIff(o, p, Some(d), d);
      }
    } else {
      var p := DisagreeingFails(list, NowOf(o), d);
      IssuesIff(o, p, Some(d), d);
      assert Shuffle(p, list) && !AmendsTo(o, FireAll(o, p, Some(d)), d);
    }
  }

  // ---------------------------------------------------------------------------------------------
  // Schedules of the goroutines
  // ---------------------------------------------------------------------------------------------

  /** Which of the waiting callbacks runs next, counted among those still waiting. */
  ghost predicate Schedule(n: nat, picks: seq<nat>)
    decreases n
  {
    |picks| == n && (n > 0 ==> picks[0] < n && Schedule(n - 1, picks[1..]))
  }

  function Without(list: seq<Callback>, i: nat): seq<Callback>
    requires i < |list|
  {
    list[..i] + list[i + 1..]
  }

  ghost function Pulled(list: seq<Callback>, picks: seq<nat>): seq<Callback>
    requires Schedule(|list|, picks)
    decreases |list|
  {
    if list == [] then [] else [list[picks[0]]] + Pulled(Without(list, picks[0]), picks[1..])
  }

  lemma WithoutIs(list: seq<Callback>, i: nat)
    requires i < |list|
    ensures multiset(Without(list, i)) == multiset(list) - multiset{list[i]}
  {
    assert list == list[..i] + [list[i]] + list[i + 1..];
  }

  lemma {:induction false} PulledShuffles(list: seq<Callback>, picks: seq<nat>)
    requires Schedule(|list|, picks)
    ensures Shuffle(Pulled(list, picks), list)
    decreases |list|
  {
    if list != [] {
      var i := picks[0];
      PulledShuffles(Without(list, i), picks[1..]);
      WithoutIs(list, i);
      assert list[i] in multiset(list);
    }
  }

  lemma PickFirst(list: seq<Callback>, i: nat, rest: seq<nat>)
    requires i < |list| && Schedule(|list| - 1, rest)
    ensures Schedule(|list|, [i] + rest) && Pulled(list, [i] + rest) == [list[i]] + Pulled(Without(list, i), rest)
  {
    assert ([i] + rest)[1..] == rest;
  }

  /** The first callback of a shuffle is in the list, and the others shuffle what is left of it. */
  lemma ShuffleRest(list: seq<Callback>, p: seq<Callback>) returns (i: nat)
    requires Shuffle(p, list) && p != []
    ensures i < |list| && list[i] == p[0] && Shuffle(p[1..], Without(list, i))
  {
    FirstOut(p);
    assert p[0] in multiset(list);
    i :| 0 <= i < |list| && list[i] == p[0];
    WithoutIs(list, i);
  }

  /** Every order of the callbacks has its schedule. */
  lemma {:induction false} ScheduleFor(list: seq<Callback>, p: seq<Callback>) returns (picks: seq<nat>)
    requires Shuffle(p, list)
    ensures Schedule(|list|, picks) && Pulled(list, picks) == p
    decreases |p|
  {
    if p == [] {
      assert |multiset(list)| == 0;
      picks := [];
    } else {
      var i := ShuffleRest(list, p);
      var rest := ScheduleFor(Without(list, i), p[1..]);
      picks := [i] + rest;
      PickFirst(list, i, rest);
      assert p == [p[0]] + p[1..];
    }
  }

  /** The callbacks from position `k` on run as scheduled, and the agent accepts what they ask. */
  ghost function DrainBy(s: State, k: nat, picks: seq<nat>): State
    requires JobsKnown(s, k) && |s.jobs| == k + |picks| && Schedule(|picks|, picks)
    decreases |picks|
  {
    if picks == [] then s
    else
      TakeAny(s, k, picks[0]);
      DrainBy(RunJob(s, k + picks[0], true), k, picks[1..])
  }

  lemma TakeAny(s: State, k: nat, i: nat)
    requires JobsKnown(s, k) && k + i < |s.jobs|
    ensures var t := RunJob(s, k + i, true);
      && t.jobs == s.jobs[..k + i] + s.jobs[k + i + 1..] && |t.jobs| == |s.jobs| - 1
      && JobsKnown(t, k) && t.orders.Keys == s.orders.Keys
  {
  }

  lemma RunAny(s: State, id: string, k: nat, list: seq<Callback>, i: nat)
    requires Waiting(s, id, k, list) && i < |list|
    ensures var t := RunJob(s, k + i, true);
      && Waiting(t, id, k, Without(list, i))
      && t.orders[id] == Fire(s.orders[id], list[i], QueuedFor(s, id))
      && QueuedFor(t, id) == if list[i].AmendCb? then None else QueuedFor(s, id)
  {
    TakeAny(s, k, i);
  }

  lemma {:induction false} DrainByIs(s: State, id: string, k: nat, list: seq<Callback>, picks: seq<nat>)
    requires Waiting(s, id, k, list) && Schedule(|list|, picks)
    ensures JobsKnown(s, k) && id in DrainBy(s, k, picks).orders
    ensures DrainBy(s, k, picks).orders[id] == FireAll(s.orders[id], Pulled(list, picks), QueuedFor(s, id))
    decreases |list|
  {
    if list != [] {
      var i := picks[0];
      var rest := Pulled(Without(list, i), picks[1..]);
      RunAny(s, id, k, list, i);
      DrainByIs(RunJob(s, k + i, true), id, k, Without(list, i), picks[1..]);
      assert ([list[i]] + rest)[1..] == rest;
    }
  }

  /** The operation under way is accepted, and the callbacks behind it run as scheduled. */
  ghost function SettlesBy(s: State, id: string, r: Detail, picks: seq<nat>): State
    requires Busy(s, id) && id in s.living && s.orders[id].amendCount < AMEND_LIMIT
    requires Schedule(|ListOf(s.orders[id])|, picks)
  {
    AcceptedIs(s, id, r);
    DrainBy(Accepted(s, id, r), |s.jobs|, picks)
  }

  lemma SettlesByIs(s: State, id: string, r: Detail, picks: seq<nat>)
    requires Busy(s, id) && id in s.living && s.orders[id].amendCount < AMEND_LIMIT
    requires Schedule(|ListOf(s.orders[id])|, picks)
    ensures var t, o := SettlesBy(s, id, r, picks), s.orders[id];
      id in t.orders && t.orders[id] == FireAll(Accept(o, r), Pulled(ListOf(o), picks), QueuedFor(s, id))
  {
    AcceptedIs(s, id, r);
    DrainByIs(Accepted(s, id, r), id, |s.jobs|, ListOf(s.orders[id]), picks);
  }

  // ---------------------------------------------------------------------------------------------
  // The rule in every order
  // ---------------------------------------------------------------------------------------------

  /** The calls have the effect asked for however the goroutines are scheduled. */
  ghost predicate AlwaysAsAsked(s: State, id: string, cs: seq<Call>, r: Detail, o: Order)
    requires Busy(s, id) && id in s.living && s.orders[id].amendCount < AMEND_LIMIT
  {
    forall picks | Schedule(|ListOf(s.orders[id])|, picks) ::
      id in SettlesBy(s, id, r, picks).orders && AsAsked(o, SettlesBy(s, id, r, picks).orders[id], cs)
  }

  /** A cancel excludes every amend that would change the order; without one, the list left is steady or agrees. */
  ghost predicate Robust(list: seq<Callback>, q: Option<Detail>, cs: seq<Call>, now: Detail) {
    var late := LateAmends(cs);
    var m := multiset(LeftList(list, q.Some?, cs));
    if HasCancel(cs) then late == [] || late[|late| - 1] == now
    else if late == [] then NoCancelIn(m) && Steady(m, q, now)
    else
      var last := late[|late| - 1];
      if last == now then NoCancelIn(m) && Steady(m, Some(last), now) else Agreeing(m, now, last)
  }

  lemma OrdersAreSchedules(s: State, id: string, cs: seq<Call>, r: Detail, o: Order)
    requires Busy(s, id) && id in s.living && s.orders[id].amendCount < AMEND_LIMIT
    ensures var o', list, q := Accept(s.orders[id], r), ListOf(s.orders[id]), QueuedFor(s, id);
      AlwaysAsAsked(s, id, cs, r, o) <==> forall p | Shuffle(p, list) :: AsAsked(o, FireAll(o', p, q), cs)
  {
    var o', list, q := Accept(s.orders[id], r), ListOf(s.orders[id]), QueuedFor(s, id);
    if AlwaysAsAsked(s, id, cs, r, o) {
      forall p | Shuffle(p, list) ensures AsAsked(o, FireAll(o', p, q), cs) {
        var picks := ScheduleFor(list, p);
        SettlesByIs(s, id, r, picks);
      }
    }
    if forall p | Shuffle(p, list) :: AsAsked(o, FireAll(o', p, q), cs) {
      forall picks | Schedule(|list|, picks)
        ensures id in SettlesBy(s, id, r, picks).orders && AsAsked(o, SettlesBy(s, id, r, picks).orders[id], cs)
      {
        PulledShuffles(list, picks);
        SettlesByIs(s, id, r, picks);
      }
    }
  }

  /** The rule for the order alone; `o` and `o'` differ in their callback lists only. */
  lemma RuleForShuffles(o: Order, o': Order, list: seq<Callback>, q: Option<Detail>, cs: seq<Call>)
    requires o.status.Pending? && o'.status.Pending? && NowOf(o') == NowOf(o) && o'.inFlight == o.inFlight
    requires HasCancel(cs) ==> CancelCb in list
    requires LateAmends(cs) != [] ==> q == Some(LateAmends(cs)[|LateAmends(cs)| - 1])
    ensures var late, m, now := LateAmends(cs), multiset(list), NowOf(o);
      (forall p | Shuffle(p, list) :: AsAsked(o, FireAll(o', p, q), cs))
      <==> if HasCancel(cs) then Steady(m, q, now)
           else if late == [] || late[|late| - 1] == now then NoCancelIn(m) && Steady(m, q, now)
           else Agreeing(m, now, late[|late| - 1])
  {
    var late := LateAmends(cs);
    forall p | Shuffle(p, list)
      ensures AsAsked(o, FireAll(o', p, q), cs)
         <==> if HasCancel(cs) then CancelSent(o', FireAll(o', p, q))
              else if late == [] || late[|late| - 1] == NowOf(o) then LeftAlone(o', FireAll(o', p, q))
              else AmendsTo(o', FireAll(o', p, q), late[|late| - 1])
    {
      FireAllGrows(o', p, q);
    }
    if HasCancel(cs) {
      CancelSentIff(o', list, q);
    } else if late == [] || late[|late| - 1] == NowOf(o) {
      LeftAloneIff(o', list, q);
    } else {
      AmendSentIff(o', list, late[|late| - 1]);
    }
  }

  /** What the cancel of the calls leaves is steady exactly when no amend after it changes the order. */
  lemma CanceledListSteady(list: seq<Callback>, waiting: bool, cs: seq<Call>, q: Option<Detail>, now: Detail)
    requires HasCancel(cs)
    requires var late := LateAmends(cs); q == if late == [] then None else Some(late[|late| - 1])
    ensures var late, left := LateAmends(cs), LeftList(list, waiting, cs);
      CancelCb in left && (Steady(multiset(left), q, now) <==> late == [] || late[|late| - 1] == now)
  {
    var late, left := LateAmends(cs), LeftList(list, waiting, cs);
    assert left[0] == CancelCb;
    if late == [] {
      assert left == [CancelCb];
    } else {
      assert left == [CancelCb, AmendCb(late[0])];
      assert AmendCb(late[0]) in multiset(left);
    }
  }

  /**
   The rule behind a create or an amend that is accepted, for every callback list, every sequence of calls
   and every schedule of the goroutines: it holds in all of them if and only if the list is robust.
   */
  lemma RuleInEveryOrderIff(s: State, id: string, cs: seq<Call>, r: Detail)
    requires Busy(s, id) && id in s.living && s.orders[id].amendCount < AMEND_LIMIT
    ensures var t := AfterCalls(s, id, cs);
      Busy(t, id) && id in t.living && t.orders[id].amendCount < AMEND_LIMIT
    ensures var o := Accept(s.orders[id], r);
      AlwaysAsAsked(AfterCalls(s, id, cs), id, cs, r, o)
      <==> Robust(ListOf(s.orders[id]), QueuedFor(s, id), cs, NowOf(o))
  {
    CallsCoalesce(s, id, cs);
    var t, o := AfterCalls(s, id, cs), Accept(s.orders[id], r);
    var list, q := ListOf(t.orders[id]), QueuedFor(t, id);
    assert list == LeftList(ListOf(s.orders[id]), id in s.queued, cs);
    OrdersAreSchedules(t, id, cs, r, o);
    if HasCancel(cs) {
      CanceledListSteady(ListOf(s.orders[id]), id in s.queued, cs, q, NowOf(o));
    }
    RuleForShuffles(o, Accept(t.orders[id], r), list, q, cs);
  }

  /**
   An order whose list holds client callbacks only, as a new one: in every schedule the calls have the effect
   asked for if and only if no amend that would change the order follows a cancel.
   */
  lemma NewOrderInEveryOrderIff(s: State, id: string, cs: seq<Call>, r: Detail)
    requires Busy(s, id) && id in s.living && s.orders[id].amendCount < AMEND_LIMIT
    requires id !in s.queued && OnlyClient(ListOf(s.orders[id]))
    ensures var t := AfterCalls(s, id, cs);
      Busy(t, id) && id in t.living && t.orders[id].amendCount < AMEND_LIMIT
    ensures var o, late := Accept(s.orders[id], r), LateAmends(cs);
      AlwaysAsAsked(AfterCalls(s, id, cs), id, cs, r, o)
      <==> !HasCancel(cs) || late == [] || late[|late| - 1] == NowOf(o)
  {
    RuleInEveryOrderIff(s, id, cs, r);
    var list, late := ListOf(s.orders[id]), LateAmends(cs);
    var left := LeftList(list, false, cs);
    if !HasCancel(cs) {
      ClientList(list, left, late);
    }
  }

  /** Client callbacks and at most one amend. */
  lemma ClientList(list: seq<Callback>, left: seq<Callback>, late: seq<Detail>)
    requires OnlyClient(list) && left == list + (if late == [] then [] else [AmendCb(late[0])])
    ensures NoCancelIn(multiset(left)) && OneAmendIn(multiset(left))
    ensures NoAmendIn(multiset(left)) <==> late == []
  {
    assert forall cb | cb in multiset(list) :: cb.UserCb?;
    if late != [] {
      assert multiset(left) == multiset(list) + multiset{AmendCb(late[0])};
      assert AmendCb(late[0]) in multiset(left);
    } else {
      assert left == list;
    }
  }

  /** A retained cancel is sent again in every schedule if and only if no amend of the list can change the order. */
  lemma RetainedCancelFiresIff(s: State, id: string, r: Detail)
    requires Busy(s, id) && id in s.living && s.orders[id].amendCount < AMEND_LIMIT
    requires CancelCb in ListOf(s.orders[id])
    ensures var o := Accept(s.orders[id], r);
      (forall picks | Schedule(|ListOf(s.orders[id])|, picks) ::
         id in SettlesBy(s, id, r, picks).orders && CancelSent(o, SettlesBy(s, id, r, picks).orders[id]))
      <==> Steady(multiset(ListOf(s.orders[id])), QueuedFor(s, id), NowOf(o))
  {
    var o, list, q := Accept(s.orders[id], r), ListOf(s.orders[id]), QueuedFor(s, id);
    CancelSentIff(o, list, q);
    if Steady(multiset(list), q, NowOf(o)) {
      forall picks | Schedule(|list|, picks)
        ensures id in SettlesBy(s, id, r, picks).orders && CancelSent(o, SettlesBy(s, id, r, picks).orders[id])
      {
        PulledShuffles(list, picks);
        SettlesByIs(s, id, r, picks);
      }
    } else {
      var p :| Shuffle(p, list) && !CancelSent(o, FireAll(o, p, q));
      var picks := ScheduleFor(list, p);
      SettlesByIs(s, id, r, picks);
    }
  }

  // ---------------------------------------------------------------------------------------------
  // An amend that is refused
  // ---------------------------------------------------------------------------------------------

  /** The order once its amend is refused by the exchange. */
  function Refuse(o: Order): Order {
    Answered(o, Amend).(status := Pending, amending := None)
  }

  /**
   When the amend under way is refused, no callback runs: the calls behind it have the effect asked for if
   and only if they ask for nothing. What they queued stays for the next accepted amend.
   */
  lemma RefusedAmendIff(s: State, id: string, cs: seq<Call>, d: Detail, e: AgentError)
    requires Busy(s, id) && id in s.living && s.orders[id].status.Amending? && e != OrderIsNotExists
    ensures var t := HandleAmend(Receive(AfterCalls(s, id, cs), id, Amend), id, d, Some(e));
      && id in t.orders && t.jobs == s.jobs && t.queued == LeftQueue(s.queued, id, cs)
      && t.orders[id].onAmend == LeftList(s.orders[id].onAmend, id in s.queued, cs)
      && (AsAsked(Refuse(s.orders[id]), t.orders[id], cs)
          <==> !HasCancel(cs)
               && (LateAmends(cs) == [] || LateAmends(cs)[|LateAmends(cs)| - 1] == NowOf(s.orders[id])))
  {
    CallsCoalesce(s, id, cs);
  }

  /** A refused create ends the order, and the calls behind it issue nothing. */
  lemma RefusedCreateEnds(s: State, id: string, cs: seq<Call>, e: AgentError)
    requires Busy(s, id) && id in s.living && s.orders[id].status.Sending?
    ensures var t := HandleSend(Receive(AfterCalls(s, id, cs), id, Create), id, Some(e));
      && id in t.orders && t.orders[id].status.Done? && t.orders[id].reason == Some(Rejected)
      && t.jobs == s.jobs && id !in t.living
  {
    CallsCoalesce(s, id, cs);
  }

  /** When the order is gone, nothing is left to do: it ends as abandoned and issues nothing more. */
  lemma GoneAmendEnds(s: State, id: string, cs: seq<Call>, d: Detail)
    requires Busy(s, id) && id in s.living && s.orders[id].status.Amending?
    ensures var t := HandleAmend(Receive(AfterCalls(s, id, cs), id, Amend), id, d, Some(OrderIsNotExists));
      && id in t.orders && t.orders[id].status.Done? && t.orders[id].reason == Some(Abandoned)
      && t.jobs == s.jobs && id !in t.living
  {
    CallsCoalesce(s, id, cs);
  }

  // ---------------------------------------------------------------------------------------------
  // Runs in which the rule fails
  // ---------------------------------------------------------------------------------------------

  const D1 := Detail(1.0, 1.0)
  const D2 := Detail(2.0, 1.0)
  const D3 := Detail(3.0, 1.0)

  ghost function Holding(o: Order, q: map<string, Detail>, jobs: seq<Job>): State {
    State(map["a" := o], {"a"}, q, [], [], {}, true, jobs)
  }

  const Creation: seq<Event> := [New("a", Limit, 0.0, 1.0), Send("a", true), SendResp("a", None)]
  const Amends: seq<Event> := [AmendCall("a", D1, true), AmendCall("a", D2, true), AmendResp("a", D1, None)]
  const Settling: seq<Event> := [RunDeferred(0, true), AmendResp("a", D2, None), RunDeferred(0, true)]
  const Later: seq<Event> := [AmendCall("a", D3, true), AmendResp("a", D3, None), RunDeferred(0, true)]

  lemma CreationRun()
    ensures Legal(Init, Creation)
    ensures Run(Init, Creation) == Holding(NewOrder(Limit, 0.0, 1.0).(status := Pending), map[], [])
  {
    var o := NewOrder(Limit, 0.0, 1.0);
    Three(Init, Creation[0], Creation[1], Creation[2],
          Init.(orders := map["a" := o]),
          Holding(o.(status := Sending, inFlight := InFlight(1, 0, 0)), map[], []),
          Holding(o.(status := Pending), map[], []));
  }

  lemma AmendsRun()
    ensures var o := NewOrder(Limit, 0.0, 1.0).(status := Pending);
      var p := o.(price := 1.0, onAmend := [AmendCb(D2)]);
      && Legal(Holding(o, map[], []), Amends)
      && Run(Holding(o, map[], []), Amends) == Holding(p, map["a" := D2], [Job("a", AmendCb(D2))])
  {
    var o := NewOrder(Limit, 0.0, 1.0).(status := Pending);
    var a := o.(status := Amending, amending := Some(D1), inFlight := InFlight(0, 1, 0));
    var b := a.(onAmend := [AmendCb(D2)]);
    assert a.onAmend + [AmendCb(D2)] == b.onAmend;
    var s3 := Holding(o.(price := 1.0, onAmend := [AmendCb(D2)]), map["a" := D2], [Job("a", AmendCb(D2))]);
    assert Step(Holding(b, map["a" := D2], []), Amends[2]).jobs == [Job("a", AmendCb(D2))];
    Three(Holding(o, map[], []), Amends[0], Amends[1], Amends[2],
          Holding(a, map[], []), Holding(b, map["a" := D2], []), s3);
  }

  lemma SettlingRun()
    ensures var p := NewOrder(Limit, 1.0, 1.0).(status := Pending, onAmend := [AmendCb(D2)]);
      var s := Holding(p, map["a" := D2], [Job("a", AmendCb(D2))]);
      Legal(s, Settling) && Run(s, Settling) == Holding(p.(price := 2.0), map[], [])
  {
    var p := NewOrder(Limit, 1.0, 1.0).(status := Pending, onAmend := [AmendCb(D2)]);
    var job := Job("a", AmendCb(D2));
    var a := p.(status := Amending, amending := Some(D2), inFlight := InFlight(0, 1, 0));
    var s := Holding(p, map["a" := D2], [job]);
    assert s.jobs[..0] + s.jobs[1..] == [];
    assert Step(Holding(a, map[], []), Settling[1]).jobs == [job];
    Three(s, Settling[0], Settling[1], Settling[2],
          Holding(a, map[], []), Holding(p.(price := 2.0), map[], [job]), Holding(p.(price := 2.0), map[], []));
  }

  lemma LaterRun()
    ensures var p := NewOrder(Limit, 2.0, 1.0).(status := Pending, onAmend := [AmendCb(D2)]);
      var s := Holding(p, map[], []);
      && Legal(s, Later)
      && Run(s, Later)
         == Holding(p.(price := 3.0, status := Amending, amending := Some(D2), inFlight := InFlight(0, 1, 0)),
                    map[], [])
  {
    var p := NewOrder(Limit, 2.0, 1.0).(status := Pending, onAmend := [AmendCb(D2)]);
    var job := Job("a", AmendCb(D2));
    var a := p.(status := Amending, amending := Some(D3), inFlight := InFlight(0, 1, 0));
    var b := p.(price := 3.0);
    assert Step(Holding(a, map[], []), Later[1]).jobs == [job];
    assert Holding(b, map[], [job]).jobs[..0] + Holding(b, map[], [job]).jobs[1..] == [];
    Three(Holding(p, map[], []), Later[0], Later[1], Later[2],
          Holding(a, map[], []), Holding(b, map[], [job]),
          Holding(b.(status := Amending, amending := Some(D2), inFlight := InFlight(0, 1, 0)), map[], []));
  }

  /** The last amend asked for, D3, was accepted; the dealer then amends back to D2 on its own. */
  lemma OldAmendComesBack()
    ensures var es := Creation + Amends + Settling + Later;
      && Legal(Init, es) && "a" in Run(Init, es).orders
      && var o := Run(Init, es).orders["a"];
      && Detail(o.price, o.qty) == D3
      && o.status.Amending? && o.amending == Some(D2) && o.inFlight == InFlight(0, 1, 0)
  {
    CreationRun();
    AmendsRun();
    Glue(Init, Creation, Amends);
    SettlingRun();
    Glue(Init, Creation + Amends, Settling);
    LaterRun();
    Glue(Init, Creation + Amends + Settling, Later);
  }

  const Withdrawn: seq<Event> :=
    [AmendCall("a", D1, true), CancelCall("a", true), AmendResp("a", D1, None)]
  const Refused: seq<Event> :=
    [RunDeferred(0, true), CancelResp("a", Some(WarnError)), AmendCall("a", D3, true)]

  lemma WithdrawnRun()
    ensures var o := NewOrder(Limit, 0.0, 1.0).(status := Pending);
      && Legal(Holding(o, map[], []), Withdrawn)
      && Run(Holding(o, map[], []), Withdrawn)
         == Holding(o.(price := 1.0, onAmend := [CancelCb]), map[], [Job("a", CancelCb)])
  {
    var o := NewOrder(Limit, 0.0, 1.0).(status := Pending);
    var a := o.(status := Amending, amending := Some(D1), inFlight := InFlight(0, 1, 0));
    var b := a.(onAmend := [CancelCb]);
    assert Step(Holding(b, map[], []), Withdrawn[2]).jobs == [Job("a", CancelCb)];
    assert Step(Holding(a, map[], []), Withdrawn[1]).queued == map[];
    Three(Holding(o, map[], []), Withdrawn[0], Withdrawn[1], Withdrawn[2], Holding(a, map[], []),
          Holding(b, map[], []), Holding(o.(price := 1.0, onAmend := [CancelCb]), map[], [Job("a", CancelCb)]));
  }

  lemma RefusedRun()
    ensures var p := NewOrder(Limit, 1.0, 1.0).(status := Pending, onAmend := [CancelCb]);
      var s := Holding(p, map[], [Job("a", CancelCb)]);
      && Legal(s, Refused)
      && Run(s, Refused)
         == Holding(p.(status := Amending, amending := Some(D3), inFlight := InFlight(0, 1, 0)), map[], [])
  {
    var p := NewOrder(Limit, 1.0, 1.0).(status := Pending, onAmend := [CancelCb]);
    var s := Holding(p, map[], [Job("a", CancelCb)]);
    var c := p.(status := Canceling, inFlight := InFlight(0, 0, 1));
    assert s.jobs[..0] + s.jobs[1..] == [];
    Three(s, Refused[0], Refused[1], Refused[2], Holding(c, map[], []), Holding(p, map[], []),
          Holding(p.(status := Amending, amending := Some(D3), inFlight := InFlight(0, 1, 0)), map[], []));
  }

  /** The exchange refused the cancel; the amend asked for afterwards is accepted, and the cancel is sent again. */
  lemma OldCancelComesBack()
    ensures var es := Creation + Withdrawn + Refused + [AmendResp("a", D3, None)] + [RunDeferred(0, true)];
      && Legal(Init, es) && "a" in Run(Init, es).orders
      && var o := Run(Init, es).orders["a"];
      NowOf(o) == D3 && o.status.Canceling? && o.inFlight == InFlight(0, 0, 1)
  {
    CreationRun();
    WithdrawnRun();
    Glue(Init, Creation, Withdrawn);
    RefusedRun();
    Glue(Init, Creation + Withdrawn, Refused);
    var es, s := Creation + Withdrawn + Refused, Run(Init, Creation + Withdrawn + Refused);
    OneMore(Init, es, AmendResp("a", D3, None));
    var t := Step(s, AmendResp("a", D3, None));
    assert t.jobs == [Job("a", CancelCb)];
    OneMore(Init, es + [AmendResp("a", D3, None)], RunDeferred(0, true));
  }

  const CancelRefusedWithAmend: seq<Event> :=
    [AmendCall("a", D1, true), CancelCall("a", true), AmendResp("a", D1, Some(WarnError))]

  /** The exchange refuses the amend, and the cancel queued behind it is forgotten for now. */
  lemma RefusedAmendDropsCancel()
    ensures var es := Creation + CancelRefusedWithAmend;
      && Legal(Init, es) && "a" in Run(Init, es).orders && Run(Init, es).jobs == []
      && var o := Run(Init, es).orders["a"];
      o.status.Pending? && o.inFlight == InFlight(0, 0, 0) && o.onAmend == [CancelCb]
  {
    CreationRun();
    var o := NewOrder(Limit, 0.0, 1.0).(status := Pending);
    var a := o.(status := Amending, amending := Some(D1), inFlight := InFlight(0, 1, 0));
    assert Step(Holding(a, map[], []), CancelRefusedWithAmend[1]).queued == map[];
    Three(Holding(o, map[], []), CancelRefusedWithAmend[0], CancelRefusedWithAmend[1], CancelRefusedWithAmend[2],
          Holding(a, map[], []), Holding(a.(onAmend := [CancelCb]), map[], []),
          Holding(o.(onAmend := [CancelCb]), map[], []));
    Glue(Init, Creation, CancelRefusedWithAmend);
  }

  const CancelThenAmend: seq<Event> := [CancelCall("a", true), AmendCall("a", D1, true), SendResp("a", None)]

  lemma CancelThenAmendRun()
    ensures var sent := NewOrder(Limit, 0.0, 1.0).(status := Sending, inFlight := InFlight(1, 0, 0));
      var o := NewOrder(Limit, 0.0, 1.0).(status := Pending, onCreate := [CancelCb, AmendCb(D1)]);
      && Legal(Holding(sent, map[], []), CancelThenAmend)
      && Run(Holding(sent, map[], []), CancelThenAmend)
         == Holding(o, map["a" := D1], [Job("a", CancelCb), Job("a", AmendCb(D1))])
  {
    var sent := NewOrder(Limit, 0.0, 1.0).(status := Sending, inFlight := InFlight(1, 0, 0));
    var b, c := sent.(onCreate := [CancelCb]), sent.(onCreate := [CancelCb, AmendCb(D1)]);
    var o := NewOrder(Limit, 0.0, 1.0).(status := Pending, onCreate := [CancelCb, AmendCb(D1)]);
    assert Step(Holding(sent, map[], []), CancelThenAmend[0]).queued == map[];
    assert b.onCreate + [AmendCb(D1)] == c.onCreate;
    assert Step(Holding(c, map["a" := D1], []), CancelThenAmend[2]).jobs
        == [Job("a", CancelCb), Job("a", AmendCb(D1))];
    Three(Holding(sent, map[], []), CancelThenAmend[0], CancelThenAmend[1], CancelThenAmend[2],
          Holding(b, map[], []), Holding(c, map["a" := D1], []),
          Holding(o, map["a" := D1], [Job("a", CancelCb), Job("a", AmendCb(D1))]));
  }

  /** A new order, canceled and then amended while its create is unanswered; the amend's goroutine runs first. */
  lemma AmendOvertakesCancel()
    ensures var es := Creation[..2] + CancelThenAmend + [RunDeferred(1, true)] + [RunDeferred(0, true)];
      && Legal(Init, es) && "a" in Run(Init, es).orders && Run(Init, es).jobs == []
      && var o := Run(Init, es).orders["a"];
      o.status.Amending? && o.amending == Some(D1) && o.inFlight == InFlight(0, 1, 0)
  {
    var young := NewOrder(Limit, 0.0, 1.0);
    OneMore(Init, [], Creation[0]);
    OneMore(Init, [] + [Creation[0]], Creation[1]);
    assert [] + [Creation[0]] + [Creation[1]] == Creation[..2];
    assert Run(Init, Creation[..2]) == Holding(young.(status := Sending, inFlight := InFlight(1, 0, 0)), map[], []);
    CancelThenAmendRun();
    Glue(Init, Creation[..2], CancelThenAmend);
    OvertakingSteps();
    var es := Creation[..2] + CancelThenAmend;
    OneMore(Init, es, RunDeferred(1, true));
    OneMore(Init, es + [RunDeferred(1, true)], RunDeferred(0, true));
  }

  lemma OvertakingSteps()
    ensures var o := NewOrder(Limit, 0.0, 1.0).(status := Pending, onCreate := [CancelCb, AmendCb(D1)]);
      var s := Holding(o, map["a" := D1], [Job("a", CancelCb), Job("a", AmendCb(D1))]);
      var p := o.(status := Amending, amending := Some(D1), inFlight := InFlight(0, 1, 0));
      && Possible(s, RunDeferred(1, true)) && Step(s, RunDeferred(1, true)) == Holding(p, map[], [Job("a", CancelCb)])
      && Possible(Holding(p, map[], [Job("a", CancelCb)]), RunDeferred(0, true))
      && Step(Holding(p, map[], [Job("a", CancelCb)]), RunDeferred(0, true)) == Holding(p, map[], [])
  {
    var o := NewOrder(Limit, 0.0, 1.0).(status := Pending, onCreate := [CancelCb, AmendCb(D1)]);
    var jobs := [Job("a", CancelCb), Job("a", AmendCb(D1))];
    assert jobs[..1] + jobs[2..] == [Job("a", CancelCb)];
    assert jobs[..1][..0] + jobs[..1][1..] == [];
    assert map["a" := D1] - {"a"} == map[];
  }
}
