/** Done is absorbing: the first terminating event fixes an order's outcome for good. */
module Finality {
  import opened Common
  import opened Protocol
  import opened Partition
  import opened Runs

  /** Everything an order tells its owner about how it ended. */
  ghost predicate SameOutcome(a: Order, b: Order) {
    && a.orderType == b.orderType && a.status == b.status && a.reason == b.reason
    && a.price == b.price && a.qty == b.qty
    && a.avgPrice == b.avgPrice && a.execQty == b.execQty && a.fee == b.fee
  }

  /** The order has ended and left the living map. */
  ghost predicate Ended(s: State, id: string) {
    id in s.orders && s.orders[id].status.Done? && id !in s.living
  }

  /** The order is still known and its outcome is what it was. */
  ghost predicate Kept(s: State, t: State, id: string) {
    id in s.orders && id in t.orders && SameOutcome(s.orders[id], t.orders[id])
  }

  /** An ended order keeps its outcome and stays out of the living map. */
  ghost predicate Rests(s: State, t: State, id: string) {
    Kept(s, t, id) && id !in t.living
  }

  // ---------------------------------------------------------------------------------------------
  // The exact guard
  // ---------------------------------------------------------------------------------------------

  /** Being refused once more changes nothing for an order that ended by being refused. */
  ghost predicate RefusedAgain(s: State, id: string, ok: bool)
    requires id in s.orders
  {
    !ok && s.orders[id].reason == Some(Rejected)
  }

  /** The events that leave the outcome of an ended order alone; all but two kinds always do. */
  ghost predicate Spares(s: State, e: Event, id: string)
    requires Possible(s, e) && id in s.orders
  {
    match e
    case Send(i, ok) => i != id || !SendAccepted(s, id) || RefusedAgain(s, id, ok)
    case SendBatch(ids, ok) => id !in ids || !SendsAccepted(s, ids) || RefusedAgain(s, id, ok)
    case CancelBatch(ids, ok) => id !in ids || ok || Targets(s, ids) == {}
    case _ => true
  }

  // ---------------------------------------------------------------------------------------------
  // One event
  // ---------------------------------------------------------------------------------------------

  /** What ending a list of orders does to one order. */
  lemma {:induction false} FinishAllAt(s: State, ids: seq<string>, why: Reason, id: string)
    requires id in s.orders
    requires forall i | i in ids :: i in s.orders
    ensures var t := FinishAll(s, ids, why);
      && id in t.orders
      && t.orders[id] == (if id in ids then s.orders[id].(status := Done, reason := Some(why)) else s.orders[id])
      && (id in t.living <==> id in s.living && id !in ids)
    decreases |ids|
  {
    if ids != [] {
      FinishAllAt(Finish(s, ids[0], why), ids[1..], why, id);
      assert id in ids <==> id == ids[0] || id in ids[1..];
    }
  }

  lemma {:induction false} RejectCancelAllSpares(s: State, ids: seq<string>, id: string)
    requires Ended(s, id) && id !in ids
    requires forall i | i in ids :: i in s.orders
    ensures Rests(s, RejectCancelAll(s, ids), id)
    decreases |ids|
  {
    if ids != [] {
      RejectCancelAllSpares(RejectCancel(s, ids[0]), ids[1..], id);
    }
  }

  lemma {:induction false} HandleSendEachSpares(s: State, ids: seq<string>, a: BatchAnswer, id: string)
    requires a.PerOrder? && Ended(s, id) && id !in ids
    requires forall i | i in ids :: i in s.orders
    ensures Rests(s, HandleSendEach(s, ids, a), id)
    decreases |ids|
  {
    if ids != [] {
      HandleSendEachSpares(HandleSend(s, ids[0], a.For(ids[0])), ids[1..], a, id);
    }
  }

  lemma {:induction false} HandleCancelEachSpares(s: State, ids: seq<string>, a: BatchAnswer, id: string)
    requires a.PerOrder? && Ended(s, id) && id !in ids
    requires forall i | i in ids :: i in s.orders
    ensures Rests(s, HandleCancelEach(s, ids, a), id)
    decreases |ids|
  {
    if ids != [] {
      HandleCancelEachSpares(HandleCancel(s, ids[0], a.For(ids[0])), ids[1..], a, id);
    }
  }

  lemma DoneSurvivesIssue(s: State, i: string, d: Detail, ok: bool, id: string)
    requires i in s.orders && Ended(s, id)
    ensures Rests(s, IssueAmend(s, i, d, ok), id)
    ensures Rests(s, IssueCancel(s, i, ok), id)
  {
  }

  lemma DoneSurvivesCall(s: State, i: string, d: Detail, ok: bool, id: string)
    requires i in s.orders && Ended(s, id)
    ensures Rests(s, AmendOrder(s, i, d, ok), id)
    ensures Rests(s, CancelOrder(s, i, ok), id)
  {
    DoneSurvivesIssue(s, i, d, ok, id);
  }

  lemma DoneSurvivesSendIff(s: State, i: string, ok: bool, id: string)
    requires i in s.orders && Ended(s, id)
    ensures Kept(s, SendOrder(s, i, ok), id) <==> Spares(s, Send(i, ok), id)
    ensures Spares(s, Send(i, ok), id) ==> Rests(s, SendOrder(s, i, ok), id)
  {
  }

  lemma DoneSurvivesBatchSendIff(s: State, ids: seq<string>, ok: bool, id: string)
    requires (forall i | i in ids :: i in s.orders) && Ended(s, id)
    ensures Kept(s, SendOrders(s, ids, ok), id) <==> Spares(s, SendBatch(ids, ok), id)
    ensures Spares(s, SendBatch(ids, ok), id) ==> Rests(s, SendOrders(s, ids, ok), id)
  {
    if SendsAccepted(s, ids) {
      var t := MarkSending(s, ids, ok);
      assert t.orders[id].status == if id in ids then Sending else Done;
      if !ok {
        FinishAllAt(t, ids, Rejected, id);
      }
    }
  }

  lemma DoneSurvivesBatchCancelIff(s: State, ids: set<string>, ok: bool, id: string)
    requires ids <= s.orders.Keys && Ended(s, id)
    ensures Kept(s, CancelOrders(s, ids, ok), id) <==> Spares(s, CancelBatch(ids, ok), id)
    ensures CancelOrders(s, ids, ok).living == s.living
  {
  }

  /** A response handler looks for a living order and so leaves an ended one alone. */
  lemma DoneSurvivesResponse(s: State, i: string, k: Kind, d: Detail, err: Option<AgentError>, id: string)
    requires i in s.orders && Ended(s, id)
    ensures var r := Receive(s, i, k);
      && Rests(s, HandleSend(r, i, err), id)
      && Rests(s, HandleAmend(r, i, d, err), id)
      && Rests(s, HandleCancel(r, i, err), id)
  {
    var r := Receive(s, i, k);
    assert SameOutcome(s.orders[id], r.orders[id]) && r.living == s.living;
    HandlersSpareEnded(r, i, d, err, id);
  }

  lemma HandlersSpareEnded(s: State, i: string, d: Detail, err: Option<AgentError>, id: string)
    requires i in s.orders && Ended(s, id)
    ensures Rests(s, HandleSend(s, i, err), id)
    ensures Rests(s, HandleAmend(s, i, d, err), id)
    ensures Rests(s, HandleCancel(s, i, err), id)
  {
  }

  lemma DoneSurvivesData(s: State, d: OrderData, id: string)
    requires s.living <= s.orders.Keys && Ended(s, id)
    ensures Rests(s, HandleData(s, d), id)
  {
    var s1 := NoteForeign(s, d);
    assert s1.orders == s.orders && s1.living == s.living;
    if d.id in s1.living {
      var s2 := Put(s1, d.id, FillInfo(s1.orders[d.id], d));
      assert s2.orders[id] == s.orders[id];
      assert Finish(s2, d.id, Filled).orders[id] == s2.orders[id];
      assert Finish(s2, d.id, PartiallyFilledAndCanceled).orders[id] == s2.orders[id];
    }
  }

  lemma DoneSurvivesBatchCreated(s: State, ids: seq<string>, a: BatchAnswer, id: string)
    requires (forall i | i in ids :: i in s.orders) && Ended(s, id)
    ensures Rests(s, HandleSends(ReceiveAll(s, ids, Create), ids, a), id)
  {
    var s1 := ReceiveAll(s, ids, Create);
    AmongWithin(s1, ids, Sending);
    match a
    case Transport(_) => FinishAllAt(s1, Among(s1, ids, Sending), Rejected, id);
    case PerOrder(_) => HandleSendEachSpares(s1, Among(s1, ids, Sending), a, id);
  }

  lemma DoneSurvivesBatchCanceled(s: State, ids: seq<string>, a: BatchAnswer, id: string)
    requires (forall i | i in ids :: i in s.orders) && Ended(s, id)
    ensures Rests(s, HandleCancels(ReceiveAll(s, ids, Cancel), ids, a), id)
  {
    var s1 := ReceiveAll(s, ids, Cancel);
    AmongWithin(s1, ids, Canceling);
    match a
    case Transport(_) => RejectCancelAllSpares(s1, Among(s1, ids, Canceling), id);
    case PerOrder(_) => HandleCancelEachSpares(s1, Among(s1, ids, Canceling), a, id);
  }

  lemma DoneSurvivesDeferred(s: State, k: nat, ok: bool, id: string)
    requires k < |s.jobs| && s.jobs[k].id in s.orders && Ended(s, id)
    ensures Rests(s, RunJob(s, k, ok), id)
  {
    var job := s.jobs[k];
    var s1 := s.(jobs := s.jobs[..k] + s.jobs[k + 1..]);
    match job.cb
    case UserCb =>
    case CancelCb => DoneSurvivesIssue(s1, job.id, Detail(0.0, 0.0), ok, id);
    case AmendCb(captured) =>
      var d := if job.id in s.queued then s.queued[job.id] else captured;
      DoneSurvivesIssue(s1.(queued := s1.queued - {job.id}), job.id, d, ok, id);
  }

  /** An event keeps the outcome of an ended order if and only if its guard holds. */
  lemma DoneSurvivesIff(s: State, e: Event, id: string)
    requires Possible(s, e) && Ended(s, id)
    ensures Kept(s, Step(s, e), id) <==> Spares(s, e, id)
    ensures Spares(s, e, id) ==> Ended(Step(s, e), id)
  {
    match e
    case New(_, _, _, _) =>
    case Send(i, ok) => DoneSurvivesSendIff(s, i, ok, id);
    case SendBatch(ids, ok) => DoneSurvivesBatchSendIff(s, ids, ok, id);
    case AmendCall(i, d, ok) => DoneSurvivesCall(s, i, d, ok, id);
    case CancelCall(i, ok) => DoneSurvivesCall(s, i, Detail(0.0, 0.0), ok, id);
    case CancelBatch(ids, ok) => DoneSurvivesBatchCancelIff(s, ids, ok, id);
    case ListenCreate(_) =>
    case ListenAmend(_) =>
    case ExportDone =>
    case SendResp(i, err) => DoneSurvivesResponse(s, i, Create, Detail(0.0, 0.0), err, id);
    case AmendResp(i, d, err) => DoneSurvivesResponse(s, i, Amend, d, err, id);
    case CancelResp(i, err) => DoneSurvivesResponse(s, i, Cancel, Detail(0.0, 0.0), err, id);
    case SendBatchResp(ids, a) => DoneSurvivesBatchCreated(s, ids, a, id);
    case CancelBatchResp(ids, a) => DoneSurvivesBatchCanceled(s, ids, a, id);
    case Data(d) => DoneSurvivesData(s, d, id);
    case RunDeferred(k, ok) => DoneSurvivesDeferred(s, k, ok, id);
  }

  // ---------------------------------------------------------------------------------------------
  // Whole runs
  // ---------------------------------------------------------------------------------------------

  /** Every event of the run spares the order; what happens to other orders does not matter. */
  ghost predicate SparingRun(s: State, es: seq<Event>, id: string)
    requires Legal(s, es)
    decreases |es|
  {
    es == [] || (id in s.orders && Spares(s, es[0], id) && SparingRun(Step(s, es[0]), es[1..], id))
  }

  lemma {:induction false} DoneIsFinal(s: State, es: seq<Event>, id: string)
    requires Legal(s, es) && Ended(s, id) && SparingRun(s, es, id)
    ensures Rests(s, Run(s, es), id)
    decreases |es|
  {
    if es != [] {
      DoneSurvivesIff(s, es[0], id);
      DoneIsFinal(Step(s, es[0]), es[1..], id);
    }
  }

  /** A run in which orders are sent once and refused batch cancels name living orders spares what has ended. */
  lemma {:induction false} DisciplineSpares(s: State, es: seq<Event>, id: string)
    requires Inv(s) && Legal(s, es) && DisciplinedRun(s, es)
    requires id in s.orders && s.orders[id].status.Done?
    ensures Ended(s, id) && SparingRun(s, es, id)
    decreases |es|
  {
    assert OrderOk(s, id);
    if es != [] {
      assert es[0].Send? && SendAccepted(s, es[0].id) ==> es[0].id in [es[0].id];
      StepKeepsIff(s, es[0]);
      DoneSurvivesIff(s, es[0], id);
      DisciplineSpares(Step(s, es[0]), es[1..], id);
    }
  }

  lemma {:induction false} DisciplineSplits(s: State, a: seq<Event>, b: seq<Event>)
    requires Legal(s, a + b) && DisciplinedRun(s, a + b)
    requires Legal(s, a) && Legal(Run(s, a), b)
    ensures DisciplinedRun(s, a) && DisciplinedRun(Run(s, a), b)
    decreases |a|
  {
    if a == [] {
      assert a + b == b;
    } else {
      assert (a + b)[0] == a[0] && (a + b)[1..] == a[1..] + b;
      DisciplineSplits(Step(s, a[0]), a[1..], b);
    }
  }

  /** In a run from an empty dealer, what is Done after `a` has the same outcome after `a + b`. */
  lemma FirstEndingWins(a: seq<Event>, b: seq<Event>, id: string)
    requires Legal(Init, a + b) && DisciplinedRun(Init, a + b)
    requires Legal(Init, a) && id in Run(Init, a).orders && Run(Init, a).orders[id].status.Done?
    ensures Kept(Run(Init, a), Run(Init, a + b), id)
  {
    Split(Init, a, b);
    DisciplineSplits(Init, a, b);
    RunKeeps(Init, a);
    DisciplineSpares(Run(Init, a), b, id);
    DoneIsFinal(Run(Init, a), b, id);
  }

  /** A response that arrives after the end is consumed and changes nothing else. */
  lemma StaleResponseIsInert(s: State, e: Event)
    requires Possible(s, e)
    requires e.SendResp? || e.AmendResp? || e.CancelResp?
    requires Ended(s, e.id)
    ensures var k := if e.SendResp? then Create else if e.AmendResp? then Amend else Cancel;
      Step(s, e) == Receive(s, e.id, k)
  {
  }

  lemma {:induction false} NoneAmong(s: State, ids: seq<string>, st: Status)
    requires forall i | i in ids :: i in s.orders && i !in s.living
    ensures Among(s, ids, st) == []
  {
    if ids != [] {
      NoneAmong(s, ids[1..], st);
    }
  }

  /** The same for a batch answer to ended orders, except that a transport error is still noticed. */
  lemma StaleBatchIsInert(s: State, e: Event)
    requires Possible(s, e) && (e.SendBatchResp? || e.CancelBatchResp?)
    requires forall i | i in e.ids :: Ended(s, i)
    ensures var r := ReceiveAll(s, e.ids, if e.SendBatchResp? then Create else Cancel);
      Step(s, e) == match e.answer
                    case Transport(err) => Notice(r, err)
                    case PerOrder(_) => r
  {
    if e.SendBatchResp? {
      NoneAmong(ReceiveAll(s, e.ids, Create), e.ids, Sending);
    } else {
      NoneAmong(ReceiveAll(s, e.ids, Cancel), e.ids, Canceling);
    }
  }

  // ---------------------------------------------------------------------------------------------
  // Why the guard is there
  // ---------------------------------------------------------------------------------------------

  /** Every failed batch cancel that reached the agent revives each finished order it named. */
  lemma FailedBatchCancelRevives(s: State, ids: set<string>, id: string)
    requires Inv(s) && ids <= s.orders.Keys && Targets(s, ids) != {}
    requires id in ids && s.orders[id].status.Done?
    ensures var t := Step(s, CancelBatch(ids, false));
      t.orders[id].status.Pending? && id !in t.living && Logged(t, id) == 1 && !Inv(t)
  {
    assert OrderOk(s, id);
    CancelOrdersIff(s, ids, false);
  }

  /** A concrete run: an order the agent refused can be sent again and leaves Done. */
  lemma ResendRevives()
    ensures var a := [New("a", Limit, 1.0, 1.0), Send("a", false)];
      var b := [Send("a", true)];
      && Legal(Init, a) && "a" in Run(Init, a).orders && Run(Init, a).orders["a"].status.Done?
      && Legal(Init, a + b) && "a" in Run(Init, a + b).orders && Run(Init, a + b).orders["a"].status.Sending?
      && Logged(Run(Init, a + b), "a") == 1 && "a" in Run(Init, a + b).living
  {
    var e0, e1, e2 := New("a", Limit, 1.0, 1.0), Send("a", false), Send("a", true);
    var s1 := Step(Init, e0);
    var s2 := Step(s1, e1);
    StepOf(s2, e2, []);
    StepOf(s1, e1, []);
    StepOf(Init, e0, [e1]);
    assert [e0] + [e1] == [e0, e1] && [e1] + [] == [e1] && [e2] + [] == [e2];
    Glue(Init, [e0, e1], [e2]);
  }

  const OneRefused: seq<Event> := [Send("b", false), SendResp("a", None), ExportDone]

  const Refused := Young.(status := Done, reason := Some(Rejected))

  lemma OneRefusedRun()
    ensures Legal(Pair(Sent, Young, {"a"}, [], []), OneRefused)
    ensures Run(Pair(Sent, Young, {"a"}, [], []), OneRefused)
         == Pair(Young.(status := Pending), Refused, {"a"}, [], [Managed("b")])
  {
    var s, t := Pair(Sent, Young, {"a"}, [], []), Pair(Sent, Refused, {"a"}, [Managed("b")], []);
    var pending := Young.(status := Pending);
    assert Step(s, OneRefused[0]).living == {"a"};
    assert Step(t, OneRefused[1]).jobs == [];
    Three(s, OneRefused[0], OneRefused[1], OneRefused[2], t,
          Pair(pending, Refused, {"a"}, [Managed("b")], []), Pair(pending, Refused, {"a"}, [], [Managed("b")]));
  }

  /** A concrete run: a refused batch cancel brings back an order that was refused, logged and exported. */
  lemma BatchCancelRevives()
    ensures var es, e := Two + OneRefused, CancelBatch({"a", "b"}, false);
      && Legal(Init, es) && Ended(Run(Init, es), "b")
      && Legal(Init, es + [e]) && "b" in Run(Init, es + [e]).orders
      && Run(Init, es + [e]).orders["b"].status.Pending?
      && "b" !in Run(Init, es + [e]).living && Logged(Run(Init, es + [e]), "b") == 1
  {
    TwoRun();
    OneRefusedRun();
    Glue(Init, Two, OneRefused);
    var s := Run(Init, Two + OneRefused);
    assert "a" in Targets(s, {"a", "b"});
    OneMore(Init, Two + OneRefused, CancelBatch({"a", "b"}, false));
  }
}
