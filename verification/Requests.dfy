/**
 At most one request per order is in flight, and its kind is the one the status names.
 First the exact guard of one event, then the calling discipline that keeps whole runs inside it.
 */
module Requests {
  import opened Common
  import opened Protocol
  import opened Partition
  import opened Runs

  /** Only a finished order may still have an unanswered request of another kind. */
  ghost predicate OneRequest(o: Order) {
    var f := o.inFlight;
    && (o.status.Born? || o.status.Pending? ==> f.Idle())
    && (o.status.Sending? ==> f.creates <= 1 && f.amends == 0 && f.cancels == 0)
    && (o.status.Amending? ==> f.creates == 0 && f.amends == 1 && f.cancels == 0)
    && (o.status.Canceling? ==> f.creates == 0 && f.amends == 0 && f.cancels == 1)
    && (o.status.Done? ==> f.Single())
  }

  ghost predicate OneEach(s: State) {
    forall id | id in s.orders :: OneRequest(s.orders[id])
  }

  /** The detail a deferred amend will use. */
  function JobDetail(s: State, job: Job): Detail
    requires job.cb.AmendCb?
  {
    if job.id in s.queued then s.queued[job.id] else job.cb.detail
  }

  /** A deferred amend that fails before asking the agent, and so resets the order to Pending. */
  ghost predicate Misfires(s: State, job: Job)
    requires job.id in s.orders
  {
    var o := s.orders[job.id];
    && job.cb.AmendCb? && job.id in s.living && !o.status.Pending?
    && (o.amendCount >= AMEND_LIMIT || NeedToAmend(o, JobDetail(s, job)))
  }

  /**
   The exact guard. Where it fails, an order is left with a request its status does not account for,
   and the next call adds another one.
   */
  ghost predicate NoOverlap(s: State, e: Event)
    requires Possible(s, e)
  {
    match e
    case Send(id, ok) => SendAccepted(s, id) && ok ==> s.orders[id].inFlight.Idle()
    case SendBatch(ids, ok) =>
      SendsAccepted(s, ids) && ok ==> forall i | i in ids :: s.orders[i].inFlight.Idle()
    case CancelBatch(ids, ok) =>
      ok || Targets(s, ids) == {} || forall i | i in ids :: s.orders[i].inFlight.Idle()
    case RunDeferred(k, _) =>
      !Misfires(s, s.jobs[k]) || s.orders[s.jobs[k].id].inFlight.Idle()
    case _ => true
  }

  // ---------------------------------------------------------------------------------------------
  // One event
  // ---------------------------------------------------------------------------------------------

  lemma PutOneIff(s: State, id: string, o: Order)
    requires OneEach(s)
    ensures OneEach(Put(s, id, o)) <==> OneRequest(o)
  {
    var t := Put(s, id, o);
    assert t.orders[id] == o;
  }

  lemma IssueAmendIff(s: State, id: string, d: Detail, ok: bool)
    requires Inv(s) && OneEach(s) && id in s.orders
    ensures var o := s.orders[id];
      OneEach(IssueAmend(s, id, d, ok))
      <==> !(id in s.living && !o.status.Pending? && (o.amendCount >= AMEND_LIMIT || NeedToAmend(o, d)))
           || o.inFlight.Idle()
  {
    var o := s.orders[id];
    assert OneRequest(o);
    if id in s.living {
      var o1 := o.(status := Amending, amending := Some(d));
      var back := o.(status := Pending, amending := None);
      PutOneIff(s, id, back);
      if o.amendCount < AMEND_LIMIT && NeedToAmend(o, d) && o.status.Pending? {
        PutOneIff(s, id, Requested(o1, Amend));
        PutTwice(s, id, o1, back);
      }
    }
  }

  lemma IssueCancelOne(s: State, id: string, ok: bool)
    requires OneEach(s) && id in s.orders
    ensures OneEach(IssueCancel(s, id, ok))
  {
    var o := s.orders[id];
    assert OneRequest(o);
    if o.status.Pending? {
      var o1 := o.(status := Canceling);
      PutOneIff(s, id, Requested(o1, Cancel));
      PutOneIff(s, id, o1.(status := Pending));
      PutTwice(s, id, o1, o1.(status := Pending));
    }
  }

  lemma CallsKeepOne(s: State, id: string, d: Detail, ok: bool)
    requires Inv(s) && OneEach(s) && id in s.orders
    ensures OneEach(AmendOrder(s, id, d, ok)) && OneEach(CancelOrder(s, id, ok))
  {
    var o := s.orders[id];
    assert OneRequest(o);
    IssueAmendIff(s, id, d, ok);
    IssueCancelOne(s, id, ok);
    PutOneIff(s, id, o.(onCreate := [CancelCb]));
    PutOneIff(s, id, o.(onAmend := [CancelCb]));
  }

  lemma SendOrderOneIff(s: State, id: string, ok: bool)
    requires Inv(s) && OneEach(s) && id in s.orders
    ensures OneEach(SendOrder(s, id, ok)) <==> (SendAccepted(s, id) && ok ==> s.orders[id].inFlight.Idle())
  {
    assert OrderOk(s, id) && OneRequest(s.orders[id]);
    if SendAccepted(s, id) {
      var o := s.orders[id].(status := Sending);
      var o1 := o.(status := Done, reason := Some(Rejected));
      PutOneIff(s, id, Requested(o, Create));
      PutOneIff(s, id, o1);
      assert Put(Put(s, id, o), id, o1).orders == Put(s, id, o1).orders;
    }
  }

  lemma {:induction false} FinishAllOne(s: State, ids: seq<string>, why: Reason)
    requires forall i | i in ids :: i in s.orders
    requires forall i | i in s.orders :: s.orders[i].inFlight.Single() && (i in ids || OneRequest(s.orders[i]))
    ensures OneEach(FinishAll(s, ids, why))
    decreases |ids|
  {
    if ids != [] {
      var t := Finish(s, ids[0], why);
      forall i | i in t.orders ensures t.orders[i].inFlight.Single() && (i in ids[1..] || OneRequest(t.orders[i])) {
        assert i in ids <==> i == ids[0] || i in ids[1..];
      }
      FinishAllOne(t, ids[1..], why);
    }
  }

  lemma SendOrdersOneIff(s: State, ids: seq<string>, ok: bool)
    requires Inv(s) && OneEach(s)
    requires forall i | i in ids :: i in s.orders
    ensures OneEach(SendOrders(s, ids, ok))
       <==> (SendsAccepted(s, ids) && ok ==> forall i | i in ids :: s.orders[i].inFlight.Idle())
  {
    if SendsAccepted(s, ids) {
      var t := MarkSending(s, ids, ok);
      forall i | i in t.orders
        ensures i !in ids ==> OneRequest(t.orders[i])
        ensures i in ids && ok ==> (OneRequest(t.orders[i]) <==> s.orders[i].inFlight.Idle())
        ensures !ok ==> t.orders[i].inFlight.Single()
      {
        assert OrderOk(s, i) && OneRequest(s.orders[i]);
      }
      if !ok {
        FinishAllOne(t, ids, Rejected);
      }
    }
  }

  lemma AfterBatchCancelOneIff(o: Order, asked: bool, ok: bool)
    requires OneRequest(o) && (o.status.Pending? ==> asked)
    ensures OneRequest(AfterBatchCancel(o, asked, ok)) <==> (ok || !asked || o.inFlight.Idle())
  {
  }

  lemma CancelOrdersOneIff(s: State, ids: set<string>, ok: bool)
    requires OneEach(s) && ids <= s.orders.Keys
    ensures OneEach(CancelOrders(s, ids, ok))
       <==> (ok || Targets(s, ids) == {} || forall i | i in ids :: s.orders[i].inFlight.Idle())
  {
    var t := CancelOrders(s, ids, ok);
    var asked := Targets(s, ids) != {};
    forall i | i in ids
      ensures i in t.orders
      ensures OneRequest(t.orders[i]) <==> (ok || !asked || s.orders[i].inFlight.Idle())
    {
      assert s.orders[i].status.Pending? ==> i in Targets(s, ids);
      AfterBatchCancelOneIff(s.orders[i], asked, ok);
    }
    assert forall i | i in s.orders && i !in ids :: t.orders[i] == s.orders[i];
  }

  /** What a single response makes of the order it answers. */
  lemma ResponseOne(s: State, id: string, k: Kind, o: Order)
    requires OneEach(s) && id in s.orders && o.inFlight.Idle()
    requires !o.status.Amending? && !o.status.Canceling?
    ensures OneEach(Put(Receive(s, id, k), id, o))
  {
    assert Put(Receive(s, id, k), id, o).orders == Put(s, id, o).orders;
    PutOneIff(s, id, o);
  }

  lemma SendRespOne(s: State, id: string, err: Option<AgentError>)
    requires OneEach(s) && id in s.orders && Owed(s.orders[id], Create)
    ensures OneEach(HandleSend(Receive(s, id, Create), id, err))
  {
    assert OneRequest(s.orders[id]);
    var o := Answered(s.orders[id], Create);
    PutOneIff(s, id, o);
    ResponseOne(s, id, Create, o.(status := Done, reason := Some(Rejected)));
    ResponseOne(s, id, Create, o.(status := Pending));
  }

  lemma AmendRespOne(s: State, id: string, d: Detail, err: Option<AgentError>)
    requires Inv(s) && OneEach(s) && id in s.orders && Owed(s.orders[id], Amend)
    ensures OneEach(HandleAmend(Receive(s, id, Amend), id, d, err))
  {
    assert OneRequest(s.orders[id]) && OrderOk(s, id);
    var o := Answered(s.orders[id], Amend);
    if o.status.Amending? {
      ResponseOne(s, id, Amend, o.(status := Done, reason := Some(Abandoned)));
      ResponseOne(s, id, Amend, o.(status := Pending, amending := None));
      ResponseOne(s, id, Amend, o.(status := Pending, amending := None, price := d.price, qty := d.qty));
    } else {
      PutOneIff(s, id, o);
    }
  }

  lemma CancelRespOne(s: State, id: string, err: Option<AgentError>)
    requires Inv(s) && OneEach(s) && id in s.orders && Owed(s.orders[id], Cancel)
    ensures OneEach(HandleCancel(Receive(s, id, Cancel), id, err))
  {
    assert OneRequest(s.orders[id]) && OrderOk(s, id);
    var o := Answered(s.orders[id], Cancel);
    if o.status.Canceling? {
      ResponseOne(s, id, Cancel, o.(status := Done, reason := Some(Abandoned)));
      ResponseOne(s, id, Cancel, o.(status := Done, reason := Some(Canceled)));
      ResponseOne(s, id, Cancel, o.(status := Pending));
    } else {
      PutOneIff(s, id, o);
    }
  }

  /** While a batch cancel is being answered, the orders still to come have no request left. */
  ghost predicate OneOrAwaited(s: State, ids: seq<string>) {
    forall i | i in s.orders ::
      OneRequest(s.orders[i])
      || (i in ids && i in s.living && s.orders[i].status.Canceling? && s.orders[i].inFlight.Idle())
  }

  lemma HandleCancelAwaited(s: State, id: string, rest: seq<string>, err: Option<AgentError>)
    requires OneOrAwaited(s, [id] + rest) && id in s.orders && s.orders[id].inFlight.Idle()
    ensures OneOrAwaited(HandleCancel(s, id, err), rest)
    ensures forall i | i in s.orders ::
      i in HandleCancel(s, id, err).orders && HandleCancel(s, id, err).orders[i].inFlight == s.orders[i].inFlight
  {
    var t := HandleCancel(s, id, err);
    forall i | i in t.orders && i != id ensures t.orders[i] == s.orders[i] && (i in t.living <==> i in s.living) {
    }
    assert OneRequest(t.orders[id]);
  }

  lemma {:induction false} CancelEachOne(s: State, ids: seq<string>, a: BatchAnswer)
    requires a.PerOrder? && OneOrAwaited(s, ids)
    requires forall i | i in ids :: i in s.orders && s.orders[i].inFlight.Idle()
    ensures OneEach(HandleCancelEach(s, ids, a))
    decreases |ids|
  {
    if ids != [] {
      assert ids == [ids[0]] + ids[1..];
      HandleCancelAwaited(s, ids[0], ids[1..], a.For(ids[0]));
      CancelEachOne(HandleCancel(s, ids[0], a.For(ids[0])), ids[1..], a);
    }
  }

  lemma {:induction false} RejectCancelAllOne(s: State, ids: seq<string>)
    requires OneOrAwaited(s, ids)
    requires forall i | i in ids :: i in s.orders && s.orders[i].inFlight.Idle()
    ensures OneEach(RejectCancelAll(s, ids))
    decreases |ids|
  {
    if ids != [] {
      var t := RejectCancel(s, ids[0]);
      forall i | i in t.orders
        ensures OneRequest(t.orders[i])
          || (i in ids[1..] && i in t.living && t.orders[i].status.Canceling? && t.orders[i].inFlight.Idle())
      {
        assert i in ids <==> i == ids[0] || i in ids[1..];
      }
      RejectCancelAllOne(t, ids[1..]);
    }
  }

  lemma CancelBatchRespOne(s: State, ids: seq<string>, a: BatchAnswer)
    requires Inv(s) && OneEach(s) && OwedAll(s, ids, Cancel)
    ensures OneEach(HandleCancels(ReceiveAll(s, ids, Cancel), ids, a))
  {
    var s1 := ReceiveAll(s, ids, Cancel);
    var found := Among(s1, ids, Canceling);
    AmongWithin(s1, ids, Canceling);
    forall i | i in s1.orders
      ensures i in ids ==> s1.orders[i].inFlight.Idle()
      ensures OneRequest(s1.orders[i])
        || (i in found && i in s1.living && s1.orders[i].status.Canceling? && s1.orders[i].inFlight.Idle())
    {
      assert OneRequest(s.orders[i]) && OrderOk(s, i);
    }
    match a
    case Transport(_) => RejectCancelAllOne(s1, found);
    case PerOrder(_) => CancelEachOne(s1, found, a);
  }

  lemma {:induction false} SendEachOne(s: State, ids: seq<string>, a: BatchAnswer)
    requires a.PerOrder? && OneEach(s)
    requires forall i | i in ids :: i in s.orders && s.orders[i].inFlight.Idle()
    ensures OneEach(HandleSendEach(s, ids, a))
    decreases |ids|
  {
    if ids != [] {
      var t := HandleSend(s, ids[0], a.For(ids[0]));
      assert t.orders == s.orders[ids[0] := t.orders[ids[0]]];
      SendEachOne(t, ids[1..], a);
    }
  }

  lemma SendBatchRespOne(s: State, ids: seq<string>, a: BatchAnswer)
    requires OneEach(s) && OwedAll(s, ids, Create)
    ensures OneEach(HandleSends(ReceiveAll(s, ids, Create), ids, a))
  {
    var s1 := ReceiveAll(s, ids, Create);
    var found := Among(s1, ids, Sending);
    AmongWithin(s1, ids, Sending);
    forall i | i in s1.orders
      ensures i in ids ==> s1.orders[i].inFlight.Idle()
      ensures OneRequest(s1.orders[i]) && s1.orders[i].inFlight.Single()
    {
      assert OneRequest(s.orders[i]);
    }
    match a
    case Transport(_) => FinishAllOne(s1, found, Rejected);
    case PerOrder(_) => SendEachOne(s1, found, a);
  }

  lemma DataOne(s: State, d: OrderData)
    requires OneEach(s) && s.living <= s.orders.Keys
    ensures OneEach(HandleData(s, d))
  {
    var s1 := NoteForeign(s, d);
    assert s1.orders == s.orders && s1.living == s.living;
    if d.id in s.living {
      assert OneRequest(s.orders[d.id]);
      var o := FillInfo(s.orders[d.id], d);
      PutOneIff(s1, d.id, o);
      PutOneIff(Put(s1, d.id, o), d.id, o.(status := Done, reason := Some(Filled)));
      PutOneIff(Put(s1, d.id, o), d.id, o.(status := Done, reason := Some(PartiallyFilledAndCanceled)));
    }
  }

  lemma RunJobOneIff(s: State, k: nat, ok: bool)
    requires Inv(s) && OneEach(s) && k < |s.jobs|
    ensures OneEach(RunJob(s, k, ok))
       <==> !Misfires(s, s.jobs[k]) || s.orders[s.jobs[k].id].inFlight.Idle()
  {
    var job := s.jobs[k];
    var s1 := s.(jobs := s.jobs[..k] + s.jobs[k + 1..]);
    JobsKeep(s, s1.jobs);
    match job.cb
    case UserCb =>
    case CancelCb => IssueCancelOne(s1, job.id, ok);
    case AmendCb(_) =>
      var s2 := s1.(queued := s1.queued - {job.id});
      QueueKeeps(s1, s2.queued);
      IssueAmendIff(s2, job.id, JobDetail(s, job), ok);
  }

  /** An event keeps one request per order if and only if its guard holds. */
  lemma StepOneIff(s: State, e: Event)
    requires Inv(s) && OneEach(s) && Possible(s, e)
    ensures OneEach(Step(s, e)) <==> NoOverlap(s, e)
  {
    match e
    case New(id, t, p, q) => PutOneIff(s, id, NewOrder(t, p, q));
    case Send(id, ok) => SendOrderOneIff(s, id, ok);
    case SendBatch(ids, ok) => SendOrdersOneIff(s, ids, ok);
    case AmendCall(id, d, ok) => CallsKeepOne(s, id, d, ok);
    case CancelCall(id, ok) => CallsKeepOne(s, id, Detail(0.0, 0.0), ok);
    case CancelBatch(ids, ok) => CancelOrdersOneIff(s, ids, ok);
    case ListenCreate(id) => assert OneRequest(s.orders[id]);
    case ListenAmend(id) => assert OneRequest(s.orders[id]);
    case ExportDone =>
    case SendResp(id, err) => SendRespOne(s, id, err);
    case AmendResp(id, d, err) => AmendRespOne(s, id, d, err);
    case CancelResp(id, err) => CancelRespOne(s, id, err);
    case SendBatchResp(ids, a) => SendBatchRespOne(s, ids, a);
    case CancelBatchResp(ids, a) => CancelBatchRespOne(s, ids, a);
    case Data(d) => DataOne(s, d);
    case RunDeferred(k, ok) => RunJobOneIff(s, k, ok);
  }

  // ---------------------------------------------------------------------------------------------
  // Whole runs
  // ---------------------------------------------------------------------------------------------

  ghost predicate NoAmend(cbs: seq<Callback>) {
    forall i | 0 <= i < |cbs| :: !cbs[i].AmendCb?
  }

  ghost predicate AtMostOneAmend(cbs: seq<Callback>) {
    forall i, j | 0 <= i < j < |cbs| :: !(cbs[i].AmendCb? && cbs[j].AmendCb?)
  }

  /** Some goroutine still has to run a deferred amend of this order. */
  ghost predicate AmendWaits(s: State, id: string) {
    exists j :: 0 <= j < |s.jobs| && s.jobs[j].id == id && s.jobs[j].cb.AmendCb?
  }

  ghost predicate CalmOrder(s: State, id: string)
    requires id in s.orders
  {
    var o := s.orders[id];
    && o.amendCount < AMEND_LIMIT
    && NoAmend(o.onAmend)
    && (o.status.Born? ==> NoAmend(o.onCreate))
    && (o.status.Sending? ==> AtMostOneAmend(o.onCreate) && (id in s.queued || NoAmend(o.onCreate)))
    && (AmendWaits(s, id) ==> !o.status.Born? && !o.status.Sending? && !o.status.Amending?)
  }

  ghost predicate OneAmendJobEach(jobs: seq<Job>) {
    forall i, j | 0 <= i < j < |jobs| ::
      !(jobs[i].id == jobs[j].id && jobs[i].cb.AmendCb? && jobs[j].cb.AmendCb?)
  }

  ghost predicate Calm(s: State) {
    && OneAmendJobEach(s.jobs)
    && forall id | id in s.orders :: CalmOrder(s, id)
  }

  /**
   The calling discipline: orders are sent once, a failed batch cancel named only orders without a
   request, and no amend is asked for while another amend of the order is under way or waiting.
   */
  ghost predicate Orderly(s: State, e: Event)
    requires Possible(s, e)
  {
    && Disciplined(s, e)
    && (e.CancelBatch? ==> NoOverlap(s, e))
    && (e.AmendCall? ==> !s.orders[e.id].status.Amending? && !AmendWaits(s, e.id))
  }

  lemma CalmMeansNoOverlap(s: State, e: Event)
    requires Inv(s) && OneEach(s) && Calm(s) && Possible(s, e) && Orderly(s, e)
    ensures NoOverlap(s, e)
  {
    match e
    case Send(id, _) => assert OneRequest(s.orders[id]);
    case SendBatch(ids, _) => assert forall i | i in ids :: OneRequest(s.orders[i]);
    case RunDeferred(k, _) => assert CalmOrder(s, s.jobs[k].id);
    case _ =>
  }

  /** Changing one order and nothing else. */
  lemma PutCalm(s: State, id: string, o: Order)
    requires Calm(s)
    requires CalmOrder(Put(s, id, o), id)
    ensures Calm(Put(s, id, o))
  {
    var t := Put(s, id, o);
    forall i | i in t.orders ensures CalmOrder(t, i) {
      if i != id {
        assert CalmOrder(s, i);
      }
      assert AmendWaits(t, i) == AmendWaits(s, i);
    }
  }

  /** The usual change: a new status outside the amend phase, same callbacks. */
  lemma StatusCalm(s: State, id: string, o: Order)
    requires Calm(s) && id in s.orders
    requires o.status.Pending? || o.status.Canceling? || o.status.Done?
    requires o.amendCount == s.orders[id].amendCount && o.onAmend == s.orders[id].onAmend
    ensures Calm(Put(s, id, o))
  {
    assert CalmOrder(s, id);
    PutCalm(s, id, o);
  }

  /** Fields the calmness of a state does not look at. */
  lemma SameOrdersCalm(s: State, t: State)
    requires Calm(s) && t.orders == s.orders && t.queued == s.queued && t.jobs == s.jobs
    ensures Calm(t)
  {
    forall i | i in t.orders ensures CalmOrder(t, i) {
      assert CalmOrder(s, i);
      assert AmendWaits(t, i) == AmendWaits(s, i);
    }
  }

  lemma FinishCalm(s: State, id: string, why: Reason)
    requires Calm(s) && id in s.orders
    ensures Calm(Finish(s, id, why))
  {
    var o := s.orders[id].(status := Done, reason := Some(why));
    StatusCalm(s, id, o);
    SameOrdersCalm(Put(s, id, o), Finish(s, id, why));
  }

  lemma {:induction false} FinishAllCalm(s: State, ids: seq<string>, why: Reason)
    requires Calm(s) && (forall i | i in ids :: i in s.orders)
    ensures Calm(FinishAll(s, ids, why))
    decreases |ids|
  {
    if ids != [] {
      FinishCalm(s, ids[0], why);
      FinishAllCalm(Finish(s, ids[0], why), ids[1..], why);
    }
  }

  /** Handing a callback list to goroutines, for an order no deferred amend waits for. */
  lemma FireCalm(s: State, id: string, o: Order, cbs: seq<Callback>)
    requires Calm(s) && id in s.orders && !AmendWaits(s, id)
    requires o.status.Pending? && AtMostOneAmend(cbs)
    requires o.amendCount == s.orders[id].amendCount && o.onAmend == s.orders[id].onAmend
    ensures Calm(Put(s, id, o).(jobs := s.jobs + Jobs(id, cbs)))
  {
    var fired := Jobs(id, cbs);
    var t := Put(s, id, o).(jobs := s.jobs + fired);
    forall i, j | 0 <= i < j < |t.jobs|
      ensures !(t.jobs[i].id == t.jobs[j].id && t.jobs[i].cb.AmendCb? && t.jobs[j].cb.AmendCb?)
    {
      if i >= |s.jobs| {
        assert t.jobs[i] == fired[i - |s.jobs|] && t.jobs[j] == fired[j - |s.jobs|];
      }
    }
    forall i | i in t.orders ensures CalmOrder(t, i) {
      assert CalmOrder(s, i);
      if i != id && AmendWaits(t, i) {
        var j :| 0 <= j < |t.jobs| && t.jobs[j].id == i && t.jobs[j].cb.AmendCb?;
        assert j < |s.jobs|;
      }
    }
  }

  lemma HandleSendCalm(s: State, id: string, err: Option<AgentError>)
    requires Calm(s) && id in s.orders
    ensures Calm(HandleSend(s, id, err))
  {
    if id in s.living && s.orders[id].status.Sending? {
      assert CalmOrder(s, id);
      match err
      case Some(e) =>
        FinishCalm(s, id, Rejected);
        SameOrdersCalm(Finish(s, id, Rejected), Notice(Finish(s, id, Rejected), e));
      case None =>
        FireCalm(s, id, s.orders[id].(status := Pending), s.orders[id].onCreate);
    }
  }

  lemma HandleAmendCalm(s: State, id: string, d: Detail, err: Option<AgentError>)
    requires Calm(s) && id in s.orders
    ensures Calm(HandleAmend(s, id, d, err))
  {
    if id in s.living && s.orders[id].status.Amending? {
      assert CalmOrder(s, id);
      var o := s.orders[id].(status := Pending, amending := None);
      match err
      case Some(e) =>
        FinishCalm(s, id, Abandoned);
        StatusCalm(s, id, o);
        SameOrdersCalm(RejectAmend(s, id), Notice(RejectAmend(s, id), e));
      case None =>
        FireCalm(s, id, AcceptAmend(s, id, d).orders[id], s.orders[id].onAmend);
    }
  }

  lemma HandleCancelCalm(s: State, id: string, err: Option<AgentError>)
    requires Calm(s) && id in s.orders
    ensures Calm(HandleCancel(s, id, err))
  {
    if id in s.living && s.orders[id].status.Canceling? {
      match err
      case Some(e) =>
        FinishCalm(s, id, Abandoned);
        StatusCalm(s, id, s.orders[id].(status := Pending));
        SameOrdersCalm(RejectCancel(s, id), Notice(RejectCancel(s, id), e));
      case None =>
        FinishCalm(s, id, Canceled);
    }
  }

  lemma {:induction false} HandleSendEachCalm(s: State, ids: seq<string>, a: BatchAnswer)
    requires Calm(s) && a.PerOrder? && (forall i | i in ids :: i in s.orders)
    ensures Calm(HandleSendEach(s, ids, a))
    decreases |ids|
  {
    if ids != [] {
      HandleSendCalm(s, ids[0], a.For(ids[0]));
      HandleSendEachCalm(HandleSend(s, ids[0], a.For(ids[0])), ids[1..], a);
    }
  }

  lemma {:induction false} HandleCancelEachCalm(s: State, ids: seq<string>, a: BatchAnswer)
    requires Calm(s) && a.PerOrder? && (forall i | i in ids :: i in s.orders)
    ensures Calm(HandleCancelEach(s, ids, a))
    decreases |ids|
  {
    if ids != [] {
      HandleCancelCalm(s, ids[0], a.For(ids[0]));
      HandleCancelEachCalm(HandleCancel(s, ids[0], a.For(ids[0])), ids[1..], a);
    }
  }

  lemma {:induction false} RejectCancelAllCalm(s: State, ids: seq<string>)
    requires Calm(s) && (forall i | i in ids :: i in s.orders)
    ensures Calm(RejectCancelAll(s, ids))
    decreases |ids|
  {
    if ids != [] {
      StatusCalm(s, ids[0], s.orders[ids[0]].(status := Pending));
      RejectCancelAllCalm(RejectCancel(s, ids[0]), ids[1..]);
    }
  }

  lemma ReceiveCalm(s: State, ids: seq<string>, k: Kind)
    requires Calm(s)
    ensures Calm(ReceiveAll(s, ids, k))
    ensures forall id | id in s.orders :: Calm(Receive(s, id, k))
  {
    var t := ReceiveAll(s, ids, k);
    forall i | i in t.orders ensures CalmOrder(t, i) {
      assert CalmOrder(s, i);
      assert AmendWaits(t, i) == AmendWaits(s, i);
    }
    forall id | id in s.orders ensures Calm(Receive(s, id, k)) {
      assert CalmOrder(s, id);
      PutCalm(s, id, Answered(s.orders[id], k));
    }
  }

  lemma BatchRespCalm(s: State, ids: seq<string>, a: BatchAnswer)
    requires Calm(s) && (forall i | i in ids :: i in s.orders)
    ensures Calm(HandleSends(s, ids, a)) && Calm(HandleCancels(s, ids, a))
  {
    AmongWithin(s, ids, Sending);
    AmongWithin(s, ids, Canceling);
    match a
    case Transport(e) =>
      var x, y := FinishAll(s, Among(s, ids, Sending), Rejected), RejectCancelAll(s, Among(s, ids, Canceling));
      FinishAllCalm(s, Among(s, ids, Sending), Rejected);
      RejectCancelAllCalm(s, Among(s, ids, Canceling));
      SameOrdersCalm(x, Notice(x, e));
      SameOrdersCalm(y, Notice(y, e));
    case PerOrder(_) =>
      HandleSendEachCalm(s, Among(s, ids, Sending), a);
      HandleCancelEachCalm(s, Among(s, ids, Canceling), a);
  }

  lemma IssueCalm(s: State, id: string, d: Detail, ok: bool)
    requires Calm(s) && id in s.orders
    ensures !AmendWaits(s, id) ==> Calm(IssueAmend(s, id, d, ok))
    ensures Calm(IssueCancel(s, id, ok))
  {
    var o := s.orders[id];
    assert CalmOrder(s, id);
    var o1, o2 := o.(status := Amending, amending := Some(d)), o.(status := Canceling);
    StatusCalm(s, id, o.(status := Pending, amending := None));
    StatusCalm(s, id, Requested(o2, Cancel));
    StatusCalm(s, id, o2);
    StatusCalm(Put(s, id, o2), id, o2.(status := Pending));
    if !AmendWaits(s, id) {
      assert !AmendWaits(Put(s, id, o1), id) && !AmendWaits(Put(s, id, Requested(o1, Amend)), id);
      PutCalm(s, id, Requested(o1, Amend));
      PutCalm(s, id, o1);
      StatusCalm(Put(s, id, o1), id, o1.(status := Pending, amending := None));
    }
  }

  lemma CallsCalm(s: State, id: string, d: Detail, ok: bool)
    requires Calm(s) && id in s.orders
    ensures !s.orders[id].status.Amending? && !AmendWaits(s, id) ==> Calm(AmendOrder(s, id, d, ok))
    ensures Calm(CancelOrder(s, id, ok))
  {
    assert CalmOrder(s, id);
    IssueCalm(s, id, d, ok);
    if s.orders[id].status.Sending? {
      DeferCalm(s, AmendOrder(s, id, d, ok), id);
      DeferCalm(s, CancelOrder(s, id, ok), id);
    } else if s.orders[id].status.Amending? {
      DeferCalm(s, CancelOrder(s, id, ok), id);
    }
  }

  /** Queueing a callback of one order. */
  lemma DeferCalm(s: State, t: State, id: string)
    requires Calm(s) && t.jobs == s.jobs
    requires t.orders.Keys == s.orders.Keys && id in t.orders
    requires forall i | i in s.orders && i != id :: t.orders[i] == s.orders[i] && (i in t.queued <==> i in s.queued)
    requires CalmOrder(t, id)
    ensures Calm(t)
  {
    forall i | i in t.orders ensures CalmOrder(t, i) {
      if i != id {
        assert CalmOrder(s, i);
      }
      assert AmendWaits(t, i) == AmendWaits(s, i);
    }
  }

  lemma SendCalm(s: State, ids: seq<string>, ok: bool)
    requires Calm(s) && Fresh(s, ids)
    ensures Calm(MarkSending(s, ids, ok))
  {
    var t := MarkSending(s, ids, ok);
    forall i | i in t.orders ensures CalmOrder(t, i) {
      assert CalmOrder(s, i);
      assert AmendWaits(t, i) == AmendWaits(s, i);
    }
  }

  lemma SendOneCalm(s: State, id: string, ok: bool)
    requires Calm(s) && id in s.orders && (SendAccepted(s, id) ==> s.orders[id].status.Born?)
    ensures Calm(SendOrder(s, id, ok))
  {
    if SendAccepted(s, id) {
      assert CalmOrder(s, id);
      var o := s.orders[id].(status := Sending);
      var p := if ok then Requested(o, Create) else o;
      var s1 := Put(s, id, p).(living := s.living + {id});
      assert AmendWaits(Put(s, id, p), id) == AmendWaits(s, id);
      PutCalm(s, id, p);
      SameOrdersCalm(Put(s, id, p), s1);
      FinishCalm(s1, id, Rejected);
    }
  }

  lemma CancelBatchCalm(s: State, ids: set<string>, ok: bool)
    requires Calm(s) && ids <= s.orders.Keys
    ensures Calm(CancelOrders(s, ids, ok))
  {
    var t := CancelOrders(s, ids, ok);
    var asked := Targets(s, ids) != {};
    forall i | i in t.orders ensures CalmOrder(t, i) {
      var o, p := s.orders[i], t.orders[i];
      assert CalmOrder(s, i);
      assert AmendWaits(t, i) == AmendWaits(s, i);
      assert i in ids && o.status.Pending? ==> i in Targets(s, ids);
      if i in ids {
        assert o.status.Sending? ==> p.onCreate == [CancelCb] && p.onAmend == o.onAmend;
        assert o.status.Amending? ==> p.onAmend == [CancelCb] && p.onCreate == o.onCreate;
      }
    }
  }

  lemma DataCalm(s: State, d: OrderData)
    requires Calm(s) && s.living <= s.orders.Keys
    ensures Calm(HandleData(s, d))
  {
    var s1 := NoteForeign(s, d);
    SameOrdersCalm(s, s1);
    if d.id in s1.living {
      assert CalmOrder(s1, d.id);
      var o := FillInfo(s1.orders[d.id], d);
      assert AmendWaits(Put(s1, d.id, o), d.id) == AmendWaits(s1, d.id);
      PutCalm(s1, d.id, o);
      FinishCalm(Put(s1, d.id, o), d.id, Filled);
      FinishCalm(Put(s1, d.id, o), d.id, PartiallyFilledAndCanceled);
    }
  }

  /** Taking one job out; a deferred amend also consumes the queued detail. */
  lemma TakeJobCalm(s: State, k: nat)
    requires Calm(s) && k < |s.jobs| && s.jobs[k].id in s.orders
    ensures var job := s.jobs[k];
      var s1 := s.(jobs := s.jobs[..k] + s.jobs[k + 1..]);
      && Calm(s1)
      && (job.cb.AmendCb? ==> Calm(s1.(queued := s1.queued - {job.id})) && !AmendWaits(s1, job.id))
  {
    var job := s.jobs[k];
    var s1 := s.(jobs := s.jobs[..k] + s.jobs[k + 1..]);
    assert forall j | 0 <= j < |s1.jobs| :: s1.jobs[j] == s.jobs[if j < k then j else j + 1];
    forall i | i in s1.orders ensures CalmOrder(s1, i) {
      assert CalmOrder(s, i);
      assert AmendWaits(s1, i) ==> AmendWaits(s, i);
    }
    if job.cb.AmendCb? {
      assert AmendWaits(s, job.id) && CalmOrder(s, job.id);
      var s2 := s1.(queued := s1.queued - {job.id});
      forall i | i in s2.orders ensures CalmOrder(s2, i) {
        assert CalmOrder(s1, i);
        assert AmendWaits(s2, i) == AmendWaits(s1, i);
      }
    }
  }

  lemma RunJobCalm(s: State, k: nat, ok: bool)
    requires Calm(s) && k < |s.jobs| && s.jobs[k].id in s.orders
    ensures Calm(RunJob(s, k, ok))
  {
    var job := s.jobs[k];
    var s1 := s.(jobs := s.jobs[..k] + s.jobs[k + 1..]);
    TakeJobCalm(s, k);
    match job.cb
    case UserCb =>
    case CancelCb => IssueCalm(s1, job.id, Detail(0.0, 0.0), ok);
    case AmendCb(_) =>
      var s2 := s1.(queued := s1.queued - {job.id});
      assert AmendWaits(s2, job.id) == AmendWaits(s1, job.id);
      IssueCalm(s2, job.id, JobDetail(s, job), ok);
  }

  lemma NewCalm(s: State, id: string, t: OrderType, p: real, q: real)
    requires Inv(s) && Calm(s) && id !in s.orders
    ensures Calm(Put(s, id, NewOrder(t, p, q)))
  {
    assert !AmendWaits(Put(s, id, NewOrder(t, p, q)), id);
    PutCalm(s, id, NewOrder(t, p, q));
  }

  lemma ListenCalm(s: State, id: string)
    requires Calm(s) && id in s.orders
    ensures Calm(ListenForCreate(s, id)) && Calm(ListenForAmend(s, id))
  {
    assert CalmOrder(s, id);
    DeferCalm(s, ListenForCreate(s, id), id);
    DeferCalm(s, ListenForAmend(s, id), id);
  }

  lemma SendBatchCalm(s: State, ids: seq<string>, ok: bool)
    requires Calm(s) && (forall i | i in ids :: i in s.orders)
    requires SendsAccepted(s, ids) ==> Fresh(s, ids)
    ensures Calm(SendOrders(s, ids, ok))
  {
    if SendsAccepted(s, ids) {
      SendCalm(s, ids, ok);
      FinishAllCalm(MarkSending(s, ids, ok), ids, Rejected);
    }
  }

  lemma StepCalm(s: State, e: Event)
    requires Inv(s) && Calm(s) && Possible(s, e) && Orderly(s, e)
    ensures Calm(Step(s, e))
  {
    match e
    case New(id, t, p, q) => NewCalm(s, id, t, p, q);
    case Send(id, ok) => SendOneCalm(s, id, ok);
    case SendBatch(ids, ok) => SendBatchCalm(s, ids, ok);
    case AmendCall(id, d, ok) => CallsCalm(s, id, d, ok);
    case CancelCall(id, ok) => CallsCalm(s, id, Detail(0.0, 0.0), ok);
    case CancelBatch(ids, ok) => CancelBatchCalm(s, ids, ok);
    case ListenCreate(id) => ListenCalm(s, id);
    case ListenAmend(id) => ListenCalm(s, id);
    case ExportDone => SameOrdersCalm(s, Export(s));
    case SendResp(id, err) =>
      ReceiveCalm(s, [], Create);
      HandleSendCalm(Receive(s, id, Create), id, err);
    case AmendResp(id, d, err) =>
      ReceiveCalm(s, [], Amend);
      HandleAmendCalm(Receive(s, id, Amend), id, d, err);
    case CancelResp(id, err) =>
      ReceiveCalm(s, [], Cancel);
      HandleCancelCalm(Receive(s, id, Cancel), id, err);
    case SendBatchResp(ids, a) =>
      ReceiveCalm(s, ids, Create);
      BatchRespCalm(ReceiveAll(s, ids, Create), ids, a);
    case CancelBatchResp(ids, a) =>
      ReceiveCalm(s, ids, Cancel);
      BatchRespCalm(ReceiveAll(s, ids, Cancel), ids, a);
    case Data(d) => DataCalm(s, d);
    case RunDeferred(k, ok) => RunJobCalm(s, k, ok);
  }

  ghost predicate OrderlyRun(s: State, es: seq<Event>)
    requires Legal(s, es)
    decreases |es|
  {
    es == [] || (Orderly(s, es[0]) && OrderlyRun(Step(s, es[0]), es[1..]))
  }

  lemma {:induction false} RunKeepsOne(s: State, es: seq<Event>)
    requires Inv(s) && OneEach(s) && Calm(s) && Legal(s, es) && OrderlyRun(s, es)
    ensures Inv(Run(s, es)) && OneEach(Run(s, es)) && Calm(Run(s, es))
    decreases |es|
  {
    if es != [] {
      StepKeepsIff(s, es[0]);
      CalmMeansNoOverlap(s, es[0]);
      StepOneIff(s, es[0]);
      StepCalm(s, es[0]);
      RunKeepsOne(Step(s, es[0]), es[1..]);
    }
  }

  /** After every orderly run from an empty dealer, each order has at most its one request in flight. */
  lemma OneRequestAtATime(es: seq<Event>, id: string)
    requires Legal(Init, es) && OrderlyRun(Init, es)
    requires id in Run(Init, es).orders
    ensures OneRequest(Run(Init, es).orders[id])
  {
    RunKeepsOne(Init, es);
  }

  // ---------------------------------------------------------------------------------------------
  // A run in which two requests of one order overlap
  // ---------------------------------------------------------------------------------------------

  const Reset: seq<Event> := [Send("b", true), SendResp("a", None), CancelBatch({"a", "b"}, false)]

  /** The batch cancel finds one Pending order, is refused, and resets the other one too. */
  lemma ResetRun()
    ensures Legal(Pair(Sent, Young, {"a"}, [], []), Reset)
    ensures var pending := Young.(status := Pending);
      Run(Pair(Sent, Young, {"a"}, [], []), Reset)
      == Pair(pending, Sent.(status := Pending, onCreate := [CancelCb]), {"a", "b"}, [], [])
  {
    var pending, both := Young.(status := Pending), {"a", "b"};
    var s, t := Pair(Sent, Young, {"a"}, [], []), Pair(Sent, Sent, both, [], []);
    var u := Pair(pending, Sent, both, [], []);
    assert Step(s, Reset[0]).living == both;
    assert Step(t, Reset[1]).jobs == [];
    assert "a" in Targets(u, both);
    Three(s, Reset[0], Reset[1], Reset[2], t, u,
          Pair(pending, Sent.(status := Pending, onCreate := [CancelCb]), both, [], []));
  }

  /** The order then looks idle, and a cancel joins the create that is still unanswered. */
  lemma RequestsOverlap()
    ensures var es := Two + Reset + [CancelCall("b", true)];
      && Legal(Init, es) && "b" in Run(Init, es).orders
      && Run(Init, es).orders["b"].inFlight == InFlight(1, 0, 1)
  {
    TwoRun();
    ResetRun();
    Glue(Init, Two, Reset);
    OneMore(Init, Two + Reset, CancelCall("b", true));
  }
}
