/**
 What waits behind an order: its two callback lists and its queued detail. Which events change them, and how,
 by the type and the status of the order; every other event leaves them alone.
 */
module Waitlists {
  import opened Common
  import opened Protocol

  datatype Waits = Waits(onCreate: seq<Callback>, onAmend: seq<Callback>, queued: Option<Detail>)

  function Behind(s: State, id: string): Waits
    requires id in s.orders
  {
    Waits(s.orders[id].onCreate, s.orders[id].onAmend, if id in s.queued then Some(s.queued[id]) else None)
  }

  /** An amend call queues its detail, and a callback for it unless one waits or the order's type takes none. */
  function AfterAmendCall(w: Waits, o: Order, d: Detail): Waits {
    if o.status == Sending then
      w.(onCreate := if w.queued.Some? || o.orderType in {Market, LimitFOK, LimitIOC} then w.onCreate
                     else w.onCreate + [AmendCb(d)],
         queued := Some(d))
    else if o.status == Amending then
      w.(onAmend := if w.queued.Some? || o.orderType !in {Limit, LimitMaker} then w.onAmend
                    else w.onAmend + [AmendCb(d)],
         queued := Some(d))
    else w
  }

  /** A cancel call takes the place of everything that waits. */
  function AfterCancelCall(w: Waits, o: Order): Waits {
    if o.status == Sending then w.(onCreate := [CancelCb], queued := None)
    else if o.status == Amending then w.(onAmend := [CancelCb], queued := None)
    else w
  }

  ghost function WaitsAfter(s: State, e: Event, id: string): Waits
    requires Possible(s, e) && id in s.orders
  {
    var w, o := Behind(s, id), s.orders[id];
    match e
    case AmendCall(i, d, _) => if i == id && s.accepting then AfterAmendCall(w, o, d) else w
    case CancelCall(i, _) => if i == id then AfterCancelCall(w, o) else w
    case CancelBatch(ids, _) => if id in ids then AfterCancelCall(w, o) else w
    case ListenCreate(i) =>
      if i == id && o.orderType !in {Market, LimitFOK, LimitIOC} then w.(onCreate := w.onCreate + [UserCb]) else w
    case ListenAmend(i) =>
      if i == id && o.orderType in {Limit, LimitMaker} then w.(onAmend := w.onAmend + [UserCb]) else w
    case RunDeferred(k, _) => if s.jobs[k].id == id && s.jobs[k].cb.AmendCb? then w.(queued := None) else w
    case _ => w
  }

  ghost predicate Same(s: State, t: State, id: string) {
    id in s.orders && id in t.orders && Behind(t, id) == Behind(s, id)
  }

  lemma {:induction false} FinishAllSame(s: State, ids: seq<string>, why: Reason, id: string)
    requires id in s.orders && forall i | i in ids :: i in s.orders
    ensures Same(s, FinishAll(s, ids, why), id)
    decreases |ids|
  {
    if ids != [] {
      FinishAllSame(Finish(s, ids[0], why), ids[1..], why, id);
    }
  }

  lemma {:induction false} RejectAllSame(s: State, ids: seq<string>, id: string)
    requires id in s.orders && forall i | i in ids :: i in s.orders
    ensures Same(s, RejectCancelAll(s, ids), id)
    decreases |ids|
  {
    if ids != [] {
      RejectAllSame(RejectCancel(s, ids[0]), ids[1..], id);
    }
  }

  lemma HandleSendSame(s: State, i: string, err: Option<AgentError>, id: string)
    requires i in s.orders && id in s.orders
    ensures Same(s, HandleSend(s, i, err), id)
  {
  }

  lemma HandleAmendSame(s: State, i: string, d: Detail, err: Option<AgentError>, id: string)
    requires i in s.orders && id in s.orders
    ensures Same(s, HandleAmend(s, i, d, err), id)
  {
  }

  lemma HandleCancelSame(s: State, i: string, err: Option<AgentError>, id: string)
    requires i in s.orders && id in s.orders
    ensures Same(s, HandleCancel(s, i, err), id)
  {
  }

  lemma {:induction false} SendEachSame(s: State, ids: seq<string>, a: BatchAnswer, id: string)
    requires a.PerOrder? && id in s.orders && forall i | i in ids :: i in s.orders
    ensures Same(s, HandleSendEach(s, ids, a), id)
    decreases |ids|
  {
    if ids != [] {
      HandleSendSame(s, ids[0], a.For(ids[0]), id);
      SendEachSame(HandleSend(s, ids[0], a.For(ids[0])), ids[1..], a, id);
    }
  }

  lemma {:induction false} CancelEachSame(s: State, ids: seq<string>, a: BatchAnswer, id: string)
    requires a.PerOrder? && id in s.orders && forall i | i in ids :: i in s.orders
    ensures Same(s, HandleCancelEach(s, ids, a), id)
    decreases |ids|
  {
    if ids != [] {
      HandleCancelSame(s, ids[0], a.For(ids[0]), id);
      CancelEachSame(HandleCancel(s, ids[0], a.For(ids[0])), ids[1..], a, id);
    }
  }

  lemma BatchAnswerSame(s: State, ids: seq<string>, a: BatchAnswer, id: string)
    requires id in s.orders && forall i | i in ids :: i in s.orders
    ensures Same(s, HandleSends(s, ids, a), id) && Same(s, HandleCancels(s, ids, a), id)
  {
    var created, canceled := Among(s, ids, Sending), Among(s, ids, Canceling);
    AmongWithin(s, ids, Sending);
    AmongWithin(s, ids, Canceling);
    FinishAllSame(s, created, Rejected, id);
    RejectAllSame(s, canceled, id);
    if a.PerOrder? {
      SendEachSame(s, created, a, id);
      CancelEachSame(s, canceled, a, id);
    }
  }

  lemma SendSame(s: State, i: string, ids: seq<string>, ok: bool, id: string)
    requires i in s.orders && id in s.orders && forall j | j in ids :: j in s.orders
    ensures Same(s, SendOrder(s, i, ok), id) && Same(s, SendOrders(s, ids, ok), id)
  {
    if SendsAccepted(s, ids) && !ok {
      FinishAllSame(MarkSending(s, ids, false), ids, Rejected, id);
    }
  }

  lemma IssueSame(s: State, i: string, d: Detail, ok: bool, id: string)
    requires i in s.orders && id in s.orders
    ensures Same(s, IssueAmend(s, i, d, ok), id) && Same(s, IssueCancel(s, i, ok), id)
  {
  }

  lemma AmendCallWaits(s: State, i: string, d: Detail, ok: bool, id: string)
    requires i in s.orders && id in s.orders
    ensures id in AmendOrder(s, i, d, ok).orders
    ensures Behind(AmendOrder(s, i, d, ok), id)
         == if i == id && s.accepting then AfterAmendCall(Behind(s, id), s.orders[id], d) else Behind(s, id)
  {
    IssueSame(s, i, d, ok, id);
  }

  lemma CancelCallWaits(s: State, i: string, ids: set<string>, ok: bool, id: string)
    requires i in s.orders && id in s.orders && ids <= s.orders.Keys
    ensures id in CancelOrder(s, i, ok).orders && id in CancelOrders(s, ids, ok).orders
    ensures Behind(CancelOrder(s, i, ok), id)
         == if i == id then AfterCancelCall(Behind(s, id), s.orders[id]) else Behind(s, id)
    ensures Behind(CancelOrders(s, ids, ok), id)
         == if id in ids then AfterCancelCall(Behind(s, id), s.orders[id]) else Behind(s, id)
  {
    IssueSame(s, i, Detail(0.0, 0.0), ok, id);
    assert id in Deferred(s, ids) <==> id in ids && s.orders[id].status.IsBusy();
  }

  lemma DataSame(s: State, d: OrderData, id: string)
    requires id in s.orders && s.living <= s.orders.Keys
    ensures Same(s, HandleData(s, d), id)
  {
    var s1 := NoteForeign(s, d);
    assert s1.orders == s.orders && s1.queued == s.queued;
    if d.id in s1.living {
      var s2 := Put(s1, d.id, FillInfo(s1.orders[d.id], d));
      assert Same(s, s2, id);
      assert Same(s2, Finish(s2, d.id, Filled), id);
      assert Same(s2, Finish(s2, d.id, PartiallyFilledAndCanceled), id);
    }
  }

  lemma RunJobWaits(s: State, k: nat, ok: bool, id: string)
    requires id in s.orders && k < |s.jobs| && s.jobs[k].id in s.orders
    ensures id in RunJob(s, k, ok).orders
    ensures Behind(RunJob(s, k, ok), id)
         == if s.jobs[k].id == id && s.jobs[k].cb.AmendCb? then Behind(s, id).(queued := None) else Behind(s, id)
  {
    var job := s.jobs[k];
    var s1 := s.(jobs := s.jobs[..k] + s.jobs[k + 1..]);
    IssueSame(s1, job.id, Detail(0.0, 0.0), ok, id);
    if job.cb.AmendCb? {
      var s2 := s1.(queued := s1.queued - {job.id});
      IssueSame(s2, job.id, if job.id in s.queued then s.queued[job.id] else job.cb.detail, ok, id);
    }
  }

  lemma ReceiveSame(s: State, i: string, ids: seq<string>, k: Kind, id: string)
    requires i in s.orders && id in s.orders
    ensures Same(s, Receive(s, i, k), id) && Same(s, ReceiveAll(s, ids, k), id)
  {
  }

  lemma AnswersSame(s: State, e: Event, id: string)
    requires id in s.orders && Possible(s, e)
    requires e.SendResp? || e.AmendResp? || e.CancelResp? || e.SendBatchResp? || e.CancelBatchResp?
    ensures Same(s, Step(s, e), id)
  {
    match e
    case SendResp(i, err) =>
      ReceiveSame(s, i, [], Create, id);
      HandleSendSame(Receive(s, i, Create), i, err, id);
    case AmendResp(i, d, err) =>
      ReceiveSame(s, i, [], Amend, id);
      HandleAmendSame(Receive(s, i, Amend), i, d, err, id);
    case CancelResp(i, err) =>
      ReceiveSame(s, i, [], Cancel, id);
      HandleCancelSame(Receive(s, i, Cancel), i, err, id);
    case SendBatchResp(ids, a) =>
      ReceiveSame(s, id, ids, Create, id);
      BatchAnswerSame(ReceiveAll(s, ids, Create), ids, a, id);
    case CancelBatchResp(ids, a) =>
      ReceiveSame(s, id, ids, Cancel, id);
      BatchAnswerSame(ReceiveAll(s, ids, Cancel), ids, a, id);
  }

  /** Every event does to what waits behind every order exactly this. */
  lemma WaitsHold(s: State, e: Event, id: string)
    requires id in s.orders && Possible(s, e)
    ensures id in Step(s, e).orders && Behind(Step(s, e), id) == WaitsAfter(s, e, id)
  {
    match e
    case New(_, _, _, _) =>
    case Send(i, ok) => SendSame(s, i, [], ok, id);
    case SendBatch(ids, ok) => SendSame(s, id, ids, ok, id);
    case AmendCall(i, d, ok) => AmendCallWaits(s, i, d, ok, id);
    case CancelCall(i, ok) => CancelCallWaits(s, i, {}, ok, id);
    case CancelBatch(ids, ok) => CancelCallWaits(s, id, ids, ok, id);
    case ListenCreate(_) =>
    case ListenAmend(_) =>
    case ExportDone =>
    case Data(d) => DataSame(s, d, id);
    case RunDeferred(k, ok) => RunJobWaits(s, k, ok, id);
    case _ => AnswersSame(s, e, id);
  }

  // ---------------------------------------------------------------------------------------------
  // Which callbacks start
  // ---------------------------------------------------------------------------------------------

  /** The callbacks that the answer to a create starts, in list order: none unless it is accepted. */
  function Starts(s: State, id: string, err: Option<AgentError>): seq<Job>
    requires id in s.orders
  {
    var o := s.orders[id];
    if id in s.living && o.status == Sending && err == None && o.orderType in {Limit, LimitFOK, LimitIOC, LimitMaker}
    then seq(|o.onCreate|, i requires 0 <= i < |o.onCreate| => Job(id, o.onCreate[i])) else []
  }

  /** Exactly the callbacks of an accepted create or amend are handed to goroutines. */
  lemma StartedByAnswers(s: State, id: string, d: Detail, err: Option<AgentError>)
    requires id in s.orders
    ensures HandleSend(s, id, err).jobs == s.jobs + Starts(s, id, err)
    ensures HandleAmend(s, id, d, err).jobs
         == s.jobs + if id in s.living && s.orders[id].status == Amending && err == None
                     then seq(|s.orders[id].onAmend|,
                              i requires 0 <= i < |s.orders[id].onAmend| => Job(id, s.orders[id].onAmend[i]))
                     else []
    ensures HandleCancel(s, id, err).jobs == s.jobs
  {
  }
}
