/**
 What each event means for each order, written down a second time from the order's side: the fields a client
 can read, whether the order is living, and how often it is logged. The protocol's state functions are proved
 to do exactly this, for every event and every order.
 */
module LifeCycle {
  import opened Common
  import opened Protocol
  import opened Partition

  /** What can be seen of an order. */
  datatype Visible = Visible(
    orderType: OrderType,
    status: Status,
    reason: Option<Reason>,
    price: real,
    qty: real,
    avgPrice: real,
    execQty: real,
    fee: real,
    amending: Option<Detail>,
    amendCount: int,
    living: bool,
    logged: int)

  function Show(o: Order, living: bool, logged: int): Visible {
    Visible(o.orderType, o.status, o.reason, o.price, o.qty, o.avgPrice, o.execQty, o.fee, o.amending,
            o.amendCount, living, logged)
  }

  ghost function Sees(s: State, id: string): Visible
    requires id in s.orders
  {
    Show(s.orders[id], id in s.living, Logged(s, id))
  }

  // ---------------------------------------------------------------------------------------------
  // The fate of one order
  // ---------------------------------------------------------------------------------------------

  /** It is over: out of the living map and once more into the log. */
  function Over(v: Visible, why: Reason): Visible {
    v.(status := Done, reason := Some(why), living := false, logged := v.logged + 1)
  }

  /** A send names the order `times` times. */
  function AfterSend(v: Visible, admitted: bool, ok: bool, times: int): Visible {
    if !admitted || times == 0 then v
    else if ok then v.(status := Sending, living := true)
    else v.(status := Done, reason := Some(Rejected), living := false, logged := v.logged + times)
  }

  /** The agent's answer to the create. */
  function AfterCreated(v: Visible, err: Option<AgentError>): Visible {
    if !v.living || v.status != Sending then v
    else if err.Some? then Over(v, Rejected)
    else if v.orderType in {Limit, LimitFOK, LimitIOC, LimitMaker} then v.(status := Pending)
    else v
  }

  /** The agent's answer to an amend. */
  function AfterAmended(v: Visible, d: Detail, err: Option<AgentError>): Visible {
    if !v.living || v.status != Amending then v
    else if err == Some(OrderIsNotExists) then Over(v, Abandoned)
    else if err.Some? then v.(status := Pending, amending := None)
    else v.(status := Pending, amending := None, price := d.price, qty := d.qty)
  }

  /** The agent's answer to a cancel. */
  function AfterCanceled(v: Visible, err: Option<AgentError>): Visible {
    if !v.living || v.status != Canceling then v
    else if err == Some(OrderIsNotExists) then Over(v, Abandoned)
    else if err.Some? then v.(status := Pending)
    else Over(v, Canceled)
  }

  /** An entry of the private feed that names the order. */
  function AfterData(v: Visible, d: OrderData): Visible {
    if !v.living || d.status !in {DataFilled, DataPartiallyFilled} then v
    else
      var w := v.(avgPrice := d.avgPrice, execQty := d.execQty, fee := d.fee);
      if d.status == DataFilled then Over(w, Filled)
      else if v.orderType == LimitIOC then Over(w, PartiallyFilledAndCanceled)
      else w
  }

  /** A cancel is asked of the agent. */
  function AfterCancelAsked(v: Visible, ok: bool): Visible {
    if v.status == Pending && ok then v.(status := Canceling) else v
  }

  /** An amend to `d` is asked of the agent, unless it would change nothing or the order is not ready for it. */
  function AfterAmendAsked(v: Visible, d: Detail, ok: bool): Visible {
    var changes := v.price != d.price || v.qty != d.qty;
    if !v.living then v
    else if v.amendCount >= 9500 then v.(status := Pending, amending := None)
    else if v.status == Pending && changes && ok then v.(status := Amending, amending := Some(d))
    else if v.status == Pending && changes then v.(amending := None)
    else if v.status == Amending && changes && v.amending != Some(d) then v.(status := Pending, amending := None)
    else v
  }

  /** A batch cancel names the order; `asked` if it names any Pending order. */
  function AfterBatchCancel(v: Visible, asked: bool, ok: bool): Visible {
    if !asked then v else if !ok then v.(status := Pending) else AfterCancelAsked(v, true)
  }

  function AnswerFor(a: BatchAnswer, id: string): Option<AgentError>
    requires a.PerOrder?
  {
    if id in a.errors then Some(a.errors[id]) else None
  }

  /** A transport error refuses every create and every cancel of the batch, whatever it says. */
  function CreateAnswer(a: BatchAnswer, id: string): Option<AgentError> {
    if a.Transport? then Some(a.error) else AnswerFor(a, id)
  }

  function CancelAnswer(a: BatchAnswer, id: string): Option<AgentError> {
    if a.Transport? then Some(WarnError) else AnswerFor(a, id)
  }

  /** What an event makes of an order. */
  ghost function Fated(s: State, e: Event, id: string): Visible
    requires Possible(s, e) && id in s.orders
  {
    var v := Sees(s, id);
    match e
    case Send(i, ok) => AfterSend(v, s.accepting && !v.living, ok, if i == id then 1 else 0)
    case SendBatch(ids, ok) =>
      AfterSend(v, s.accepting && forall i | i in ids :: i !in s.living, ok, multiset(ids)[id])
    case AmendCall(i, d, ok) =>
      if i == id && s.accepting && v.status == Pending then AfterAmendAsked(v, d, ok) else v
    case CancelCall(i, ok) => if i == id then AfterCancelAsked(v, ok) else v
    case CancelBatch(ids, ok) =>
      if id in ids then AfterBatchCancel(v, exists i :: i in ids && s.orders[i].status == Pending, ok) else v
    case SendResp(i, err) => if i == id then AfterCreated(v, err) else v
    case AmendResp(i, d, err) => if i == id then AfterAmended(v, d, err) else v
    case CancelResp(i, err) => if i == id then AfterCanceled(v, err) else v
    case SendBatchResp(ids, a) =>
      if id in ids then AfterCreated(v, CreateAnswer(a, id)) else v
    case CancelBatchResp(ids, a) =>
      if id in ids then AfterCanceled(v, CancelAnswer(a, id)) else v
    case Data(d) => if d.id == id then AfterData(v, d) else v
    case RunDeferred(k, ok) =>
      var job := s.jobs[k];
      if job.id != id || job.cb.UserCb? then v
      else if job.cb.CancelCb? then AfterCancelAsked(v, ok)
      else AfterAmendAsked(v, if id in s.queued then s.queued[id] else job.cb.detail, ok)
    case _ => v
  }

  // ---------------------------------------------------------------------------------------------
  // The protocol does this: steps of one order
  // ---------------------------------------------------------------------------------------------

  lemma PutSees(s: State, i: string, o: Order, id: string)
    requires id in s.orders
    ensures Sees(Put(s, i, o), id) == if i == id then Show(o, id in s.living, Logged(s, id)) else Sees(s, id)
  {
  }

  lemma FinishSees(s: State, i: string, why: Reason, id: string)
    requires i in s.orders && id in s.orders
    ensures Sees(Finish(s, i, why), id) == if i == id then Over(Sees(s, id), why) else Sees(s, id)
  {
  }

  lemma {:induction false} FinishAllSees(s: State, ids: seq<string>, why: Reason, id: string)
    requires id in s.orders && forall i | i in ids :: i in s.orders
    ensures id in FinishAll(s, ids, why).orders
    ensures var v := Sees(s, id);
      Sees(FinishAll(s, ids, why), id)
      == if id !in ids then v
         else v.(status := Done, reason := Some(why), living := false, logged := v.logged + multiset(ids)[id])
    decreases |ids|
  {
    if ids != [] {
      assert ids == [ids[0]] + ids[1..];
      FinishSees(s, ids[0], why, id);
      FinishAllSees(Finish(s, ids[0], why), ids[1..], why, id);
    }
  }

  lemma SendSees(s: State, i: string, ok: bool, id: string)
    requires i in s.orders && id in s.orders
    ensures id in SendOrder(s, i, ok).orders
    ensures var v := Sees(s, id);
      Sees(SendOrder(s, i, ok), id) == AfterSend(v, s.accepting && !v.living, ok, if i == id then 1 else 0)
  {
  }

  lemma MarkSees(s: State, ids: seq<string>, ok: bool, id: string)
    requires id in s.orders
    ensures Sees(MarkSending(s, ids, ok), id)
         == if id in ids then Sees(s, id).(status := Sending, living := true) else Sees(s, id)
  {
    assert id in Ids(ids) <==> id in ids;
  }

  lemma SendBatchSees(s: State, ids: seq<string>, ok: bool, id: string)
    requires id in s.orders && forall i | i in ids :: i in s.orders
    ensures id in SendOrders(s, ids, ok).orders
    ensures Sees(SendOrders(s, ids, ok), id)
         == AfterSend(Sees(s, id), s.accepting && forall i | i in ids :: i !in s.living, ok, multiset(ids)[id])
  {
    assert id in ids <==> multiset(ids)[id] > 0;
    if SendsAccepted(s, ids) {
      MarkSees(s, ids, ok, id);
      if !ok {
        FinishAllSees(MarkSending(s, ids, false), ids, Rejected, id);
      }
    }
  }

  lemma IssueAmendSees(s: State, i: string, d: Detail, ok: bool, id: string)
    requires i in s.orders && id in s.orders
    ensures id in IssueAmend(s, i, d, ok).orders
    ensures Sees(IssueAmend(s, i, d, ok), id) == if i == id then AfterAmendAsked(Sees(s, id), d, ok) else Sees(s, id)
  {
    var o := s.orders[i];
    var asked, back := o.(status := Amending, amending := Some(d)), o.(status := Pending, amending := None);
    PutSees(s, i, back, id);
    PutSees(s, i, Requested(asked, Amend), id);
    PutTwice(s, i, asked, back);
  }

  lemma IssueCancelSees(s: State, i: string, ok: bool, id: string)
    requires i in s.orders && id in s.orders
    ensures id in IssueCancel(s, i, ok).orders
    ensures Sees(IssueCancel(s, i, ok), id) == if i == id then AfterCancelAsked(Sees(s, id), ok) else Sees(s, id)
  {
    var o := s.orders[i];
    var asked := o.(status := Canceling);
    PutSees(s, i, asked.(status := Pending), id);
    PutSees(s, i, Requested(asked, Cancel), id);
    PutTwice(s, i, asked, asked.(status := Pending));
  }

  lemma AmendCallSees(s: State, i: string, d: Detail, ok: bool, id: string)
    requires i in s.orders && id in s.orders
    ensures id in AmendOrder(s, i, d, ok).orders
    ensures var v := Sees(s, id);
      Sees(AmendOrder(s, i, d, ok), id)
      == if i == id && s.accepting && v.status == Pending then AfterAmendAsked(v, d, ok) else v
  {
    var o := s.orders[i];
    if s.accepting {
      match o.status
      case Pending => IssueAmendSees(s, i, d, ok, id);
      case Sending =>
        var cbs := if i in s.queued || o.orderType.IsTaker() then o.onCreate else o.onCreate + [AmendCb(d)];
        PutSees(s, i, o.(onCreate := cbs), id);
      case Amending =>
        var cbs := if i in s.queued || !o.orderType.IsAmendable() then o.onAmend else o.onAmend + [AmendCb(d)];
        PutSees(s, i, o.(onAmend := cbs), id);
      case _ =>
    }
  }

  lemma CancelCallSees(s: State, i: string, ok: bool, id: string)
    requires i in s.orders && id in s.orders
    ensures id in CancelOrder(s, i, ok).orders
    ensures Sees(CancelOrder(s, i, ok), id) == if i == id then AfterCancelAsked(Sees(s, id), ok) else Sees(s, id)
  {
    IssueCancelSees(s, i, ok, id);
    PutSees(s, i, DeferCancel(s.orders[i]), id);
  }

  lemma AskedIff(s: State, ids: set<string>)
    requires ids <= s.orders.Keys
    ensures (exists i :: i in ids && s.orders[i].status == Pending) <==> Targets(s, ids) != {}
  {
    if i :| i in ids && s.orders[i].status == Pending {
      assert i in Targets(s, ids);
    }
    if Targets(s, ids) != {} {
      var i :| i in Targets(s, ids);
    }
  }

  lemma CancelBatchSees(s: State, ids: set<string>, ok: bool, id: string)
    requires ids <= s.orders.Keys && id in s.orders
    ensures Sees(CancelOrders(s, ids, ok), id) == Fated(s, CancelBatch(ids, ok), id)
  {
    AskedIff(s, ids);
    var t, o := CancelOrders(s, ids, ok), s.orders[id];
    assert t.living == s.living && t.done == s.done && t.exported == s.exported;
    if id in ids {
      assert t.orders[id] == Protocol.AfterBatchCancel(o, Targets(s, ids) != {}, ok);
    } else {
      assert t.orders[id] == o;
    }
  }

  lemma NoticeSees(s: State, e: AgentError, id: string)
    requires id in s.orders
    ensures id in Notice(s, e).orders && Sees(Notice(s, e), id) == Sees(s, id)
  {
  }

  lemma HandleSendSees(s: State, i: string, err: Option<AgentError>, id: string)
    requires i in s.orders && id in s.orders
    ensures id in HandleSend(s, i, err).orders
    ensures Sees(HandleSend(s, i, err), id) == if i == id then AfterCreated(Sees(s, id), err) else Sees(s, id)
  {
    match err
    case Some(e) =>
      FinishSees(s, i, Rejected, id);
      NoticeSees(Finish(s, i, Rejected), e, id);
    case None => PutSees(s, i, s.orders[i].(status := Pending), id);
  }

  lemma HandleCancelSees(s: State, i: string, err: Option<AgentError>, id: string)
    requires i in s.orders && id in s.orders
    ensures id in HandleCancel(s, i, err).orders
    ensures Sees(HandleCancel(s, i, err), id) == if i == id then AfterCanceled(Sees(s, id), err) else Sees(s, id)
  {
    FinishSees(s, i, Abandoned, id);
    FinishSees(s, i, Canceled, id);
    if err.Some? {
      PutSees(s, i, s.orders[i].(status := Pending), id);
      NoticeSees(RejectCancel(s, i), err.value, id);
    }
  }

  lemma HandleAmendSees(s: State, i: string, d: Detail, err: Option<AgentError>, id: string)
    requires i in s.orders && id in s.orders
    ensures id in HandleAmend(s, i, d, err).orders
    ensures Sees(HandleAmend(s, i, d, err), id) == if i == id then AfterAmended(Sees(s, id), d, err) else Sees(s, id)
  {
    var back := s.orders[i].(status := Pending, amending := None);
    FinishSees(s, i, Abandoned, id);
    PutSees(s, i, back.(price := d.price, qty := d.qty), id);
    if err.Some? {
      PutSees(s, i, back, id);
      NoticeSees(RejectAmend(s, i), err.value, id);
    }
  }

  lemma ReceiveSees(s: State, i: string, ids: seq<string>, k: Kind, id: string)
    requires i in s.orders && id in s.orders
    ensures Sees(Receive(s, i, k), id) == Sees(s, id)
    ensures Sees(ReceiveAll(s, ids, k), id) == Sees(s, id)
  {
  }

  // ---------------------------------------------------------------------------------------------
  // Batch answers
  // ---------------------------------------------------------------------------------------------

  lemma {:induction false} SendEachSees(s: State, ids: seq<string>, a: BatchAnswer, id: string)
    requires a.PerOrder? && id in s.orders && Distinct(ids) && forall i | i in ids :: i in s.orders
    ensures id in HandleSendEach(s, ids, a).orders
    ensures Sees(HandleSendEach(s, ids, a), id)
         == if id in ids then AfterCreated(Sees(s, id), AnswerFor(a, id)) else Sees(s, id)
    decreases |ids|
  {
    if ids != [] {
      assert Distinct(ids[1..]) && ids[0] !in ids[1..];
      HandleSendSees(s, ids[0], a.For(ids[0]), id);
      SendEachSees(HandleSend(s, ids[0], a.For(ids[0])), ids[1..], a, id);
    }
  }

  lemma {:induction false} CancelEachSees(s: State, ids: seq<string>, a: BatchAnswer, id: string)
    requires a.PerOrder? && id in s.orders && Distinct(ids) && forall i | i in ids :: i in s.orders
    ensures id in HandleCancelEach(s, ids, a).orders
    ensures Sees(HandleCancelEach(s, ids, a), id)
         == if id in ids then AfterCanceled(Sees(s, id), AnswerFor(a, id)) else Sees(s, id)
    decreases |ids|
  {
    if ids != [] {
      assert Distinct(ids[1..]) && ids[0] !in ids[1..];
      HandleCancelSees(s, ids[0], a.For(ids[0]), id);
      CancelEachSees(HandleCancel(s, ids[0], a.For(ids[0])), ids[1..], a, id);
    }
  }

  lemma {:induction false} RejectAllSees(s: State, ids: seq<string>, id: string)
    requires id in s.orders && forall i | i in ids :: i in s.orders
    ensures id in RejectCancelAll(s, ids).orders
    ensures Sees(RejectCancelAll(s, ids), id) == if id in ids then Sees(s, id).(status := Pending) else Sees(s, id)
    decreases |ids|
  {
    if ids != [] {
      RejectAllSees(RejectCancel(s, ids[0]), ids[1..], id);
      assert id in ids <==> id == ids[0] || id in ids[1..];
    }
  }

  lemma SendBatchRespSees(s: State, ids: seq<string>, a: BatchAnswer, id: string)
    requires id in s.orders && Possible(s, SendBatchResp(ids, a))
    ensures id in Step(s, SendBatchResp(ids, a)).orders
    ensures Sees(Step(s, SendBatchResp(ids, a)), id) == Fated(s, SendBatchResp(ids, a), id)
  {
    var r := ReceiveAll(s, ids, Create);
    var found := Among(r, ids, Sending);
    ReceiveSees(s, id, ids, Create, id);
    AmongWithin(r, ids, Sending);
    AmongDistinct(r, ids, Sending);
    match a
    case Transport(e) =>
      FinishAllSees(r, found, Rejected, id);
      OnceIn(found, id);
      NoticeSees(FinishAll(r, found, Rejected), e, id);
    case PerOrder(_) => SendEachSees(r, found, a, id);
  }

  lemma OnceIn(ids: seq<string>, id: string)
    requires Distinct(ids)
    ensures multiset(ids)[id] == if id in ids then 1 else 0
  {
    if id in ids {
      var i :| 0 <= i < |ids| && ids[i] == id;
      assert ids == ids[..i] + [id] + ids[i + 1..];
      assert id !in ids[..i] && id !in ids[i + 1..];
    }
  }

  lemma CancelBatchRespSees(s: State, ids: seq<string>, a: BatchAnswer, id: string)
    requires id in s.orders && Possible(s, CancelBatchResp(ids, a))
    ensures id in Step(s, CancelBatchResp(ids, a)).orders
    ensures Sees(Step(s, CancelBatchResp(ids, a)), id) == Fated(s, CancelBatchResp(ids, a), id)
  {
    var r := ReceiveAll(s, ids, Cancel);
    var found := Among(r, ids, Canceling);
    ReceiveSees(s, id, ids, Cancel, id);
    AmongWithin(r, ids, Canceling);
    AmongDistinct(r, ids, Canceling);
    match a
    case Transport(e) =>
      RejectAllSees(r, found, id);
      NoticeSees(RejectCancelAll(r, found), e, id);
    case PerOrder(_) => CancelEachSees(r, found, a, id);
  }

  // ---------------------------------------------------------------------------------------------
  // Order data and deferred callbacks
  // ---------------------------------------------------------------------------------------------

  lemma NoteSees(s: State, d: OrderData, id: string)
    requires id in s.orders
    ensures NoteForeign(s, d).orders == s.orders && NoteForeign(s, d).living == s.living
    ensures Sees(NoteForeign(s, d), id) == Sees(s, id)
  {
    assert multiset(s.done + [Foreign(d.publicId)])[Managed(id)] == multiset(s.done)[Managed(id)];
  }

  lemma FillSees(s: State, i: string, d: OrderData, id: string)
    requires i in s.orders && id in s.orders
    ensures var v := Sees(s, id);
      Sees(Put(s, i, FillInfo(s.orders[i], d)), id)
      == if i == id then v.(avgPrice := d.avgPrice, execQty := d.execQty, fee := d.fee) else v
  {
    PutSees(s, i, FillInfo(s.orders[i], d), id);
  }

  lemma FilledSees(s: State, i: string, d: OrderData, why: Reason, id: string)
    requires i in s.orders && id in s.orders
    ensures var v := Sees(s, id);
      Sees(Finish(Put(s, i, FillInfo(s.orders[i], d)), i, why), id)
      == if i == id then Over(v.(avgPrice := d.avgPrice, execQty := d.execQty, fee := d.fee), why) else v
  {
    FillSees(s, i, d, id);
    FinishSees(Put(s, i, FillInfo(s.orders[i], d)), i, why, id);
  }

  lemma DataSees(s: State, d: OrderData, id: string)
    requires id in s.orders && s.living <= s.orders.Keys
    ensures id in HandleData(s, d).orders
    ensures Sees(HandleData(s, d), id) == if d.id == id then AfterData(Sees(s, id), d) else Sees(s, id)
  {
    NoteSees(s, d, id);
    var s1 := NoteForeign(s, d);
    if d.id in s1.living {
      FillSees(s1, d.id, d, id);
      FilledSees(s1, d.id, d, Filled, id);
      FilledSees(s1, d.id, d, PartiallyFilledAndCanceled, id);
    }
  }

  lemma RunJobSees(s: State, k: nat, ok: bool, id: string)
    requires id in s.orders && k < |s.jobs| && s.jobs[k].id in s.orders
    ensures id in RunJob(s, k, ok).orders
    ensures Sees(RunJob(s, k, ok), id) == Fated(s, RunDeferred(k, ok), id)
  {
    var job := s.jobs[k];
    var s1 := s.(jobs := s.jobs[..k] + s.jobs[k + 1..]);
    assert Sees(s1, id) == Sees(s, id);
    match job.cb
    case UserCb =>
    case CancelCb => IssueCancelSees(s1, job.id, ok, id);
    case AmendCb(captured) =>
      var s2 := s1.(queued := s1.queued - {job.id});
      assert Sees(s2, id) == Sees(s, id);
      IssueAmendSees(s2, job.id, if job.id in s.queued then s.queued[job.id] else captured, ok, id);
  }

  lemma RespSees(s: State, e: Event, id: string)
    requires id in s.orders && Possible(s, e) && (e.SendResp? || e.AmendResp? || e.CancelResp?)
    ensures id in Step(s, e).orders && Sees(Step(s, e), id) == Fated(s, e, id)
  {
    match e
    case SendResp(i, err) =>
      ReceiveSees(s, i, [], Create, id);
      HandleSendSees(Receive(s, i, Create), i, err, id);
    case AmendResp(i, d, err) =>
      ReceiveSees(s, i, [], Amend, id);
      HandleAmendSees(Receive(s, i, Amend), i, d, err, id);
    case CancelResp(i, err) =>
      ReceiveSees(s, i, [], Cancel, id);
      HandleCancelSees(Receive(s, i, Cancel), i, err, id);
  }

  lemma OtherSees(s: State, e: Event, id: string)
    requires id in s.orders && Possible(s, e) && (e.New? || e.ListenCreate? || e.ListenAmend? || e.ExportDone?)
    ensures id in Step(s, e).orders && Sees(Step(s, e), id) == Sees(s, id)
  {
  }

  /** Every event makes of every order what is written above. */
  lemma FateHolds(s: State, e: Event, id: string)
    requires id in s.orders && Possible(s, e)
    ensures id in Step(s, e).orders && Sees(Step(s, e), id) == Fated(s, e, id)
  {
    match e
    case Send(i, ok) => SendSees(s, i, ok, id);
    case SendBatch(ids, ok) => SendBatchSees(s, ids, ok, id);
    case AmendCall(i, d, ok) => AmendCallSees(s, i, d, ok, id);
    case CancelCall(i, ok) => CancelCallSees(s, i, ok, id);
    case CancelBatch(ids, ok) => CancelBatchSees(s, ids, ok, id);
    case SendResp(_, _) => RespSees(s, e, id);
    case AmendResp(_, _, _) => RespSees(s, e, id);
    case CancelResp(_, _) => RespSees(s, e, id);
    case SendBatchResp(ids, a) => SendBatchRespSees(s, ids, a, id);
    case CancelBatchResp(ids, a) => CancelBatchRespSees(s, ids, a, id);
    case Data(d) => DataSees(s, d, id);
    case RunDeferred(k, ok) => RunJobSees(s, k, ok, id);
    case New(_, _, _, _) => OtherSees(s, e, id);
    case ListenCreate(_) => OtherSees(s, e, id);
    case ListenAmend(_) => OtherSees(s, e, id);
    case ExportDone => OtherSees(s, e, id);
  }

  lemma AllFates(s: State, e: Event)
    requires Possible(s, e)
    ensures forall id | id in s.orders :: id in Step(s, e).orders && Sees(Step(s, e), id) == Fated(s, e, id)
  {
    forall id | id in s.orders ensures id in Step(s, e).orders && Sees(Step(s, e), id) == Fated(s, e, id) {
      FateHolds(s, e, id);
    }
  }

  lemma NewIsBorn(s: State, id: string, orderType: OrderType, price: real, qty: real)
    requires Inv(s) && Possible(s, New(id, orderType, price, qty))
    ensures var t := Step(s, New(id, orderType, price, qty));
      id in t.orders
      && Sees(t, id) == Visible(orderType, Born, None, price, qty, 0.0, 0.0, 0.0, None, 0, false, 0)
  {
  }

  // ---------------------------------------------------------------------------------------------
  // How orders end
  // ---------------------------------------------------------------------------------------------

  /** The event ends the order for this reason. */
  ghost predicate EndsWith(s: State, e: Event, id: string, why: Reason)
    requires Possible(s, e) && id in s.orders
  {
    var o, living := s.orders[id], id in s.living;
    match why
    case Filled => e.Data? && e.data.id == id && e.data.status == DataFilled && living
    case PartiallyFilledAndCanceled =>
      e.Data? && e.data.id == id && e.data.status == DataPartiallyFilled && living && o.orderType == LimitIOC
    case Canceled =>
      && living && o.status == Canceling
      && (|| (e.CancelResp? && e.id == id && e.err == None)
          || (e.CancelBatchResp? && id in e.ids && e.answer.PerOrder? && id !in e.answer.errors))
    case Abandoned =>
      || (e.AmendResp? && e.id == id && e.err == Some(OrderIsNotExists) && living && o.status == Amending)
      || (e.CancelResp? && e.id == id && e.err == Some(OrderIsNotExists) && living && o.status == Canceling)
      || (e.CancelBatchResp? && id in e.ids && e.answer.PerOrder? && living && o.status == Canceling
          && id in e.answer.errors && e.answer.errors[id] == OrderIsNotExists)
    case Rejected =>
      || (e.SendResp? && e.id == id && e.err != None && living && o.status == Sending)
      || (e.SendBatchResp? && id in e.ids && (e.answer.Transport? || id in e.answer.errors)
          && living && o.status == Sending)
      || (e.Send? && e.id == id && !e.ok && s.accepting && !living)
      || (e.SendBatch? && id in e.ids && !e.ok && s.accepting && forall i | i in e.ids :: i !in s.living)
  }

  ghost predicate IsOver(v: Visible, why: Reason) { v.status == Done && v.reason == Some(why) }

  lemma AnswersEnd(v: Visible, d: Detail, err: Option<AgentError>, why: Reason)
    requires v.status != Done
    ensures IsOver(AfterCreated(v, err), why) <==> why == Rejected && v.living && v.status == Sending && err != None
    ensures IsOver(AfterAmended(v, d, err), why)
       <==> why == Abandoned && v.living && v.status == Amending && err == Some(OrderIsNotExists)
    ensures IsOver(AfterCanceled(v, err), why)
       <==> v.living && v.status == Canceling
            && ((why == Canceled && err == None) || (why == Abandoned && err == Some(OrderIsNotExists)))
  {
  }

  lemma OthersEnd(v: Visible, d: OrderData, x: Detail, b: bool, ok: bool, times: nat, why: Reason)
    requires v.status != Done
    ensures IsOver(AfterData(v, d), why)
       <==> v.living
            && (|| (why == Filled && d.status == DataFilled)
                || (why == PartiallyFilledAndCanceled && d.status == DataPartiallyFilled && v.orderType == LimitIOC))
    ensures IsOver(AfterSend(v, b, ok, times), why) <==> why == Rejected && b && !ok && times > 0
    ensures AfterCancelAsked(v, ok).status != Done && AfterAmendAsked(v, x, ok).status != Done
    ensures AfterBatchCancel(v, b, ok).status != Done
  {
  }

  predicate IsAnswer(e: Event) {
    e.SendResp? || e.AmendResp? || e.CancelResp? || e.SendBatchResp? || e.CancelBatchResp? || e.Data?
  }

  lemma FatedByAnswer(s: State, e: Event, id: string, why: Reason)
    requires Possible(s, e) && id in s.orders && s.orders[id].status != Done && IsAnswer(e)
    ensures IsOver(Fated(s, e, id), why) <==> EndsWith(s, e, id, why)
  {
    var v, none := Sees(s, id), Detail(0.0, 0.0);
    match e
    case SendResp(_, err) => AnswersEnd(v, none, err, why);
    case AmendResp(_, d, err) => AnswersEnd(v, d, err, why);
    case CancelResp(_, err) => AnswersEnd(v, none, err, why);
    case SendBatchResp(_, a) => AnswersEnd(v, none, CreateAnswer(a, id), why);
    case CancelBatchResp(_, a) => AnswersEnd(v, none, CancelAnswer(a, id), why);
    case Data(d) => OthersEnd(v, d, none, true, true, 0, why);
  }

  lemma FatedByCall(s: State, e: Event, id: string, why: Reason)
    requires Possible(s, e) && id in s.orders && s.orders[id].status != Done && !IsAnswer(e)
    ensures IsOver(Fated(s, e, id), why) <==> EndsWith(s, e, id, why)
  {
    var v, none := Sees(s, id), Detail(0.0, 0.0);
    var any := OrderData("", "", 0.0, 0.0, 0.0, Opened);
    match e
    case Send(i, ok) => OthersEnd(v, any, none, s.accepting && !v.living, ok, if i == id then 1 else 0, why);
    case SendBatch(ids, ok) =>
      assert id in ids <==> multiset(ids)[id] > 0;
      OthersEnd(v, any, none, s.accepting && forall i | i in ids :: i !in s.living, ok, multiset(ids)[id], why);
    case AmendCall(_, d, ok) => OthersEnd(v, any, d, true, ok, 0, why);
    case CancelCall(_, ok) => OthersEnd(v, any, none, true, ok, 0, why);
    case CancelBatch(ids, ok) =>
      OthersEnd(v, any, none, exists i :: i in ids && s.orders[i].status == Pending, ok, 0, why);
    case RunDeferred(k, ok) =>
      var cb := s.jobs[k].cb;
      var d := if !cb.AmendCb? then none else if id in s.queued then s.queued[id] else cb.detail;
      OthersEnd(v, any, d, true, ok, 0, why);
    case _ =>
  }

  /** An order that is not Done becomes Done for a reason if and only if the event ends it for that reason. */
  lemma EndsIff(s: State, e: Event, id: string, why: Reason)
    requires Possible(s, e) && id in s.orders && s.orders[id].status != Done
    ensures id in Step(s, e).orders
    ensures Step(s, e).orders[id].status == Done && Step(s, e).orders[id].reason == Some(why)
       <==> EndsWith(s, e, id, why)
  {
    FateHolds(s, e, id);
    if IsAnswer(e) {
      FatedByAnswer(s, e, id, why);
    } else {
      FatedByCall(s, e, id, why);
    }
    assert IsOver(Sees(Step(s, e), id), why) <==> IsOver(Fated(s, e, id), why);
  }

  /** And then it has left the living map and is in the log exactly once. */
  lemma EndedIsLogged(s: State, e: Event, id: string, why: Reason)
    requires Inv(s) && Possible(s, e) && Disciplined(s, e) && id in s.orders && s.orders[id].status != Done
    requires EndsWith(s, e, id, why)
    ensures var t := Step(s, e);
      && id in t.orders && t.orders[id].status == Done && t.orders[id].reason == Some(why)
      && id !in t.living && Logged(t, id) == 1
  {
    EndsIff(s, e, id, why);
    StepKeepsIff(s, e);
    assert OrderOk(Step(s, e), id);
  }

  /** A fill ends the order and brings its data; a partial fill ends immediate-or-cancel orders only. */
  lemma FillsMean(s: State, d: OrderData, id: string)
    requires Inv(s) && id in s.orders
    ensures Possible(s, Data(d))
    ensures var t := Step(s, Data(d));
      && id in t.orders
      && var o, p := s.orders[id], t.orders[id];
      if d.id != id || id !in s.living || d.status !in {DataFilled, DataPartiallyFilled} then
        p == o && (id in t.living <==> id in s.living) && Logged(t, id) == Logged(s, id)
      else
        && p.avgPrice == d.avgPrice && p.execQty == d.execQty && p.fee == d.fee
        && p.price == o.price && p.qty == o.qty
        && if d.status == DataFilled then
             p.status == Done && p.reason == Some(Filled) && id !in t.living && Logged(t, id) == 1
           else if o.orderType == LimitIOC then
             p.status == Done && p.reason == Some(PartiallyFilledAndCanceled) && id !in t.living && Logged(t, id) == 1
           else
             p.status == o.status && p.reason == o.reason && id in t.living && Logged(t, id) == 0
  {
    assert OrderOk(s, id);
    FateHolds(s, Data(d), id);
    OtherDataSame(s, d, id);
  }

  lemma OtherDataSame(s: State, d: OrderData, id: string)
    requires id in s.orders && s.living <= s.orders.Keys
    ensures id in HandleData(s, d).orders
    ensures d.id != id || id !in s.living || d.status !in {DataFilled, DataPartiallyFilled} ==>
      HandleData(s, d).orders[id] == s.orders[id]
  {
    var s1 := NoteForeign(s, d);
    assert s1.orders == s.orders && s1.living == s.living;
    if d.id in s1.living && d.id != id {
      var s2 := Put(s1, d.id, FillInfo(s1.orders[d.id], d));
      assert s2.orders[id] == s.orders[id];
      assert Finish(s2, d.id, Filled).orders[id] == s2.orders[id];
      assert Finish(s2, d.id, PartiallyFilledAndCanceled).orders[id] == s2.orders[id];
    }
  }

  // ---------------------------------------------------------------------------------------------
  // Batch cancels
  // ---------------------------------------------------------------------------------------------

  /** An accepted batch cancel does to every order it names what a single accepted cancel would, queue included. */
  lemma BatchIsEachCancel(s: State, ids: set<string>, id: string)
    requires ids <= s.orders.Keys && id in s.orders
    ensures var t, one := CancelOrders(s, ids, true), CancelOrder(s, id, true);
      && t.orders[id] == (if id in ids then one.orders[id] else s.orders[id])
      && (id in t.queued <==> id in (if id in ids then one.queued else s.queued))
      && (id in t.queued ==> t.queued[id] == s.queued[id])
      && t.living == s.living && t.done == s.done && t.jobs == s.jobs
  {
    assert id in ids && s.orders[id].status == Pending ==> id in Targets(s, ids);
  }
}
