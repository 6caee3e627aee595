/** Which errors make the dealer stop accepting orders. */
module Alarms {
  import opened Common
  import opened Protocol
  import opened Partition

  /** Neither information, nor a warning, nor a failed HTTP request. */
  predicate Critical(e: AgentError) { e == OrderIsNotExists || e == OtherError }

  /** The event reports a critical error to the dealer; an order that is gone is not one for amends and cancels. */
  ghost predicate Alarming(s: State, e: Event)
    requires Possible(s, e)
  {
    match e
    case SendResp(id, err) =>
      id in s.living && s.orders[id].status == Sending && err.Some? && Critical(err.value)
    case AmendResp(id, _, err) => id in s.living && s.orders[id].status == Amending && err == Some(OtherError)
    case CancelResp(id, err) => id in s.living && s.orders[id].status == Canceling && err == Some(OtherError)
    case SendBatchResp(ids, a) =>
      if a.Transport? then Critical(a.error)
      else exists id :: id in ids && id in s.living && s.orders[id].status == Sending
                        && id in a.errors && Critical(a.errors[id])
    case CancelBatchResp(ids, a) =>
      if a.Transport? then Critical(a.error)
      else exists id :: id in ids && id in s.living && s.orders[id].status == Canceling
                        && id in a.errors && a.errors[id] == OtherError
    case _ => false
  }

  lemma {:induction false} FinishAllAccepting(s: State, ids: seq<string>, why: Reason)
    requires forall i | i in ids :: i in s.orders
    ensures FinishAll(s, ids, why).accepting == s.accepting
    decreases |ids|
  {
    if ids != [] {
      FinishAllAccepting(Finish(s, ids[0], why), ids[1..], why);
    }
  }

  lemma {:induction false} RejectAllAccepting(s: State, ids: seq<string>)
    requires forall i | i in ids :: i in s.orders
    ensures RejectCancelAll(s, ids).accepting == s.accepting
    decreases |ids|
  {
    if ids != [] {
      RejectAllAccepting(RejectCancel(s, ids[0]), ids[1..]);
    }
  }

  /** Some order of the list has a critical error and the status the answer is for. */
  ghost predicate AlarmIn(s: State, ids: seq<string>, st: Status, a: BatchAnswer)
    requires a.PerOrder? && forall i | i in ids :: i in s.orders
  {
    exists i :: i in ids && i in s.living && s.orders[i].status == st && i in a.errors
                && (a.errors[i] == OtherError || (st == Sending && a.errors[i] == OrderIsNotExists))
  }

  lemma SendAccepting(s: State, i: string, err: Option<AgentError>)
    requires i in s.orders
    ensures HandleSend(s, i, err).accepting
       <==> s.accepting && !(i in s.living && s.orders[i].status == Sending && err.Some? && Critical(err.value))
    ensures HandleCancel(s, i, err).accepting
       <==> s.accepting && !(i in s.living && s.orders[i].status == Canceling && err == Some(OtherError))
  {
  }

  /** The rest of the list has the alarms it had. */
  lemma AlarmsStay(s: State, t: State, ids: seq<string>, st: Status, a: BatchAnswer)
    requires a.PerOrder? && forall i | i in ids :: i in s.orders && i in t.orders
    requires forall i | i in ids :: t.orders[i].status == s.orders[i].status && (i in t.living <==> i in s.living)
    ensures AlarmIn(t, ids, st, a) <==> AlarmIn(s, ids, st, a)
  {
  }

  lemma AlarmSplits(s: State, ids: seq<string>, st: Status, a: BatchAnswer)
    requires a.PerOrder? && ids != [] && forall i | i in ids :: i in s.orders
    ensures AlarmIn(s, ids, st, a) <==> AlarmIn(s, [ids[0]], st, a) || AlarmIn(s, ids[1..], st, a)
  {
    assert forall i :: i in ids <==> i == ids[0] || i in ids[1..];
  }

  lemma {:induction false} SendEachAccepting(s: State, ids: seq<string>, a: BatchAnswer)
    requires a.PerOrder? && Distinct(ids) && forall i | i in ids :: i in s.orders
    ensures HandleSendEach(s, ids, a).accepting <==> s.accepting && !AlarmIn(s, ids, Sending, a)
    decreases |ids|
  {
    if ids != [] {
      var t := HandleSend(s, ids[0], a.For(ids[0]));
      assert Distinct(ids[1..]) && ids[0] !in ids[1..];
      SendAccepting(s, ids[0], a.For(ids[0]));
      SendEachAccepting(t, ids[1..], a);
      AlarmSplits(s, ids, Sending, a);
      AlarmsStay(s, t, ids[1..], Sending, a);
      assert AlarmIn(s, [ids[0]], Sending, a) <==> (ids[0] in s.living && s.orders[ids[0]].status == Sending
        && ids[0] in a.errors && Critical(a.errors[ids[0]])) by {
        assert ids[0] in [ids[0]];
      }
    }
  }

  lemma {:induction false} CancelEachAccepting(s: State, ids: seq<string>, a: BatchAnswer)
    requires a.PerOrder? && Distinct(ids) && forall i | i in ids :: i in s.orders
    ensures HandleCancelEach(s, ids, a).accepting <==> s.accepting && !AlarmIn(s, ids, Canceling, a)
    decreases |ids|
  {
    if ids != [] {
      var t := HandleCancel(s, ids[0], a.For(ids[0]));
      assert Distinct(ids[1..]) && ids[0] !in ids[1..];
      SendAccepting(s, ids[0], a.For(ids[0]));
      CancelEachAccepting(t, ids[1..], a);
      AlarmSplits(s, ids, Canceling, a);
      AlarmsStay(s, t, ids[1..], Canceling, a);
      assert AlarmIn(s, [ids[0]], Canceling, a) <==> (ids[0] in s.living && s.orders[ids[0]].status == Canceling
        && ids[0] in a.errors && a.errors[ids[0]] == OtherError) by {
        assert ids[0] in [ids[0]];
      }
    }
  }

  lemma BatchAlarms(s: State, e: Event)
    requires Possible(s, e) && (e.SendBatchResp? || e.CancelBatchResp?)
    ensures Step(s, e).accepting <==> s.accepting && !Alarming(s, e)
  {
    var st := if e.SendBatchResp? then Sending else Canceling;
    var r := ReceiveAll(s, e.ids, if e.SendBatchResp? then Create else Cancel);
    var found := Among(r, e.ids, st);
    AmongWithin(r, e.ids, st);
    AmongDistinct(r, e.ids, st);
    match e.answer
    case Transport(_) =>
      if e.SendBatchResp? {
        FinishAllAccepting(r, found, Rejected);
      } else {
        RejectAllAccepting(r, found);
      }
    case PerOrder(_) =>
      if e.SendBatchResp? {
        SendEachAccepting(r, found, e.answer);
        assert AlarmIn(r, found, Sending, e.answer) <==> Alarming(s, e);
      } else {
        CancelEachAccepting(r, found, e.answer);
        assert AlarmIn(r, found, Canceling, e.answer) <==> Alarming(s, e);
      }
  }

  lemma CallsKeepAccepting(s: State, i: string, d: Detail, ok: bool)
    requires i in s.orders
    ensures SendOrder(s, i, ok).accepting == s.accepting
    ensures AmendOrder(s, i, d, ok).accepting == s.accepting && CancelOrder(s, i, ok).accepting == s.accepting
    ensures IssueAmend(s, i, d, ok).accepting == s.accepting && IssueCancel(s, i, ok).accepting == s.accepting
  {
  }

  /** The dealer stops accepting if and only if a critical error is reported, and never starts again. */
  lemma AcceptingFallsIff(s: State, e: Event)
    requires Possible(s, e)
    ensures Step(s, e).accepting <==> s.accepting && !Alarming(s, e)
  {
    match e
    case Send(i, ok) => CallsKeepAccepting(s, i, Detail(0.0, 0.0), ok);
    case SendBatch(ids, ok) =>
      if SendsAccepted(s, ids) && !ok {
        FinishAllAccepting(MarkSending(s, ids, false), ids, Rejected);
      }
    case AmendCall(i, d, ok) => CallsKeepAccepting(s, i, d, ok);
    case CancelCall(i, ok) => CallsKeepAccepting(s, i, Detail(0.0, 0.0), ok);
    case RunDeferred(k, ok) =>
      var job := s.jobs[k];
      var s1 := s.(jobs := s.jobs[..k] + s.jobs[k + 1..]);
      var s2 := s1.(queued := s1.queued - {job.id});
      CallsKeepAccepting(s1, job.id, Detail(0.0, 0.0), ok);
      if job.cb.AmendCb? {
        CallsKeepAccepting(s2, job.id, if job.id in s.queued then s.queued[job.id] else job.cb.detail, ok);
      }
    case SendBatchResp(_, _) => BatchAlarms(s, e);
    case CancelBatchResp(_, _) => BatchAlarms(s, e);
    case SendResp(i, err) => SendAccepting(Receive(s, i, Create), i, err);
    case CancelResp(i, err) => SendAccepting(Receive(s, i, Cancel), i, err);
    case _ =>
  }
}
