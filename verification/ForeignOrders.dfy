/** Orders on the account that the dealer did not send: remembered when opened, logged when they end. */
module ForeignOrders {
  import opened Common
  import opened Protocol
  import opened Runs

  ghost function ForeignLogged(s: State, p: string): int {
    multiset(s.exported)[Foreign(p)] + multiset(s.done)[Foreign(p)]
  }

  /** The entry opens a foreign order, or ends one. */
  predicate Opens(e: Event, p: string) {
    e.Data? && e.data.id == "" && e.data.publicId == p && e.data.status == Opened
  }
  predicate Closes(e: Event, p: string) {
    e.Data? && e.data.id == "" && e.data.publicId == p
    && e.data.status in {DataFilled, DataCanceled, DataRejected}
  }

  lemma {:induction false} FinishAllForeign(s: State, ids: seq<string>, why: Reason, p: string)
    requires forall i | i in ids :: i in s.orders
    ensures SameForeign(s, FinishAll(s, ids, why), p)
    decreases |ids|
  {
    if ids != [] {
      FinishAllForeign(Finish(s, ids[0], why), ids[1..], why, p);
    }
  }

  ghost predicate SameForeign(s: State, t: State, p: string) {
    t.foreign == s.foreign && ForeignLogged(t, p) == ForeignLogged(s, p)
  }

  lemma FinishForeign(s: State, i: string, why: Reason, p: string)
    requires i in s.orders
    ensures SameForeign(s, Finish(s, i, why), p)
  {
  }

  lemma HandleSendForeign(s: State, i: string, err: Option<AgentError>, p: string)
    requires i in s.orders
    ensures SameForeign(s, HandleSend(s, i, err), p)
  {
    FinishForeign(s, i, Rejected, p);
  }

  lemma HandleCancelForeign(s: State, i: string, err: Option<AgentError>, p: string)
    requires i in s.orders
    ensures SameForeign(s, HandleCancel(s, i, err), p)
  {
    FinishForeign(s, i, Abandoned, p);
    FinishForeign(s, i, Canceled, p);
  }

  lemma HandleAmendForeign(s: State, i: string, d: Detail, err: Option<AgentError>, p: string)
    requires i in s.orders
    ensures SameForeign(s, HandleAmend(s, i, d, err), p)
  {
    FinishForeign(s, i, Abandoned, p);
  }

  lemma {:induction false} SendEachForeign(s: State, ids: seq<string>, a: BatchAnswer, p: string)
    requires a.PerOrder? && forall i | i in ids :: i in s.orders
    ensures SameForeign(s, HandleSendEach(s, ids, a), p)
    decreases |ids|
  {
    if ids != [] {
      HandleSendForeign(s, ids[0], a.For(ids[0]), p);
      SendEachForeign(HandleSend(s, ids[0], a.For(ids[0])), ids[1..], a, p);
    }
  }

  lemma {:induction false} CancelEachForeign(s: State, ids: seq<string>, a: BatchAnswer, p: string)
    requires a.PerOrder? && forall i | i in ids :: i in s.orders
    ensures SameForeign(s, HandleCancelEach(s, ids, a), p)
    decreases |ids|
  {
    if ids != [] {
      HandleCancelForeign(s, ids[0], a.For(ids[0]), p);
      CancelEachForeign(HandleCancel(s, ids[0], a.For(ids[0])), ids[1..], a, p);
    }
  }

  lemma {:induction false} RejectAllForeign(s: State, ids: seq<string>, p: string)
    requires forall i | i in ids :: i in s.orders
    ensures var t := RejectCancelAll(s, ids); t.foreign == s.foreign && ForeignLogged(t, p) == ForeignLogged(s, p)
    decreases |ids|
  {
    if ids != [] {
      RejectAllForeign(RejectCancel(s, ids[0]), ids[1..], p);
    }
  }

  lemma SendBatchForeign(s: State, ids: seq<string>, ok: bool, p: string)
    requires forall i | i in ids :: i in s.orders
    ensures SameForeign(s, SendOrders(s, ids, ok), p)
  {
    if SendsAccepted(s, ids) && !ok {
      FinishAllForeign(MarkSending(s, ids, false), ids, Rejected, p);
    }
  }

  lemma SendBatchRespForeign(s: State, ids: seq<string>, a: BatchAnswer, p: string)
    requires forall i | i in ids :: i in s.orders
    ensures SameForeign(s, HandleSends(s, ids, a), p)
  {
    var found := Among(s, ids, Sending);
    AmongWithin(s, ids, Sending);
    FinishAllForeign(s, found, Rejected, p);
    if a.PerOrder? {
      SendEachForeign(s, found, a, p);
    }
  }

  lemma CancelBatchRespForeign(s: State, ids: seq<string>, a: BatchAnswer, p: string)
    requires forall i | i in ids :: i in s.orders
    ensures SameForeign(s, HandleCancels(s, ids, a), p)
  {
    var found := Among(s, ids, Canceling);
    AmongWithin(s, ids, Canceling);
    RejectAllForeign(s, found, p);
    if a.PerOrder? {
      CancelEachForeign(s, found, a, p);
    }
  }

  lemma SendForeign(s: State, i: string, ok: bool, p: string)
    requires i in s.orders
    ensures SameForeign(s, SendOrder(s, i, ok), p)
  {
    if SendAccepted(s, i) && !ok {
      var s1 := Put(s, i, s.orders[i].(status := Sending)).(living := s.living + {i});
      FinishForeign(s1, i, Rejected, p);
    }
  }

  /** The logs and the foreign orders are what they were. */
  ghost predicate SameLogs(s: State, t: State) {
    t.foreign == s.foreign && t.done == s.done && t.exported == s.exported
  }

  lemma CallLogs(s: State, i: string, d: Detail, ok: bool)
    requires i in s.orders
    ensures SameLogs(s, IssueAmend(s, i, d, ok)) && SameLogs(s, IssueCancel(s, i, ok))
    ensures SameLogs(s, AmendOrder(s, i, d, ok)) && SameLogs(s, CancelOrder(s, i, ok))
  {
  }

  lemma RunJobLogs(s: State, k: nat, ok: bool)
    requires k < |s.jobs| && s.jobs[k].id in s.orders
    ensures SameLogs(s, RunJob(s, k, ok))
  {
    var job := s.jobs[k];
    var s1 := s.(jobs := s.jobs[..k] + s.jobs[k + 1..]);
    CallLogs(s1, job.id, Detail(0.0, 0.0), ok);
    if job.cb.AmendCb? {
      var d := if job.id in s.queued then s.queued[job.id] else job.cb.detail;
      CallLogs(s1.(queued := s1.queued - {job.id}), job.id, d, ok);
    }
  }

  /** Only order data touches foreign orders. */
  lemma QuietForeign(s: State, e: Event, p: string)
    requires Possible(s, e) && !e.Data?
    ensures SameForeign(s, Step(s, e), p)
  {
    var none := Detail(0.0, 0.0);
    match e
    case Send(i, ok) => SendForeign(s, i, ok, p);
    case AmendCall(i, d, ok) => CallLogs(s, i, d, ok);
    case CancelCall(i, ok) => CallLogs(s, i, none, ok);
    case SendBatch(ids, ok) => SendBatchForeign(s, ids, ok, p);
    case SendBatchResp(ids, a) => SendBatchRespForeign(ReceiveAll(s, ids, Create), ids, a, p);
    case CancelBatchResp(ids, a) => CancelBatchRespForeign(ReceiveAll(s, ids, Cancel), ids, a, p);
    case SendResp(i, err) => HandleSendForeign(Receive(s, i, Create), i, err, p);
    case AmendResp(i, d, err) => HandleAmendForeign(Receive(s, i, Amend), i, d, err, p);
    case CancelResp(i, err) => HandleCancelForeign(Receive(s, i, Cancel), i, err, p);
    case RunDeferred(k, ok) => RunJobLogs(s, k, ok);
    case ExportDone => assert multiset(s.exported + s.done) == multiset(s.exported) + multiset(s.done);
    case _ =>
  }

  /** One event: a foreign order is remembered when opened and logged once when it ends. */
  lemma ForeignStep(s: State, e: Event, p: string)
    requires Possible(s, e)
    ensures var t := Step(s, e);
      && (p in t.foreign <==> Opens(e, p) || (p in s.foreign && !Closes(e, p)))
      && ForeignLogged(t, p) == ForeignLogged(s, p) + (if Closes(e, p) && p in s.foreign then 1 else 0)
  {
    if e.Data? {
      DataForeign(s, e.data, p);
    } else {
      QuietForeign(s, e, p);
    }
  }

  lemma LogsOneMore(s: State, q: string, p: string)
    ensures ForeignLogged(s.(done := s.done + [Foreign(q)], foreign := s.foreign - {q}), p)
         == ForeignLogged(s, p) + if p == q then 1 else 0
  {
    assert multiset(s.done + [Foreign(q)]) == multiset(s.done) + multiset{Foreign(q)};
  }

  lemma NoteForeignStep(s: State, d: OrderData, p: string)
    ensures var t, e := NoteForeign(s, d), Data(d);
      && (p in t.foreign <==> Opens(e, p) || (p in s.foreign && !Closes(e, p)))
      && ForeignLogged(t, p) == ForeignLogged(s, p) + (if Closes(e, p) && p in s.foreign then 1 else 0)
  {
    LogsOneMore(s, d.publicId, p);
  }

  lemma DataForeign(s: State, d: OrderData, p: string)
    requires s.living <= s.orders.Keys
    ensures var t, e := HandleData(s, d), Data(d);
      && (p in t.foreign <==> Opens(e, p) || (p in s.foreign && !Closes(e, p)))
      && ForeignLogged(t, p) == ForeignLogged(s, p) + (if Closes(e, p) && p in s.foreign then 1 else 0)
  {
    NoteForeignStep(s, d, p);
    var s1 := NoteForeign(s, d);
    if d.id in s1.living && (d.status.DataFilled? || d.status.DataPartiallyFilled?) {
      var s2 := Put(s1, d.id, FillInfo(s1.orders[d.id], d));
      assert SameForeign(s1, s2, p);
      FinishForeign(s2, d.id, Filled, p);
      FinishForeign(s2, d.id, PartiallyFilledAndCanceled, p);
    }
  }

  /** Among the first `n` events an opening of `p` has not been followed by an end of it. */
  ghost predicate OpenAfter(es: seq<Event>, n: nat, p: string)
    requires n <= |es|
  {
    exists i :: 0 <= i < n && Opens(es[i], p) && forall j | i < j < n :: !Closes(es[j], p)
  }

  /** How many of the events end a foreign order that is open: the open-then-done pairs. */
  ghost function Pairs(es: seq<Event>, n: nat, p: string): int
    requires n <= |es|
  {
    if n == 0 then 0
    else Pairs(es, n - 1, p) + if Closes(es[n - 1], p) && OpenAfter(es, n - 1, p) then 1 else 0
  }

  lemma OpenStep(es: seq<Event>, n: nat, p: string)
    requires n < |es|
    ensures OpenAfter(es, n + 1, p) <==> Opens(es[n], p) || (OpenAfter(es, n, p) && !Closes(es[n], p))
  {
    if Opens(es[n], p) {
      assert OpenAfter(es, n + 1, p);
    }
    if OpenAfter(es, n, p) && !Closes(es[n], p) {
      var i :| 0 <= i < n && Opens(es[i], p) && forall j | i < j < n :: !Closes(es[j], p);
      assert forall j | i < j < n + 1 :: !Closes(es[j], p);
    }
  }

  /** In every run, a foreign order is in the log once for each time it was opened and then ended. */
  lemma {:induction false} ForeignLoggedPerPair(es: seq<Event>, n: nat, p: string)
    requires n <= |es| && Legal(Init, es[..n])
    ensures p in Run(Init, es[..n]).foreign <==> OpenAfter(es, n, p)
    ensures ForeignLogged(Run(Init, es[..n]), p) == Pairs(es, n, p)
  {
    if n > 0 {
      var init, e := es[..n - 1], es[n - 1];
      assert es[..n] == init + [e];
      Split(Init, init, [e]);
      ForeignLoggedPerPair(es, n - 1, p);
      OneMore(Init, init, e);
      ForeignStep(Run(Init, init), e, p);
      OpenStep(es, n - 1, p);
    }
  }
}
