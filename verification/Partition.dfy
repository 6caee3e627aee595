/**
 Every order ever sent is in exactly one place: the living map, or once in the done log.
 The invariant, the exact guard under which each event keeps it, and whole runs.
 */
module Partition {
  import opened Common
  import opened Protocol

  /** How often the order was logged as done, exported entries included. */
  ghost function Logged(s: State, id: string): nat {
    multiset(s.exported)[Managed(id)] + multiset(s.done)[Managed(id)]
  }

  ghost predicate OrderOk(s: State, id: string)
    requires id in s.orders
  {
    var o := s.orders[id];
    && (id in s.living <==> o.status.IsLiving())
    && Logged(s, id) == (if o.status.Done? then 1 else 0)
    && (o.status.Done? <==> o.reason.Some?)
    && (o.status.Amending? ==> o.amending.Some?)
  }

  ghost predicate Inv(s: State) {
    && "" !in s.orders
    && s.living <= s.orders.Keys
    && (forall id | id in s.orders :: OrderOk(s, id))
    && (forall id | id !in s.orders :: Logged(s, id) == 0)
    && (forall j | 0 <= j < |s.jobs| :: s.jobs[j].id in s.orders)
  }

  // ---------------------------------------------------------------------------------------------
  // The exact guard
  // ---------------------------------------------------------------------------------------------

  /** Orders are sent once: a send that gets past the dealer's own checks names unsent orders. */
  ghost predicate Fresh(s: State, ids: seq<string>) {
    forall i | i in ids :: i in s.orders && s.orders[i].status.Born?
  }

  /** What a caller has to respect; the agent's answer matters only where the code makes it matter. */
  ghost predicate Disciplined(s: State, e: Event)
    requires Possible(s, e)
  {
    match e
    case Send(id, _) => SendAccepted(s, id) ==> Fresh(s, [id])
    case SendBatch(ids, ok) => SendsAccepted(s, ids) ==> Fresh(s, ids) && (ok || Distinct(ids))
    case CancelBatch(ids, ok) => ok || Targets(s, ids) == {} || ids <= s.living
    case _ => true
  }

  // ---------------------------------------------------------------------------------------------
  // Helper steps
  // ---------------------------------------------------------------------------------------------

  /** Replacing one order by one with the same bookkeeping keeps everything. */
  lemma PutKeeps(s: State, id: string, o: Order)
    requires Inv(s) && id in s.orders
    requires o.status.IsLiving() == s.orders[id].status.IsLiving()
    requires o.status.Done? == s.orders[id].status.Done?
    requires o.reason == s.orders[id].reason
    requires o.status.Amending? ==> o.amending.Some?
    ensures Inv(Put(s, id, o))
  {
    var t := Put(s, id, o);
    forall i | i in t.orders ensures OrderOk(t, i) {
      assert OrderOk(s, i);
    }
  }

  lemma FinishKeeps(s: State, id: string, why: Reason)
    requires Inv(s) && id in s.living
    ensures Inv(Finish(s, id, why))
  {
    var t := Finish(s, id, why);
    assert OrderOk(s, id);
    forall i | i in t.orders ensures OrderOk(t, i) {
      assert OrderOk(s, i);
    }
  }

  lemma {:induction false} FinishAllKeeps(s: State, ids: seq<string>, why: Reason)
    requires Inv(s) && Distinct(ids)
    requires forall i | i in ids :: i in s.living
    ensures Inv(FinishAll(s, ids, why))
    decreases |ids|
  {
    if ids != [] {
      FinishKeeps(s, ids[0], why);
      FinishAllKeeps(Finish(s, ids[0], why), ids[1..], why);
    }
  }

  lemma JobsKeep(s: State, jobs: seq<Job>)
    requires Inv(s)
    requires forall j | 0 <= j < |jobs| :: jobs[j].id in s.orders
    ensures Inv(s.(jobs := jobs))
  {
    var t := s.(jobs := jobs);
    forall i | i in t.orders ensures OrderOk(t, i) {
      assert OrderOk(s, i);
    }
  }

  lemma NoticeKeeps(s: State, e: AgentError)
    requires Inv(s)
    ensures Inv(Notice(s, e))
  {
    var t := Notice(s, e);
    forall i | i in t.orders ensures OrderOk(t, i) {
      assert OrderOk(s, i);
    }
  }

  lemma QueueKeeps(s: State, q: map<string, Detail>)
    requires Inv(s)
    ensures Inv(s.(queued := q))
  {
    var t := s.(queued := q);
    forall i | i in t.orders ensures OrderOk(t, i) {
      assert OrderOk(s, i);
    }
  }

  // ---------------------------------------------------------------------------------------------
  // Calls
  // ---------------------------------------------------------------------------------------------

  lemma IssueAmendKeeps(s: State, id: string, d: Detail, ok: bool)
    requires Inv(s) && id in s.orders
    ensures Inv(IssueAmend(s, id, d, ok))
  {
    var o := s.orders[id];
    assert OrderOk(s, id);
    if id in s.living {
      if o.amendCount >= AMEND_LIMIT || (NeedToAmend(o, d) && !o.status.Pending?) {
        PutKeeps(s, id, o.(status := Pending, amending := None));
      } else if NeedToAmend(o, d) {
        var o1 := o.(status := Amending, amending := Some(d));
        if ok {
          PutKeeps(s, id, Requested(o1, Amend));
        } else {
          PutKeeps(s, id, o1);
          PutKeeps(Put(s, id, o1), id, o1.(status := Pending, amending := None));
        }
      }
    }
  }

  lemma IssueCancelKeeps(s: State, id: string, ok: bool)
    requires Inv(s) && id in s.orders
    ensures Inv(IssueCancel(s, id, ok))
  {
    var o := s.orders[id];
    assert OrderOk(s, id);
    if o.status.Pending? {
      var o1 := o.(status := Canceling);
      if ok {
        PutKeeps(s, id, Requested(o1, Cancel));
      } else {
        PutKeeps(s, id, o1);
        PutKeeps(Put(s, id, o1), id, o1.(status := Pending));
      }
    }
  }

  lemma AmendOrderKeeps(s: State, id: string, d: Detail, ok: bool)
    requires Inv(s) && id in s.orders
    ensures Inv(AmendOrder(s, id, d, ok))
  {
    assert OrderOk(s, id);
    if s.accepting {
      var o, t := s.orders[id], AmendOrder(s, id, d, ok);
      match o.status
      case Pending => IssueAmendKeeps(s, id, d, ok);
      case Sending =>
        PutKeeps(s, id, t.orders[id]);
        QueueKeeps(Put(s, id, t.orders[id]), s.queued[id := d]);
      case Amending =>
        PutKeeps(s, id, t.orders[id]);
        QueueKeeps(Put(s, id, t.orders[id]), s.queued[id := d]);
      case _ =>
    }
  }

  lemma CancelOrderKeeps(s: State, id: string, ok: bool)
    requires Inv(s) && id in s.orders
    ensures Inv(CancelOrder(s, id, ok))
  {
    assert OrderOk(s, id);
    var o, t := s.orders[id], CancelOrder(s, id, ok);
    match o.status
    case Pending => IssueCancelKeeps(s, id, ok);
    case Sending =>
      PutKeeps(s, id, t.orders[id]);
      QueueKeeps(Put(s, id, t.orders[id]), s.queued - {id});
    case Amending =>
      PutKeeps(s, id, t.orders[id]);
      QueueKeeps(Put(s, id, t.orders[id]), s.queued - {id});
    case _ =>
  }

  lemma SendOrderIff(s: State, id: string, ok: bool)
    requires Inv(s) && id in s.orders
    ensures Inv(SendOrder(s, id, ok)) <==> (SendAccepted(s, id) ==> s.orders[id].status.Born?)
  {
    assert OrderOk(s, id);
    if SendAccepted(s, id) {
      var t := SendOrder(s, id, ok);
      if s.orders[id].status.Born? {
        forall i | i in t.orders ensures OrderOk(t, i) {
          assert OrderOk(s, i);
        }
      } else {
        assert !OrderOk(t, id);
      }
    }
  }

  lemma MarkSendingKeeps(s: State, ids: seq<string>, ok: bool)
    requires Inv(s) && Fresh(s, ids)
    ensures Inv(MarkSending(s, ids, ok))
  {
    var t := MarkSending(s, ids, ok);
    forall i | i in t.orders ensures OrderOk(t, i) {
      assert OrderOk(s, i);
    }
  }

  /** The log only grows under FinishAll, by one entry for each listed id. */
  lemma {:induction false} FinishAllLogs(s: State, ids: seq<string>, why: Reason, id: string)
    requires forall i | i in ids :: i in s.orders
    ensures Logged(FinishAll(s, ids, why), id) == Logged(s, id) + multiset(ids)[id]
    decreases |ids|
  {
    if ids != [] {
      FinishAllLogs(Finish(s, ids[0], why), ids[1..], why, id);
      assert ids == [ids[0]] + ids[1..];
    }
  }

  lemma {:induction false} TwiceIn(ids: seq<string>)
    requires !Distinct(ids)
    ensures exists i :: i in ids && multiset(ids)[i] >= 2
  {
    var a, b :| 0 <= a < b < |ids| && ids[a] == ids[b];
    assert ids == ids[..b] + ids[b..];
    assert ids[a] in multiset(ids[..b]) by {
      assert ids[..b][a] == ids[a];
    }
    assert ids[b..][0] == ids[b];
    assert multiset(ids)[ids[a]] >= 2;
  }

  lemma SendOrdersIff(s: State, ids: seq<string>, ok: bool)
    requires Inv(s)
    requires forall i | i in ids :: i in s.orders
    ensures Inv(SendOrders(s, ids, ok))
       <==> (SendsAccepted(s, ids) ==> Fresh(s, ids) && (ok || Distinct(ids)))
  {
    if SendsAccepted(s, ids) {
      var t := SendOrders(s, ids, ok);
      if !Fresh(s, ids) {
        var i :| i in ids && !s.orders[i].status.Born?;
        assert OrderOk(s, i);
        if ok {
          assert !OrderOk(t, i);
        } else {
          FinishAllLogs(MarkSending(s, ids, false), ids, Rejected, i);
          FinishAllKeys(MarkSending(s, ids, false), ids, Rejected);
          assert i in multiset(ids);
          assert !OrderOk(t, i);
        }
      } else if ok {
        MarkSendingKeeps(s, ids, true);
      } else if Distinct(ids) {
        MarkSendingKeeps(s, ids, false);
        FinishAllKeeps(MarkSending(s, ids, false), ids, Rejected);
      } else {
        TwiceIn(ids);
        var i :| i in ids && multiset(ids)[i] >= 2;
        FinishAllLogs(MarkSending(s, ids, false), ids, Rejected, i);
        FinishAllKeys(MarkSending(s, ids, false), ids, Rejected);
        assert !OrderOk(t, i);
      }
    }
  }

  lemma {:induction false} FinishAllKeys(s: State, ids: seq<string>, why: Reason)
    requires forall i | i in ids :: i in s.orders
    ensures FinishAll(s, ids, why).orders.Keys == s.orders.Keys
    decreases |ids|
  {
    if ids != [] {
      FinishAllKeys(Finish(s, ids[0], why), ids[1..], why);
    }
  }

  lemma CancelOrdersIff(s: State, ids: set<string>, ok: bool)
    requires Inv(s) && ids <= s.orders.Keys
    ensures Inv(CancelOrders(s, ids, ok)) <==> (ok || Targets(s, ids) == {} || ids <= s.living)
  {
    var t := CancelOrders(s, ids, ok);
    if ok || Targets(s, ids) == {} || ids <= s.living {
      forall i | i in t.orders ensures OrderOk(t, i) {
        assert OrderOk(s, i);
        assert i in ids && s.orders[i].status.Pending? ==> i in Targets(s, ids);
      }
    } else {
      var i :| i in ids && i !in s.living;
      assert OrderOk(s, i);
      assert !OrderOk(t, i);
    }
  }

  // ---------------------------------------------------------------------------------------------
  // Responses, data and deferred callbacks
  // ---------------------------------------------------------------------------------------------

  lemma ReceiveKeeps(s: State, id: string, k: Kind)
    requires Inv(s) && id in s.orders
    ensures Inv(Receive(s, id, k))
  {
    assert OrderOk(s, id);
    PutKeeps(s, id, Answered(s.orders[id], k));
  }

  lemma ReceiveAllKeeps(s: State, ids: seq<string>, k: Kind)
    requires Inv(s)
    ensures Inv(ReceiveAll(s, ids, k))
  {
    var t := ReceiveAll(s, ids, k);
    forall i | i in t.orders ensures OrderOk(t, i) {
      assert OrderOk(s, i);
    }
  }

  lemma AcceptKeeps(s: State, id: string, o: Order, cbs: seq<Callback>)
    requires Inv(s) && id in s.living
    requires o.status.Pending? && o.reason == s.orders[id].reason
    ensures Inv(Put(s, id, o).(jobs := s.jobs + Jobs(id, cbs)))
  {
    assert OrderOk(s, id);
    PutKeeps(s, id, o);
    JobsKeep(Put(s, id, o), s.jobs + Jobs(id, cbs));
  }

  lemma HandleSendKeeps(s: State, id: string, err: Option<AgentError>)
    requires Inv(s) && id in s.orders
    ensures Inv(HandleSend(s, id, err))
    ensures HandleSend(s, id, err).orders.Keys == s.orders.Keys
  {
    if id in s.living && s.orders[id].status.Sending? {
      match err
      case Some(e) =>
        FinishKeeps(s, id, Rejected);
        NoticeKeeps(Finish(s, id, Rejected), e);
      case None =>
        AcceptKeeps(s, id, s.orders[id].(status := Pending), s.orders[id].onCreate);
    }
  }

  /** A refused request leaves the order Pending, with or without stopping the dealer. */
  lemma RefusalKeeps(s: State, id: string, o: Order, e: AgentError)
    requires Inv(s) && id in s.living && o.status.Pending? && o.reason == s.orders[id].reason
    ensures Inv(Notice(Put(s, id, o), e))
  {
    assert OrderOk(s, id);
    PutKeeps(s, id, o);
    NoticeKeeps(Put(s, id, o), e);
  }

  lemma HandleAmendKeeps(s: State, id: string, d: Detail, err: Option<AgentError>)
    requires Inv(s) && id in s.orders
    ensures Inv(HandleAmend(s, id, d, err))
  {
    if id in s.living && s.orders[id].status.Amending? {
      var o := s.orders[id];
      if err == Some(OrderIsNotExists) {
        FinishKeeps(s, id, Abandoned);
      } else if err.Some? {
        RefusalKeeps(s, id, o.(status := Pending, amending := None), err.value);
      } else {
        AcceptKeeps(s, id, o.(status := Pending, amending := None, price := d.price, qty := d.qty), o.onAmend);
      }
    }
  }

  lemma HandleCancelKeys(s: State, id: string, err: Option<AgentError>)
    requires id in s.orders
    ensures HandleCancel(s, id, err).orders.Keys == s.orders.Keys
  {
  }

  lemma HandleCancelKeeps(s: State, id: string, err: Option<AgentError>)
    requires Inv(s) && id in s.orders
    ensures Inv(HandleCancel(s, id, err))
    ensures HandleCancel(s, id, err).orders.Keys == s.orders.Keys
  {
    HandleCancelKeys(s, id, err);
    if id in s.living && s.orders[id].status.Canceling? {
      if err == Some(OrderIsNotExists) {
        FinishKeeps(s, id, Abandoned);
      } else if err.Some? {
        RefusalKeeps(s, id, s.orders[id].(status := Pending), err.value);
      } else {
        FinishKeeps(s, id, Canceled);
      }
    }
  }

  lemma {:induction false} HandleSendEachKeeps(s: State, ids: seq<string>, a: BatchAnswer)
    requires Inv(s) && a.PerOrder?
    requires forall i | i in ids :: i in s.orders
    ensures Inv(HandleSendEach(s, ids, a))
    decreases |ids|
  {
    if ids != [] {
      HandleSendKeeps(s, ids[0], a.For(ids[0]));
      HandleSendEachKeeps(HandleSend(s, ids[0], a.For(ids[0])), ids[1..], a);
    }
  }

  lemma {:induction false} HandleCancelEachKeeps(s: State, ids: seq<string>, a: BatchAnswer)
    requires Inv(s) && a.PerOrder?
    requires forall i | i in ids :: i in s.orders
    ensures Inv(HandleCancelEach(s, ids, a))
    decreases |ids|
  {
    if ids != [] {
      HandleCancelKeeps(s, ids[0], a.For(ids[0]));
      HandleCancelEachKeeps(HandleCancel(s, ids[0], a.For(ids[0])), ids[1..], a);
    }
  }

  lemma {:induction false} RejectCancelAllKeeps(s: State, ids: seq<string>)
    requires Inv(s)
    requires forall i | i in ids :: i in s.living
    ensures Inv(RejectCancelAll(s, ids))
    decreases |ids|
  {
    if ids != [] {
      assert OrderOk(s, ids[0]);
      PutKeeps(s, ids[0], s.orders[ids[0]].(status := Pending));
      RejectCancelAllKeeps(RejectCancel(s, ids[0]), ids[1..]);
    }
  }

  lemma {:induction false} AmongDistinct(s: State, ids: seq<string>, st: Status)
    requires Distinct(ids)
    requires forall i | i in ids :: i in s.orders
    ensures Distinct(Among(s, ids, st))
  {
    if ids != [] {
      AmongDistinct(s, ids[1..], st);
      AmongWithin(s, ids[1..], st);
    }
  }

  lemma HandleSendsKeeps(s: State, ids: seq<string>, a: BatchAnswer)
    requires Inv(s) && Distinct(ids)
    requires forall i | i in ids :: i in s.orders
    ensures Inv(HandleSends(s, ids, a))
  {
    var found := Among(s, ids, Sending);
    AmongWithin(s, ids, Sending);
    AmongDistinct(s, ids, Sending);
    match a
    case Transport(e) =>
      FinishAllKeeps(s, found, Rejected);
      NoticeKeeps(FinishAll(s, found, Rejected), e);
    case PerOrder(_) => HandleSendEachKeeps(s, found, a);
  }

  lemma HandleCancelsKeeps(s: State, ids: seq<string>, a: BatchAnswer)
    requires Inv(s)
    requires forall i | i in ids :: i in s.orders
    ensures Inv(HandleCancels(s, ids, a))
  {
    var found := Among(s, ids, Canceling);
    AmongWithin(s, ids, Canceling);
    match a
    case Transport(e) =>
      RejectCancelAllKeeps(s, found);
      NoticeKeeps(RejectCancelAll(s, found), e);
    case PerOrder(_) => HandleCancelEachKeeps(s, found, a);
  }

  lemma NoteForeignKeeps(s: State, d: OrderData)
    requires Inv(s)
    ensures Inv(NoteForeign(s, d))
  {
    var t := NoteForeign(s, d);
    forall i | i in t.orders ensures OrderOk(t, i) {
      assert OrderOk(s, i);
    }
  }

  lemma HandleDataKeeps(s: State, d: OrderData)
    requires Inv(s)
    ensures Inv(HandleData(s, d))
  {
    NoteForeignKeeps(s, d);
    var s1 := NoteForeign(s, d);
    if d.id in s1.living {
      assert OrderOk(s1, d.id);
      var o := FillInfo(s1.orders[d.id], d);
      PutKeeps(s1, d.id, o);
      FinishKeeps(Put(s1, d.id, o), d.id, Filled);
      FinishKeeps(Put(s1, d.id, o), d.id, PartiallyFilledAndCanceled);
    }
  }

  lemma RunJobKeeps(s: State, k: nat, ok: bool)
    requires Inv(s) && k < |s.jobs|
    ensures Inv(RunJob(s, k, ok))
  {
    var job := s.jobs[k];
    var s1 := s.(jobs := s.jobs[..k] + s.jobs[k + 1..]);
    JobsKeep(s, s1.jobs);
    match job.cb
    case UserCb =>
    case CancelCb => IssueCancelKeeps(s1, job.id, ok);
    case AmendCb(captured) =>
      var d := if job.id in s.queued then s.queued[job.id] else captured;
      QueueKeeps(s1, s1.queued - {job.id});
      IssueAmendKeeps(s1.(queued := s1.queued - {job.id}), job.id, d, ok);
  }

  lemma NewKeeps(s: State, id: string, o: Order)
    requires Inv(s) && id != "" && id !in s.orders
    requires o.status.Born? && o.reason.None?
    ensures Inv(Put(s, id, o))
  {
    var t := Put(s, id, o);
    forall i | i in t.orders ensures OrderOk(t, i) {
      if i != id {
        assert OrderOk(s, i);
      }
    }
  }

  lemma ExportKeeps(s: State)
    requires Inv(s)
    ensures Inv(Export(s))
  {
    var t := Export(s);
    forall i | i in t.orders ensures OrderOk(t, i) {
      assert OrderOk(s, i);
    }
  }

  // ---------------------------------------------------------------------------------------------
  // One event, and whole runs
  // ---------------------------------------------------------------------------------------------

  /** An event keeps the partition if and only if its guard holds. */
  lemma StepKeepsIff(s: State, e: Event)
    requires Inv(s) && Possible(s, e)
    ensures Inv(Step(s, e)) <==> Disciplined(s, e)
  {
    match e
    case New(id, t, p, q) => NewKeeps(s, id, NewOrder(t, p, q));
    case Send(id, ok) => SendOrderIff(s, id, ok);
    case SendBatch(ids, ok) => SendOrdersIff(s, ids, ok);
    case AmendCall(id, d, ok) => AmendOrderKeeps(s, id, d, ok);
    case CancelCall(id, ok) => CancelOrderKeeps(s, id, ok);
    case CancelBatch(ids, ok) => CancelOrdersIff(s, ids, ok);
    case ListenCreate(id) =>
      assert OrderOk(s, id);
      PutKeeps(s, id, s.orders[id].(onCreate := s.orders[id].onCreate + [UserCb]));
    case ListenAmend(id) =>
      assert OrderOk(s, id);
      PutKeeps(s, id, s.orders[id].(onAmend := s.orders[id].onAmend + [UserCb]));
    case ExportDone => ExportKeeps(s);
    case SendResp(id, err) =>
      ReceiveKeeps(s, id, Create);
      HandleSendKeeps(Receive(s, id, Create), id, err);
    case AmendResp(id, d, err) =>
      ReceiveKeeps(s, id, Amend);
      HandleAmendKeeps(Receive(s, id, Amend), id, d, err);
    case CancelResp(id, err) =>
      ReceiveKeeps(s, id, Cancel);
      HandleCancelKeeps(Receive(s, id, Cancel), id, err);
    case SendBatchResp(ids, a) =>
      ReceiveAllKeeps(s, ids, Create);
      HandleSendsKeeps(ReceiveAll(s, ids, Create), ids, a);
    case CancelBatchResp(ids, a) =>
      ReceiveAllKeeps(s, ids, Cancel);
      HandleCancelsKeeps(ReceiveAll(s, ids, Cancel), ids, a);
    case Data(d) => HandleDataKeeps(s, d);
    case RunDeferred(k, ok) => RunJobKeeps(s, k, ok);
  }

  ghost predicate DisciplinedRun(s: State, es: seq<Event>)
    requires Legal(s, es)
    decreases |es|
  {
    es == [] || (Disciplined(s, es[0]) && DisciplinedRun(Step(s, es[0]), es[1..]))
  }

  lemma {:induction false} RunKeeps(s: State, es: seq<Event>)
    requires Inv(s) && Legal(s, es) && DisciplinedRun(s, es)
    ensures Inv(Run(s, es))
    decreases |es|
  {
    if es != [] {
      StepKeepsIff(s, es[0]);
      RunKeeps(Step(s, es[0]), es[1..]);
    }
  }

  /** From an empty dealer, every order that left Born is in exactly one place, exactly once. */
  lemma ExactlyOnePlace(es: seq<Event>, id: string)
    requires Legal(Init, es) && DisciplinedRun(Init, es)
    requires id in Run(Init, es).orders && !Run(Init, es).orders[id].status.Born?
    ensures var s := Run(Init, es);
      && (id in s.living ==> Logged(s, id) == 0 && s.orders[id].status.IsLiving())
      && (id !in s.living ==> Logged(s, id) == 1 && s.orders[id].status.Done? && s.orders[id].reason.Some?)
  {
    RunKeeps(Init, es);
    assert OrderOk(Run(Init, es), id);
  }
}
