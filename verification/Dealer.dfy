/**
 The dealer as the object it is: orders and maps updated in place.
 Each method is proved to do to the dealer's view what the protocol step of the same name does.
 */
module Dealing {
  import opened Common
  import opened Protocol
  import opened Runs
  import Partition
  import Finality
  import Requests
  import LifeCycle

  datatype DealError = NotAccepting | AlreadyExists | NotReady | NotAmendable | AgentFailed

  class Order {
    const id: string
    const orderType: OrderType
    var price: real
    var qty: real
    var status: Status
    var reason: Option<Reason>
    var avgPrice: real
    var execQty: real
    var fee: real
    var onCreate: seq<Callback>
    var onAmend: seq<Callback>
    var amending: Option<Detail>
    var amendCount: nat
    ghost var inFlight: InFlight

    ghost function Rec(): Protocol.Order
      reads this
    {
      Protocol.Order(orderType, status, price, qty, reason, avgPrice, execQty, fee, onCreate, onAmend,
                     amending, amendCount, inFlight)
    }

    constructor (id: string, orderType: OrderType, price: real, qty: real)
      ensures this.id == id && Rec() == NewOrder(orderType, price, qty)
    {
      this.id, this.orderType, this.price, this.qty := id, orderType, price, qty;
      status, reason, amending := Born, None, None;
      avgPrice, execQty, fee := 0.0, 0.0, 0.0;
      onCreate, onAmend, amendCount := [], [], 0;
      inFlight := InFlight(0, 0, 0);
    }

    method SetCreateCallback(cb: Callback)
      modifies this`onCreate
      ensures onCreate == if orderType.IsTaker() then old(onCreate) else old(onCreate) + [cb]
    {
      if orderType.IsTaker() {
        return;
      }
      onCreate := onCreate + [cb];
    }

    method SetAmendCallback(cb: Callback)
      modifies this`onAmend
      ensures onAmend == if orderType.IsAmendable() then old(onAmend) + [cb] else old(onAmend)
    {
      if !orderType.IsAmendable() {
        return;
      }
      onAmend := onAmend + [cb];
    }

    method IsNeedToAmend(d: Detail) returns (need: bool)
      ensures need == NeedToAmend(Rec(), d)
    {
      var differs := price != d.price || qty != d.qty;
      match status {
        case Pending => need := differs;
        case Amending => need := differs && amending != Some(d);
        case _ => need := false;
      }
    }
  }

  class Dealer {
    var accepting: bool
    var living: map<string, Order>
    var queued: map<string, Detail>
    var done: seq<Entry>
    var foreign: set<string>
    var jobs: seq<Job>
    /** What earlier exports handed out. */
    ghost var exported: seq<Entry>
    /** Every order object the client has made for this dealer. */
    ghost var registry: map<string, Order>
    /** Every event so far. */
    ghost var history: seq<Event>

    /** The maps agree on which order object an id stands for. */
    ghost predicate Wired()
      reads this
    {
      && (forall i | i in registry :: registry[i].id == i)
      && (forall i | i in living :: i in registry && living[i] == registry[i])
    }

    ghost predicate Known(o: Order)
      reads this
    {
      o.id in registry && registry[o.id] == o
    }

    ghost function View(): State
      requires Wired()
      reads this, registry.Values
    {
      State(map i | i in registry :: registry[i].Rec(),
            living.Keys, queued, done, exported, foreign, accepting, jobs)
    }

    /** The dealer is where its history leads. */
    ghost predicate Valid()
      reads this, registry.Values
    {
      Wired() && Legal(Init, history) && View() == Run(Init, history)
    }

    constructor ()
      ensures Valid() && history == [] && registry == map[]
    {
      accepting, living, queued, done := true, map[], map[], [];
      foreign, jobs, exported, registry, history := {}, [], [], map[], [];
    }

    /** Touching one order changes the view at that order only. */
    twostate lemma OnlyOrder(order: Order)
      requires old(Wired()) && Wired() && Known(order) && registry == old(registry)
      requires forall i | i in registry :: registry[i] != order ==> unchanged(registry[i])
      ensures View().orders == old(View()).orders[order.id := order.Rec()]
    {
      var now, was := View().orders, old(View()).orders[order.id := order.Rec()];
      forall i | i in now ensures i in was && now[i] == was[i] {
        if i == order.id {
          assert registry[i] == order;
        } else {
          assert registry[i] != order;
        }
      }
    }

    method Finish(order: Order, why: Reason)
      requires Wired() && Known(order)
      modifies this`living, this`done, order
      ensures Wired() && View() == Protocol.Finish(old(View()), order.id, why)
    {
      order.status := Done;
      order.reason := Some(why);
      living := living - {order.id};
      done := done + [Managed(order.id)];
      OnlyOrder(order);
    }

    method SetStatus(order: Order, st: Status)
      requires Wired() && Known(order)
      modifies order`status
      ensures Wired() && View() == Put(old(View()), order.id, old(View()).orders[order.id].(status := st))
    {
      order.status := st;
      OnlyOrder(order);
    }

    /** Bookkeeping only: the agent accepted a request for the order. */
    ghost method Ask(order: Order, k: Kind)
      requires Wired() && Known(order)
      modifies order`inFlight
      ensures Wired() && View() == Put(old(View()), order.id, Requested(old(View()).orders[order.id], k))
    {
      order.inFlight := Requested(order.Rec(), k).inFlight;
      OnlyOrder(order);
    }

    /** Bookkeeping only: the agent answered a request for the order. */
    ghost method Answer(order: Order, k: Kind)
      requires Wired() && Known(order)
      modifies order`inFlight
      ensures Wired() && View() == Receive(old(View()), order.id, k)
    {
      order.inFlight := Answered(order.Rec(), k).inFlight;
      OnlyOrder(order);
    }

    method RejectAmend(order: Order)
      requires Wired() && Known(order)
      modifies order
      ensures Wired() && View() == Protocol.RejectAmend(old(View()), order.id)
    {
      order.status := Pending;
      order.amending := None;
      OnlyOrder(order);
    }

    method RejectCancel(order: Order)
      requires Wired() && Known(order)
      modifies order`status
      ensures Wired() && View() == Protocol.RejectCancel(old(View()), order.id)
    {
      SetStatus(order, Pending);
    }

    method AcceptCreate(order: Order)
      requires Wired() && Known(order)
      modifies this`jobs, order
      ensures Wired() && View() == Protocol.AcceptCreate(old(View()), order.id)
    {
      SetStatus(order, Pending);
      jobs := jobs + Jobs(order.id, order.onCreate);
    }

    /** The order takes the amended price and quantity and is Pending again. */
    method Settle(order: Order, d: Detail)
      requires Wired() && Known(order)
      modifies order
      ensures Wired()
      ensures View() == Put(old(View()), order.id,
        old(View()).orders[order.id].(status := Pending, amending := None, price := d.price, qty := d.qty))
      ensures order.onAmend == old(order.onAmend)
    {
      order.status := Pending;
      order.amending := None;
      order.price, order.qty := d.price, d.qty;
      OnlyOrder(order);
    }

    method AcceptAmend(order: Order, d: Detail)
      requires Wired() && Known(order)
      modifies this`jobs, order
      ensures Wired() && View() == Protocol.AcceptAmend(old(View()), order.id, d)
    {
      Settle(order, d);
      jobs := jobs + Jobs(order.id, order.onAmend);
    }

    method NoticeError(e: AgentError)
      requires Wired()
      modifies this`accepting
      ensures Wired() && View() == Notice(old(View()), e)
    {
      match e {
        case InfoError => return;
        case WarnError => return;
        case HttpError => return;
        case _ => accepting := false;
      }
    }

    /** The order enters the living map as Sending. */
    method Enter(order: Order)
      requires Wired() && Known(order)
      modifies this`living, order`status
      ensures Wired()
      ensures View() == Put(old(View()), order.id, old(View()).orders[order.id].(status := Sending))
                          .(living := old(View()).living + {order.id})
    {
      living := living[order.id := order];
      order.status := Sending;
      OnlyOrder(order);
    }

    method TrySend(order: Order, ok: bool) returns (err: Option<DealError>)
      requires Wired() && Known(order)
      modifies this`living, this`done, order
      ensures Wired() && View() == Protocol.SendOrder(old(View()), order.id, ok)
      ensures err == if !old(accepting) then Some(NotAccepting)
                     else if order.id in old(living) then Some(AlreadyExists)
                     else if !ok then Some(AgentFailed) else None
    {
      if !accepting {
        return Some(NotAccepting);
      }
      if order.id in living {
        return Some(AlreadyExists);
      }
      Enter(order);
      ghost var s, o := View(), View().orders[order.id];
      if ok {
        Ask(order, Create);
        PutTwice(old(View()).(living := s.living), order.id, o, Requested(o, Create));
        return None;
      }
      Finish(order, Rejected);
      return Some(AgentFailed);
    }

    method IssueAmend(order: Order, d: Detail, ok: bool) returns (err: Option<DealError>)
      requires Wired() && Known(order)
      modifies order
      ensures Wired() && View() == Protocol.IssueAmend(old(View()), order.id, d, ok)
      ensures err == AmendError(old(View()), order.id, d, ok)
    {
      if order.id !in living {
        return None;
      }
      var need := order.IsNeedToAmend(d);
      if order.amendCount >= AMEND_LIMIT {
        RejectAmend(order);
        return Some(NotAmendable);
      }
      if !need {
        return None;
      }
      if order.status != Pending {
        RejectAmend(order);
        return Some(NotReady);
      }
      order.status := Amending;
      order.amending := Some(d);
      OnlyOrder(order);
      ghost var o := View().orders[order.id];
      if ok {
        Ask(order, Amend);
        PutTwice(old(View()), order.id, o, Requested(o, Amend));
        return None;
      }
      RejectAmend(order);
      return Some(AgentFailed);
    }

    method TryAmend(order: Order, d: Detail, ok: bool) returns (err: Option<DealError>)
      requires Wired() && Known(order)
      modifies this`queued, order
      ensures Wired() && View() == Protocol.AmendOrder(old(View()), order.id, d, ok)
      ensures err == AmendCallError(old(View()), order.id, d, ok)
    {
      if !accepting {
        return Some(NotAccepting);
      }
      match order.status {
        case Done =>
          return None;
        case Pending =>
          err := IssueAmend(order, d, ok);
        case Sending =>
          if order.id !in queued {
            order.SetCreateCallback(AmendCb(d));
          }
          queued := queued[order.id := d];
          OnlyOrder(order);
          return None;
        case Amending =>
          if order.id !in queued {
            order.SetAmendCallback(AmendCb(d));
          }
          queued := queued[order.id := d];
          OnlyOrder(order);
          return None;
        case _ =>
          return Some(NotReady);
      }
    }

    method IssueCancel(order: Order, ok: bool) returns (err: Option<DealError>)
      requires Wired() && Known(order)
      modifies order
      ensures Wired() && View() == Protocol.IssueCancel(old(View()), order.id, ok)
      ensures err.None? <==> old(order.status).Canceling? || (old(order.status).Pending? && ok)
      ensures err == Some(AgentFailed) <==> old(order.status).Pending? && !ok
      ensures err == Some(NotReady) <==> !old(order.status).Pending? && !old(order.status).Canceling?
    {
      if order.status == Canceling {
        return None;
      }
      if order.status != Pending {
        return Some(NotReady);
      }
      SetStatus(order, Canceling);
      ghost var o := View().orders[order.id];
      if ok {
        Ask(order, Cancel);
        PutTwice(old(View()), order.id, o, Requested(o, Cancel));
        return None;
      }
      RejectCancel(order);
      return Some(AgentFailed);
    }

    method TryCancel(order: Order, ok: bool)
      requires Wired() && Known(order)
      modifies this`queued, order
      ensures Wired() && View() == Protocol.CancelOrder(old(View()), order.id, ok)
    {
      if order.status == Pending {
        var _ := IssueCancel(order, ok);
      } else {
        QueueCancel(order);
      }
    }

    method SettleSend(id: string, err: Option<AgentError>)
      requires Wired() && id in registry
      modifies this`accepting, this`living, this`done, this`jobs, registry.Values
      ensures Wired() && View() == HandleSend(old(View()), id, err)
    {
      if id !in living || living[id].status != Sending {
        return;
      }
      var order := living[id];
      match err {
        case Some(e) =>
          Finish(order, Rejected);
          NoticeError(e);
        case None =>
          if order.orderType.IsLimit() {
            AcceptCreate(order);
          }
      }
    }

    method SettleAmend(id: string, d: Detail, err: Option<AgentError>)
      requires Wired() && id in registry
      modifies this`accepting, this`living, this`done, this`jobs, registry.Values
      ensures Wired() && View() == HandleAmend(old(View()), id, d, err)
    {
      if id !in living || living[id].status != Amending {
        return;
      }
      var order := living[id];
      match err {
        case Some(e) =>
          if e == OrderIsNotExists {
            Finish(order, Abandoned);
          } else {
            RejectAmend(order);
            NoticeError(e);
          }
        case None =>
          AcceptAmend(order, d);
      }
    }

    method SettleCancel(id: string, err: Option<AgentError>)
      requires Wired() && id in registry
      modifies this`accepting, this`living, this`done, this`jobs, registry.Values
      ensures Wired() && View() == HandleCancel(old(View()), id, err)
    {
      if id !in living || living[id].status != Canceling {
        return;
      }
      var order := living[id];
      match err {
        case Some(e) =>
          if e == OrderIsNotExists {
            Finish(order, Abandoned);
          } else {
            RejectCancel(order);
            NoticeError(e);
          }
        case None =>
          Finish(order, Canceled);
      }
    }

    // -------------------------------------------------------------------------------------------
    // Batches
    // -------------------------------------------------------------------------------------------

    /** Bookkeeping only: the agent accepted a batch. */
    ghost method AskAll(orders: seq<Order>, k: Kind)
      requires Wired() && forall o | o in orders :: Known(o)
      modifies (set o | o in orders)`inFlight
      ensures Wired() && View() == AskedAll(old(View()), IdsOf(orders), k)
    {
      forall o | o in orders {
        o.inFlight := Requested(o.Rec(), k).inFlight;
      }
      IdsOfAllKnown(orders);
      assert forall i | i in registry ::
        registry[i].Rec() == if registry[i] !in orders then old(registry[i].Rec())
                             else Requested(old(registry[i].Rec()), k);
    }

    /** Bookkeeping only: the agent answered for these orders. */
    ghost method AnswerEach(orders: seq<Order>, k: Kind)
      requires Wired() && forall o | o in orders :: Known(o)
      modifies (set o | o in orders)`inFlight
      ensures Wired() && View() == ReceiveAll(old(View()), IdsOf(orders), k)
    {
      forall o | o in orders {
        o.inFlight := Answered(o.Rec(), k).inFlight;
      }
      IdsOfAllKnown(orders);
      assert forall i | i in registry ::
        registry[i].Rec() == if registry[i] !in orders then old(registry[i].Rec())
                             else Answered(old(registry[i].Rec()), k);
    }

    /** Bookkeeping only: the agent answered a batch. */
    ghost method AnswerAll(ids: seq<string>, k: Kind)
      requires Wired() && forall i | i in ids :: i in registry
      modifies registry.Values
      ensures Wired() && View() == ReceiveAll(old(View()), ids, k)
    {
      var known := registry;
      var orders := seq(|ids|, i requires 0 <= i < |ids| && ids[i] in known => known[ids[i]]);
      assert IdsOf(orders) == ids;
      AnswerEach(orders, k);
    }

    lemma IdsOfKnown(orders: seq<Order>, i: string)
      requires Wired() && (forall o | o in orders :: Known(o)) && i in registry
      ensures i in IdsOf(orders) <==> registry[i] in orders
    {
      if i in IdsOf(orders) {
        var j :| 0 <= j < |orders| && IdsOf(orders)[j] == i;
        assert Known(orders[j]);
      }
      if registry[i] in orders {
        var j :| 0 <= j < |orders| && orders[j] == registry[i];
        assert IdsOf(orders)[j] == i;
      }
    }

    lemma IdsOfAllKnown(orders: seq<Order>)
      requires Wired() && (forall o | o in orders :: Known(o))
      ensures forall i | i in registry :: i in IdsOf(orders) <==> registry[i] in orders
    {
      forall i | i in registry ensures i in IdsOf(orders) <==> registry[i] in orders {
        IdsOfKnown(orders, i);
      }
    }

    method RejectCreates(orders: seq<Order>)
      requires Wired() && forall o | o in orders :: Known(o)
      modifies this`living, this`done, orders
      ensures Wired() && (forall i | i in IdsOf(orders) :: i in old(View()).orders)
      ensures View() == FinishAll(old(View()), IdsOf(orders), Rejected)
    {
      ghost var ids := IdsOf(orders);
      ghost var s := View();
      assert forall j | 0 <= j < |orders| :: Known(orders[j]);
      for i := 0 to |orders|
        invariant Wired() && forall j | i <= j < |orders| :: Known(orders[j])
        invariant View().orders.Keys == s.orders.Keys
        invariant forall x | x in ids[i..] :: x in View().orders
        invariant FinishAll(View(), ids[i..], Rejected) == FinishAll(s, ids, Rejected)
      {
        assert ids[i..][0] == orders[i].id && ids[i..][1..] == ids[i + 1..];
        Finish(orders[i], Rejected);
      }
      assert ids[|orders|..] == [];
    }

    method AnyLiving(orders: seq<Order>) returns (found: bool)
      requires Wired()
      ensures found <==> exists o :: o in orders && o.id in living
      ensures found <==> exists i :: i in IdsOf(orders) && i in living
    {
      ghost var ids := IdsOf(orders);
      for i := 0 to |orders|
        invariant forall j | 0 <= j < i :: ids[j] !in living
      {
        if orders[i].id in living {
          assert ids[i] in ids && orders[i] in orders;
          return true;
        }
      }
      assert forall o | o in orders :: exists j :: 0 <= j < |orders| && orders[j] == o && ids[j] == o.id;
      return false;
    }

    /** The next order of a batch enters; `s` is the state before the batch. */
    method EnterNext(order: Order, ghost orders: seq<Order>, ghost i: nat, ghost s: State)
      requires Wired() && Known(order) && i < |orders| && orders[i] == order && order.id in s.orders
      requires View() == MarkSending(s, IdsOf(orders)[..i], false)
      modifies this`living, order`status
      ensures Wired() && View() == MarkSending(s, IdsOf(orders)[..i + 1], false)
    {
      ghost var ids := IdsOf(orders);
      MarkOneMore(s, ids[..i], ids[i]);
      assert ids[..i + 1] == ids[..i] + [ids[i]];
      Enter(order);
    }

    method EnterAll(orders: seq<Order>)
      requires Wired() && forall o | o in orders :: Known(o)
      modifies this`living, (set o | o in orders)`status
      ensures Wired() && View() == MarkSending(old(View()), IdsOf(orders), false)
    {
      ghost var ids, s := IdsOf(orders), View();
      assert forall j | 0 <= j < |orders| :: Known(orders[j]);
      NothingMarked(s);
      assert ids[..0] == [];
      for i := 0 to |orders|
        invariant Wired() && forall j | 0 <= j < |orders| :: Known(orders[j])
        invariant View() == MarkSending(s, ids[..i], false)
      {
        EnterNext(orders[i], orders, i, s);
      }
      assert ids[..|orders|] == ids;
    }

    method TrySendAll(orders: seq<Order>, ok: bool) returns (err: Option<DealError>)
      requires Wired() && forall o | o in orders :: Known(o)
      modifies this`living, this`done, orders
      ensures Wired() && (forall i | i in IdsOf(orders) :: i in old(View()).orders)
      ensures View() == Protocol.SendOrders(old(View()), IdsOf(orders), ok)
      ensures err == if !old(accepting) then Some(NotAccepting)
                     else if exists o :: o in orders && o.id in old(living) then Some(AlreadyExists)
                     else if !ok then Some(AgentFailed) else None
    {
      assert forall j | 0 <= j < |orders| :: Known(orders[j]);
      if !accepting {
        return Some(NotAccepting);
      }
      var exists_ := AnyLiving(orders);
      if exists_ {
        return Some(AlreadyExists);
      }
      EnterAll(orders);
      if ok {
        AskAll(orders, Create);
        AskedAfterMarking(old(View()), IdsOf(orders));
        return None;
      }
      RejectCreates(orders);
      return Some(AgentFailed);
    }

    /** The living orders among `ids` that have the given status. */
    method OrdersWith(ids: seq<string>, st: Status) returns (found: seq<Order>)
      requires Wired() && forall i | i in ids :: i in registry
      ensures forall o | o in found :: Known(o)
      ensures IdsOf(found) == Among(View(), ids, st)
    {
      found := [];
      ghost var s, got := View(), [];
      assert forall x | x in ids :: x in s.orders;
      for i := 0 to |ids|
        invariant (forall o | o in found :: Known(o)) && IdsOf(found) == got
        invariant got + Among(s, ids[i..], st) == Among(s, ids, st)
      {
        AmongStep(s, ids, i, st, got, Among(s, ids, st));
        var id := ids[i];
        if id in living && living[id].status == st {
          IdsOfAppend(found, living[id]);
          found, got := found + [living[id]], got + [id];
        }
      }
      assert ids[|ids|..] == [];
    }

    method HandleSendEach(orders: seq<Order>, a: BatchAnswer)
      requires Wired() && a.PerOrder? && forall o | o in orders :: Known(o)
      modifies this`accepting, this`living, this`done, this`jobs, registry.Values
      ensures Wired()
      ensures (forall i | i in IdsOf(orders) :: i in old(View()).orders)
      ensures View() == Protocol.HandleSendEach(old(View()), IdsOf(orders), a)
    {
      ghost var s, ids := View(), IdsOf(orders);
      assert forall j | 0 <= j < |orders| :: Known(orders[j]);
      for i := 0 to |orders|
        invariant Wired() && View().orders.Keys == s.orders.Keys
        invariant Protocol.HandleSendEach(View(), ids[i..], a) == Protocol.HandleSendEach(s, ids, a)
      {
        assert ids[i..][0] == ids[i] && ids[i..][1..] == ids[i + 1..];
        SettleSend(orders[i].id, a.For(orders[i].id));
      }
      assert ids[|orders|..] == [];
    }

    method SettleSends(ids: seq<string>, a: BatchAnswer)
      requires Wired() && forall i | i in ids :: i in registry
      modifies this`accepting, this`living, this`done, this`jobs, registry.Values
      ensures Wired() && View() == HandleSends(old(View()), ids, a)
    {
      var orders := OrdersWith(ids, Sending);
      assert forall o | o in orders :: o.id in registry && registry[o.id] == o;
      if a.Transport? {
        assert forall o | o in orders :: o in registry.Values;
        RejectCreates(orders);
        ghost var t := View();
        NoticeError(a.error);
        assert View() == Notice(t, a.error);
      } else {
        HandleSendEach(orders, a);
      }
    }

    method RejectCancels(orders: seq<Order>)
      requires Wired() && forall o | o in orders :: Known(o)
      modifies (set o | o in orders)`status
      ensures Wired() && (forall i | i in IdsOf(orders) :: i in old(View()).orders)
      ensures View() == RejectCancelAll(old(View()), IdsOf(orders))
    {
      ghost var s, ids := View(), IdsOf(orders);
      assert forall j | 0 <= j < |orders| :: Known(orders[j]);
      for i := 0 to |orders|
        invariant Wired() && forall j | i <= j < |orders| :: Known(orders[j])
        invariant View().orders.Keys == s.orders.Keys
        invariant forall x | x in ids[i..] :: x in View().orders
        invariant RejectCancelAll(View(), ids[i..]) == RejectCancelAll(s, ids)
      {
        assert ids[i..][0] == ids[i] && ids[i..][1..] == ids[i + 1..];
        RejectCancel(orders[i]);
      }
      assert ids[|orders|..] == [];
    }

    method HandleCancelEach(orders: seq<Order>, a: BatchAnswer)
      requires Wired() && a.PerOrder? && forall o | o in orders :: Known(o)
      modifies this`accepting, this`living, this`done, this`jobs, registry.Values
      ensures Wired()
      ensures (forall i | i in IdsOf(orders) :: i in old(View()).orders)
      ensures View() == Protocol.HandleCancelEach(old(View()), IdsOf(orders), a)
    {
      ghost var s, ids := View(), IdsOf(orders);
      assert forall j | 0 <= j < |orders| :: Known(orders[j]);
      for i := 0 to |orders|
        invariant Wired() && View().orders.Keys == s.orders.Keys
        invariant Protocol.HandleCancelEach(View(), ids[i..], a) == Protocol.HandleCancelEach(s, ids, a)
      {
        assert ids[i..][0] == ids[i] && ids[i..][1..] == ids[i + 1..];
        SettleCancel(orders[i].id, a.For(orders[i].id));
      }
      assert ids[|orders|..] == [];
    }

    method SettleCancels(ids: seq<string>, a: BatchAnswer)
      requires Wired() && forall i | i in ids :: i in registry
      modifies this`accepting, this`living, this`done, this`jobs, registry.Values
      ensures Wired() && View() == HandleCancels(old(View()), ids, a)
    {
      var orders := OrdersWith(ids, Canceling);
      assert forall o | o in orders :: o.id in registry && registry[o.id] == o;
      match a {
        case Transport(e) =>
          RejectCancels(orders);
          NoticeError(e);
        case PerOrder(_) =>
          HandleCancelEach(orders, a);
      }
    }

    /** Each order once, in an order of no consequence. */
    method Unique(orders: seq<Order>) returns (r: seq<Order>)
      requires Wired() && forall o | o in orders :: Known(o)
      ensures forall o :: o in r <==> o in orders
      ensures forall i, j | 0 <= i < j < |r| :: r[i] != r[j]
    {
      var unique: map<string, Order> := map[];
      for i := 0 to |orders|
        invariant forall k | k in unique :: unique[k].id == k && unique[k] in orders[..i]
        invariant forall j | 0 <= j < i :: orders[j].id in unique && unique[orders[j].id] == orders[j]
      {
        assert Known(orders[i]);
        assert forall j | 0 <= j < i :: Known(orders[j]);
        assert orders[..i + 1] == orders[..i] + [orders[i]];
        unique := unique[orders[i].id := orders[i]];
      }
      r := [];
      var keys := unique.Keys;
      while keys != {}
        invariant keys <= unique.Keys
        invariant forall o :: o in r <==> o.id in unique && o.id !in keys && unique[o.id] == o
        invariant forall i, j | 0 <= i < j < |r| :: r[i] != r[j]
        decreases keys
      {
        var k :| k in keys;
        keys := keys - {k};
        r := r + [unique[k]];
      }
      assert forall o | o in orders :: exists j :: 0 <= j < |orders| && orders[j] == o;
    }

    /** Queues a cancel behind the operation under way, dropping every amend queued there. */
    method QueueCancel(order: Order)
      requires Wired() && Known(order)
      modifies this`queued, order`onCreate, order`onAmend
      ensures Wired()
      ensures var s, o := old(View()), old(View()).orders[order.id];
        View() == if o.status.IsBusy() then Put(s, order.id, DeferCancel(o)).(queued := s.queued - {order.id}) else s
    {
      match order.status {
        case Sending =>
          queued := queued - {order.id};
          order.onCreate := [CancelCb];
          OnlyOrder(order);
        case Amending =>
          queued := queued - {order.id};
          order.onAmend := [CancelCb];
          OnlyOrder(order);
        case _ =>
      }
    }

    lemma FreshId(orders: seq<Order>, i: nat)
      requires Wired() && i < |orders| && (forall j | 0 <= j <= i :: Known(orders[j]))
      requires forall j | 0 <= j < i :: orders[j] != orders[i]
      ensures orders[i].id !in Ids(IdsOf(orders)[..i])
      ensures Ids(IdsOf(orders)[..i + 1]) == Ids(IdsOf(orders)[..i]) + {orders[i].id}
    {
      var ids := IdsOf(orders);
      assert ids[..i + 1] == ids[..i] + [ids[i]];
      forall j | 0 <= j < i ensures ids[..i][j] != orders[i].id {
        assert Known(orders[j]) && Known(orders[i]);
      }
    }

    /** Defers the cancel of the next order of a batch; `s` is the state before the batch. */
    method DeferNext(order: Order, ghost orders: seq<Order>, ghost i: nat, ghost s: State)
      requires Wired() && i < |orders| && orders[i] == order && (forall j | 0 <= j <= i :: Known(orders[j]))
      requires forall j | 0 <= j < i :: orders[j] != orders[i]
      requires order.id in s.orders && View() == DeferSome(s, Ids(IdsOf(orders)[..i]))
      modifies this`queued, order`onCreate, order`onAmend
      ensures Wired() && View() == DeferSome(s, Ids(IdsOf(orders)[..i + 1]))
    {
      FreshId(orders, i);
      DeferOneMore(s, Ids(IdsOf(orders)[..i]), order.id);
      QueueCancel(order);
    }

    /** Defers the cancel of orders with an operation under way, and collects the Pending ones. */
    method DeferOrCollect(orders: seq<Order>) returns (targets: seq<Order>)
      requires Wired() && (forall o | o in orders :: Known(o))
      requires forall i, j | 0 <= i < j < |orders| :: orders[i] != orders[j]
      modifies this`queued, (set o | o in orders)`onCreate, (set o | o in orders)`onAmend
      ensures Wired() && View() == DeferSome(old(View()), Ids(IdsOf(orders)))
      ensures forall o | o in targets :: o in orders && o.status.Pending?
      ensures forall o | o in orders && o.status.Pending? :: o in targets
    {
      ghost var s, ids := View(), IdsOf(orders);
      targets := [];
      NothingDeferred(s);
      assert Ids(ids[..0]) == {};
      assert forall j | 0 <= j < |orders| :: Known(orders[j]);
      for i := 0 to |orders|
        invariant Wired() && (forall j | 0 <= j < |orders| :: Known(orders[j]))
        invariant View() == DeferSome(s, Ids(ids[..i]))
        invariant forall o | o in targets :: o in orders && o.status.Pending?
        invariant forall j | 0 <= j < i && orders[j].status.Pending? :: orders[j] in targets
      {
        DeferNext(orders[i], orders, i, s);
        if orders[i].status == Pending {
          targets := targets + [orders[i]];
        }
      }
      assert ids[..|orders|] == ids;
    }

    method MarkCanceling(targets: seq<Order>)
      requires Wired() && (forall o | o in targets :: Known(o))
      modifies (set o | o in targets)`status
      ensures Wired() && View() == AllCanceling(old(View()), IdsOf(targets))
    {
      ghost var s, ids := View(), IdsOf(targets);
      assert AllCanceling(s, ids[..0]).orders == s.orders;
      for i := 0 to |targets|
        invariant Wired() && forall j | 0 <= j < |targets| :: Known(targets[j])
        invariant View() == AllCanceling(s, ids[..i])
      {
        CancelOneMore(s, ids[..i], ids[i]);
        assert ids[..i + 1] == ids[..i] + [ids[i]];
        SetStatus(targets[i], Canceling);
      }
      assert ids[..|targets|] == ids;
    }

    /** The batch cancel of orders listed once each. */
    method CancelEach(orders: seq<Order>, ok: bool)
      requires Wired() && forall o | o in orders :: Known(o)
      requires forall i, j | 0 <= i < j < |orders| :: orders[i] != orders[j]
      modifies this`queued, (set o | o in orders)
      ensures Wired() && Ids(IdsOf(orders)) <= old(View()).orders.Keys
      ensures View() == Protocol.CancelOrders(old(View()), Ids(IdsOf(orders)), ok)
    {
      ghost var s, all := View(), IdsOf(orders);
      var targets := DeferOrCollect(orders);
      assert forall o | o in targets :: o in orders;
      ghost var t := View();
      TargetIds(s, orders, targets);
      BatchCancelSpelledOut(s, Ids(all), IdsOf(targets), all, ok);
      if |targets| > 0 {
        MarkCanceling(targets);
        if ok {
          AskAll(targets, Cancel);
        } else {
          RejectCancels(orders);
        }
      }
    }

    method TryCancelAll(batch: seq<Order>, ok: bool)
      requires Wired() && forall o | o in batch :: Known(o)
      modifies this`queued, (set o | o in batch)
      ensures Wired() && Ids(IdsOf(batch)) <= old(View()).orders.Keys
      ensures View() == Protocol.CancelOrders(old(View()), Ids(IdsOf(batch)), ok)
    {
      var orders := Unique(batch);
      SameIds(orders, batch);
      CancelEach(orders, ok);
    }

    /** The collected orders are the Pending ones of the batch. */
    lemma TargetIds(s: State, orders: seq<Order>, targets: seq<Order>)
      requires Wired() && (forall o | o in orders :: Known(o))
      requires s.orders.Keys == registry.Keys && (forall i | i in registry :: s.orders[i].status == registry[i].status)
      requires forall o | o in targets :: o in orders && o.status.Pending?
      requires forall o | o in orders && o.status.Pending? :: o in targets
      ensures Ids(IdsOf(orders)) <= s.orders.Keys
      ensures Ids(IdsOf(targets)) == Targets(s, Ids(IdsOf(orders)))
    {
      forall i | i in IdsOf(orders) ensures i in registry {
        var j :| 0 <= j < |orders| && IdsOf(orders)[j] == i;
        assert Known(orders[j]);
      }
      forall i ensures i in Ids(IdsOf(targets)) <==> i in Targets(s, Ids(IdsOf(orders))) {
        if i in IdsOf(targets) {
          var j :| 0 <= j < |targets| && IdsOf(targets)[j] == i;
          assert targets[j] in targets && Known(targets[j]);
        }
        if i in registry {
          IdsOfKnown(orders, i);
          IdsOfKnown(targets, i);
        }
      }
    }

    // -------------------------------------------------------------------------------------------
    // The private feed, deferred callbacks and client callbacks
    // -------------------------------------------------------------------------------------------

    method SetFillInfo(order: Order, d: OrderData)
      requires Wired() && Known(order)
      modifies order
      ensures Wired() && View() == Put(old(View()), order.id, FillInfo(old(View()).orders[order.id], d))
    {
      order.avgPrice, order.execQty, order.fee := d.avgPrice, d.execQty, d.fee;
      OnlyOrder(order);
    }

    method TrackForeign(d: OrderData)
      requires Wired()
      modifies this`done, this`foreign
      ensures Wired() && View() == NoteForeign(old(View()), d)
    {
      if d.id == "" {
        if d.status == Opened {
          foreign := foreign + {d.publicId};
        }
        if d.IsDone() && d.publicId in foreign {
          done := done + [Foreign(d.publicId)];
          foreign := foreign - {d.publicId};
        }
      }
    }

    method HandleOneData(d: OrderData)
      requires Wired()
      modifies this`living, this`done, this`foreign, registry.Values
      ensures Wired() && View() == HandleData(old(View()), d)
    {
      TrackForeign(d);
      if d.id in living {
        var order := living[d.id];
        if d.status == DataFilled {
          SetFillInfo(order, d);
          Finish(order, Filled);
          return;
        }
        if d.status == DataPartiallyFilled {
          SetFillInfo(order, d);
          if order.orderType == LimitIOC {
            Finish(order, PartiallyFilledAndCanceled);
          }
        }
      }
    }

    method RunDeferredAmend(order: Order, captured: Detail, ok: bool)
      requires Wired() && Known(order)
      modifies this`queued, order
      ensures Wired() && View() == RunCallback(old(View()), Job(order.id, AmendCb(captured)), ok)
    {
      var d := if order.id in queued then queued[order.id] else captured;
      queued := queued - {order.id};
      ghost var s := View();
      assert s == old(View()).(queued := queued);
      var _ := IssueAmend(order, d, ok);
    }

    /** A goroutine runs the callback it was given for `order`. */
    method RunWaiting(k: nat, order: Order, ok: bool)
      requires Wired() && Known(order) && k < |jobs| && jobs[k].id == order.id
      modifies this`jobs, this`queued, order
      ensures Wired() && View() == RunJob(old(View()), k, ok)
    {
      var job := jobs[k];
      jobs := jobs[..k] + jobs[k + 1..];
      ghost var s := View();
      assert s == old(View()).(jobs := jobs);
      match job.cb {
        case UserCb =>
        case CancelCb =>
          var _ := IssueCancel(order, ok);
        case AmendCb(captured) =>
          RunDeferredAmend(order, captured, ok);
      }
    }

    // -------------------------------------------------------------------------------------------
    // The public methods: each is one event of the history
    // -------------------------------------------------------------------------------------------

    /** The step just taken goes into the history. */
    ghost method Record(e: Event)
      requires Wired() && Legal(Init, history) && Possible(Run(Init, history), e)
      requires View() == Step(Run(Init, history), e)
      modifies this`history
      ensures Valid() && history == old(history) + [e] && View() == old(View())
    {
      OneMore(Init, history, e);
      history := history + [e];
    }

    /** What the fields of an order object and the dealer's maps and logs show of it. */
    ghost function Shown(id: string): LifeCycle.Visible
      requires id in registry
      reads this, registry.Values
    {
      LifeCycle.Show(registry[id].Rec(), id in living, multiset(exported)[Managed(id)] + multiset(done)[Managed(id)])
    }

    lemma ShownIsSeen()
      requires Wired()
      ensures forall i | i in registry :: Shown(i) == LifeCycle.Sees(View(), i)
    {
    }

    /** After any one event, every order object shows what the event makes of an order. */
    twostate lemma AllFated(e: Event)
      requires old(Valid()) && Valid() && old(Possible(View(), e)) && history == old(history) + [e]
      requires registry == old(registry)
      ensures forall i | i in registry ::
        Shown(i) == LifeCycle.Fated(old(View()), e, i) && LifeCycle.Sees(old(View()), i) == old(Shown(i))
    {
      OneMore(Init, old(history), e);
      LifeCycle.AllFates(old(View()), e);
      ShownIsSeen();
      assert old(forall i | i in registry :: Shown(i) == LifeCycle.Sees(View(), i));
    }

    /** The client makes a new order for this dealer. */
    ghost method Register(o: Order)
      requires Valid() && o.id !in registry && o.id != "" && o.Rec() == NewOrder(o.orderType, o.price, o.qty)
      modifies this`registry, this`history
      ensures Valid() && Known(o) && history == old(history) + [New(o.id, o.orderType, o.price, o.qty)]
    {
      ghost var s := View();
      registry := registry[o.id := o];
      assert View() == Put(s, o.id, o.Rec());
      Record(New(o.id, o.orderType, o.price, o.qty));
    }

    method SendOrder(order: Order, ok: bool) returns (err: Option<DealError>)
      requires Valid() && Known(order)
      modifies this`living, this`done, this`history, order
      ensures Valid() && history == old(history) + [Send(order.id, ok)]
      ensures err == if !old(accepting) then Some(NotAccepting)
                     else if order.id in old(living) then Some(AlreadyExists)
                     else if !ok then Some(AgentFailed) else None
    {
      err := TrySend(order, ok);
      Record(Send(order.id, ok));
    }

    method SendOrders(orders: seq<Order>, ok: bool) returns (err: Option<DealError>)
      requires Valid() && forall o | o in orders :: Known(o)
      modifies this`living, this`done, this`history, orders
      ensures Valid() && history == old(history) + [SendBatch(IdsOf(orders), ok)]
      ensures err == if !old(accepting) then Some(NotAccepting)
                     else if exists o :: o in orders && o.id in old(living) then Some(AlreadyExists)
                     else if !ok then Some(AgentFailed) else None
    {
      err := TrySendAll(orders, ok);
      Record(SendBatch(IdsOf(orders), ok));
    }

    method AmendOrder(order: Order, d: Detail, ok: bool) returns (err: Option<DealError>)
      requires Valid() && Known(order)
      modifies this`queued, this`history, order
      ensures Valid() && history == old(history) + [AmendCall(order.id, d, ok)]
      ensures err == AmendCallError(old(View()), order.id, d, ok)
      ensures err == Some(NotAccepting) <==> !old(accepting)
      ensures err == Some(NotReady) <==> old(accepting) && old(order.status) in {Born, Canceling}
      ensures err == Some(NotAmendable)
         <==> old(accepting) && old(order.status) == Pending && order.id in living && old(order.amendCount) >= 9500
      ensures err == Some(AgentFailed)
         <==> old(accepting) && old(order.status) == Pending && order.id in living && old(order.amendCount) < 9500
              && d != old(Detail(order.price, order.qty)) && !ok
    {
      assert View().orders[order.id] == order.Rec();
      err := TryAmend(order, d, ok);
      Record(AmendCall(order.id, d, ok));
    }

    method CancelOrder(order: Order, ok: bool)
      requires Valid() && Known(order)
      modifies this`queued, this`history, order
      ensures Valid() && history == old(history) + [CancelCall(order.id, ok)]
    {
      TryCancel(order, ok);
      Record(CancelCall(order.id, ok));
    }

    method CancelOrders(batch: seq<Order>, ok: bool)
      requires Valid() && forall o | o in batch :: Known(o)
      modifies this`queued, this`history, (set o | o in batch)
      ensures Valid() && history == old(history) + [CancelBatch(Ids(IdsOf(batch)), ok)]
    {
      TryCancelAll(batch, ok);
      Record(CancelBatch(Ids(IdsOf(batch)), ok));
    }

    method ExportDoneOrders() returns (out: seq<Entry>)
      requires Valid()
      modifies this`done, this`exported, this`history
      ensures Valid() && history == old(history) + [ExportDone] && out == old(done)
    {
      ghost var s := View();
      out := done;
      exported := exported + done;
      done := [];
      assert View() == Export(s);
      Record(ExportDone);
    }

    method TakeSendOrderResp(id: string, err: Option<AgentError>)
      requires Valid() && Possible(View(), SendResp(id, err))
      modifies this`accepting, this`living, this`done, this`jobs, this`history, registry.Values
      ensures Valid() && history == old(history) + [SendResp(id, err)]
    {
      Answer(registry[id], Create);
      SettleSend(id, err);
      Record(SendResp(id, err));
    }

    /** The answer to a create, which the agent owes. */
    method HandleSendOrderResp(id: string, err: Option<AgentError>)
      requires Valid() && Possible(View(), SendResp(id, err))
      modifies this`accepting, this`living, this`done, this`jobs, this`history, registry.Values
      ensures Valid() && history == old(history) + [SendResp(id, err)]
      ensures forall i | i in registry ::
        Shown(i) == if i == id then LifeCycle.AfterCreated(old(Shown(i)), err) else old(Shown(i))
    {
      TakeSendOrderResp(id, err);
      AllFated(SendResp(id, err));
    }

    method TakeAmendOrderResp(id: string, d: Detail, err: Option<AgentError>)
      requires Valid() && Possible(View(), AmendResp(id, d, err))
      modifies this`accepting, this`living, this`done, this`jobs, this`history, registry.Values
      ensures Valid() && history == old(history) + [AmendResp(id, d, err)]
    {
      Answer(registry[id], Amend);
      SettleAmend(id, d, err);
      Record(AmendResp(id, d, err));
    }

    method HandleAmendOrderResp(id: string, d: Detail, err: Option<AgentError>)
      requires Valid() && Possible(View(), AmendResp(id, d, err))
      modifies this`accepting, this`living, this`done, this`jobs, this`history, registry.Values
      ensures Valid() && history == old(history) + [AmendResp(id, d, err)]
      ensures forall i | i in registry ::
        Shown(i) == if i == id then LifeCycle.AfterAmended(old(Shown(i)), d, err) else old(Shown(i))
    {
      TakeAmendOrderResp(id, d, err);
      AllFated(AmendResp(id, d, err));
    }

    method TakeCancelOrderResp(id: string, err: Option<AgentError>)
      requires Valid() && Possible(View(), CancelResp(id, err))
      modifies this`accepting, this`living, this`done, this`jobs, this`history, registry.Values
      ensures Valid() && history == old(history) + [CancelResp(id, err)]
    {
      Answer(registry[id], Cancel);
      SettleCancel(id, err);
      Record(CancelResp(id, err));
    }

    method HandleCancelOrderResp(id: string, err: Option<AgentError>)
      requires Valid() && Possible(View(), CancelResp(id, err))
      modifies this`accepting, this`living, this`done, this`jobs, this`history, registry.Values
      ensures Valid() && history == old(history) + [CancelResp(id, err)]
      ensures forall i | i in registry ::
        Shown(i) == if i == id then LifeCycle.AfterCanceled(old(Shown(i)), err) else old(Shown(i))
      ensures old(id in living && registry[id].status == Canceling) ==>
        if err == None then registry[id].status == Done && registry[id].reason == Some(Canceled) && id !in living
        else if err == Some(OrderIsNotExists) then
          registry[id].status == Done && registry[id].reason == Some(Abandoned) && id !in living
        else registry[id].status == Pending && id in living
    {
      TakeCancelOrderResp(id, err);
      AllFated(CancelResp(id, err));
    }

    method TakeSendOrdersResp(ids: seq<string>, a: BatchAnswer)
      requires Valid() && Possible(View(), SendBatchResp(ids, a))
      modifies this`accepting, this`living, this`done, this`jobs, this`history, registry.Values
      ensures Valid() && history == old(history) + [SendBatchResp(ids, a)]
    {
      AnswerAll(ids, Create);
      SettleSends(ids, a);
      Record(SendBatchResp(ids, a));
    }

    method HandleSendOrdersResp(ids: seq<string>, a: BatchAnswer)
      requires Valid() && Possible(View(), SendBatchResp(ids, a))
      modifies this`accepting, this`living, this`done, this`jobs, this`history, registry.Values
      ensures Valid() && history == old(history) + [SendBatchResp(ids, a)]
      ensures forall i | i in registry ::
        Shown(i) == if i !in ids then old(Shown(i))
                    else LifeCycle.AfterCreated(old(Shown(i)), LifeCycle.CreateAnswer(a, i))
    {
      TakeSendOrdersResp(ids, a);
      AllFated(SendBatchResp(ids, a));
    }

    method TakeCancelOrdersResp(ids: seq<string>, a: BatchAnswer)
      requires Valid() && Possible(View(), CancelBatchResp(ids, a))
      modifies this`accepting, this`living, this`done, this`jobs, this`history, registry.Values
      ensures Valid() && history == old(history) + [CancelBatchResp(ids, a)]
    {
      AnswerAll(ids, Cancel);
      SettleCancels(ids, a);
      Record(CancelBatchResp(ids, a));
    }

    method HandleCancelOrdersResp(ids: seq<string>, a: BatchAnswer)
      requires Valid() && Possible(View(), CancelBatchResp(ids, a))
      modifies this`accepting, this`living, this`done, this`jobs, this`history, registry.Values
      ensures Valid() && history == old(history) + [CancelBatchResp(ids, a)]
      ensures forall i | i in registry ::
        Shown(i) == if i !in ids then old(Shown(i))
                    else LifeCycle.AfterCanceled(old(Shown(i)), LifeCycle.CancelAnswer(a, i))
    {
      TakeCancelOrdersResp(ids, a);
      AllFated(CancelBatchResp(ids, a));
    }

    /** In particular, an order that was being canceled and has no error in the answer ends as canceled. */
    twostate lemma AcceptedCancelEnds(id: string, err: Option<AgentError>)
      requires old(Wired()) && Wired() && id in old(registry) && registry == old(registry)
      requires Shown(id) == LifeCycle.AfterCanceled(old(Shown(id)), err)
      requires old(id in living) && old(registry[id].status) == Canceling && err == None
      ensures registry[id].status == Done && registry[id].reason == Some(Canceled) && id !in living
      ensures multiset(exported)[Managed(id)] + multiset(done)[Managed(id)]
           == old(multiset(exported)[Managed(id)] + multiset(done)[Managed(id)]) + 1
    {
    }

    /** One entry of the private feed. */
    method HandleEntry(d: OrderData)
      requires Valid()
      modifies this`living, this`done, this`foreign, this`history, registry.Values
      ensures Valid() && history == old(history) + [Data(d)]
      ensures forall i | i in registry ::
        Shown(i) == if i == d.id then LifeCycle.AfterData(old(Shown(i)), d) else old(Shown(i))
      ensures old(d.id in living) && d.status == DataFilled ==>
        && registry[d.id].status == Done && registry[d.id].reason == Some(Filled) && d.id !in living
        && registry[d.id].avgPrice == d.avgPrice && registry[d.id].execQty == d.execQty && registry[d.id].fee == d.fee
    {
      HandleOneData(d);
      Record(Data(d));
      AllFated(Data(d));
    }

    /** A message of the private feed, entry by entry. */
    method HandleOrderData(datas: seq<OrderData>)
      requires Valid()
      modifies this`living, this`done, this`foreign, this`history, registry.Values
      ensures Valid() && history == old(history) + DataEvents(datas)
    {
      for i := 0 to |datas|
        invariant Valid() && history == old(history) + DataEvents(datas[..i])
      {
        assert DataEvents(datas[..i + 1]) == DataEvents(datas[..i]) + [Data(datas[i])];
        HandleEntry(datas[i]);
      }
      assert datas[..|datas|] == datas;
    }

    /** The goroutine of callback `k` runs. */
    method RunDeferred(k: nat, order: Order, ok: bool)
      requires Valid() && Known(order) && k < |jobs| && jobs[k].id == order.id
      modifies this`jobs, this`queued, this`history, order
      ensures Valid() && history == old(history) + [Event.RunDeferred(k, ok)]
    {
      RunWaiting(k, order, ok);
      Record(Event.RunDeferred(k, ok));
    }

    method ListenCreate(order: Order)
      requires Valid() && Known(order)
      modifies this`history, order`onCreate
      ensures Valid() && history == old(history) + [Event.ListenCreate(order.id)]
    {
      ghost var s := View();
      order.SetCreateCallback(UserCb);
      OnlyOrder(order);
      assert View() == ListenForCreate(s, order.id);
      Record(Event.ListenCreate(order.id));
    }

    method ListenAmend(order: Order)
      requires Valid() && Known(order)
      modifies this`history, order`onAmend
      ensures Valid() && history == old(history) + [Event.ListenAmend(order.id)]
    {
      ghost var s := View();
      order.SetAmendCallback(UserCb);
      OnlyOrder(order);
      assert View() == ListenForAmend(s, order.id);
      Record(Event.ListenAmend(order.id));
    }

    // -------------------------------------------------------------------------------------------
    // What this means for the object
    // -------------------------------------------------------------------------------------------

    /** An order that was sent is in the living map, or in the log exactly once, and its fields say which. */
    lemma EachOrderInOnePlace(id: string)
      requires Valid() && Partition.DisciplinedRun(Init, history)
      requires id in registry && !registry[id].status.Born?
      ensures var logged := multiset(exported)[Managed(id)] + multiset(done)[Managed(id)];
        if id in living then logged == 0 && registry[id].status.IsLiving()
        else logged == 1 && registry[id].status.Done? && registry[id].reason.Some?
    {
      assert View().orders[id] == registry[id].Rec();
      Partition.ExactlyOnePlace(history, id);
    }

    /** Each order has at most the one request in flight that its status names. */
    lemma EachOrderOneRequest(id: string)
      requires Valid() && Requests.OrderlyRun(Init, history) && id in registry
      ensures Requests.OneRequest(registry[id].Rec())
    {
      assert View().orders[id] == registry[id].Rec();
      Requests.OneRequestAtATime(history, id);
    }

    /** Whatever has happened since, an order that was Done has the outcome it had. */
    twostate lemma DoneStaysDone(id: string)
      requires old(Valid()) && Valid() && old(history) <= history && Partition.DisciplinedRun(Init, history)
      requires id in old(registry) && old(registry[id].status.Done?)
      ensures id in registry && Finality.SameOutcome(old(registry[id].Rec()), registry[id].Rec())
    {
      var was, more := old(history), history[|old(history)|..];
      assert history == was + more;
      assert old(View().orders[id] == registry[id].Rec());
      Finality.FirstEndingWins(was, more, id);
      assert id in View().orders && View().orders[id] == registry[id].Rec();
    }
  }

  /** The error of an amend proper: none when the order is gone or would not change. */
  ghost function AmendError(s: State, id: string, d: Detail, ok: bool): Option<DealError>
    requires id in s.orders
  {
    var o := s.orders[id];
    if id !in s.living then None
    else if o.amendCount >= AMEND_LIMIT then Some(NotAmendable)
    else if NeedToAmend(o, d) && !o.status.Pending? then Some(NotReady)
    else if NeedToAmend(o, d) && !ok then Some(AgentFailed)
    else None
  }

  /** The error of an amend call: none for a Done order, or when the amend is queued. */
  ghost function AmendCallError(s: State, id: string, d: Detail, ok: bool): Option<DealError>
    requires id in s.orders
  {
    if !s.accepting then Some(NotAccepting)
    else
      match s.orders[id].status
      case Born => Some(NotReady)
      case Canceling => Some(NotReady)
      case Pending => AmendError(s, id, d, ok)
      case _ => None
  }

  /** When no error is returned, the amend is under way, queued, or not needed. */
  lemma NoErrorMeans(s: State, id: string, d: Detail, ok: bool)
    requires Partition.Inv(s) && id in s.orders && AmendCallError(s, id, d, ok).None?
    ensures var o, t := s.orders[id], Protocol.AmendOrder(s, id, d, ok);
      || o.status.Done?
      || (id in t.queued && t.queued[id] == d)
      || (o.status.Pending? && d == Detail(o.price, o.qty) && t == s)
      || (id in t.orders && t.orders[id].status.Amending? && t.orders[id].amending == Some(d))
  {
    assert Partition.OrderOk(s, id);
  }

  /** When one is returned, nothing was queued or asked, and an order that was Pending still is. */
  lemma ErrorMeans(s: State, id: string, d: Detail, ok: bool)
    requires Partition.Inv(s) && id in s.orders && AmendCallError(s, id, d, ok).Some?
    ensures var o, t := s.orders[id], Protocol.AmendOrder(s, id, d, ok);
      && id in t.orders && t.queued == s.queued && t.jobs == s.jobs
      && t.orders[id].status == o.status && t.orders[id].inFlight == o.inFlight
  {
    assert Partition.OrderOk(s, id);
  }

  /** One event for each entry of a message. */
  function DataEvents(ds: seq<OrderData>): seq<Event> {
    seq(|ds|, i requires 0 <= i < |ds| => Data(ds[i]))
  }

  function IdsOf(orders: seq<Order>): seq<string> {
    seq(|orders|, i requires 0 <= i < |orders| => orders[i].id)
  }

  /** One id is taken or left. */
  lemma AmongStep(s: State, ids: seq<string>, i: nat, st: Status, got: seq<string>, all: seq<string>)
    requires i < |ids| && forall x | x in ids :: x in s.orders
    requires got + Among(s, ids[i..], st) == all
    ensures ids[i] in s.orders
    ensures (if ids[i] in s.living && s.orders[ids[i]].status == st then got + [ids[i]] else got)
            + Among(s, ids[i + 1..], st) == all
  {
    var more := Among(s, ids[i + 1..], st);
    assert ids[i..][0] == ids[i] && ids[i..][1..] == ids[i + 1..];
    assert (got + [ids[i]]) + more == got + ([ids[i]] + more);
  }

  lemma IdsOfAppend(orders: seq<Order>, o: Order)
    ensures IdsOf(orders + [o]) == IdsOf(orders) + [o.id]
  {
  }

  /** Every named order owes one more answer. */
  ghost function AskedAll(s: State, ids: seq<string>, k: Kind): State {
    s.(orders := map i | i in s.orders :: if i in ids then Requested(s.orders[i], k) else s.orders[i])
  }

  lemma AskedAfterMarking(s: State, ids: seq<string>)
    ensures AskedAll(MarkSending(s, ids, false), ids, Create) == MarkSending(s, ids, true)
  {
    assert AskedAll(MarkSending(s, ids, false), ids, Create).orders == MarkSending(s, ids, true).orders;
  }

  lemma NothingMarked(s: State)
    ensures MarkSending(s, [], false) == s
  {
    assert MarkSending(s, [], false).orders == s.orders;
    assert s.living + Ids([]) == s.living;
  }

  lemma MarkOneMore(s: State, ids: seq<string>, id: string)
    requires id in s.orders
    ensures var t := MarkSending(s, ids, false);
      MarkSending(s, ids + [id], false)
      == Put(t, id, t.orders[id].(status := Sending)).(living := t.living + {id})
  {
    var t, u := MarkSending(s, ids, false), MarkSending(s, ids + [id], false);
    assert u.orders == t.orders[id := t.orders[id].(status := Sending)];
    assert u.living == t.living + {id};
  }

  /** The orders of `ids` with an operation under way have their cancel deferred. */
  ghost function DeferSome(s: State, ids: set<string>): State {
    s.(orders := map i | i in s.orders ::
         if i in ids then DeferCancel(s.orders[i]) else s.orders[i],
       queued := s.queued - (set i | i in ids && i in s.orders && s.orders[i].status.IsBusy()))
  }

  lemma NothingDeferred(s: State)
    ensures DeferSome(s, {}) == s
  {
    assert DeferSome(s, {}).orders == s.orders;
  }

  lemma DeferOneMore(s: State, ids: set<string>, id: string)
    requires id in s.orders && id !in ids
    ensures var t := DeferSome(s, ids);
      DeferSome(s, ids + {id})
      == if s.orders[id].status.IsBusy() then Put(t, id, DeferCancel(t.orders[id])).(queued := t.queued - {id}) else t
  {
    var o, t, u := s.orders[id], DeferSome(s, ids), DeferSome(s, ids + {id});
    assert u.orders == t.orders[id := u.orders[id]];
    if o.status.IsBusy() {
      assert u.queued == t.queued - {id};
    } else {
      assert u.queued == t.queued;
      assert u.orders == t.orders;
    }
  }

  ghost function AllCanceling(s: State, ids: seq<string>): State {
    s.(orders := map i | i in s.orders :: if i in ids then s.orders[i].(status := Canceling) else s.orders[i])
  }

  lemma CancelOneMore(s: State, ids: seq<string>, id: string)
    requires id in s.orders
    ensures var t := AllCanceling(s, ids);
      AllCanceling(s, ids + [id]) == Put(t, id, t.orders[id].(status := Canceling))
  {
    var t, u := AllCanceling(s, ids), AllCanceling(s, ids + [id]);
    assert u.orders == t.orders[id := t.orders[id].(status := Canceling)];
  }

  lemma SameIds(a: seq<Order>, b: seq<Order>)
    requires forall o :: o in a <==> o in b
    ensures Ids(IdsOf(a)) == Ids(IdsOf(b))
  {
    forall i ensures i in IdsOf(a) <==> i in IdsOf(b) {
      if i in IdsOf(a) {
        var j :| 0 <= j < |a| && IdsOf(a)[j] == i;
        assert a[j] in b;
        var k :| 0 <= k < |b| && b[k] == a[j];
        assert IdsOf(b)[k] == i;
      }
      if i in IdsOf(b) {
        var j :| 0 <= j < |b| && IdsOf(b)[j] == i;
        assert b[j] in a;
        var k :| 0 <= k < |a| && a[k] == b[j];
        assert IdsOf(a)[k] == i;
      }
    }
  }

  lemma {:induction false} RejectCancelAllIs(s: State, ids: seq<string>)
    requires forall i | i in ids :: i in s.orders
    ensures var t := RejectCancelAll(s, ids);
      && t == s.(orders := t.orders) && t.orders.Keys == s.orders.Keys
      && forall i | i in s.orders ::
           t.orders[i] == if i in ids then s.orders[i].(status := Pending) else s.orders[i]
    decreases |ids|
  {
    if ids != [] {
      RejectCancelAllIs(RejectCancel(s, ids[0]), ids[1..]);
      assert forall i :: i in ids <==> i == ids[0] || i in ids[1..];
    }
  }

  lemma DeferredIsBatch(s: State, ids: set<string>)
    requires ids <= s.orders.Keys && Targets(s, ids) == {}
    ensures forall ok :: Protocol.CancelOrders(s, ids, ok) == DeferSome(s, ids)
  {
    assert forall i | i in ids && s.orders[i].status.Pending? :: i in Targets(s, ids);
    forall ok ensures Protocol.CancelOrders(s, ids, ok) == DeferSome(s, ids) {
      assert Protocol.CancelOrders(s, ids, ok).orders == DeferSome(s, ids).orders;
    }
  }

  lemma AcceptedBatch(s: State, ids: set<string>, targets: seq<string>)
    requires ids <= s.orders.Keys && Targets(s, ids) != {}
    requires forall i :: i in targets <==> i in ids && i in s.orders && s.orders[i].status.Pending?
    ensures Protocol.CancelOrders(s, ids, true) == AskedAll(AllCanceling(DeferSome(s, ids), targets), targets, Cancel)
  {
    var v := Protocol.CancelOrders(s, ids, true);
    var w := AskedAll(AllCanceling(DeferSome(s, ids), targets), targets, Cancel);
    forall i | i in s.orders ensures v.orders[i] == w.orders[i] {
    }
    assert v.orders == w.orders;
  }

  lemma RefusedBatch(s: State, ids: set<string>, targets: seq<string>, all: seq<string>)
    requires ids <= s.orders.Keys && Targets(s, ids) != {}
    requires forall i :: i in targets <==> i in ids && i in s.orders && s.orders[i].status.Pending?
    requires forall i :: i in all <==> i in ids
    ensures Protocol.CancelOrders(s, ids, false) == RejectCancelAll(AllCanceling(DeferSome(s, ids), targets), all)
  {
    var u := AllCanceling(DeferSome(s, ids), targets);
    RejectCancelAllIs(u, all);
    var v, w := Protocol.CancelOrders(s, ids, false), RejectCancelAll(u, all);
    forall i | i in s.orders ensures v.orders[i] == w.orders[i] {
    }
    assert v.orders == w.orders;
  }

  /** The passes of a batch cancel, one after the other, are the batch cancel of the protocol. */
  lemma BatchCancelSpelledOut(s: State, ids: set<string>, targets: seq<string>, all: seq<string>, ok: bool)
    requires ids <= s.orders.Keys && Ids(all) == ids && Ids(targets) == Targets(s, ids)
    ensures forall i | i in all :: i in s.orders
    ensures var t := DeferSome(s, ids);
      var u := AllCanceling(t, targets);
      Protocol.CancelOrders(s, ids, ok)
      == if targets == [] then t else if ok then AskedAll(u, targets, Cancel) else RejectCancelAll(u, all)
  {
    assert forall i :: i in all <==> i in Ids(all);
    assert forall i :: i in targets <==> i in Ids(targets);
    if targets == [] {
      DeferredIsBatch(s, ids);
    } else {
      assert targets[0] in Ids(targets);
      AcceptedBatch(s, ids, targets);
      RefusedBatch(s, ids, targets, all);
    }
  }
}
