/**
 The client side order protocol of the dealer, as a transition system over values.

 One event is one public call, one agent response, one order-data entry or one deferred
 callback. `ok` on an event is the answer of the exchange agent: it either fails at once and
 never calls back, or accepts the request and owes exactly one response.
 */
module Protocol {
  import opened Common

  datatype OrderType = UnknownType | Market | Limit | LimitFOK | LimitIOC | LimitMaker {
    predicate IsTaker() { Market? || LimitFOK? || LimitIOC? }
    predicate IsAmendable() { LimitMaker? || Limit? }
    predicate IsLimit() { Limit? || LimitFOK? || LimitIOC? || LimitMaker? }
  }

  datatype Status = Born | Sending | Pending | Canceling | Amending | Done {
    predicate IsLiving() { Sending? || Pending? || Canceling? || Amending? }
    /** Calls made now wait for the operation under way. */
    predicate IsBusy() { Sending? || Amending? }
  }

  datatype Reason = Filled | PartiallyFilledAndCanceled | Canceled | Rejected | Abandoned

  datatype Detail = Detail(price: real, qty: real)

  /** A deferred callback: an amend with the detail it captured, a cancel, or client code. */
  datatype Callback = AmendCb(detail: Detail) | CancelCb | UserCb

  /** Requests the agent accepted and has not answered yet, counted by kind. */
  datatype InFlight = InFlight(creates: nat, amends: nat, cancels: nat) {
    predicate Idle() { creates == 0 && amends == 0 && cancels == 0 }
    predicate Single() { creates + amends + cancels <= 1 }
  }

  datatype Kind = Create | Amend | Cancel

  datatype Order = Order(
    orderType: OrderType,
    status: Status,
    price: real,
    qty: real,
    reason: Option<Reason>,
    avgPrice: real,
    execQty: real,
    fee: real,
    onCreate: seq<Callback>,
    onAmend: seq<Callback>,
    amending: Option<Detail>,
    amendCount: nat,
    inFlight: InFlight)

  /** An entry of the done log: one of the dealer's own orders, or a foreign order. */
  datatype Entry = Managed(id: string) | Foreign(publicId: string)

  /** A callback handed to a goroutine that has not run yet. */
  datatype Job = Job(id: string, cb: Callback)

  datatype State = State(
    orders: map<string, Order>,
    living: set<string>,
    queued: map<string, Detail>,
    done: seq<Entry>,
    exported: seq<Entry>,
    foreign: set<string>,
    accepting: bool,
    jobs: seq<Job>)

  datatype AgentError = InfoError | WarnError | HttpError | OrderIsNotExists | OtherError

  datatype DataStatus = DataUnknown | Opened | DataCanceled | DataFilled | DataPartiallyFilled | DataRejected

  datatype OrderData = OrderData(
    id: string,
    publicId: string,
    avgPrice: real,
    execQty: real,
    fee: real,
    status: DataStatus)
  {
    predicate IsDone() { status.DataFilled? || status.DataCanceled? || status.DataRejected? }
  }

  const AMEND_LIMIT: nat := 9500

  function NewOrder(orderType: OrderType, price: real, qty: real): Order {
    Order(orderType, Born, price, qty, None, 0.0, 0.0, 0.0, [], [], None, 0, InFlight(0, 0, 0))
  }

  const Init: State := State(map[], {}, map[], [], [], {}, true, [])

  // ---------------------------------------------------------------------------------------------
  // Order level helpers
  // ---------------------------------------------------------------------------------------------

  /** True when the amend would change the order, and would not repeat the amend under way. */
  predicate NeedToAmend(o: Order, d: Detail) {
    match o.status
    case Pending => o.price != d.price || o.qty != d.qty
    case Amending =>
      (o.price != d.price || o.qty != d.qty) && o.amending != Some(d)
    case _ => false
  }

  function Requested(o: Order, k: Kind): Order {
    var f := o.inFlight;
    o.(inFlight :=
      match k
      case Create => f.(creates := f.creates + 1)
      case Amend => f.(amends := f.amends + 1)
      case Cancel => f.(cancels := f.cancels + 1))
  }

  predicate Owed(o: Order, k: Kind) {
    match k
    case Create => o.inFlight.creates > 0
    case Amend => o.inFlight.amends > 0
    case Cancel => o.inFlight.cancels > 0
  }

  function Less(n: nat): nat { if n > 0 then n - 1 else 0 }

  function Answered(o: Order, k: Kind): Order {
    var f := o.inFlight;
    o.(inFlight :=
      match k
      case Create => f.(creates := Less(f.creates))
      case Amend => f.(amends := Less(f.amends))
      case Cancel => f.(cancels := Less(f.cancels)))
  }

  function Jobs(id: string, cbs: seq<Callback>): seq<Job> {
    seq(|cbs|, i requires 0 <= i < |cbs| => Job(id, cbs[i]))
  }

  function Ids(ids: seq<string>): set<string> {
    set i | i in ids
  }

  // ---------------------------------------------------------------------------------------------
  // State level helpers: the accept, reject and abandon steps
  // ---------------------------------------------------------------------------------------------

  function Put(s: State, id: string, o: Order): State {
    s.(orders := s.orders[id := o])
  }

  lemma PutTwice(s: State, id: string, a: Order, b: Order)
    ensures Put(Put(s, id, a), id, b) == Put(s, id, b)
  {
    assert s.orders[id := a][id := b] == s.orders[id := b];
  }

  /** The order leaves the living map for the done log. */
  function Finish(s: State, id: string, why: Reason): State
    requires id in s.orders
  {
    Put(s, id, s.orders[id].(status := Done, reason := Some(why)))
      .(living := s.living - {id}, done := s.done + [Managed(id)])
  }

  function FinishAll(s: State, ids: seq<string>, why: Reason): State
    requires forall i | i in ids :: i in s.orders
    decreases |ids|
  {
    if ids == [] then s else FinishAll(Finish(s, ids[0], why), ids[1..], why)
  }

  function RejectAmend(s: State, id: string): State
    requires id in s.orders
  {
    Put(s, id, s.orders[id].(status := Pending, amending := None))
  }

  function RejectCancel(s: State, id: string): State
    requires id in s.orders
  {
    Put(s, id, s.orders[id].(status := Pending))
  }

  function AcceptCreate(s: State, id: string): State
    requires id in s.orders
  {
    Put(s, id, s.orders[id].(status := Pending))
      .(jobs := s.jobs + Jobs(id, s.orders[id].onCreate))
  }

  function AcceptAmend(s: State, id: string, d: Detail): State
    requires id in s.orders
  {
    Put(s, id, s.orders[id].(status := Pending, amending := None, price := d.price, qty := d.qty))
      .(jobs := s.jobs + Jobs(id, s.orders[id].onAmend))
  }

  /** Critical errors stop the dealer from accepting further sends and amends. */
  function Notice(s: State, e: AgentError): State {
    match e
    case InfoError => s
    case WarnError => s
    case HttpError => s
    case _ => s.(accepting := false)
  }

  // ---------------------------------------------------------------------------------------------
  // Public calls
  // ---------------------------------------------------------------------------------------------

  predicate SendAccepted(s: State, id: string) {
    s.accepting && id !in s.living
  }

  function SendOrder(s: State, id: string, ok: bool): State
    requires id in s.orders
  {
    if !SendAccepted(s, id) then s
    else
      var o := s.orders[id].(status := Sending);
      var s1 := Put(s, id, if ok then Requested(o, Create) else o).(living := s.living + {id});
      if ok then s1 else Finish(s1, id, Rejected)
  }

  predicate SendsAccepted(s: State, ids: seq<string>) {
    s.accepting && forall i | i in ids :: i !in s.living
  }

  /** Every order of the batch becomes Sending; an accepted batch owes one answer per order. */
  function MarkSending(s: State, ids: seq<string>, ok: bool): State {
    s.(orders := map i | i in s.orders ::
         if i !in ids then s.orders[i]
         else if ok then Requested(s.orders[i].(status := Sending), Create)
         else s.orders[i].(status := Sending),
       living := s.living + Ids(ids))
  }

  function SendOrders(s: State, ids: seq<string>, ok: bool): State
    requires forall i | i in ids :: i in s.orders
  {
    if !SendsAccepted(s, ids) then s
    else if ok then MarkSending(s, ids, true)
    else FinishAll(MarkSending(s, ids, false), ids, Rejected)
  }

  /** The amend proper: the direct path when Pending, and the body of a deferred amend. */
  function IssueAmend(s: State, id: string, d: Detail, ok: bool): State
    requires id in s.orders
  {
    var o := s.orders[id];
    if id !in s.living then s
    else if o.amendCount >= AMEND_LIMIT then RejectAmend(s, id)
    else if !NeedToAmend(o, d) then s
    else if !o.status.Pending? then RejectAmend(s, id)
    else
      var o1 := o.(status := Amending, amending := Some(d));
      if ok then Put(s, id, Requested(o1, Amend)) else RejectAmend(Put(s, id, o1), id)
  }

  function AmendOrder(s: State, id: string, d: Detail, ok: bool): State
    requires id in s.orders
  {
    var o := s.orders[id];
    if !s.accepting then s
    else
      match o.status
      case Pending => IssueAmend(s, id, d, ok)
      case Sending =>
        var cbs := if id in s.queued || o.orderType.IsTaker() then o.onCreate else o.onCreate + [AmendCb(d)];
        Put(s, id, o.(onCreate := cbs)).(queued := s.queued[id := d])
      case Amending =>
        var cbs := if id in s.queued || !o.orderType.IsAmendable() then o.onAmend else o.onAmend + [AmendCb(d)];
        Put(s, id, o.(onAmend := cbs)).(queued := s.queued[id := d])
      case _ => s
  }

  /** The cancel proper: the direct path when Pending, and the body of a deferred cancel. */
  function IssueCancel(s: State, id: string, ok: bool): State
    requires id in s.orders
  {
    var o := s.orders[id];
    if !o.status.Pending? then s
    else if ok then Put(s, id, Requested(o.(status := Canceling), Cancel))
    else RejectCancel(Put(s, id, o.(status := Canceling)), id)
  }

  /** A cancel behind an operation under way takes the place of everything queued there. */
  function DeferCancel(o: Order): Order {
    match o.status
    case Sending => o.(onCreate := [CancelCb])
    case Amending => o.(onAmend := [CancelCb])
    case _ => o
  }

  function CancelOrder(s: State, id: string, ok: bool): State
    requires id in s.orders
  {
    var o := s.orders[id];
    if o.status.Pending? then IssueCancel(s, id, ok)
    else if o.status.IsBusy() then Put(s, id, DeferCancel(o)).(queued := s.queued - {id})
    else s
  }

  /** What a batch cancel does to one named order before the agent is asked. */
  function CancelOrDefer(o: Order): Order {
    if o.status.Pending? then o.(status := Canceling) else DeferCancel(o)
  }

  function Targets(s: State, ids: set<string>): set<string>
    requires ids <= s.orders.Keys
  {
    set i | i in ids && s.orders[i].status.Pending?
  }

  function Deferred(s: State, ids: set<string>): set<string>
    requires ids <= s.orders.Keys
  {
    set i | i in ids && s.orders[i].status.IsBusy()
  }

  /** One order after a batch cancel that found a Pending order among `ids`, or found none. */
  function AfterBatchCancel(o: Order, asked: bool, ok: bool): Order {
    var o1 := CancelOrDefer(o);
    if !asked then o1
    else if !ok then o1.(status := Pending)
    else if o.status.Pending? then Requested(o1, Cancel)
    else o1
  }

  /** A failed batch puts EVERY named order back to Pending, as the source does. */
  function CancelOrders(s: State, ids: set<string>, ok: bool): State
    requires ids <= s.orders.Keys
  {
    var asked := Targets(s, ids) != {};
    s.(orders := map i | i in s.orders ::
         if i in ids then AfterBatchCancel(s.orders[i], asked, ok) else s.orders[i],
       queued := s.queued - Deferred(s, ids))
  }

  function Export(s: State): State {
    s.(exported := s.exported + s.done, done := [])
  }

  // ---------------------------------------------------------------------------------------------
  // Responses of the agent
  // ---------------------------------------------------------------------------------------------

  function Receive(s: State, id: string, k: Kind): State
    requires id in s.orders
  {
    Put(s, id, Answered(s.orders[id], k))
  }

  function ReceiveAll(s: State, ids: seq<string>, k: Kind): State {
    s.(orders := map i | i in s.orders :: if i in ids then Answered(s.orders[i], k) else s.orders[i])
  }

  /** The orders of `ids` that are living with the given status, in the order of `ids`. */
  function Among(s: State, ids: seq<string>, st: Status): seq<string>
    requires forall i | i in ids :: i in s.orders
  {
    if ids == [] then []
    else if ids[0] in s.living && s.orders[ids[0]].status == st then [ids[0]] + Among(s, ids[1..], st)
    else Among(s, ids[1..], st)
  }

  function HandleSend(s: State, id: string, err: Option<AgentError>): State
    requires id in s.orders
  {
    if id !in s.living || !s.orders[id].status.Sending? then s
    else
      match err
      case Some(e) => Notice(Finish(s, id, Rejected), e)
      case None => if s.orders[id].orderType.IsLimit() then AcceptCreate(s, id) else s
  }

  function HandleAmend(s: State, id: string, d: Detail, err: Option<AgentError>): State
    requires id in s.orders
  {
    if id !in s.living || !s.orders[id].status.Amending? then s
    else
      match err
      case Some(OrderIsNotExists) => Finish(s, id, Abandoned)
      case Some(e) => Notice(RejectAmend(s, id), e)
      case None => AcceptAmend(s, id, d)
  }

  function HandleCancel(s: State, id: string, err: Option<AgentError>): State
    requires id in s.orders
  {
    if id !in s.living || !s.orders[id].status.Canceling? then s
    else
      match err
      case Some(OrderIsNotExists) => Finish(s, id, Abandoned)
      case Some(e) => Notice(RejectCancel(s, id), e)
      case None => Finish(s, id, Canceled)
  }

  /** A batch answer: one transport error for all, or one result per order. */
  datatype BatchAnswer = Transport(error: AgentError) | PerOrder(errors: map<string, AgentError>) {
    function For(id: string): Option<AgentError>
      requires PerOrder?
    {
      if id in errors then Some(errors[id]) else None
    }
  }

  function HandleSendEach(s: State, ids: seq<string>, a: BatchAnswer): State
    requires a.PerOrder?
    requires forall i | i in ids :: i in s.orders
    decreases |ids|
  {
    if ids == [] then s else HandleSendEach(HandleSend(s, ids[0], a.For(ids[0])), ids[1..], a)
  }

  function HandleSends(s: State, ids: seq<string>, a: BatchAnswer): State
    requires forall i | i in ids :: i in s.orders
  {
    var found := Among(s, ids, Sending);
    AmongWithin(s, ids, Sending);
    match a
    case Transport(e) => Notice(FinishAll(s, found, Rejected), e)
    case PerOrder(_) => HandleSendEach(s, found, a)
  }

  function RejectCancelAll(s: State, ids: seq<string>): State
    requires forall i | i in ids :: i in s.orders
    decreases |ids|
  {
    if ids == [] then s else RejectCancelAll(RejectCancel(s, ids[0]), ids[1..])
  }

  function HandleCancelEach(s: State, ids: seq<string>, a: BatchAnswer): State
    requires a.PerOrder?
    requires forall i | i in ids :: i in s.orders
    decreases |ids|
  {
    if ids == [] then s else HandleCancelEach(HandleCancel(s, ids[0], a.For(ids[0])), ids[1..], a)
  }

  function HandleCancels(s: State, ids: seq<string>, a: BatchAnswer): State
    requires forall i | i in ids :: i in s.orders
  {
    var found := Among(s, ids, Canceling);
    AmongWithin(s, ids, Canceling);
    match a
    case Transport(e) => Notice(RejectCancelAll(s, found), e)
    case PerOrder(_) => HandleCancelEach(s, found, a)
  }

  lemma {:induction false} AmongWithin(s: State, ids: seq<string>, st: Status)
    requires forall i | i in ids :: i in s.orders
    ensures forall i :: i in Among(s, ids, st) <==> i in ids && i in s.living && s.orders[i].status == st
  {
    if ids != [] {
      AmongWithin(s, ids[1..], st);
      assert forall i :: i in ids <==> i == ids[0] || i in ids[1..];
    }
  }

  // ---------------------------------------------------------------------------------------------
  // Order data from the private feed
  // ---------------------------------------------------------------------------------------------

  function NoteForeign(s: State, d: OrderData): State {
    if d.id != "" then s
    else if d.status.Opened? then s.(foreign := s.foreign + {d.publicId})
    else if d.IsDone() && d.publicId in s.foreign then
      s.(done := s.done + [Foreign(d.publicId)], foreign := s.foreign - {d.publicId})
    else s
  }

  function FillInfo(o: Order, d: OrderData): Order {
    o.(avgPrice := d.avgPrice, execQty := d.execQty, fee := d.fee)
  }

  function HandleData(s: State, d: OrderData): State
    requires s.living <= s.orders.Keys
  {
    var s1 := NoteForeign(s, d);
    if d.id !in s1.living then s1
    else if d.status.DataFilled? then
      Finish(Put(s1, d.id, FillInfo(s1.orders[d.id], d)), d.id, Filled)
    else if d.status.DataPartiallyFilled? then
      var s2 := Put(s1, d.id, FillInfo(s1.orders[d.id], d));
      if s1.orders[d.id].orderType.LimitIOC? then Finish(s2, d.id, PartiallyFilledAndCanceled) else s2
    else s1
  }

  // ---------------------------------------------------------------------------------------------
  // Deferred callbacks
  // ---------------------------------------------------------------------------------------------

  function RunCallback(s: State, job: Job, ok: bool): State
    requires job.id in s.orders
  {
    match job.cb
    case UserCb => s
    case CancelCb => IssueCancel(s, job.id, ok)
    case AmendCb(captured) =>
      var d := if job.id in s.queued then s.queued[job.id] else captured;
      IssueAmend(s.(queued := s.queued - {job.id}), job.id, d, ok)
  }

  function RunJob(s: State, k: nat, ok: bool): State
    requires k < |s.jobs| && s.jobs[k].id in s.orders
  {
    RunCallback(s.(jobs := s.jobs[..k] + s.jobs[k + 1..]), s.jobs[k], ok)
  }

  // ---------------------------------------------------------------------------------------------
  // Events and runs
  // ---------------------------------------------------------------------------------------------

  datatype Event =
    | New(id: string, orderType: OrderType, price: real, qty: real)
    | Send(id: string, ok: bool)
    | SendBatch(ids: seq<string>, ok: bool)
    | AmendCall(id: string, detail: Detail, ok: bool)
    | CancelCall(id: string, ok: bool)
    | CancelBatch(targets: set<string>, ok: bool)
    | ListenCreate(id: string)
    | ListenAmend(id: string)
    | ExportDone
    | SendResp(id: string, err: Option<AgentError>)
    | AmendResp(id: string, detail: Detail, err: Option<AgentError>)
    | CancelResp(id: string, err: Option<AgentError>)
    | SendBatchResp(ids: seq<string>, answer: BatchAnswer)
    | CancelBatchResp(ids: seq<string>, answer: BatchAnswer)
    | Data(data: OrderData)
    | RunDeferred(k: nat, ok: bool)

  ghost predicate Distinct(ids: seq<string>) {
    forall i, j | 0 <= i < j < |ids| :: ids[i] != ids[j]
  }

  ghost predicate OwedAll(s: State, ids: seq<string>, k: Kind) {
    && Distinct(ids)
    && forall i | i in ids :: i in s.orders && Owed(s.orders[i], k)
  }

  /** Events the surroundings can produce: order ids are unique, and a response answers a request. */
  ghost predicate Possible(s: State, e: Event) {
    match e
    case New(id, _, _, _) => id != "" && id !in s.orders
    case Send(id, _) => id in s.orders
    case SendBatch(ids, _) => forall i | i in ids :: i in s.orders
    case AmendCall(id, _, _) => id in s.orders
    case CancelCall(id, _) => id in s.orders
    case CancelBatch(ids, _) => ids <= s.orders.Keys
    case ListenCreate(id) => id in s.orders
    case ListenAmend(id) => id in s.orders
    case ExportDone => true
    case SendResp(id, _) => id in s.orders && Owed(s.orders[id], Create)
    case AmendResp(id, _, _) => id in s.orders && Owed(s.orders[id], Amend)
    case CancelResp(id, _) => id in s.orders && Owed(s.orders[id], Cancel)
    case SendBatchResp(ids, _) => OwedAll(s, ids, Create)
    case CancelBatchResp(ids, _) => OwedAll(s, ids, Cancel)
    case Data(_) => s.living <= s.orders.Keys
    case RunDeferred(k, _) => k < |s.jobs| && s.jobs[k].id in s.orders
  }

  ghost function Step(s: State, e: Event): State
    requires Possible(s, e)
  {
    match e
    case New(id, t, p, q) => Put(s, id, NewOrder(t, p, q))
    case Send(id, ok) => SendOrder(s, id, ok)
    case SendBatch(ids, ok) => SendOrders(s, ids, ok)
    case AmendCall(id, d, ok) => AmendOrder(s, id, d, ok)
    case CancelCall(id, ok) => CancelOrder(s, id, ok)
    case CancelBatch(ids, ok) => CancelOrders(s, ids, ok)
    case ListenCreate(id) => ListenForCreate(s, id)
    case ListenAmend(id) => ListenForAmend(s, id)
    case ExportDone => Export(s)
    case SendResp(id, err) => HandleSend(Receive(s, id, Create), id, err)
    case AmendResp(id, d, err) => HandleAmend(Receive(s, id, Amend), id, d, err)
    case CancelResp(id, err) => HandleCancel(Receive(s, id, Cancel), id, err)
    case SendBatchResp(ids, a) => HandleSends(ReceiveAll(s, ids, Create), ids, a)
    case CancelBatchResp(ids, a) => HandleCancels(ReceiveAll(s, ids, Cancel), ids, a)
    case Data(d) => HandleData(s, d)
    case RunDeferred(k, ok) => RunJob(s, k, ok)
  }

  function ListenForCreate(s: State, id: string): State
    requires id in s.orders
  {
    var o := s.orders[id];
    if o.orderType.IsTaker() then s else Put(s, id, o.(onCreate := o.onCreate + [UserCb]))
  }

  function ListenForAmend(s: State, id: string): State
    requires id in s.orders
  {
    var o := s.orders[id];
    if !o.orderType.IsAmendable() then s else Put(s, id, o.(onAmend := o.onAmend + [UserCb]))
  }

  ghost predicate Legal(s: State, es: seq<Event>)
    decreases |es|
  {
    es == [] || (Possible(s, es[0]) && Legal(Step(s, es[0]), es[1..]))
  }

  ghost function Run(s: State, es: seq<Event>): State
    requires Legal(s, es)
    decreases |es|
  {
    if es == [] then s else Run(Step(s, es[0]), es[1..])
  }
}
