/** What a caller of the order service can count on: the order of the statuses, the answers, and which shipping id is kept. */
module CardRequests {
  import opened Wrappers
  import opened CardOrders

  // ----- The order of the statuses -----

  /** The statuses as an order goes through them; an error lies before the creation of the card, so it can be made up for. */
  const LIFE := [OrderCreated, CardOrdered, CardError, CardCreated, CardShipped, CardDelivered]

  /** The sequence numbers put the statuses in this order, and the sequence error after all of them. */
  lemma SequenceFollowsLife(i: nat, j: nat)
    requires i < |LIFE| && j < |LIFE|
    ensures Sequence(LIFE[i]) < Sequence(LIFE[j]) <==> i < j
    ensures Sequence(LIFE[i]) < Sequence(SequenceError)
  {
  }

  predicate Fits(status: StatusType, details: Details) {
    match status
    case CardOrdered => true
    case CardDelivered => true
    case CardError => details.ErrorDetails?
    case CardCreated => details.CardDetails?
    case CardShipped => details.ShippingDetails?
    case _ => false
  }

  /** The store after a request that was accepted. */
  ghost predicate Accepts(t: Store, id: OrderId, status: StatusType, details: Details, u: Store) {
    HandleNewStatus(t, id, id, Some(status), details) == (u, Done)
  }

  /** The order has this history. */
  ghost predicate IsAt(t: Store, id: OrderId, h: seq<StatusType>) {
    RowsInOrder(t) && History(t.statuses, id) == h
  }

  lemma Accepted(t: Store, id: OrderId, h: seq<StatusType>, last: StatusType, status: StatusType, details: Details)
    returns (u: Store)
    requires IsAt(t, id, h + [last]) && Sequence(last) < Sequence(status) && Fits(status, details)
    ensures Accepts(t, id, status, details, u) && IsAt(u, id, h + [last] + [status])
  {
    HandleAcceptsIff(t, id, id, Some(status), details);
    u := HandleNewStatus(t, id, id, Some(status), details).0;
    HandleInserts(t, id, status, details);
    InsertKeepsOrder(t, u, id, status);
  }

  ghost predicate Inserts(t: Store, u: Store, id: OrderId, status: StatusType) {
    && u.statuses == t.statuses + [StatusRow(t.nextId, id, t.clock, status)]
    && u.nextId == t.nextId + 1 && u.clock == t.clock + 1
  }

  lemma HandleInserts(t: Store, id: OrderId, status: StatusType, details: Details)
    requires HandleNewStatus(t, id, id, Some(status), details).1 == Done
    ensures Inserts(t, HandleNewStatus(t, id, id, Some(status), details).0, id, status)
  {
  }

  lemma InsertKeepsOrder(t: Store, u: Store, id: OrderId, status: StatusType)
    requires RowsInOrder(t) && Inserts(t, u, id, status)
    ensures RowsInOrder(u)
  {
  }

  /** A new order can be reported as ordered, created, shipped and delivered, in this order. */
  lemma WholeLifeIsAccepted(t: Store, id: OrderId, shippingId: int)
    returns (ordered: Store, created: Store, shipped: Store, delivered: Store)
    requires IsAt(t, id, [OrderCreated])
    ensures Accepts(t, id, CardOrdered, NoDetails, ordered) && Accepts(ordered, id, CardCreated, CardDetails, created)
    ensures Accepts(created, id, CardShipped, ShippingDetails(shippingId), shipped)
    ensures Accepts(shipped, id, CardDelivered, NoDetails, delivered)
    ensures IsAt(delivered, id, [OrderCreated, CardOrdered, CardCreated, CardShipped, CardDelivered])
  {
    var h := [] + [OrderCreated];
    assert h == [OrderCreated];
    ordered := Accepted(t, id, [], OrderCreated, CardOrdered, NoDetails);
    created := Accepted(ordered, id, h, CardOrdered, CardCreated, CardDetails);
    shipped := Accepted(created, id, h + [CardOrdered], CardCreated, CardShipped, ShippingDetails(shippingId));
    delivered := Accepted(shipped, id, h + [CardOrdered] + [CardCreated], CardShipped, CardDelivered, NoDetails);
    OneByOne();
  }

  lemma OneByOne()
    ensures [] + [OrderCreated] + [CardOrdered] + [CardCreated] + [CardShipped] + [CardDelivered]
         == [OrderCreated, CardOrdered, CardCreated, CardShipped, CardDelivered]
  {
  }

  /** After the delivery nothing is accepted any more. */
  lemma DeliveryIsTheEnd(t: Store, pathId: OrderId, id: OrderId, status: Option<StatusType>, details: Details)
    requires RowsInOrder(t) && History(t.statuses, pathId) != []
    requires History(t.statuses, pathId)[|History(t.statuses, pathId)| - 1] == CardDelivered
    ensures var (u, answer) := HandleNewStatus(t, pathId, id, status, details); u == t && answer != Done
  {
    HandleAcceptsIff(t, pathId, id, status, details);
  }

  /** Why a status request is refused: two ids, an order without a status and a status out of sequence are the caller's fault; a
      status that does not exist and details that do not fit it are errors of the service. */
  lemma HandleRefusal(t: Store, pathId: OrderId, orderId: OrderId, status: Option<StatusType>, details: Details)
    requires RowsInOrder(t)
    ensures var h, answer := History(t.statuses, pathId), HandleNewStatus(t, pathId, orderId, status, details).1;
      && (answer == ServerError <==>
            && pathId == orderId && h != []
            && (status.None? ||
                (CanFollow(h, status.value) &&
                 ((status.value == CardError && !details.ErrorDetails?) ||
                  (status.value == CardShipped && !details.ShippingDetails?) ||
                  (status.value == CardCreated && !details.CardDetails?)))))
      && (answer == BadRequest <==>
            || pathId != orderId || h == []
            || (status.Some? && (!CanFollow(h, status.value) || status.value == OrderCreated || status.value == SequenceError)))
  {
    LastOrderStatusIsLast(t, pathId);
  }

  /** An account without an order gets one, without a shipping id and with the creation as its first status; one with an order
      is refused. */
  lemma CreateIsExact(t: Store, accountId: int, guid: OrderId, id: OrderId)
    requires RowsHaveOrders(t) && guid !in t.orders
    ensures var (u, answer) := CreateOrder(t, accountId, guid);
      if exists x :: x in t.orders && t.orders[x].accountId == accountId then u == t && answer == BadRequest
      else
        && answer == Created && u.orders == t.orders[guid := Order(accountId, None)] && u.cards == t.cards
        && History(u.statuses, id) == if id == guid then [OrderCreated] else History(t.statuses, id)
  {
    var s := t.(orders := t.orders[guid := Order(accountId, None)]);
    HistoryOfInsert(s, guid, OrderCreated, id);
    NoRowsNoHistory(t.statuses, guid);
  }

  // ----- The shipping id -----

  /** The request is a shipment of the order that gets accepted. */
  predicate Ships(t: Store, s: Step, id: OrderId) {
    && s.Update? && s.pathId == id && s.orderId == id && s.status == Some(CardShipped) && s.details.ShippingDetails?
    && HandleNewStatus(t, id, id, Some(CardShipped), s.details).1 == Done
  }

  lemma {:induction false} DispatchKeepsOrders(t: Store, ids: seq<OrderId>, answers: seq<Answer>)
    requires |answers| == |ids|
    ensures Dispatch(t, ids, answers).orders == t.orders
    decreases |ids|
  {
    if ids != [] {
      match answers[0]
      case Accepted => DispatchKeepsOrders(InsertStatus(t, ids[0], CardOrdered), ids[1..], answers[1..]);
      case Declined => DispatchKeepsOrders(t, ids[1..], answers[1..]);
      case Failed =>
    }
  }

  lemma ActShipping(t: Store, orderId: OrderId, status: StatusType, details: Details, id: OrderId)
    requires orderId in t.orders
    ensures var u := ActOnStatus(t, orderId, status, details).0;
      && u.orders.Keys == t.orders.Keys
      && (id in t.orders ==>
            u.orders[id].shippingId
              == if id == orderId && status == CardShipped && details.ShippingDetails? then Some(details.shippingId)
                 else t.orders[id].shippingId)
  {
  }

  lemma UpdateShipping(t: Store, pathId: OrderId, orderId: OrderId, status: Option<StatusType>, details: Details, id: OrderId)
    requires RowsInOrder(t) && RowsHaveOrders(t)
    ensures var u, s := HandleNewStatus(t, pathId, orderId, status, details).0, Update(pathId, orderId, status, details);
      && u.orders.Keys == t.orders.Keys
      && (id in t.orders ==>
            u.orders[id].shippingId == if Ships(t, s, id) then Some(details.shippingId) else t.orders[id].shippingId)
  {
    HandleAcceptsIff(t, pathId, orderId, status, details);
    if HandleNewStatus(t, pathId, orderId, status, details).1 == Done {
      var row := HistoryHasOrder(t.statuses, orderId);
      ActShipping(t, orderId, status.value, details, id);
    }
  }

  /** Only an accepted shipment sets the shipping id of an order, to the one it carries; a new order has none. */
  lemma StepShipping(t: Store, s: Step, id: OrderId)
    requires Inv(t) && IsStep(t, s) && id in Next(t, s).orders
    ensures Next(t, s).orders[id].shippingId
         == if id !in t.orders then None else if Ships(t, s, id) then Some(s.details.shippingId) else t.orders[id].shippingId
  {
    match s
    case Create(_, _) =>
    case Update(pathId, orderId, status, details) => UpdateShipping(t, pathId, orderId, status, details, id);
    case Delete(_) =>
    case WorkPass(answers) => DispatchKeepsOrders(t, OrdersJustCreated(t.statuses, |t.statuses|), answers);
  }

  /** The id of the last shipment of the order that was accepted since the order was created, if there was one. */
  ghost function LastShipped(t: Store, steps: seq<Step>, id: OrderId, before: Option<int>): Option<int>
    requires IsRun(t, steps)
    decreases |steps|
  {
    if steps == [] then before
    else
      var s := steps[0];
      LastShipped(Next(t, s), steps[1..], id,
                  if id !in t.orders || id !in Next(t, s).orders then None
                  else if Ships(t, s, id) then Some(s.details.shippingId) else before)
  }

  ghost function ShippingId(t: Store, id: OrderId): Option<int> {
    if id in t.orders then t.orders[id].shippingId else None
  }

  /** Over every run: the shipping id of an order is that of its last accepted shipment. */
  lemma {:induction false} ShippingIdIsLastShipped(t: Store, steps: seq<Step>, id: OrderId)
    requires Inv(t) && IsRun(t, steps)
    ensures ShippingId(Run(t, steps), id) == LastShipped(t, steps, id, ShippingId(t, id))
    decreases |steps|
  {
    if steps != [] {
      StepKeepsInv(t, steps[0]);
      if id in Next(t, steps[0]).orders {
        StepShipping(t, steps[0], id);
      }
      ShippingIdIsLastShipped(Next(t, steps[0]), steps[1..], id);
    }
  }
}
