/** The credit-card order service: its three tables as values, its requests, and what every run of requests keeps.

    Grain: each request of the order service is one step, and so is each whole pass of the work scheduler. Order ids are
    fresh, and the clock moves between any two reads, so instants are numbers that grow. */
module CardOrders {
  import opened Wrappers

  type OrderId = int

  datatype StatusType =
    | OrderCreated | CardOrdered | CardCreated | CardError | CardShipped | CardDelivered | SequenceError

  function Sequence(s: StatusType): int {
    match s
    case OrderCreated => 10
    case CardOrdered => 20
    case CardError => 30
    case CardCreated => 39
    case CardShipped => 40
    case CardDelivered => 50
    case SequenceError => 99
  }

  datatype Order = Order(accountId: int, shippingId: Option<int>)

  datatype StatusRow = StatusRow(id: nat, orderId: OrderId, timestamp: nat, status: StatusType)

  /** `cards` holds the order id of each card row; status rows are in the order of their ids. */
  datatype Store = Store(
    orders: map<OrderId, Order>,
    statuses: seq<StatusRow>,
    cards: seq<OrderId>,
    nextId: nat,
    clock: nat)

  datatype Response = Created | Done | BadRequest | ServerError

  /** What a status request carries beside its type. */
  datatype Details = NoDetails | ErrorDetails | ShippingDetails(shippingId: int) | CardDetails | MalformedDetails

  // ----- Queries -----

  /** ORDER BY Timestamp DESC LIMIT 1 among the rows of an order. */
  function LatestByTime(rows: seq<StatusRow>, orderId: OrderId): Option<StatusRow> {
    if rows == [] then None
    else
      var last, best := rows[|rows| - 1], LatestByTime(rows[..|rows| - 1], orderId);
      if last.orderId == orderId && (best.None? || best.value.timestamp < last.timestamp) then Some(last) else best
  }

  /** The row with MAX(Id) among the rows of an order. */
  function LatestById(rows: seq<StatusRow>, orderId: OrderId): Option<StatusRow> {
    if rows == [] then None
    else
      var last, best := rows[|rows| - 1], LatestById(rows[..|rows| - 1], orderId);
      if last.orderId == orderId && (best.None? || best.value.id < last.id) then Some(last) else best
  }

  function LastOrderStatus(t: Store, orderId: OrderId): Option<StatusType> {
    var row := LatestByTime(t.statuses, orderId);
    if row.Some? then Some(row.value.status) else None
  }

  /** The orders whose current status, by id, is the creation; each order once. */
  function OrdersJustCreated(rows: seq<StatusRow>, upTo: nat): seq<OrderId>
    requires upTo <= |rows|
  {
    if upTo == 0 then []
    else
      var row := rows[upTo - 1];
      OrdersJustCreated(rows, upTo - 1)
        + if LatestById(rows, row.orderId) == Some(row) && row.status == OrderCreated then [row.orderId] else []
  }

  predicate HasOrder(t: Store, accountId: int) {
    exists id :: id in t.orders && t.orders[id].accountId == accountId
  }

  // ----- Updates -----

  function InsertStatus(t: Store, orderId: OrderId, status: StatusType): Store {
    t.(statuses := t.statuses + [StatusRow(t.nextId, orderId, t.clock, status)],
       nextId := t.nextId + 1, clock := t.clock + 1)
  }

  function CreateOrder(t: Store, accountId: int, guid: OrderId): (Store, Response) {
    if HasOrder(t, accountId) then (t, BadRequest)
    else (InsertStatus(t.(orders := t.orders[guid := Order(accountId, None)]), guid, OrderCreated), Created)
  }

  function SetShippingId(t: Store, orderId: OrderId, shippingId: int): Store {
    if orderId in t.orders then t.(orders := t.orders[orderId := t.orders[orderId].(shippingId := Some(shippingId))])
    else t
  }

  /** The switch over the new status; `status` passed the sequence check. */
  function ActOnStatus(t: Store, orderId: OrderId, status: StatusType, details: Details): (Store, Response) {
    match status
    case CardOrdered => (InsertStatus(t, orderId, status), Done)
    case CardDelivered => (InsertStatus(t, orderId, status), Done)
    case CardError =>
      if details.ErrorDetails? then (InsertStatus(t, orderId, status), Done) else (t, ServerError)
    case CardShipped =>
      if details.ShippingDetails? then
        (InsertStatus(SetShippingId(t, orderId, details.shippingId), orderId, status), Done)
      else (t, ServerError)
    case CardCreated =>
      if details.CardDetails? then (InsertStatus(t.(cards := t.cards + [orderId]), orderId, status), Done)
      else (t, ServerError)
    case OrderCreated => (t, BadRequest)
    case SequenceError => (t, BadRequest)
  }

  /** A status request; `status` is None when the type names no status. */
  function HandleNewStatus(t: Store, pathId: OrderId, orderId: OrderId, status: Option<StatusType>, details: Details)
    : (Store, Response)
  {
    if pathId != orderId then (t, BadRequest)
    else
      var current := LastOrderStatus(t, pathId);
      if current.None? then (t, BadRequest)
      else if status.None? then (t, ServerError)
      else if Sequence(status.value) <= Sequence(current.value) then (t, BadRequest)
      else ActOnStatus(t, orderId, status.value, details)
  }

  function WithoutOrders(rows: seq<StatusRow>, ids: set<OrderId>): seq<StatusRow> {
    if rows == [] then []
    else WithoutOrders(rows[..|rows| - 1], ids) + if rows[|rows| - 1].orderId in ids then [] else [rows[|rows| - 1]]
  }

  function WithoutCards(cards: seq<OrderId>, ids: set<OrderId>): seq<OrderId> {
    if cards == [] then []
    else WithoutCards(cards[..|cards| - 1], ids) + if cards[|cards| - 1] in ids then [] else [cards[|cards| - 1]]
  }

  function OrdersOf(t: Store, accountId: int): set<OrderId> {
    set id | id in t.orders && t.orders[id].accountId == accountId
  }

  function DeleteOrder(t: Store, accountId: int): Store {
    var ids := OrdersOf(t, accountId);
    t.(statuses := WithoutOrders(t.statuses, ids), cards := WithoutCards(t.cards, ids), orders := t.orders - ids)
  }

  /** How the manufacturer answers a dispatch: accepted, declined, or an exception that ends the pass. */
  datatype Answer = Accepted | Declined | Failed

  /** The dispatch loop over the orders found at the start of the pass. */
  function Dispatch(t: Store, ids: seq<OrderId>, answers: seq<Answer>): Store
    requires |answers| == |ids|
    decreases |ids|
  {
    if ids == [] then t
    else match answers[0]
      case Accepted => Dispatch(InsertStatus(t, ids[0], CardOrdered), ids[1..], answers[1..])
      case Declined => Dispatch(t, ids[1..], answers[1..])
      case Failed => t
  }

  // ----- Steps and runs -----

  datatype Step =
    | Create(accountId: int, guid: OrderId)
    | Update(pathId: OrderId, orderId: OrderId, status: Option<StatusType>, details: Details)
    | Delete(accountId: int)
    | WorkPass(answers: seq<Answer>)

  /** Order ids are fresh; the manufacturer answers every dispatch of a pass. */
  predicate IsStep(t: Store, s: Step) {
    match s
    case Create(_, guid) => guid !in t.orders
    case WorkPass(answers) => |answers| == |OrdersJustCreated(t.statuses, |t.statuses|)|
    case _ => true
  }

  function Next(t: Store, s: Step): Store
    requires IsStep(t, s)
  {
    match s
    case Create(accountId, guid) => CreateOrder(t, accountId, guid).0
    case Update(pathId, orderId, status, details) => HandleNewStatus(t, pathId, orderId, status, details).0
    case Delete(accountId) => DeleteOrder(t, accountId)
    case WorkPass(answers) => Dispatch(t, OrdersJustCreated(t.statuses, |t.statuses|), answers)
  }

  ghost predicate IsRun(t: Store, steps: seq<Step>)
    decreases |steps|
  {
    steps == [] || (IsStep(t, steps[0]) && IsRun(Next(t, steps[0]), steps[1..]))
  }

  ghost function Run(t: Store, steps: seq<Step>): Store
    requires IsRun(t, steps)
    decreases |steps|
  {
    if steps == [] then t else Run(Next(t, steps[0]), steps[1..])
  }

  const EMPTY: Store := Store(map[], [], [], 0, 0)

  // ----- The invariant -----

  /** The statuses recorded for an order, oldest first. */
  ghost function History(rows: seq<StatusRow>, orderId: OrderId): seq<StatusType> {
    if rows == [] then []
    else
      History(rows[..|rows| - 1], orderId)
        + if rows[|rows| - 1].orderId == orderId then [rows[|rows| - 1].status] else []
  }

  ghost function CardRows(cards: seq<OrderId>, orderId: OrderId): nat {
    if cards == [] then 0
    else CardRows(cards[..|cards| - 1], orderId) + if cards[|cards| - 1] == orderId then 1 else 0
  }

  ghost function Count(h: seq<StatusType>, status: StatusType): nat {
    if h == [] then 0 else Count(h[..|h| - 1], status) + if h[|h| - 1] == status then 1 else 0
  }

  ghost predicate Increasing(h: seq<StatusType>) {
    forall i, j :: 0 <= i < j < |h| ==> Sequence(h[i]) < Sequence(h[j])
  }

  /** The life of one order: it starts with the creation, its sequence numbers strictly increase, it has one card row per
      card_created entry, and a shipping id exactly when card_shipped is recorded. */
  ghost predicate IsLife(order: Order, h: seq<StatusType>, cards: nat) {
    && h != [] && h[0] == OrderCreated && Increasing(h)
    && cards == Count(h, CardCreated)
    && (order.shippingId.Some? <==> CardShipped in h)
  }

  /** Ids and instants of the status rows grow, and stay below the next ones. */
  ghost predicate RowsInOrder(t: Store) {
    && (forall i :: 0 <= i < |t.statuses| ==> t.statuses[i].id < t.nextId && t.statuses[i].timestamp < t.clock)
    && (forall i, j :: 0 <= i < j < |t.statuses| ==>
          t.statuses[i].id < t.statuses[j].id && t.statuses[i].timestamp < t.statuses[j].timestamp)
  }

  /** No status row and no card row outlives its order. */
  ghost predicate RowsHaveOrders(t: Store) {
    && (forall row :: row in t.statuses ==> row.orderId in t.orders)
    && (forall id :: id in t.cards ==> id in t.orders)
  }

  ghost predicate HasLife(t: Store, id: OrderId) {
    id in t.orders && IsLife(t.orders[id], History(t.statuses, id), CardRows(t.cards, id))
  }

  ghost predicate OrdersHaveLives(t: Store) {
    forall id :: id in t.orders ==> HasLife(t, id)
  }

  ghost predicate OneOrderPerAccount(orders: map<OrderId, Order>) {
    forall a, b :: a in orders && b in orders && orders[a].accountId == orders[b].accountId ==> a == b
  }

  ghost predicate Inv(t: Store) {
    RowsInOrder(t) && RowsHaveOrders(t) && OrdersHaveLives(t) && OneOrderPerAccount(t.orders)
  }

  // ----- The two ways of finding the current status agree -----

  lemma {:induction false} LatestIsLast(t: Store, n: nat, orderId: OrderId)
    requires RowsInOrder(t) && n <= |t.statuses|
    ensures var rows := t.statuses[..n];
      && LatestByTime(rows, orderId) == LatestById(rows, orderId)
      && (LatestById(rows, orderId).Some? <==> History(rows, orderId) != [])
      && (LatestById(rows, orderId).Some? ==>
            var row, h := LatestById(rows, orderId).value, History(rows, orderId);
            row in rows && row.orderId == orderId && row.status == h[|h| - 1])
  {
    var rows := t.statuses[..n];
    if n > 0 {
      assert rows[..n - 1] == t.statuses[..n - 1];
      LatestIsLast(t, n - 1, orderId);
    }
  }

  lemma LastOrderStatusIsLast(t: Store, orderId: OrderId)
    requires RowsInOrder(t)
    ensures var h := History(t.statuses, orderId);
      LastOrderStatus(t, orderId) == if h == [] then None else Some(h[|h| - 1])
  {
    assert t.statuses[..|t.statuses|] == t.statuses;
    LatestIsLast(t, |t.statuses|, orderId);
  }

  // ----- One insertion -----

  lemma HistoryOfInsert(t: Store, orderId: OrderId, status: StatusType, id: OrderId)
    ensures History(InsertStatus(t, orderId, status).statuses, id)
         == if id == orderId then History(t.statuses, id) + [status] else History(t.statuses, id)
  {
    var rows := InsertStatus(t, orderId, status).statuses;
    assert rows[..|rows| - 1] == t.statuses;
    assert History(t.statuses, id) + [] == History(t.statuses, id);
  }

  lemma CountSnoc(h: seq<StatusType>, status: StatusType, of: StatusType)
    ensures Count(h + [status], of) == Count(h, of) + if status == of then 1 else 0
  {
    assert (h + [status])[..|h|] == h;
  }

  lemma CardRowsSnoc(cards: seq<OrderId>, orderId: OrderId, id: OrderId)
    ensures CardRows(cards + [orderId], id) == CardRows(cards, id) + if id == orderId then 1 else 0
  {
    assert (cards + [orderId])[..|cards|] == cards;
  }

  lemma IncreasingSnoc(h: seq<StatusType>, status: StatusType)
    requires Increasing(h) && (h != [] ==> Sequence(h[|h| - 1]) < Sequence(status))
    ensures Increasing(h + [status])
  {
  }

  /** `u` is `t` with one status more for an order, together with its card row or shipping id. */
  ghost predicate IsUpdate(t: Store, u: Store, orderId: OrderId, status: StatusType) {
    && orderId in t.orders && u.orders.Keys == t.orders.Keys
    && u.statuses == InsertStatus(t, orderId, status).statuses && u.nextId == t.nextId + 1 && u.clock == t.clock + 1
    && u.cards == (if status == CardCreated then t.cards + [orderId] else t.cards)
    && u.orders[orderId].accountId == t.orders[orderId].accountId
    && (if status == CardShipped then u.orders[orderId].shippingId.Some? else u.orders[orderId] == t.orders[orderId])
    && OthersUnchanged(t.orders, u.orders, orderId)
  }

  ghost predicate OthersUnchanged(before: map<OrderId, Order>, after: map<OrderId, Order>, orderId: OrderId) {
    forall id :: id in before && id != orderId ==> id in after && after[id] == before[id]
  }

  ghost predicate CanFollow(h: seq<StatusType>, status: StatusType) {
    h != [] && Sequence(h[|h| - 1]) < Sequence(status)
  }

  lemma LifeGoesOn(order: Order, next: Order, h: seq<StatusType>, cards: nat, status: StatusType)
    requires IsLife(order, h, cards) && CanFollow(h, status)
    requires if status == CardShipped then next.shippingId.Some? else next == order
    ensures IsLife(next, h + [status], cards + if status == CardCreated then 1 else 0)
  {
    CountSnoc(h, status, CardCreated);
    IncreasingSnoc(h, status);
    assert forall x :: x in h + [status] <==> x in h || x == status;
  }

  lemma UpdateKeepsLife(t: Store, u: Store, orderId: OrderId, status: StatusType, id: OrderId)
    requires IsUpdate(t, u, orderId, status) && HasLife(t, id)
    requires CanFollow(History(t.statuses, orderId), status)
    ensures HasLife(u, id)
  {
    if id == orderId {
      UpdateKeepsOwnLife(t, u, id, status);
    } else {
      HistoryOfInsert(t, orderId, status, id);
      CardRowsSnoc(t.cards, orderId, id);
    }
  }

  lemma UpdateKeepsOwnLife(t: Store, u: Store, id: OrderId, status: StatusType)
    requires IsUpdate(t, u, id, status) && HasLife(t, id) && CanFollow(History(t.statuses, id), status)
    ensures HasLife(u, id)
  {
    HistoryOfInsert(t, id, status, id);
    CardRowsSnoc(t.cards, id, id);
    LifeGoesOn(t.orders[id], u.orders[id], History(t.statuses, id), CardRows(t.cards, id), status);
  }

  lemma UpdateKeepsRows(t: Store, u: Store, orderId: OrderId, status: StatusType)
    requires IsUpdate(t, u, orderId, status) && RowsInOrder(t) && RowsHaveOrders(t)
    ensures RowsInOrder(u) && RowsHaveOrders(u)
  {
  }

  lemma UpdateKeepsAccounts(t: Store, u: Store, orderId: OrderId, status: StatusType)
    requires IsUpdate(t, u, orderId, status) && OneOrderPerAccount(t.orders)
    ensures OneOrderPerAccount(u.orders)
  {
    forall a, b | a in u.orders && b in u.orders && u.orders[a].accountId == u.orders[b].accountId ensures a == b {
      assert a in t.orders.Keys && b in t.orders.Keys;
    }
  }

  lemma UpdateKeepsInv(t: Store, u: Store, orderId: OrderId, status: StatusType)
    requires Inv(t) && IsUpdate(t, u, orderId, status)
    requires CanFollow(History(t.statuses, orderId), status)
    ensures Inv(u)
  {
    UpdateKeepsRows(t, u, orderId, status);
    UpdateKeepsAccounts(t, u, orderId, status);
    forall id | id in u.orders ensures HasLife(u, id) {
      UpdateKeepsLife(t, u, orderId, status, id);
    }
  }

  // ----- The requests -----

  lemma {:induction false} HistoryHasOrder(rows: seq<StatusRow>, orderId: OrderId) returns (row: StatusRow)
    requires History(rows, orderId) != []
    ensures row in rows && row.orderId == orderId
  {
    row := rows[|rows| - 1];
    if row.orderId != orderId {
      row := HistoryHasOrder(rows[..|rows| - 1], orderId);
    }
  }

  /** A request that passes the sequence check either changes nothing or appends the status it names. */
  lemma ActIsUpdate(t: Store, orderId: OrderId, status: StatusType, details: Details)
    requires orderId in t.orders
    ensures var (u, response) := ActOnStatus(t, orderId, status, details);
      if response == Done then IsUpdate(t, u, orderId, status) else u == t
  {
  }

  lemma HandleKeepsInv(t: Store, pathId: OrderId, orderId: OrderId, status: Option<StatusType>, details: Details)
    requires Inv(t)
    ensures Inv(HandleNewStatus(t, pathId, orderId, status, details).0)
  {
    LastOrderStatusIsLast(t, pathId);
    var u := HandleNewStatus(t, pathId, orderId, status, details).0;
    if u != t {
      var row := HistoryHasOrder(t.statuses, orderId);
      ActIsUpdate(t, orderId, status.value, details);
      UpdateKeepsInv(t, u, orderId, status.value);
    }
  }

  /** A status request is accepted exactly when the ids agree, the order has a status, the new one comes later in the
      sequence, and it is one of the five that can be requested, with the details it needs. */
  lemma HandleAcceptsIff(t: Store, pathId: OrderId, orderId: OrderId, status: Option<StatusType>, details: Details)
    requires RowsInOrder(t)
    ensures var h := History(t.statuses, pathId); var (u, response) := HandleNewStatus(t, pathId, orderId, status, details);
      && (response == Done <==>
            && pathId == orderId && status.Some? && CanFollow(h, status.value)
            && status.value != OrderCreated && status.value != SequenceError
            && (status.value == CardError ==> details.ErrorDetails?)
            && (status.value == CardShipped ==> details.ShippingDetails?)
            && (status.value == CardCreated ==> details.CardDetails?))
      && (if response == Done then History(u.statuses, pathId) == h + [status.value] else u == t)
  {
    LastOrderStatusIsLast(t, pathId);
    if status.Some? {
      HistoryOfInsert(t, orderId, status.value, pathId);
    }
  }

  lemma {:induction false} NoRowsNoHistory(rows: seq<StatusRow>, id: OrderId)
    requires forall row :: row in rows ==> row.orderId != id
    ensures History(rows, id) == []
  {
    if rows != [] {
      NoRowsNoHistory(rows[..|rows| - 1], id);
    }
  }

  lemma {:induction false} NoRowsNoCards(cards: seq<OrderId>, id: OrderId)
    requires id !in cards
    ensures CardRows(cards, id) == 0
  {
    if cards != [] {
      NoRowsNoCards(cards[..|cards| - 1], id);
    }
  }

  lemma FirstLife(accountId: int)
    ensures IsLife(Order(accountId, None), [OrderCreated], 0)
  {
    assert [OrderCreated][..0] == [];
    assert Count([OrderCreated], CardCreated) == 0;
  }

  lemma NewOrderKeepsLives(t: Store, u: Store, accountId: int, guid: OrderId, id: OrderId)
    requires OrdersHaveLives(t) && RowsHaveOrders(t) && guid !in t.orders
    requires u == InsertStatus(t.(orders := t.orders[guid := Order(accountId, None)]), guid, OrderCreated)
    requires id in u.orders
    ensures HasLife(u, id)
  {
    HistoryOfInsert(t, guid, OrderCreated, id);
    if id == guid {
      NoRowsNoHistory(t.statuses, guid);
      NoRowsNoCards(t.cards, guid);
      FirstLife(accountId);
      assert [] + [OrderCreated] == [OrderCreated];
    } else {
      assert HasLife(t, id);
    }
  }

  lemma NewOrderKeepsAccounts(orders: map<OrderId, Order>, accountId: int, guid: OrderId)
    requires OneOrderPerAccount(orders) && guid !in orders
    requires forall id :: id in orders ==> orders[id].accountId != accountId
    ensures OneOrderPerAccount(orders[guid := Order(accountId, None)])
  {
  }

  lemma NewRowKeepsRows(t: Store, u: Store, order: Order, guid: OrderId)
    requires RowsInOrder(t) && RowsHaveOrders(t)
    requires u == InsertStatus(t.(orders := t.orders[guid := order]), guid, OrderCreated)
    ensures RowsInOrder(u) && RowsHaveOrders(u)
  {
  }

  lemma CreateKeepsInv(t: Store, accountId: int, guid: OrderId)
    requires Inv(t) && guid !in t.orders
    ensures Inv(CreateOrder(t, accountId, guid).0)
  {
    if !HasOrder(t, accountId) {
      var u := CreateOrder(t, accountId, guid).0;
      forall id | id in u.orders ensures HasLife(u, id) {
        NewOrderKeepsLives(t, u, accountId, guid, id);
      }
      NewOrderKeepsAccounts(t.orders, accountId, guid);
      NewRowKeepsRows(t, u, Order(accountId, None), guid);
    }
  }

  // ----- Deletion -----

  lemma {:induction false} HistoryWithout(rows: seq<StatusRow>, ids: set<OrderId>, id: OrderId)
    ensures History(WithoutOrders(rows, ids), id) == if id in ids then [] else History(rows, id)
  {
    if rows != [] {
      var rest, last := WithoutOrders(rows[..|rows| - 1], ids), rows[|rows| - 1];
      HistoryWithout(rows[..|rows| - 1], ids, id);
      if last.orderId in ids {
        assert rest + [] == rest;
      } else {
        assert (rest + [last])[..|rest|] == rest;
      }
    }
  }

  lemma {:induction false} CardsWithout(cards: seq<OrderId>, ids: set<OrderId>, id: OrderId)
    ensures CardRows(WithoutCards(cards, ids), id) == if id in ids then 0 else CardRows(cards, id)
    ensures forall c :: c in WithoutCards(cards, ids) ==> c in cards && c !in ids
  {
    if cards != [] {
      var rest, last := WithoutCards(cards[..|cards| - 1], ids), cards[|cards| - 1];
      CardsWithout(cards[..|cards| - 1], ids, id);
      if last in ids {
        assert rest + [] == rest;
      } else {
        assert (rest + [last])[..|rest|] == rest;
      }
    }
  }

  ghost predicate RowsGrow(rows: seq<StatusRow>) {
    forall i, j :: 0 <= i < j < |rows| ==> rows[i].id < rows[j].id && rows[i].timestamp < rows[j].timestamp
  }

  lemma {:induction false} RowsWithout(rows: seq<StatusRow>, ids: set<OrderId>)
    requires RowsGrow(rows)
    ensures RowsGrow(WithoutOrders(rows, ids))
    ensures forall row :: row in WithoutOrders(rows, ids) ==> row in rows && row.orderId !in ids
  {
    if rows != [] {
      RowsWithout(rows[..|rows| - 1], ids);
    }
  }

  lemma DeleteKeepsLife(t: Store, accountId: int, id: OrderId)
    requires HasLife(t, id) && id !in OrdersOf(t, accountId)
    ensures HasLife(DeleteOrder(t, accountId), id)
  {
    HistoryWithout(t.statuses, OrdersOf(t, accountId), id);
    CardsWithout(t.cards, OrdersOf(t, accountId), id);
  }

  lemma DeleteKeepsRows(t: Store, accountId: int)
    requires RowsHaveOrders(t) && RowsInOrder(t)
    ensures RowsHaveOrders(DeleteOrder(t, accountId)) && RowsInOrder(DeleteOrder(t, accountId))
  {
    RowsWithout(t.statuses, OrdersOf(t, accountId));
    CardsWithout(t.cards, OrdersOf(t, accountId), 0);
  }

  lemma DeleteKeepsInv(t: Store, accountId: int)
    requires Inv(t)
    ensures Inv(DeleteOrder(t, accountId))
  {
    DeleteKeepsRows(t, accountId);
    forall id | id in DeleteOrder(t, accountId).orders ensures HasLife(DeleteOrder(t, accountId), id) {
      assert HasLife(t, id);
      DeleteKeepsLife(t, accountId, id);
    }
  }

  /** A deletion takes the account's order with everything recorded for it, and nothing of any other order. */
  lemma DeleteIsExact(t: Store, accountId: int, id: OrderId)
    requires Inv(t)
    ensures var u := DeleteOrder(t, accountId);
      && !HasOrder(u, accountId)
      && (id in u.orders <==> id in t.orders && t.orders[id].accountId != accountId)
      && (id in u.orders ==>
            && u.orders[id] == t.orders[id] && History(u.statuses, id) == History(t.statuses, id)
            && CardRows(u.cards, id) == CardRows(t.cards, id))
      && (id !in u.orders ==> History(u.statuses, id) == [] && CardRows(u.cards, id) == 0)
  {
    var u, ids := DeleteOrder(t, accountId), OrdersOf(t, accountId);
    HistoryWithout(t.statuses, ids, id);
    CardsWithout(t.cards, ids, id);
    if id !in t.orders {
      NoRowsNoHistory(t.statuses, id);
      NoRowsNoCards(t.cards, id);
    }
  }

  // ----- The work scheduler's pass -----

  ghost predicate IsCurrent(rows: seq<StatusRow>, i: nat, id: OrderId) {
    i < |rows| && rows[i].orderId == id && LatestById(rows, id) == Some(rows[i]) && rows[i].status == OrderCreated
  }

  lemma {:induction false} JustCreatedRows(t: Store, n: nat, id: OrderId)
    requires RowsInOrder(t) && n <= |t.statuses|
    ensures id in OrdersJustCreated(t.statuses, n) <==> exists i :: 0 <= i < n && IsCurrent(t.statuses, i, id)
  {
    if n > 0 {
      JustCreatedRows(t, n - 1, id);
      var row := t.statuses[n - 1];
      assert row.orderId == id && LatestById(t.statuses, id) == Some(row) && row.status == OrderCreated
          <==> IsCurrent(t.statuses, n - 1, id);
    }
  }

  lemma {:induction false} JustCreatedOnce(t: Store, n: nat)
    requires RowsInOrder(t) && n <= |t.statuses|
    ensures Distinct(OrdersJustCreated(t.statuses, n))
  {
    if n > 0 {
      JustCreatedOnce(t, n - 1);
      var row := t.statuses[n - 1];
      JustCreatedRows(t, n - 1, row.orderId);
      if row.orderId in OrdersJustCreated(t.statuses, n - 1) {
        var i :| 0 <= i < n - 1 && IsCurrent(t.statuses, i, row.orderId);
        assert t.statuses[i].id < row.id;
      }
    }
  }

  lemma LatestRow(t: Store, id: OrderId) returns (i: nat)
    requires RowsInOrder(t) && History(t.statuses, id) != []
    ensures i < |t.statuses| && t.statuses[i].orderId == id && LatestById(t.statuses, id) == Some(t.statuses[i])
    ensures var h := History(t.statuses, id); t.statuses[i].status == h[|h| - 1]
  {
    var rows := t.statuses;
    assert rows[..|rows|] == rows;
    LatestIsLast(t, |rows|, id);
    i :| 0 <= i < |rows| && rows[i] == LatestById(rows, id).value;
  }

  lemma NoCurrentRow(t: Store, id: OrderId)
    requires RowsInOrder(t) && History(t.statuses, id) == []
    ensures LatestById(t.statuses, id).None?
  {
    assert t.statuses[..|t.statuses|] == t.statuses;
    LatestIsLast(t, |t.statuses|, id);
  }

  lemma CreationAlone(h: seq<StatusType>)
    requires h != [] && h[0] == OrderCreated && Increasing(h)
    ensures h[|h| - 1] == OrderCreated <==> h == [OrderCreated]
  {
    assert |h| > 1 ==> Sequence(h[0]) < Sequence(h[|h| - 1]);
  }

  lemma IsCreatedIff(t: Store, id: OrderId)
    requires Inv(t)
    ensures (exists i :: 0 <= i < |t.statuses| && IsCurrent(t.statuses, i, id)) <==> History(t.statuses, id) == [OrderCreated]
  {
    var h := History(t.statuses, id);
    if h == [] {
      NoCurrentRow(t, id);
    } else {
      var row := HistoryHasOrder(t.statuses, id);
      assert HasLife(t, id);
      CreationAlone(h);
      var i := LatestRow(t, id);
      assert IsCurrent(t.statuses, i, id) <==> h == [OrderCreated];
    }
  }

  /** The pass works on exactly the orders whose history is the creation alone, each once. */
  lemma JustCreatedIff(t: Store, id: OrderId)
    requires Inv(t)
    ensures id in OrdersJustCreated(t.statuses, |t.statuses|) <==> History(t.statuses, id) == [OrderCreated]
    ensures Distinct(OrdersJustCreated(t.statuses, |t.statuses|))
  {
    JustCreatedOnce(t, |t.statuses|);
    JustCreatedRows(t, |t.statuses|, id);
    IsCreatedIff(t, id);
  }

  /** The manufacturer accepted this order before any exception ended the pass. */
  ghost predicate WasAccepted(ids: seq<OrderId>, answers: seq<Answer>, id: OrderId)
    requires |answers| == |ids|
    decreases |ids|
  {
    ids != [] && answers[0] != Failed
    && ((ids[0] == id && answers[0] == Accepted) || WasAccepted(ids[1..], answers[1..], id))
  }

  lemma {:induction false} AcceptedWasListed(ids: seq<OrderId>, answers: seq<Answer>, id: OrderId)
    requires |answers| == |ids| && WasAccepted(ids, answers, id)
    ensures id in ids
    decreases |ids|
  {
    if ids[0] != id {
      AcceptedWasListed(ids[1..], answers[1..], id);
    }
  }

  lemma DistinctRest(ids: seq<OrderId>)
    requires Distinct(ids) && ids != []
    ensures Distinct(ids[1..]) && ids[0] !in ids[1..]
  {
  }

  /** A pass appends card_ordered to the orders that were accepted, once, and changes no other history. */
  lemma {:induction false} DispatchHistory(t: Store, ids: seq<OrderId>, answers: seq<Answer>, id: OrderId)
    requires |answers| == |ids| && Distinct(ids)
    ensures History(Dispatch(t, ids, answers).statuses, id)
         == if WasAccepted(ids, answers, id) then History(t.statuses, id) + [CardOrdered] else History(t.statuses, id)
    decreases |ids|
  {
    if ids != [] {
      DistinctRest(ids);
      if answers[0] == Accepted {
        DispatchHistory(InsertStatus(t, ids[0], CardOrdered), ids[1..], answers[1..], id);
        HistoryOfInsert(t, ids[0], CardOrdered, id);
        if id == ids[0] && WasAccepted(ids[1..], answers[1..], id) {
          AcceptedWasListed(ids[1..], answers[1..], id);
        }
      } else if answers[0] == Declined {
        DispatchHistory(t, ids[1..], answers[1..], id);
      }
    }
  }

  ghost predicate AllJustCreated(t: Store, ids: seq<OrderId>) {
    forall i :: 0 <= i < |ids| ==> History(t.statuses, ids[i]) == [OrderCreated]
  }

  lemma OrderedKeepsInv(t: Store, id: OrderId)
    requires Inv(t) && History(t.statuses, id) == [OrderCreated]
    ensures Inv(InsertStatus(t, id, CardOrdered))
  {
    var row := HistoryHasOrder(t.statuses, id);
    UpdateKeepsInv(t, InsertStatus(t, id, CardOrdered), id, CardOrdered);
  }

  lemma OthersStillJustCreated(t: Store, ids: seq<OrderId>)
    requires ids != [] && Distinct(ids) && AllJustCreated(t, ids)
    ensures AllJustCreated(InsertStatus(t, ids[0], CardOrdered), ids[1..])
  {
    forall i | 0 <= i < |ids[1..]|
      ensures History(InsertStatus(t, ids[0], CardOrdered).statuses, ids[1..][i]) == [OrderCreated]
    {
      assert ids[1..][i] == ids[i + 1];
      HistoryOfInsert(t, ids[0], CardOrdered, ids[i + 1]);
    }
  }

  lemma {:induction false} DispatchKeepsInv(t: Store, ids: seq<OrderId>, answers: seq<Answer>)
    requires |answers| == |ids| && Inv(t) && Distinct(ids) && AllJustCreated(t, ids)
    ensures Inv(Dispatch(t, ids, answers))
    decreases |ids|
  {
    if ids != [] {
      DistinctRest(ids);
      if answers[0] == Accepted {
        OrderedKeepsInv(t, ids[0]);
        OthersStillJustCreated(t, ids);
        DispatchKeepsInv(InsertStatus(t, ids[0], CardOrdered), ids[1..], answers[1..]);
      } else if answers[0] == Declined {
        assert AllJustCreated(t, ids[1..]);
        DispatchKeepsInv(t, ids[1..], answers[1..]);
      }
    }
  }

  // ----- Runs -----

  lemma PassKeepsInv(t: Store, answers: seq<Answer>)
    requires Inv(t) && |answers| == |OrdersJustCreated(t.statuses, |t.statuses|)|
    ensures Inv(Dispatch(t, OrdersJustCreated(t.statuses, |t.statuses|), answers))
  {
    var ids := OrdersJustCreated(t.statuses, |t.statuses|);
    JustCreatedOnce(t, |t.statuses|);
    forall i | 0 <= i < |ids| ensures History(t.statuses, ids[i]) == [OrderCreated] {
      JustCreatedIff(t, ids[i]);
    }
    DispatchKeepsInv(t, ids, answers);
  }

  lemma StepKeepsInv(t: Store, s: Step)
    requires Inv(t) && IsStep(t, s)
    ensures Inv(Next(t, s))
  {
    match s
    case Create(accountId, guid) => CreateKeepsInv(t, accountId, guid);
    case Update(pathId, orderId, status, details) => HandleKeepsInv(t, pathId, orderId, status, details);
    case Delete(accountId) => DeleteKeepsInv(t, accountId);
    case WorkPass(answers) => PassKeepsInv(t, answers);
  }

  lemma {:induction false} RunKeepsInv(t: Store, steps: seq<Step>)
    requires Inv(t) && IsRun(t, steps)
    ensures Inv(Run(t, steps))
    decreases |steps|
  {
    if steps != [] {
      StepKeepsInv(t, steps[0]);
      RunKeepsInv(Next(t, steps[0]), steps[1..]);
    }
  }

  lemma {:induction false} NoneCounted(h: seq<StatusType>, status: StatusType)
    requires status !in h
    ensures Count(h, status) == 0
  {
    if h != [] {
      NoneCounted(h[..|h| - 1], status);
    }
  }

  lemma {:induction false} IncreasingCountsOnce(h: seq<StatusType>, status: StatusType)
    requires Increasing(h)
    ensures Count(h, status) <= 1
  {
    if h != [] {
      var rest := h[..|h| - 1];
      if h[|h| - 1] == status {
        NoneCounted(rest, status);
      } else {
        IncreasingCountsOnce(rest, status);
      }
    }
  }

  /** After every run from an empty database, every order has a proper life and at most one card row, the card row being
      there exactly when card_created is recorded; nothing else is left in the tables. */
  lemma EveryOrderHasOneLife(steps: seq<Step>, id: OrderId)
    requires IsRun(EMPTY, steps)
    ensures var t := Run(EMPTY, steps); var h := History(t.statuses, id);
      && (id in t.orders ==>
            && h != [] && h[0] == OrderCreated && Increasing(h)
            && CardRows(t.cards, id) == Count(h, CardCreated) <= 1
            && (t.orders[id].shippingId.Some? <==> CardShipped in h)
            && LastOrderStatus(t, id) == Some(h[|h| - 1]))
      && (id !in t.orders ==> h == [] && CardRows(t.cards, id) == 0)
      && OneOrderPerAccount(t.orders)
  {
    RunKeepsInv(EMPTY, steps);
    var t := Run(EMPTY, steps);
    if id in t.orders {
      assert HasLife(t, id);
      IncreasingCountsOnce(History(t.statuses, id), CardCreated);
      LastOrderStatusIsLast(t, id);
    } else {
      NoRowsNoHistory(t.statuses, id);
      NoRowsNoCards(t.cards, id);
    }
  }
}
