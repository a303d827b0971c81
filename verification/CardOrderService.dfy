/** The order service as it is written: a database helper that changes its tables row by row, the controller's request
    handlers, and the work scheduler's pass. Each is proved against the functions of CardOrders. */
module CardOrderService {
  import opened Wrappers
  import opened CardOrders

  lemma SomeOrder(t: Store, accountId: int)
    ensures |OrdersOf(t, accountId)| == 0 <==> !HasOrder(t, accountId)
  {
    var ids := OrdersOf(t, accountId);
    if HasOrder(t, accountId) {
      var id :| id in t.orders && t.orders[id].accountId == accountId;
      assert id in ids;
    } else {
      forall id ensures id !in ids {
        assert id in t.orders ==> t.orders[id].accountId != accountId;
      }
      assert ids == {};
    }
  }

  class DatabaseHelper {
    var orders: map<OrderId, Order>
    var statuses: seq<StatusRow>
    var cards: seq<OrderId>
    var nextId: nat
    var clock: nat

    function Tables(): Store
      reads this
    {
      Store(orders, statuses, cards, nextId, clock)
    }

    constructor ()
      ensures Tables() == EMPTY
    {
      orders, statuses, cards, nextId, clock := map[], [], [], 0, 0;
    }

    method GetOrderCountForAccountId(accountId: int) returns (count: nat)
      ensures count == 0 <==> !HasOrder(Tables(), accountId)
    {
      count := |OrdersOf(Tables(), accountId)|;
      SomeOrder(Tables(), accountId);
    }

    method InsertNewOrder(accountId: int, guid: OrderId)
      modifies this`orders
      ensures orders == old(orders)[guid := Order(accountId, None)]
    {
      orders := orders[guid := Order(accountId, None)];
    }

    method InsertNewStatus(orderId: OrderId, status: StatusType)
      modifies this`statuses, this`nextId, this`clock
      ensures Tables() == InsertStatus(old(Tables()), orderId, status)
    {
      statuses := statuses + [StatusRow(nextId, orderId, clock, status)];
      nextId, clock := nextId + 1, clock + 1;
    }

    method InsertNewCreditCard(orderId: OrderId)
      modifies this`cards
      ensures cards == old(cards) + [orderId]
    {
      cards := cards + [orderId];
    }

    method UpdateOrder(orderId: OrderId, shippingId: int)
      modifies this`orders
      ensures Tables() == SetShippingId(old(Tables()), orderId, shippingId)
    {
      if orderId in orders {
        orders := orders[orderId := orders[orderId].(shippingId := Some(shippingId))];
      }
    }

    /** Statuses first, then cards, then the orders they refer to. */
    method DeleteOrderForAccountId(accountId: int)
      modifies this
      ensures Tables() == CardOrders.DeleteOrder(old(Tables()), accountId)
    {
      statuses := WithoutOrders(statuses, OrdersOf(Tables(), accountId));
      cards := WithoutCards(cards, OrdersOf(Tables(), accountId));
      orders := orders - OrdersOf(Tables(), accountId);
    }

    method GetOrderIdsWithStatusOrderCreated() returns (ids: seq<OrderId>)
      ensures ids == OrdersJustCreated(statuses, |statuses|)
    {
      ids := [];
      for i := 0 to |statuses|
        invariant ids == OrdersJustCreated(statuses, i)
      {
        if LatestById(statuses, statuses[i].orderId) == Some(statuses[i]) && statuses[i].status == OrderCreated {
          ids := ids + [statuses[i].orderId];
        }
      }
    }
  }

  class OrderController {
    const dbHelper: DatabaseHelper

    constructor (dbHelper: DatabaseHelper)
      ensures this.dbHelper == dbHelper
    {
      this.dbHelper := dbHelper;
    }

    /** `guid` is the random id drawn for the order. */
    method CreateCreditCardOrder(accountId: int, guid: OrderId) returns (response: Response)
      modifies dbHelper
      ensures (dbHelper.Tables(), response) == CreateOrder(old(dbHelper.Tables()), accountId, guid)
    {
      var orderCount := dbHelper.GetOrderCountForAccountId(accountId);
      if orderCount == 0 {
        dbHelper.InsertNewOrder(accountId, guid);
        dbHelper.InsertNewStatus(guid, OrderCreated);
        return Created;
      } else {
        return BadRequest;
      }
    }

    method UpdateStatus(pathId: OrderId, orderId: OrderId, status: Option<StatusType>, details: Details)
      returns (response: Response)
      modifies dbHelper
      ensures (dbHelper.Tables(), response) == HandleNewStatus(old(dbHelper.Tables()), pathId, orderId, status, details)
    {
      if pathId != orderId {
        return BadRequest;
      }
      var current := LastOrderStatus(dbHelper.Tables(), pathId);
      if current.None? {
        return BadRequest;
      }
      response := ActOnNewStatus(orderId, status, details, current.value);
    }

    method ActOnNewStatus(orderId: OrderId, status: Option<StatusType>, details: Details, current: StatusType)
      returns (response: Response)
      modifies dbHelper
      ensures (dbHelper.Tables(), response)
           == if status.None? then (old(dbHelper.Tables()), ServerError)
              else if Sequence(status.value) <= Sequence(current) then (old(dbHelper.Tables()), BadRequest)
              else ActOnStatus(old(dbHelper.Tables()), orderId, status.value, details)
    {
      if status.None? {
        return ServerError;
      }
      if Sequence(status.value) <= Sequence(current) {
        return BadRequest;
      }
      match status.value {
        case CardOrdered | CardDelivered =>
          dbHelper.InsertNewStatus(orderId, status.value);
        case CardError =>
          if !details.ErrorDetails? {
            return ServerError;
          }
          dbHelper.InsertNewStatus(orderId, status.value);
        case CardShipped =>
          if !details.ShippingDetails? {
            return ServerError;
          }
          dbHelper.UpdateOrder(orderId, details.shippingId);
          dbHelper.InsertNewStatus(orderId, status.value);
        case CardCreated =>
          if !details.CardDetails? {
            return ServerError;
          }
          dbHelper.InsertNewCreditCard(orderId);
          dbHelper.InsertNewStatus(orderId, status.value);
        case OrderCreated | SequenceError =>
          return BadRequest;
      }
      return Done;
    }

    method DeleteOrder(accountId: int)
      modifies dbHelper
      ensures dbHelper.Tables() == CardOrders.DeleteOrder(old(dbHelper.Tables()), accountId)
    {
      dbHelper.DeleteOrderForAccountId(accountId);
    }
  }

  class WorkScheduler {
    const dbHelper: DatabaseHelper

    constructor (dbHelper: DatabaseHelper)
      ensures this.dbHelper == dbHelper
    {
      this.dbHelper := dbHelper;
    }

    /** One pass; `answers` are the manufacturer's answers to the orders found at its start. */
    method Run(answers: seq<Answer>)
      requires IsStep(dbHelper.Tables(), WorkPass(answers))
      modifies dbHelper
      ensures dbHelper.Tables() == Next(old(dbHelper.Tables()), WorkPass(answers))
    {
      var ids := dbHelper.GetOrderIdsWithStatusOrderCreated();
      var i := 0;
      while i < |ids|
        invariant 0 <= i <= |ids|
        invariant Dispatch(dbHelper.Tables(), ids[i..], answers[i..]) == Dispatch(old(dbHelper.Tables()), ids, answers)
      {
        assert ids[i..][1..] == ids[i + 1..] && answers[i..][1..] == answers[i + 1..];
        match answers[i] {
          case Accepted => dbHelper.InsertNewStatus(ids[i], CardOrdered);
          case Declined =>
          case Failed => return;
        }
        i := i + 1;
      }
    }
  }
}
