/** What one pass of the manufacturer and of the courier does to each process, each parcel and each order. */
module CardPasses {
  import opened Wrappers
  import opened CardOrders
  import opened CardWorkflow
  import opened CardSchedulers

  // ----- One report -----

  /** The history after a report: longer by it when it passes the sequence check. */
  ghost function Heard(h: seq<StatusType>, status: StatusType): seq<StatusType> {
    if CanFollow(h, status) then h + [status] else h
  }

  lemma ReportIsHeard(t: Store, u: Store, told: OrderId, status: StatusType, id: OrderId)
    requires IsReport(t, u, told, status)
    ensures History(u.statuses, id)
         == if id == told then Heard(History(t.statuses, id), status) else History(t.statuses, id)
  {
    if CanFollow(History(t.statuses, told), status) {
      HistoryOfInsert(t, told, status, id);
    }
  }

  // ----- One process -----

  ghost predicate SameOrder(s: System, u: System, id: OrderId) {
    && History(u.store.statuses, id) == History(s.store.statuses, id)
    && (id in u.reported <==> id in s.reported)
  }

  /** A process that was in the list is, after a visit with this outcome, as the manufacturer wants it:
      a made card stays made and is marked as handed over, and nobody is told;
      success makes the card, reports it and tells the order service that it was created;
      a delay is an error that the order service is told of; a crisis is too, but is told only once. */
  ghost predicate Visited(s: System, u: System, k: nat, outcome: Outcome)
    requires k < |s.making|
  {
    var p := s.making[k];
    var h, after := History(s.store.statuses, p.id), History(u.store.statuses, p.id);
    && |u.making| == |s.making|
    && (p.status == CardMade ==> u.making[k] == Process(p.id, CardMade, true) && SameOrder(s, u, p.id))
    && (p.status != CardMade && outcome == Outcome.Success ==>
          && u.making[k] == Process(p.id, CardMade, p.handed)
          && p.id !in s.reported && p.id in u.reported && after == Heard(h, CardCreated))
    && (p.status != CardMade && outcome == Delay ==>
          && u.making[k] == Process(p.id, ManufactureError, p.handed)
          && p.id !in s.reported && p.id !in u.reported && after == Heard(h, CardError))
    && (p.status != CardMade && outcome == Crisis ==>
          && u.making[k] == Process(p.id, ManufactureError, p.handed)
          && p.id !in s.reported && p.id !in u.reported
          && after == if p.status == ManufactureError then h else Heard(h, CardError))
  }

  ghost predicate NotVisited(s: System, u: System, k: nat)
    requires k < |s.making|
  {
    |u.making| == |s.making| && u.making[k] == s.making[k] && SameOrder(s, u, s.making[k].id)
  }

  lemma UnmadeIsUnreported(s: System, k: nat)
    requires CardWorkflow.Inv(s) && k < |s.making|
    ensures s.making[k].id in s.reported <==> s.making[k].status == CardMade
  {
  }

  /** The process got a new status and its order a report; nothing else moved but, perhaps, the log of the reported. */
  ghost predicate IsTurn(s: System, u: System, k: nat, making: Making, status: StatusType)
    requires k < |s.making|
  {
    && u.making == s.making[k := s.making[k].(status := making)] && u.parcels == s.parcels
    && IsReport(s.store, u.store, s.making[k].id, status)
  }

  lemma ErrorTurn(s: System, k: nat)
    requires Tidy(s.store) && k < |s.making| && s.making[k].status != CardMade
    ensures var u := After(s, ReportError(k)); IsTurn(s, u, k, ManufactureError, CardError) && u.reported == s.reported
  {
    ReportIsUpdate(s.store, s.making[k].id, CardError, ErrorDetails);
  }

  lemma CreatedTurn(s: System, k: nat)
    requires Tidy(s.store) && k < |s.making| && s.making[k].status != CardMade
    ensures var u := After(s, ReportCreated(k));
      IsTurn(s, u, k, CardMade, CardCreated) && u.reported == s.reported + [s.making[k].id]
  {
    ReportIsUpdate(s.store, s.making[k].id, CardCreated, CardDetails);
  }

  lemma TurnIsHeard(s: System, u: System, k: nat, making: Making, status: StatusType, id: OrderId)
    requires k < |s.making| && IsTurn(s, u, k, making, status)
    ensures History(u.store.statuses, id)
         == if id == s.making[k].id then Heard(History(s.store.statuses, id), status) else History(s.store.statuses, id)
  {
    ReportIsHeard(s.store, u.store, s.making[k].id, status, id);
  }

  /** The visited process, and the parcel if its card was made. */
  lemma TurnVisits(s: System, k: nat, outcome: Outcome)
    requires CardWorkflow.Inv(s) && k < |s.making|
    ensures var u := WorkOn(s, k, outcome);
      && Visited(s, u, k, outcome)
      && u.parcels == s.parcels + if s.making[k].status == CardMade then [Parcel(s.making[k].id, NewCardReceived)] else []
  {
    var u, p := WorkOn(s, k, outcome), s.making[k];
    UnmadeIsUnreported(s, k);
    assert s.parcels + [] == s.parcels;
    if p.status != CardMade {
      if outcome == Outcome.Success {
        CreatedTurn(s, k);
        TurnIsHeard(s, u, k, CardMade, CardCreated, p.id);
      } else if outcome == Delay || p.status == Issuing {
        ErrorTurn(s, k);
        TurnIsHeard(s, u, k, ManufactureError, CardError, p.id);
      }
    }
  }

  /** Every other order is left alone. */
  lemma TurnSpares(s: System, k: nat, outcome: Outcome, id: OrderId)
    requires CardWorkflow.Inv(s) && k < |s.making| && s.making[k].id != id
    ensures SameOrder(s, WorkOn(s, k, outcome), id)
  {
    var u, p := WorkOn(s, k, outcome), s.making[k];
    if p.status != CardMade {
      if outcome == Outcome.Success {
        CreatedTurn(s, k);
        TurnIsHeard(s, u, k, CardMade, CardCreated, id);
      } else if outcome == Delay || p.status == Issuing {
        ErrorTurn(s, k);
        TurnIsHeard(s, u, k, ManufactureError, CardError, id);
      }
    }
  }

  // ----- A manufacturer's pass -----

  ghost predicate VisitedUpTo(s: System, u: System, k: nat, outcomes: seq<Outcome>, n: nat)
    requires k < |s.making| <= |outcomes|
  {
    if k < n then Visited(s, u, k, outcomes[k]) else NotVisited(s, u, k)
  }

  lemma TurnVisitsOrSpares(s: System, n: nat, outcome: Outcome, k: nat)
    requires CardWorkflow.Inv(s) && n < |s.making| && k < |s.making|
    ensures var u := WorkOn(s, n, outcome);
      if k == n then Visited(s, u, k, outcome) else NotVisited(s, u, k)
  {
    if k == n {
      TurnVisits(s, k, outcome);
    } else {
      OthersHaveOtherIds(s, k, n);
      TurnSpares(s, n, outcome, s.making[k].id);
    }
  }

  lemma VisitsCompose(s: System, u: System, v: System, k: nat, outcomes: seq<Outcome>, n: nat)
    requires k < |s.making| <= |outcomes| && n < |s.making| && VisitedUpTo(s, u, k, outcomes, n)
    requires k < |u.making| && if k == n then Visited(u, v, k, outcomes[k]) else NotVisited(u, v, k)
    ensures VisitedUpTo(s, v, k, outcomes, n + 1)
  {
    assert u.making[k].id == s.making[k].id;
  }

  lemma {:induction false} WorkVisits(s: System, n: nat, outcomes: seq<Outcome>, k: nat)
    requires Reachable(s) && n <= |s.making| <= |outcomes| && k < |s.making|
    ensures VisitedUpTo(s, WorkFrom(s, 0, n, outcomes), k, outcomes, n)
    decreases n
  {
    if n > 0 {
      var u := WorkFrom(s, 0, n - 1, outcomes);
      WorkVisits(s, n - 1, outcomes, k);
      WorkOneMore(s, 0, n - 1, outcomes);
      WorkIsReachable(s, 0, n - 1, outcomes);
      ReachableKeepsInv(u);
      TurnVisitsOrSpares(u, n - 1, outcomes[n - 1], k);
      VisitsCompose(s, u, WorkOn(u, n - 1, outcomes[n - 1]), k, outcomes, n - 1);
    }
  }

  lemma OthersHaveOtherIds(s: System, j: nat, k: nat)
    requires CardWorkflow.Inv(s) && j < |s.making| && k < |s.making| && j != k
    ensures s.making[j].id != s.making[k].id
  {
  }

  /** The parcels that the made cards of a list turn into, in order. */
  ghost function ParcelsFor(making: seq<Process>): seq<Parcel> {
    if making == [] then []
    else
      var p := making[|making| - 1];
      ParcelsFor(making[..|making| - 1]) + if p.status == CardMade then [Parcel(p.id, NewCardReceived)] else []
  }

  lemma ParcelsForOneMore(making: seq<Process>, n: nat)
    requires 0 < n <= |making|
    ensures var p := making[n - 1];
      ParcelsFor(making[..n])
        == ParcelsFor(making[..n - 1]) + if p.status == CardMade then [Parcel(p.id, NewCardReceived)] else []
  {
    assert making[..n][..n - 1] == making[..n - 1];
  }

  /** One more turn sends one more parcel when the card was made. */
  lemma TurnSends(s: System, u: System, k: nat, outcome: Outcome, sent: seq<Parcel>, more: seq<Parcel>)
    requires CardWorkflow.Inv(u) && k < |u.making| && u.parcels == s.parcels + sent
    requires more == if u.making[k].status == CardMade then [Parcel(u.making[k].id, NewCardReceived)] else []
    ensures WorkOn(u, k, outcome).parcels == s.parcels + (sent + more)
  {
    TurnVisits(u, k, outcome);
  }

  lemma {:induction false} WorkSendsParcels(s: System, n: nat, outcomes: seq<Outcome>)
    requires Reachable(s) && n <= |s.making| <= |outcomes|
    ensures WorkFrom(s, 0, n, outcomes).parcels == s.parcels + ParcelsFor(s.making[..n])
    decreases n
  {
    if n > 0 {
      var u, p := WorkFrom(s, 0, n - 1, outcomes), s.making[n - 1];
      WorkSendsParcels(s, n - 1, outcomes);
      WorkOneMore(s, 0, n - 1, outcomes);
      ProcessIsNext(s, 0, n - 1, outcomes);
      WorkIsReachable(s, 0, n - 1, outcomes);
      ReachableKeepsInv(u);
      ParcelsForOneMore(s.making, n);
      TurnSends(s, u, n - 1, outcomes[n - 1], ParcelsFor(s.making[..n - 1]),
                if p.status == CardMade then [Parcel(p.id, NewCardReceived)] else []);
    } else {
      assert s.parcels + ParcelsFor([]) == s.parcels;
    }
  }

  /** The manufacturer's list after a complete pass: the made cards are gone, the others stay with what became of them. */
  ghost function MakerList(making: seq<Process>, outcomes: seq<Outcome>): seq<Process>
    requires |making| <= |outcomes|
  {
    if making == [] then []
    else
      var p := making[0];
      (if p.status == CardMade then []
       else if outcomes[0] == Outcome.Success then [Process(p.id, CardMade, p.handed)]
       else [Process(p.id, ManufactureError, p.handed)])
      + MakerList(making[1..], outcomes[1..])
  }

  lemma {:induction false} RestIsMakerList(before: seq<Process>, after: seq<Process>, outcomes: seq<Outcome>)
    requires |after| == |before| <= |outcomes|
    requires forall k :: 0 <= k < |before| && before[k].status != CardMade ==>
      after[k] == Process(before[k].id, if outcomes[k] == Outcome.Success then CardMade else ManufactureError, before[k].handed)
    ensures Rest(after, MadeFlags(before)) == MakerList(before, outcomes)
  {
    if before != [] {
      RestIsMakerList(before[1..], after[1..], outcomes[1..]);
      assert MadeFlags(before)[1..] == MadeFlags(before[1..]);
    }
  }

  /** How far a pass comes. */
  function Reach(length: nat, stopAt: nat): nat {
    if stopAt < length then stopAt else length
  }

  /** One pass of the manufacturer from any reachable state, process by process: those before the interruption are visited, the
      others are not; each made card is handed to the courier as one parcel, in the order of the list; and only a complete
      pass takes the made ones off the list. */
  lemma ManufacturePassVisits(s: System, outcomes: seq<Outcome>, stopAt: nat, k: nat)
    requires Reachable(s) && k < |s.making| <= |outcomes|
    ensures var u, n := ManufacturePass(s, outcomes, stopAt), Reach(|s.making|, stopAt);
      && VisitedUpTo(s, u.(making := WorkFrom(s, 0, n, outcomes).making), k, outcomes, n)
      && u.parcels == s.parcels + ParcelsFor(s.making[..n])
      && (stopAt <= |s.making| ==> VisitedUpTo(s, u, k, outcomes, n))
      && (stopAt > |s.making| ==> u.making == MakerList(s.making, outcomes))
  {
    var n := Reach(|s.making|, stopAt);
    var w := WorkFrom(s, 0, n, outcomes);
    WorkVisits(s, n, outcomes, k);
    WorkSendsParcels(s, n, outcomes);
    if stopAt > |s.making| {
      forall j | 0 <= j < |s.making| && s.making[j].status != CardMade
        ensures w.making[j]
          == Process(s.making[j].id, if outcomes[j] == Outcome.Success then CardMade else ManufactureError, s.making[j].handed)
      {
        WorkVisits(s, n, outcomes, j);
      }
      RestIsMakerList(s.making, w.making, outcomes);
    }
  }

  /** A made card becomes exactly one new parcel, and leaves the list in a complete pass. */
  lemma MadeCardsAreHandedOver(s: System, outcomes: seq<Outcome>, stopAt: nat, k: nat)
    requires Reachable(s) && k < |s.making| <= |outcomes| && k < stopAt && s.making[k].status == CardMade
    ensures var u, id := ManufacturePass(s, outcomes, stopAt), s.making[k].id;
      && s.parcels <= u.parcels && multiset(u.parcels[|s.parcels|..])[Parcel(id, NewCardReceived)] == 1
      && (stopAt > |s.making| ==> forall q :: q in u.making ==> q.id != id)
  {
    var n := Reach(|s.making|, stopAt);
    ReachableKeepsInv(s);
    ManufacturePassVisits(s, outcomes, stopAt, k);
    OneParcelEach(s.making[..n], k);
    assert ManufacturePass(s, outcomes, stopAt).parcels[|s.parcels|..] == ParcelsFor(s.making[..n]);
    MakerListForgets(s.making, outcomes, s.making[k].id);
  }

  ghost predicate DistinctIds(making: seq<Process>) {
    forall i, j :: 0 <= i < j < |making| ==> making[i].id != making[j].id
  }

  lemma {:induction false} NoParcelFor(making: seq<Process>, id: OrderId)
    requires forall i :: 0 <= i < |making| ==> making[i].id != id
    ensures multiset(ParcelsFor(making))[Parcel(id, NewCardReceived)] == 0
  {
    if making != [] {
      NoParcelFor(making[..|making| - 1], id);
    }
  }

  lemma {:induction false} OneParcelEach(making: seq<Process>, k: nat)
    requires DistinctIds(making) && k < |making| && making[k].status == CardMade
    ensures multiset(ParcelsFor(making))[Parcel(making[k].id, NewCardReceived)] == 1
  {
    var n := |making| - 1;
    ParcelsForOneMore(making, n + 1);
    assert making[..n + 1] == making;
    if k < n {
      assert making[n].id != making[k].id;
      OneParcelEach(making[..n], k);
    } else {
      NoParcelFor(making[..n], making[k].id);
    }
  }

  lemma {:induction false} MakerListForgets(making: seq<Process>, outcomes: seq<Outcome>, id: OrderId)
    requires |making| <= |outcomes| && forall i :: 0 <= i < |making| && making[i].id == id ==> making[i].status == CardMade
    ensures forall q :: q in MakerList(making, outcomes) ==> q.id != id
  {
    if making != [] {
      MakerListForgets(making[1..], outcomes[1..], id);
    }
  }

  // ----- A courier's pass -----

  /** What becomes of a parcel: a new one is sent when its order is still there, a sent one is delivered. */
  function Carried(q: Parcel, known: bool): Parcel {
    match q.status
    case NewCardReceived => Parcel(q.id, if known then CardSent else NewCardReceived)
    case CardSent => Parcel(q.id, Delivered)
    case Addressed(_) => q
    case Delivered => q
  }

  /** The history of an order after the courier was through with these parcels, in order. */
  ghost function HeardFrom(h: seq<StatusType>, parcels: seq<Parcel>, id: OrderId, known: bool): seq<StatusType> {
    if parcels == [] then h
    else
      var q, before := parcels[|parcels| - 1], HeardFrom(h, parcels[..|parcels| - 1], id, known);
      if q.id != id then before
      else if q.status == NewCardReceived && known then Heard(before, CardShipped)
      else if q.status == CardSent then Heard(before, CardDelivered)
      else before
  }

  lemma HeardOne(h: seq<StatusType>, q: Parcel, id: OrderId, known: bool)
    ensures HeardFrom(h, [q], id, known)
         == if q.id != id then h
            else if q.status == NewCardReceived && known then Heard(h, CardShipped)
            else if q.status == CardSent then Heard(h, CardDelivered)
            else h
  {
    assert [q][..0] == [];
    assert HeardFrom(h, [], id, known) == h;
  }

  ghost predicate IsCarried(s: System, u: System, k: nat, id: OrderId)
    requires k < |s.parcels|
  {
    var q := s.parcels[k];
    && u.parcels == s.parcels[k := Carried(q, q.id in s.store.orders)]
    && u.making == s.making && u.reported == s.reported && u.store.orders.Keys == s.store.orders.Keys
    && History(u.store.statuses, id) == HeardFrom(History(s.store.statuses, id), [q], id, q.id in s.store.orders)
  }

  lemma NewParcelIsCarried(s: System, k: nat, shippingId: int, id: OrderId)
    requires CardWorkflow.Inv(s) && k < |s.parcels| && s.parcels[k].status == NewCardReceived
    ensures IsCarried(s, Deliver(s, k, shippingId), k, id)
  {
    var q := s.parcels[k];
    HeardOne(History(s.store.statuses, id), q, id, q.id in s.store.orders);
    if q.id in s.store.orders {
      var u := Told(s.store, q.id, CardShipped, ShippingDetails(shippingId));
      ReportIsUpdate(s.store, q.id, CardShipped, ShippingDetails(shippingId));
      ReportIsHeard(s.store, u, q.id, CardShipped, id);
      SentTwice(s, k, shippingId);
    } else {
      assert s.parcels[k := q] == s.parcels;
    }
  }

  lemma SentTwice(s: System, k: nat, shippingId: int)
    requires k < |s.parcels| && s.parcels[k].status == NewCardReceived && s.parcels[k].id in s.store.orders
    ensures var id := s.parcels[k].id;
      Deliver(s, k, shippingId) == s.(parcels := s.parcels[k := Parcel(id, CardSent)],
                                      store := Told(s.store, id, CardShipped, ShippingDetails(shippingId)))
  {
    var id := s.parcels[k].id;
    var addressed := s.parcels[k := Parcel(id, Addressed(shippingId))];
    assert addressed[k := Parcel(id, CardSent)] == s.parcels[k := Parcel(id, CardSent)];
  }

  lemma SentParcelIsCarried(s: System, k: nat, shippingId: int, id: OrderId)
    requires CardWorkflow.Inv(s) && k < |s.parcels| && s.parcels[k].status == CardSent
    ensures IsCarried(s, Deliver(s, k, shippingId), k, id)
  {
    var q := s.parcels[k];
    HeardOne(History(s.store.statuses, id), q, id, q.id in s.store.orders);
    ReportIsUpdate(s.store, q.id, CardDelivered, NoDetails);
    ReportIsHeard(s.store, Told(s.store, q.id, CardDelivered, NoDetails), q.id, CardDelivered, id);
  }

  lemma DeliverIs(s: System, k: nat, shippingId: int, id: OrderId)
    requires CardWorkflow.Inv(s) && k < |s.parcels|
    ensures IsCarried(s, Deliver(s, k, shippingId), k, id)
  {
    match s.parcels[k].status
    case NewCardReceived => NewParcelIsCarried(s, k, shippingId, id);
    case CardSent => SentParcelIsCarried(s, k, shippingId, id);
    case _ =>
      HeardOne(History(s.store.statuses, id), s.parcels[k], id, s.parcels[k].id in s.store.orders);
      assert s.parcels[k := s.parcels[k]] == s.parcels;
  }

  lemma HeardSnoc(h: seq<StatusType>, parcels: seq<Parcel>, q: Parcel, id: OrderId, known: bool)
    ensures HeardFrom(h, parcels + [q], id, known) == HeardFrom(HeardFrom(h, parcels, id, known), [q], id, known)
  {
    assert (parcels + [q])[..|parcels|] == parcels && [q][..0] == [];
    var before := HeardFrom(h, parcels, id, known);
    assert HeardFrom(before, [], id, known) == before;
  }

  /** Parcels of other orders are not heard of, whether their order is there or not. */
  lemma HeardOfOthers(h: seq<StatusType>, q: Parcel, id: OrderId, known: bool, other: bool)
    requires q.id != id || known == other
    ensures HeardFrom(h, [q], id, known) == HeardFrom(h, [q], id, other)
  {
    HeardOne(h, q, id, known);
    HeardOne(h, q, id, other);
  }

  /** The first n parcels are carried, the others are not, and the order has heard of the first n. */
  ghost predicate CarriedUpTo(s: System, u: System, n: nat, id: OrderId)
    requires n <= |s.parcels|
  {
    && |u.parcels| == |s.parcels|
    && (forall k :: 0 <= k < |s.parcels| ==>
          u.parcels[k] == if k < n then Carried(s.parcels[k], s.parcels[k].id in s.store.orders) else s.parcels[k])
    && u.making == s.making && u.reported == s.reported && u.store.orders.Keys == s.store.orders.Keys
    && History(u.store.statuses, id)
         == HeardFrom(History(s.store.statuses, id), s.parcels[..n], id, id in s.store.orders)
  }

  lemma CarriedNext(s: System, u: System, v: System, n: nat, id: OrderId)
    requires n < |s.parcels| && CarriedUpTo(s, u, n, id) && IsCarried(u, v, n, id)
    ensures CarriedUpTo(s, v, n + 1, id)
  {
    var h, q, known := History(s.store.statuses, id), s.parcels[n], id in s.store.orders;
    HeardSnoc(h, s.parcels[..n], q, id, known);
    HeardOfOthers(History(u.store.statuses, id), q, id, known, q.id in u.store.orders);
    assert s.parcels[..n + 1] == s.parcels[..n] + [q];
  }

  lemma {:induction false} DeliverFromCarries(s: System, n: nat, ids: seq<int>, id: OrderId)
    requires Reachable(s) && n <= |s.parcels| <= |ids|
    ensures CarriedUpTo(s, DeliverFrom(s, 0, n, ids), n, id)
    decreases n
  {
    if n > 0 {
      var u := DeliverFrom(s, 0, n - 1, ids);
      DeliverFromCarries(s, n - 1, ids, id);
      DeliverOneMore(s, 0, n - 1, ids);
      DeliveriesAreReachable(s, 0, n - 1, ids);
      ReachableKeepsInv(u);
      DeliverIs(u, n - 1, ids[n - 1], id);
      CarriedNext(s, u, Deliver(u, n - 1, ids[n - 1]), n - 1, id);
    }
  }

  /** The courier's list after a complete pass: the parcels that were delivered before it are gone. */
  ghost function CourierList(parcels: seq<Parcel>, orders: set<OrderId>): seq<Parcel> {
    if parcels == [] then []
    else
      (if parcels[0].status == Delivered then [] else [Carried(parcels[0], parcels[0].id in orders)])
      + CourierList(parcels[1..], orders)
  }

  lemma {:induction false} RestIsCourierList(before: seq<Parcel>, after: seq<Parcel>, orders: set<OrderId>)
    requires |after| == |before|
    requires forall k :: 0 <= k < |before| ==> after[k] == Carried(before[k], before[k].id in orders)
    ensures Rest(after, DeliveredFlags(before)) == CourierList(before, orders)
  {
    if before != [] {
      RestIsCourierList(before[1..], after[1..], orders);
      assert DeliveredFlags(before)[1..] == DeliveredFlags(before[1..]);
    }
  }

  /** One pass of the courier from any reachable state, parcel by parcel: new ones are sent and the order service is told of the
      shipment, sent ones are delivered and it is told of that, up to the interruption; nothing else moves, and only a
      complete pass takes the delivered ones off the list. */
  lemma CourierPassCarries(s: System, ids: seq<int>, stopAt: nat, id: OrderId)
    requires Reachable(s) && |s.parcels| <= |ids|
    ensures var u, n := CourierPass(s, ids, stopAt), Reach(|s.parcels|, stopAt);
      && u.making == s.making && u.reported == s.reported
      && History(u.store.statuses, id)
           == HeardFrom(History(s.store.statuses, id), s.parcels[..n], id, id in s.store.orders)
      && (stopAt <= |s.parcels| ==>
            && |u.parcels| == |s.parcels|
            && forall k :: 0 <= k < |s.parcels| ==>
                 u.parcels[k] == if k < n then Carried(s.parcels[k], s.parcels[k].id in s.store.orders) else s.parcels[k])
      && (stopAt > |s.parcels| ==> u.parcels == CourierList(s.parcels, s.store.orders.Keys))
  {
    var n := Reach(|s.parcels|, stopAt);
    var w := DeliverFrom(s, 0, n, ids);
    DeliverFromCarries(s, n, ids, id);
    if stopAt > |s.parcels| {
      RestIsCourierList(s.parcels, w.parcels, s.store.orders.Keys);
    }
  }
}
