/** The whole card workflow with every remote call as a step of its own: the order service, the work scheduler that hands
    orders to the manufacturer, the manufacturer's list and the courier's list all move freely between each other's calls.

    The work scheduler records card_ordered only after the manufacturer has accepted the order, and without the sequence
    check, so the manufacturer may already have reported by then. No call is lost, and only the work scheduler posts. */
module CardWorkflow {
  import opened Wrappers
  import opened CardOrders

  datatype Making = Issuing | ManufactureError | CardMade

  /** `handed`: the current pass gave the card to the courier. */
  datatype Process = Process(id: OrderId, status: Making, handed: bool)

  /** `Addressed` lies between the courier's two calls: the address is known and the report has not been sent. */
  datatype Delivery = NewCardReceived | Addressed(shippingId: int) | CardSent | Delivered

  datatype Parcel = Parcel(id: OrderId, status: Delivery)

  /** A pass of the work scheduler: the orders still to post, and the one posted whose status is not yet recorded. */
  datatype Pass = Pass(pending: seq<OrderId>, inFlight: Option<OrderId>)

  /** `used` holds every id ever drawn; `posted` and `reported` log the dispatches and the card_created reports. */
  datatype System = System(
    store: Store,
    used: set<OrderId>,
    pass: Option<Pass>,
    making: seq<Process>,
    parcels: seq<Parcel>,
    posted: seq<OrderId>,
    reported: seq<OrderId>)

  datatype Call =
    | PlaceOrder(accountId: int, guid: OrderId)
    | DropOrder(accountId: int)
    | StartPass
    | Post
    | RecordOrdered
    | EndPass
    | ReportError(k: nat)
    | ReportCreated(k: nat)
    | HandOver(k: nat)
    | RemoveProcess(k: nat)
    | GetAddress(k: nat, shippingId: int)
    | ReportShipped(k: nat)
    | ReportDelivered(k: nat)
    | RemoveParcel(k: nat)

  const IDLE: System := System(EMPTY, {}, None, [], [], [], [])

  predicate Enabled(s: System, c: Call) {
    match c
    case PlaceOrder(_, guid) => guid !in s.used
    case DropOrder(_) => true
    case StartPass => s.pass.None?
    case Post => s.pass.Some? && s.pass.value.inFlight.None? && s.pass.value.pending != []
    case RecordOrdered => s.pass.Some? && s.pass.value.inFlight.Some?
    case EndPass => s.pass.Some? && s.pass.value.inFlight.None?
    case ReportError(k) => k < |s.making| && s.making[k].status != CardMade
    case ReportCreated(k) => k < |s.making| && s.making[k].status != CardMade
    case HandOver(k) => k < |s.making| && s.making[k].status == CardMade
    case RemoveProcess(k) => k < |s.making| && s.making[k].handed
    case GetAddress(k, _) => k < |s.parcels| && s.parcels[k].status == NewCardReceived
    case ReportShipped(k) => k < |s.parcels| && s.parcels[k].status.Addressed?
    case ReportDelivered(k) => k < |s.parcels| && s.parcels[k].status == CardSent
    case RemoveParcel(k) => k < |s.parcels| && s.parcels[k].status == Delivered
  }

  /** An update request of one of the schedulers. */
  function Told(t: Store, id: OrderId, status: StatusType, details: Details): Store {
    HandleNewStatus(t, id, id, Some(status), details).0
  }

  /** A post for an order that was deleted meanwhile carries no body and is refused. */
  function PostFirst(s: System): System
    requires Enabled(s, Post)
  {
    var id, rest := s.pass.value.pending[0], s.pass.value.pending[1..];
    if id in s.store.orders then
      s.(pass := Some(Pass(rest, Some(id))), making := s.making + [Process(id, Issuing, false)], posted := s.posted + [id])
    else
      s.(pass := Some(Pass(rest, None)))
  }

  /** The row refers to its order, so recording fails, and ends the pass, when the order was deleted meanwhile. */
  function Record(s: System): System
    requires Enabled(s, RecordOrdered)
  {
    var id := s.pass.value.inFlight.value;
    if id in s.store.orders then
      s.(store := InsertStatus(s.store, id, CardOrdered), pass := Some(s.pass.value.(inFlight := None)))
    else
      s.(pass := None)
  }

  function After(s: System, c: Call): System
    requires Enabled(s, c)
  {
    match c
    case PlaceOrder(accountId, guid) => s.(store := CreateOrder(s.store, accountId, guid).0, used := s.used + {guid})
    case DropOrder(accountId) => s.(store := DeleteOrder(s.store, accountId))
    case StartPass => s.(pass := Some(Pass(OrdersJustCreated(s.store.statuses, |s.store.statuses|), None)))
    case Post => PostFirst(s)
    case RecordOrdered => Record(s)
    case EndPass => s.(pass := None)
    case ReportError(k) =>
      var p := s.making[k];
      s.(making := s.making[k := p.(status := ManufactureError)], store := Told(s.store, p.id, CardError, ErrorDetails))
    case ReportCreated(k) =>
      var p := s.making[k];
      s.(making := s.making[k := p.(status := CardMade)], store := Told(s.store, p.id, CardCreated, CardDetails),
         reported := s.reported + [p.id])
    case HandOver(k) =>
      s.(making := s.making[k := s.making[k].(handed := true)],
         parcels := s.parcels + [Parcel(s.making[k].id, NewCardReceived)])
    case RemoveProcess(k) => s.(making := s.making[..k] + s.making[k + 1..])
    case GetAddress(k, shippingId) =>
      if s.parcels[k].id in s.store.orders then
        s.(parcels := s.parcels[k := s.parcels[k].(status := Addressed(shippingId))])
      else s
    case ReportShipped(k) =>
      var p := s.parcels[k];
      s.(parcels := s.parcels[k := p.(status := CardSent)],
         store := Told(s.store, p.id, CardShipped, ShippingDetails(p.status.shippingId)))
    case ReportDelivered(k) =>
      var p := s.parcels[k];
      s.(parcels := s.parcels[k := p.(status := Delivered)], store := Told(s.store, p.id, CardDelivered, NoDetails))
    case RemoveParcel(k) => s.(parcels := s.parcels[..k] + s.parcels[k + 1..])
  }

  ghost predicate CanHappen(s: System, calls: seq<Call>)
    decreases |calls|
  {
    calls == [] || (Enabled(s, calls[0]) && CanHappen(After(s, calls[0]), calls[1..]))
  }

  ghost function AfterAll(s: System, calls: seq<Call>): System
    requires CanHappen(s, calls)
    decreases |calls|
  {
    if calls == [] then s else AfterAll(After(s, calls[0]), calls[1..])
  }

  // ----- What one order looks like, as far as it has come -----

  ghost predicate Tidy(t: Store) {
    RowsInOrder(t) && RowsHaveOrders(t) && OneOrderPerAccount(t.orders)
  }

  function InFlight(pass: Option<Pass>): Option<OrderId> {
    if pass.Some? then pass.value.inFlight else None
  }

  /** Every status but card_ordered comes later in the sequence than the one before it. */
  ghost predicate RisesButForOrdered(h: seq<StatusType>) {
    forall i :: 0 < i < |h| ==> h[i] == CardOrdered || Sequence(h[i - 1]) < Sequence(h[i])
  }

  ghost predicate NoCardYet(h: seq<StatusType>) {
    forall i :: 0 <= i < |h| ==> h[i] == OrderCreated || h[i] == CardOrdered || h[i] == CardError
  }

  ghost predicate Shape(h: seq<StatusType>) {
    && h != [] && h[0] == OrderCreated && RisesButForOrdered(h)
    && (forall i :: 0 < i < |h| ==> h[i] != OrderCreated)
  }

  /** The recorded life of an order that was or was not posted, recorded as ordered, reported as created. */
  ghost predicate IsLifeSoFar(order: Order, h: seq<StatusType>, cards: nat, posted: bool, ordered: bool, reported: bool) {
    && Shape(h)
    && (!posted ==> h == [OrderCreated] && !ordered && !reported)
    && Count(h, CardOrdered) == (if ordered then 1 else 0)
    && (!reported ==> NoCardYet(h))
    && cards == Count(h, CardCreated) == (if reported then 1 else 0)
    && (order.shippingId.Some? <==> CardShipped in h)
  }

  ghost predicate Lives(s: System, id: OrderId) {
    && id in s.store.orders
    && IsLifeSoFar(s.store.orders[id], History(s.store.statuses, id), CardRows(s.store.cards, id),
                   id in s.posted, id in s.posted && InFlight(s.pass) != Some(id), id in s.reported)
  }

  ghost predicate AllLive(s: System) {
    forall id :: id in s.store.orders ==> Lives(s, id)
  }

  ghost predicate Logs(used: set<OrderId>, posted: seq<OrderId>, reported: seq<OrderId>) {
    && Distinct(posted) && Distinct(reported)
    && (forall id :: id in posted ==> id in used)
    && (forall id :: id in reported ==> id in posted)
  }

  /** One process per posted order; it is made exactly when it was reported. */
  ghost predicate ProcessesMatch(making: seq<Process>, posted: seq<OrderId>, reported: seq<OrderId>) {
    && (forall k :: 0 <= k < |making| ==>
          making[k].id in posted && (making[k].status == CardMade <==> making[k].id in reported))
    && (forall j, k :: 0 <= j < k < |making| ==> making[j].id != making[k].id)
    && (forall k :: 0 <= k < |making| && making[k].handed ==> making[k].status == CardMade)
  }

  ghost predicate ParcelsMatch(parcels: seq<Parcel>, reported: seq<OrderId>) {
    forall k :: 0 <= k < |parcels| ==> parcels[k].id in reported
  }

  ghost predicate PassMatches(pass: Option<Pass>, used: set<OrderId>, posted: seq<OrderId>) {
    pass.Some? ==>
      && Distinct(pass.value.pending)
      && (forall id :: id in pass.value.pending ==> id !in posted && id in used)
      && (pass.value.inFlight.Some? ==> pass.value.inFlight.value in posted)
  }

  ghost predicate Inv(s: System) {
    && Tidy(s.store) && (forall id :: id in s.store.orders ==> id in s.used)
    && AllLive(s)
    && Logs(s.used, s.posted, s.reported)
    && ProcessesMatch(s.making, s.posted, s.reported)
    && ParcelsMatch(s.parcels, s.reported)
    && PassMatches(s.pass, s.used, s.posted)
  }

  // ----- How a life goes on -----

  lemma ShapeGoesOn(h: seq<StatusType>, status: StatusType)
    requires Shape(h) && status != OrderCreated && (status == CardOrdered || CanFollow(h, status))
    ensures Shape(h + [status])
  {
  }

  lemma OrderedIsRecorded(order: Order, h: seq<StatusType>, cards: nat, reported: bool)
    requires IsLifeSoFar(order, h, cards, true, false, reported)
    ensures IsLifeSoFar(order, h + [CardOrdered], cards, true, true, reported)
  {
    ShapeGoesOn(h, CardOrdered);
    CountSnoc(h, CardOrdered, CardOrdered);
    CountSnoc(h, CardOrdered, CardCreated);
    assert forall x :: x in h + [CardOrdered] <==> x in h || x == CardOrdered;
  }

  lemma CardIsRecorded(order: Order, h: seq<StatusType>, cards: nat, ordered: bool)
    requires IsLifeSoFar(order, h, cards, true, ordered, false)
    ensures CanFollow(h, CardCreated)
    ensures IsLifeSoFar(order, h + [CardCreated], cards + 1, true, ordered, true)
  {
    assert Sequence(h[|h| - 1]) < Sequence(CardCreated);
    ShapeGoesOn(h, CardCreated);
    CountSnoc(h, CardCreated, CardOrdered);
    CountSnoc(h, CardCreated, CardCreated);
    assert forall x :: x in h + [CardCreated] <==> x in h || x == CardCreated;
  }

  /** An error, a shipment or a delivery that passes the sequence check. */
  lemma OtherIsRecorded(order: Order, next: Order, h: seq<StatusType>, cards: nat, ordered: bool, reported: bool,
                        status: StatusType)
    requires IsLifeSoFar(order, h, cards, true, ordered, reported) && CanFollow(h, status)
    requires status == CardError || (reported && (status == CardShipped || status == CardDelivered))
    requires if status == CardShipped then next.shippingId.Some? else next == order
    ensures IsLifeSoFar(next, h + [status], cards, true, ordered, reported)
  {
    ShapeGoesOn(h, status);
    CountSnoc(h, status, CardOrdered);
    CountSnoc(h, status, CardCreated);
    assert forall x :: x in h + [status] <==> x in h || x == status;
  }

  // ----- Requests and other orders -----

  lemma UpdateAt(t: Store, u: Store, id: OrderId, status: StatusType, x: OrderId)
    requires IsUpdate(t, u, id, status) && x in t.orders
    ensures x in u.orders && (x != id ==> u.orders[x] == t.orders[x])
    ensures History(u.statuses, x) == if x == id then History(t.statuses, x) + [status] else History(t.statuses, x)
    ensures CardRows(u.cards, x) == CardRows(t.cards, x) + if x == id && status == CardCreated then 1 else 0
  {
    HistoryOfInsert(t, id, status, x);
    CardRowsSnoc(t.cards, id, x);
  }

  predicate Fits(status: StatusType, details: Details) {
    match status
    case CardError => details.ErrorDetails?
    case CardShipped => details.ShippingDetails?
    case CardCreated => details.CardDetails?
    case CardDelivered => true
    case _ => false
  }

  /** A report is recorded when it passes the sequence check and changes nothing otherwise. */
  ghost predicate IsReport(t: Store, u: Store, id: OrderId, status: StatusType) {
    && Tidy(u) && u.orders.Keys == t.orders.Keys
    && (if CanFollow(History(t.statuses, id), status) then IsUpdate(t, u, id, status) else u == t)
  }

  lemma ReportIsUpdate(t: Store, id: OrderId, status: StatusType, details: Details)
    requires Tidy(t) && Fits(status, details)
    ensures IsReport(t, Told(t, id, status, details), id, status)
  {
    HandleAcceptsIff(t, id, id, Some(status), details);
    var u := Told(t, id, status, details);
    if CanFollow(History(t.statuses, id), status) {
      var row := HistoryHasOrder(t.statuses, id);
      ActIsUpdate(t, id, status, details);
      UpdateKeepsRows(t, u, id, status);
      UpdateKeepsAccounts(t, u, id, status);
    }
  }

  /** A system in which only the store, the process lists and the report log moved. */
  ghost predicate SamePosts(s: System, u: System) {
    u.used == s.used && u.pass == s.pass && u.posted == s.posted
  }

  lemma ReportKeepsLives(s: System, u: System, id: OrderId, status: StatusType)
    requires Inv(s) && SamePosts(s, u) && IsReport(s.store, u.store, id, status)
    requires status == CardError || status == CardShipped || status == CardDelivered
    requires u.reported == s.reported && (status == CardError || id in s.reported) && id in s.posted
    ensures AllLive(u) && Tidy(u.store) && u.store.orders.Keys == s.store.orders.Keys
  {
    forall x | x in u.store.orders ensures Lives(u, x) {
      assert Lives(s, x);
      if u.store != s.store {
        UpdateAt(s.store, u.store, id, status, x);
        if x == id {
          OtherAtReport(s, u, id, status);
        }
      }
    }
  }

  lemma OtherAtReport(s: System, u: System, id: OrderId, status: StatusType)
    requires Lives(s, id) && SamePosts(s, u) && u.reported == s.reported
    requires IsUpdate(s.store, u.store, id, status) && CanFollow(History(s.store.statuses, id), status)
    requires status == CardError || status == CardShipped || status == CardDelivered
    requires (status == CardError || id in s.reported) && id in s.posted
    ensures Lives(u, id)
  {
    UpdateAt(s.store, u.store, id, status, id);
    OtherIsRecorded(s.store.orders[id], u.store.orders[id], History(s.store.statuses, id), CardRows(s.store.cards, id),
                    InFlight(s.pass) != Some(id), id in s.reported, status);
  }

  lemma CreatedKeepsLives(s: System, u: System, id: OrderId)
    requires Inv(s) && SamePosts(s, u) && id in s.posted && id !in s.reported
    requires IsReport(s.store, u.store, id, CardCreated) && u.reported == s.reported + [id]
    ensures AllLive(u) && Tidy(u.store) && u.store.orders.Keys == s.store.orders.Keys
  {
    forall x | x in u.store.orders ensures Lives(u, x) {
      assert Lives(s, x);
      if x == id {
        CreatedAtReport(s, u, id);
      } else {
        CreatedKeepsOther(s, u, id, x);
      }
    }
  }

  lemma CreatedAtReport(s: System, u: System, id: OrderId)
    requires Lives(s, id) && SamePosts(s, u) && id in s.posted && id !in s.reported && u.reported == s.reported + [id]
    requires IsReport(s.store, u.store, id, CardCreated)
    ensures Lives(u, id)
  {
    CardIsRecorded(s.store.orders[id], History(s.store.statuses, id), CardRows(s.store.cards, id),
                   InFlight(s.pass) != Some(id));
    UpdateAt(s.store, u.store, id, CardCreated, id);
  }

  lemma CreatedKeepsOther(s: System, u: System, id: OrderId, x: OrderId)
    requires Lives(s, x) && SamePosts(s, u) && u.reported == s.reported + [id] && x != id
    requires u.store == s.store || IsUpdate(s.store, u.store, id, CardCreated)
    ensures Lives(u, x)
  {
    if u.store != s.store {
      UpdateAt(s.store, u.store, id, CardCreated, x);
    }
  }

  // ----- The manufacturer's and the courier's steps -----

  lemma ErrorKeepsInv(s: System, k: nat)
    requires Inv(s) && Enabled(s, ReportError(k))
    ensures Inv(After(s, ReportError(k)))
  {
    var u := After(s, ReportError(k));
    ReportIsUpdate(s.store, s.making[k].id, CardError, ErrorDetails);
    ReportKeepsLives(s, u, s.making[k].id, CardError);
    assert ProcessesMatch(u.making, u.posted, u.reported);
  }

  lemma MadeKeepsMatch(s: System, k: nat)
    requires ProcessesMatch(s.making, s.posted, s.reported) && Enabled(s, ReportCreated(k))
    ensures ProcessesMatch(s.making[k := s.making[k].(status := CardMade)], s.posted, s.reported + [s.making[k].id])
  {
  }

  lemma CreatedKeepsInv(s: System, k: nat)
    requires Inv(s) && Enabled(s, ReportCreated(k))
    ensures Inv(After(s, ReportCreated(k)))
  {
    var u := After(s, ReportCreated(k));
    ReportIsUpdate(s.store, s.making[k].id, CardCreated, CardDetails);
    CreatedKeepsLives(s, u, s.making[k].id);
    MadeKeepsMatch(s, k);
    assert ParcelsMatch(u.parcels, u.reported);
    assert Logs(u.used, u.posted, u.reported);
  }

  lemma ListsKeepInv(s: System, u: System)
    requires Inv(s) && u.store == s.store && SamePosts(s, u) && u.reported == s.reported
    requires ProcessesMatch(u.making, s.posted, s.reported) && ParcelsMatch(u.parcels, s.reported)
    ensures Inv(u)
  {
    forall x | x in u.store.orders ensures Lives(u, x) {
      assert Lives(s, x);
    }
  }

  lemma RemovalKeepsMatch(s: System, k: nat)
    requires ProcessesMatch(s.making, s.posted, s.reported) && k < |s.making|
    ensures ProcessesMatch(s.making[..k] + s.making[k + 1..], s.posted, s.reported)
  {
  }

  lemma ParcelReportKeepsInv(s: System, u: System, k: nat, status: StatusType, details: Details, done: Delivery)
    requires Inv(s) && k < |s.parcels| && Fits(status, details) && (status == CardShipped || status == CardDelivered)
    requires u == s.(parcels := s.parcels[k := s.parcels[k].(status := done)],
                     store := Told(s.store, s.parcels[k].id, status, details))
    ensures Inv(u)
  {
    ReportIsUpdate(s.store, s.parcels[k].id, status, details);
    ReportKeepsLives(s, u, s.parcels[k].id, status);
    assert ParcelsMatch(u.parcels, u.reported);
  }

  lemma ListStepKeepsInv(s: System, c: Call)
    requires Inv(s) && Enabled(s, c)
    requires c.HandOver? || c.RemoveProcess? || c.GetAddress? || c.RemoveParcel?
    ensures Inv(After(s, c))
  {
    match c
    case HandOver(k) =>
      HandOverKeepsMatch(s, k);
      ListsKeepInv(s, After(s, c));
    case RemoveProcess(k) => RemovalKeepsInv(s, k);
    case GetAddress(k, _) => ParcelStepKeepsInv(s, c);
    case RemoveParcel(k) => ParcelStepKeepsInv(s, c);
  }

  lemma RemovalKeepsInv(s: System, k: nat)
    requires Inv(s) && Enabled(s, RemoveProcess(k))
    ensures Inv(After(s, RemoveProcess(k)))
  {
    RemovalKeepsMatch(s, k);
    ListsKeepInv(s, After(s, RemoveProcess(k)));
  }

  lemma HandOverKeepsMatch(s: System, k: nat)
    requires ProcessesMatch(s.making, s.posted, s.reported) && ParcelsMatch(s.parcels, s.reported)
    requires Enabled(s, HandOver(k))
    ensures var u := After(s, HandOver(k));
      ProcessesMatch(u.making, s.posted, s.reported) && ParcelsMatch(u.parcels, s.reported)
  {
  }

  lemma ParcelStepKeepsInv(s: System, c: Call)
    requires Inv(s) && Enabled(s, c) && (c.GetAddress? || c.RemoveParcel?)
    ensures Inv(After(s, c))
  {
    ListsKeepInv(s, After(s, c));
  }

  // ----- The work scheduler's steps -----

  lemma StartKeepsInv(s: System)
    requires Inv(s) && Enabled(s, StartPass)
    ensures Inv(After(s, StartPass))
  {
    var u := After(s, StartPass);
    var ids := u.pass.value.pending;
    forall id ensures Distinct(ids) && (id in ids ==> id !in s.posted && id in s.used) {
      StartTakesUnposted(s, id);
    }
    forall x | x in u.store.orders ensures Lives(u, x) {
      assert Lives(s, x);
    }
  }

  lemma StartTakesUnposted(s: System, id: OrderId)
    requires Inv(s) && s.pass.None?
    ensures var ids := OrdersJustCreated(s.store.statuses, |s.store.statuses|);
      Distinct(ids) && (id in ids ==> id !in s.posted && id in s.used)
  {
    JustCreatedOnce(s.store, |s.store.statuses|);
    if id in OrdersJustCreated(s.store.statuses, |s.store.statuses|) {
      LastIsCreation(s.store, id);
      assert Lives(s, id);
      CreatedIsUnposted(s, id);
    }
  }

  lemma CreatedIsUnposted(s: System, id: OrderId)
    requires Lives(s, id) && s.pass.None?
    requires var h := History(s.store.statuses, id); h != [] && h[|h| - 1] == OrderCreated
    ensures id !in s.posted
  {
    CreationLastIsUnordered(s.store.orders[id], History(s.store.statuses, id), CardRows(s.store.cards, id), id in s.posted,
                            id in s.posted && InFlight(s.pass) != Some(id), id in s.reported);
  }

  lemma CreationLastIsUnordered(order: Order, h: seq<StatusType>, cards: nat, posted: bool, ordered: bool, reported: bool)
    requires IsLifeSoFar(order, h, cards, posted, ordered, reported) && h[|h| - 1] == OrderCreated
    ensures !ordered
  {
    assert CardOrdered !in h;
    NoneCounted(h, CardOrdered);
  }

  lemma LastIsCreation(t: Store, id: OrderId)
    requires Tidy(t) && id in OrdersJustCreated(t.statuses, |t.statuses|)
    ensures id in t.orders && History(t.statuses, id) != []
    ensures var h := History(t.statuses, id); h[|h| - 1] == OrderCreated
  {
    var rows := t.statuses;
    assert rows[..|rows|] == rows;
    JustCreatedRows(t, |rows|, id);
    LatestIsLast(t, |rows|, id);
  }

  lemma PostKeepsPass(s: System)
    requires Inv(s) && Enabled(s, Post)
    ensures var u := PostFirst(s); PassMatches(u.pass, u.used, u.posted) && Logs(u.used, u.posted, u.reported)
  {
    DistinctRest(s.pass.value.pending);
  }

  lemma PostKeepsInv(s: System)
    requires Inv(s) && Enabled(s, Post)
    ensures Inv(PostFirst(s))
  {
    var u := PostFirst(s);
    PostKeepsPass(s);
    PostKeepsProcesses(s);
    assert s.pass.value.pending[0] in s.pass.value.pending;
    forall x | x in u.store.orders ensures Lives(u, x) {
      assert Lives(s, x);
      PostKeepsLife(s, x);
    }
  }

  lemma PostKeepsProcesses(s: System)
    requires Inv(s) && Enabled(s, Post)
    ensures var u := PostFirst(s); ProcessesMatch(u.making, u.posted, u.reported)
  {
    var id := s.pass.value.pending[0];
    assert id !in s.posted && id !in s.reported;
    NewProcessMatches(s.making, s.posted, s.reported, id);
  }

  lemma NewProcessMatches(making: seq<Process>, posted: seq<OrderId>, reported: seq<OrderId>, id: OrderId)
    requires ProcessesMatch(making, posted, reported) && id !in posted && id !in reported
    ensures ProcessesMatch(making + [Process(id, Issuing, false)], posted + [id], reported)
  {
  }

  lemma PostKeepsLife(s: System, x: OrderId)
    requires Lives(s, x) && Enabled(s, Post) && s.pass.value.pending[0] !in s.posted
    ensures Lives(PostFirst(s), x)
  {
    var u, id := PostFirst(s), s.pass.value.pending[0];
    assert x in u.posted <==> x in s.posted || (x == id && id in s.store.orders);
  }

  lemma RecordKeepsLives(s: System)
    requires Inv(s) && Enabled(s, RecordOrdered)
    ensures AllLive(Record(s)) && Tidy(Record(s).store)
  {
    var u, id := Record(s), s.pass.value.inFlight.value;
    if id in s.store.orders {
      assert IsUpdate(s.store, u.store, id, CardOrdered);
      UpdateKeepsRows(s.store, u.store, id, CardOrdered);
      forall x | x in u.store.orders ensures Lives(u, x) {
        RecordKeepsLife(s, u, id, x);
      }
    } else {
      forall x | x in u.store.orders ensures Lives(u, x) {
        assert Lives(s, x);
      }
    }
  }

  lemma RecordKeepsLife(s: System, u: System, id: OrderId, x: OrderId)
    requires Lives(s, x) && InFlight(s.pass) == Some(id) && id in s.posted && InFlight(u.pass).None?
    requires IsUpdate(s.store, u.store, id, CardOrdered) && u.posted == s.posted && u.reported == s.reported
    ensures Lives(u, x)
  {
    UpdateAt(s.store, u.store, id, CardOrdered, x);
    if x == id {
      OrderedIsRecorded(s.store.orders[x], History(s.store.statuses, x), CardRows(s.store.cards, x), x in s.reported);
    }
  }

  lemma PassStepKeepsInv(s: System, c: Call)
    requires Inv(s) && Enabled(s, c) && (c.StartPass? || c.Post? || c.RecordOrdered? || c.EndPass?)
    ensures Inv(After(s, c))
  {
    match c
    case StartPass => StartKeepsInv(s);
    case Post => PostKeepsInv(s);
    case RecordOrdered => RecordKeepsLives(s);
    case EndPass =>
      var u := After(s, EndPass);
      forall x | x in u.store.orders ensures Lives(u, x) {
        assert Lives(s, x);
      }
  }

  // ----- New and deleted orders -----

  lemma PlaceKeepsInv(s: System, accountId: int, guid: OrderId)
    requires Inv(s) && Enabled(s, PlaceOrder(accountId, guid))
    ensures Inv(After(s, PlaceOrder(accountId, guid)))
  {
    var u := After(s, PlaceOrder(accountId, guid));
    if HasOrder(s.store, accountId) {
      forall x | x in u.store.orders ensures Lives(u, x) {
        assert Lives(s, x);
      }
    } else {
      NewOrderKeepsAccounts(s.store.orders, accountId, guid);
      NewRowKeepsRows(s.store, u.store, Order(accountId, None), guid);
      PlacementKeepsLives(s, u, accountId, guid);
    }
  }

  lemma PlacementKeepsLives(s: System, u: System, accountId: int, guid: OrderId)
    requires IsPlacement(s, u, accountId, guid) && AllLive(s) && RowsHaveOrders(s.store)
    requires guid !in s.store.orders && guid !in s.posted && guid !in s.reported
    ensures AllLive(u)
  {
    forall x | x in u.store.orders ensures Lives(u, x) {
      if x == guid {
        NewOrderLives(s, u, accountId, guid);
      } else {
        assert Lives(s, x);
        OtherOrderLives(s, u, accountId, guid, x);
      }
    }
  }

  lemma LifeBegins(accountId: int)
    ensures IsLifeSoFar(Order(accountId, None), [OrderCreated], 0, false, false, false)
  {
    NoneCounted([OrderCreated], CardOrdered);
    NoneCounted([OrderCreated], CardCreated);
  }

  /** A new order with its first status, and nothing else. */
  ghost predicate IsPlacement(s: System, u: System, accountId: int, guid: OrderId) {
    && u.store.orders == s.store.orders[guid := Order(accountId, None)] && u.store.cards == s.store.cards
    && u.store.statuses == InsertStatus(s.store, guid, OrderCreated).statuses
    && u.pass == s.pass && u.posted == s.posted && u.reported == s.reported
  }

  lemma NewOrderLives(s: System, u: System, accountId: int, guid: OrderId)
    requires IsPlacement(s, u, accountId, guid) && RowsHaveOrders(s.store) && guid !in s.store.orders
    requires guid !in s.posted && guid !in s.reported
    ensures Lives(u, guid)
  {
    HistoryOfInsert(s.store, guid, OrderCreated, guid);
    NoRowsNoHistory(s.store.statuses, guid);
    NoRowsNoCards(s.store.cards, guid);
    assert [] + [OrderCreated] == [OrderCreated];
    LifeBegins(accountId);
  }

  lemma OtherOrderLives(s: System, u: System, accountId: int, guid: OrderId, x: OrderId)
    requires IsPlacement(s, u, accountId, guid) && Lives(s, x) && x != guid
    ensures Lives(u, x)
  {
    HistoryOfInsert(s.store, guid, OrderCreated, x);
  }

  lemma DropKeepsTidy(t: Store, accountId: int)
    requires Tidy(t)
    ensures Tidy(DeleteOrder(t, accountId))
  {
    var u, ids := DeleteOrder(t, accountId), OrdersOf(t, accountId);
    RowsWithout(t.statuses, ids);
    CardsWithout(t.cards, ids, 0);
    assert RowsHaveOrders(u) && RowsInOrder(u);
  }

  lemma DropKeepsInv(s: System, accountId: int)
    requires Inv(s)
    ensures Inv(After(s, DropOrder(accountId)))
  {
    var u, ids := After(s, DropOrder(accountId)), OrdersOf(s.store, accountId);
    DropKeepsTidy(s.store, accountId);
    forall x | x in u.store.orders ensures Lives(u, x) {
      assert Lives(s, x);
      HistoryWithout(s.store.statuses, ids, x);
      CardsWithout(s.store.cards, ids, x);
    }
  }

  // ----- Runs -----

  lemma CallKeepsInv(s: System, c: Call)
    requires Inv(s) && Enabled(s, c)
    ensures Inv(After(s, c))
  {
    match c
    case PlaceOrder(accountId, guid) => PlaceKeepsInv(s, accountId, guid);
    case DropOrder(accountId) => DropKeepsInv(s, accountId);
    case StartPass => PassStepKeepsInv(s, c);
    case Post => PassStepKeepsInv(s, c);
    case RecordOrdered => PassStepKeepsInv(s, c);
    case EndPass => PassStepKeepsInv(s, c);
    case ReportError(k) => ErrorKeepsInv(s, k);
    case ReportCreated(k) => CreatedKeepsInv(s, k);
    case HandOver(_) => ListStepKeepsInv(s, c);
    case RemoveProcess(_) => ListStepKeepsInv(s, c);
    case GetAddress(_, _) => ListStepKeepsInv(s, c);
    case ReportShipped(k) =>
      ParcelReportKeepsInv(s, After(s, c), k, CardShipped, ShippingDetails(s.parcels[k].status.shippingId), CardSent);
    case ReportDelivered(k) => ParcelReportKeepsInv(s, After(s, c), k, CardDelivered, NoDetails, Delivered);
    case RemoveParcel(_) => ListStepKeepsInv(s, c);
  }

  lemma {:induction false} AllKeepInv(s: System, calls: seq<Call>)
    requires Inv(s) && CanHappen(s, calls)
    ensures Inv(AfterAll(s, calls))
    decreases |calls|
  {
    if calls != [] {
      CallKeepsInv(s, calls[0]);
      AllKeepInv(After(s, calls[0]), calls[1..]);
    }
  }

  ghost predicate Reachable(s: System) {
    exists calls :: CanHappen(IDLE, calls) && AfterAll(IDLE, calls) == s
  }

  lemma ReachableKeepsInv(s: System)
    requires Reachable(s)
    ensures Inv(s)
  {
    var calls :| CanHappen(IDLE, calls) && AfterAll(IDLE, calls) == s;
    AllKeepInv(IDLE, calls);
  }

  /** Whatever the interleaving: no order is dispatched twice, none is reported as created twice, and none is reported that
      was not dispatched. */
  lemma EachOrderIsMadeOnce(s: System)
    requires Reachable(s)
    ensures Distinct(s.posted) && Distinct(s.reported) && forall id :: id in s.reported ==> id in s.posted
  {
    ReachableKeepsInv(s);
  }

  /** An order that still exists has one card row if its creation was reported and none otherwise; once it is recorded as
      shipped or delivered it has exactly one. Late recording of card_ordered makes no difference. */
  lemma ShippedOrdersHaveOneCard(s: System, id: OrderId)
    requires Reachable(s) && id in s.store.orders
    ensures CardRows(s.store.cards, id) == (if id in s.reported then 1 else 0)
    ensures var h := History(s.store.statuses, id);
      && (CardShipped in h || CardDelivered in h ==> CardRows(s.store.cards, id) == 1)
      && (s.store.orders[id].shippingId.Some? <==> CardShipped in h)
      && (CardOrdered in h ==> id in s.posted)
  {
    ReachableKeepsInv(s);
    assert Lives(s, id);
  }

  lemma {:induction false} CountTwo(h: seq<StatusType>, i: nat, j: nat)
    requires i < j < |h| && h[i] == h[j]
    ensures Count(h, h[i]) >= 2
  {
    if j < |h| - 1 {
      CountTwo(h[..|h| - 1], i, j);
    } else {
      CountOne(h[..|h| - 1], i);
    }
  }

  lemma {:induction false} CountOne(h: seq<StatusType>, i: nat)
    requires i < |h|
    ensures Count(h, h[i]) >= 1
  {
    if i < |h| - 1 {
      CountOne(h[..|h| - 1], i);
    }
  }

  lemma {:induction false} StepsToIncreasing(h: seq<StatusType>, i: nat, j: nat)
    requires i < j < |h|
    requires forall k :: 0 < k < |h| ==> Sequence(h[k - 1]) < Sequence(h[k])
    ensures Sequence(h[i]) < Sequence(h[j])
  {
    if i < j - 1 {
      StepsToIncreasing(h, i, j - 1);
    }
  }

  lemma RisesIff(h: seq<StatusType>)
    requires Shape(h) && Count(h, CardOrdered) <= 1
    ensures Increasing(h) <==> (CardOrdered in h ==> |h| > 1 && h[1] == CardOrdered)
  {
    if CardOrdered in h {
      var i :| 0 <= i < |h| && h[i] == CardOrdered;
      if h[1] == CardOrdered {
        if i > 1 {
          CountTwo(h, 1, i);
        }
        forall k | 0 < k < |h| ensures Sequence(h[k - 1]) < Sequence(h[k]) {
          if k > 1 && h[k] == CardOrdered {
            CountTwo(h, 1, k);
          }
        }
      } else if h[i - 1] == CardOrdered {
        CountTwo(h, i - 1, i);
      }
    }
    if CardOrdered !in h || h[1] == CardOrdered {
      forall i, j | 0 <= i < j < |h| ensures Sequence(h[i]) < Sequence(h[j]) {
        StepsToIncreasing(h, i, j);
      }
    }
  }

  /** Interleaving costs one thing: the history of an order strictly increases exactly when card_ordered, if recorded, was
      recorded before anything the manufacturer reported. Its only possible descent is that one entry. */
  lemma HistoryIncreasesUnlessOrderedLate(s: System, id: OrderId)
    requires Reachable(s) && id in s.store.orders
    ensures var h := History(s.store.statuses, id);
      && h != [] && h[0] == OrderCreated && RisesButForOrdered(h) && Count(h, CardOrdered) <= 1
      && (Increasing(h) <==> (CardOrdered in h ==> |h| > 1 && h[1] == CardOrdered))
  {
    ReachableKeepsInv(s);
    assert Lives(s, id);
    RisesIff(History(s.store.statuses, id));
  }

  // ----- How often a status can be recorded -----

  /** Where card_ordered stands in a history; its length when it is not there. */
  function OrderedAt(h: seq<StatusType>): (i: nat)
    ensures i <= |h| && CardOrdered !in h[..i] && (i < |h| ==> h[i] == CardOrdered)
  {
    if h == [] || h[0] == CardOrdered then 0
    else
      var i := OrderedAt(h[1..]);
      assert h[..i + 1] == [h[0]] + h[1..][..i];
      i + 1
  }

  lemma {:induction false} CountConcat(a: seq<StatusType>, b: seq<StatusType>, status: StatusType)
    ensures Count(a + b, status) == Count(a, status) + Count(b, status)
    decreases |b|
  {
    if b == [] {
      assert a + b == a;
    } else {
      assert (a + b)[..|a + b| - 1] == a + b[..|b| - 1];
      CountConcat(a, b[..|b| - 1], status);
    }
  }

  lemma CountedIff(h: seq<StatusType>, status: StatusType)
    requires Increasing(h)
    ensures Count(h, status) == if status in h then 1 else 0
  {
    IncreasingCountsOnce(h, status);
    if status in h {
      var i :| 0 <= i < |h| && h[i] == status;
      CountOne(h, i);
    } else {
      NoneCounted(h, status);
    }
  }

  /** A stretch of a history without card_ordered, but for its first entry, strictly increases. */
  lemma StretchIncreases(h: seq<StatusType>, from: nat, to: nat)
    requires RisesButForOrdered(h) && from <= to <= |h|
    requires forall k :: from < k < to ==> h[k] != CardOrdered
    ensures Increasing(h[from..to])
  {
    var stretch := h[from..to];
    forall i, j | 0 <= i < j < |stretch| ensures Sequence(stretch[i]) < Sequence(stretch[j]) {
      forall k | 0 < k < |stretch| ensures Sequence(stretch[k - 1]) < Sequence(stretch[k]) {
        assert stretch[k - 1] == h[from + k - 1] && stretch[k] == h[from + k];
      }
      StepsToIncreasing(stretch, i, j);
    }
  }

  lemma OrderedIsAlone(h: seq<StatusType>, k: nat)
    requires Count(h, CardOrdered) <= 1 && OrderedAt(h) < k < |h|
    ensures h[k] != CardOrdered
  {
    if h[k] == CardOrdered {
      CountTwo(h, OrderedAt(h), k);
    }
  }

  lemma SidesIncrease(h: seq<StatusType>)
    requires Shape(h) && Count(h, CardOrdered) <= 1
    ensures Increasing(h[..OrderedAt(h)]) && Increasing(h[OrderedAt(h)..])
  {
    var i := OrderedAt(h);
    forall k | 0 < k < i ensures h[k] != CardOrdered {
      assert h[k] == h[..i][k];
    }
    forall k | i < k < |h| ensures h[k] != CardOrdered {
      OrderedIsAlone(h, k);
    }
    StretchIncreases(h, 0, i);
    StretchIncreases(h, i, |h|);
    assert h[0..i] == h[..i] && h[i..|h|] == h[i..];
  }

  lemma CountsBySides(h: seq<StatusType>, status: StatusType)
    requires Shape(h) && Count(h, CardOrdered) <= 1
    ensures var i := OrderedAt(h);
      Count(h, status) == (if status in h[..i] then 1 else 0) + if status in h[i..] then 1 else 0
  {
    SidesIncrease(h);
    CountOfSides(h, OrderedAt(h), status);
  }

  lemma CountOfSides(h: seq<StatusType>, i: nat, status: StatusType)
    requires i <= |h| && Increasing(h[..i]) && Increasing(h[i..])
    ensures Count(h, status) == (if status in h[..i] then 1 else 0) + if status in h[i..] then 1 else 0
  {
    assert h[..i] + h[i..] == h;
    CountConcat(h[..i], h[i..], status);
    CountedIff(h[..i], status);
    CountedIff(h[i..], status);
  }

  /** For every interleaving and every status: it is recorded at most twice, and twice exactly when it is recorded both before
      and after card_ordered. */
  lemma RecordedTwiceIff(s: System, id: OrderId, status: StatusType)
    requires Reachable(s) && id in s.store.orders
    ensures var h := History(s.store.statuses, id); var i := OrderedAt(h);
      && Count(h, status) <= 2
      && (Count(h, status) == 2 <==> status in h[..i] && status in h[i..])
  {
    ReachableKeepsInv(s);
    assert Lives(s, id);
    CountsBySides(History(s.store.statuses, id), status);
  }

  /** The call that records a shipment again: exactly when one is recorded and the current status has fallen behind it. */
  lemma ShipsAgainIff(s: System, k: nat)
    requires Reachable(s) && Enabled(s, ReportShipped(k)) && s.parcels[k].id in s.store.orders
    ensures var id := s.parcels[k].id;
      var h, after := History(s.store.statuses, id), History(After(s, ReportShipped(k)).store.statuses, id);
      Count(after, CardShipped) > Count(h, CardShipped) >= 1 <==> CardShipped in h && CanFollow(h, CardShipped)
  {
    ReachableKeepsInv(s);
    var id, t := s.parcels[k].id, s.store;
    var h := History(t.statuses, id);
    var u := Told(t, id, CardShipped, ShippingDetails(s.parcels[k].status.shippingId));
    ReportIsUpdate(t, id, CardShipped, ShippingDetails(s.parcels[k].status.shippingId));
    CountsBySides(h, CardShipped) by { assert Lives(s, id); }
    assert CardShipped in h <==> Count(h, CardShipped) >= 1 by { CountedAtAll(h, CardShipped); }
    if CanFollow(h, CardShipped) {
      UpdateAt(t, u, id, CardShipped, id);
      CountSnoc(h, CardShipped, CardShipped);
    }
  }

  lemma CountedAtAll(h: seq<StatusType>, status: StatusType)
    ensures status in h <==> Count(h, status) >= 1
  {
    if status in h {
      var i :| 0 <= i < |h| && h[i] == status;
      CountOne(h, i);
    } else {
      NoneCounted(h, status);
    }
  }

  // ----- Which call breaks the order of a history -----

  lemma OrderedBreaksIff(h: seq<StatusType>)
    requires Shape(h) && Increasing(h)
    ensures Increasing(h + [CardOrdered]) <==> h == [OrderCreated]
  {
    var longer := h + [CardOrdered];
    if h == [OrderCreated] {
      IncreasingSnoc(h, CardOrdered);
    } else {
      assert h[|h| - 1] != OrderCreated;
      assert longer[|h| - 1] == h[|h| - 1] && longer[|h|] == CardOrdered;
    }
  }

  lemma ReportKeepsIncreasing(t: Store, told: OrderId, status: StatusType, details: Details, id: OrderId)
    requires Tidy(t) && Fits(status, details) && id in t.orders && Increasing(History(t.statuses, id))
    ensures Increasing(History(Told(t, told, status, details).statuses, id))
  {
    ReportIsUpdate(t, told, status, details);
    UpdateKeepsIncreasing(t, Told(t, told, status, details), told, status, id);
  }

  lemma UpdateKeepsIncreasing(t: Store, u: Store, told: OrderId, status: StatusType, id: OrderId)
    requires IsReport(t, u, told, status) && id in t.orders && Increasing(History(t.statuses, id))
    ensures Increasing(History(u.statuses, id))
  {
    if CanFollow(History(t.statuses, told), status) {
      UpdateAt(t, u, told, status, id);
      if id == told {
        IncreasingSnoc(History(t.statuses, id), status);
      }
    }
  }

  lemma DropKeepsHistory(t: Store, accountId: int, id: OrderId)
    requires id in DeleteOrder(t, accountId).orders
    ensures History(DeleteOrder(t, accountId).statuses, id) == History(t.statuses, id)
  {
    HistoryWithout(t.statuses, OrdersOf(t, accountId), id);
  }

  lemma PlaceKeepsHistory(t: Store, accountId: int, guid: OrderId, id: OrderId)
    requires id != guid
    ensures History(CreateOrder(t, accountId, guid).0.statuses, id) == History(t.statuses, id)
  {
    HistoryOfInsert(t, guid, OrderCreated, id);
  }

  /** This call records card_ordered for the order although the manufacturer has already reported. */
  predicate RecordsLate(s: System, c: Call, id: OrderId) {
    c.RecordOrdered? && InFlight(s.pass) == Some(id) && LastOrderStatus(s.store, id) != Some(OrderCreated)
  }

  /** In every reachable state a call keeps the history of an order strictly increasing unless it records card_ordered for that
      order when its current status is no longer order_created. */
  lemma CallKeepsIncreasingIff(s: System, c: Call, id: OrderId)
    requires Reachable(s) && Enabled(s, c) && id in s.store.orders && id in After(s, c).store.orders
    requires Increasing(History(s.store.statuses, id))
    ensures Increasing(History(After(s, c).store.statuses, id)) <==> !RecordsLate(s, c, id)
  {
    ReachableKeepsInv(s);
    match c
    case PlaceOrder(accountId, guid) => PlaceKeepsHistory(s.store, accountId, guid, id);
    case DropOrder(accountId) => DropKeepsHistory(s.store, accountId, id);
    case RecordOrdered => RecordKeepsIncreasingIff(s, id);
    case ReportError(k) => ReportKeepsIncreasing(s.store, s.making[k].id, CardError, ErrorDetails, id);
    case ReportCreated(k) => ReportKeepsIncreasing(s.store, s.making[k].id, CardCreated, CardDetails, id);
    case ReportShipped(k) =>
      ReportKeepsIncreasing(s.store, s.parcels[k].id, CardShipped, ShippingDetails(s.parcels[k].status.shippingId), id);
    case ReportDelivered(k) => ReportKeepsIncreasing(s.store, s.parcels[k].id, CardDelivered, NoDetails, id);
    case _ =>
  }

  lemma RecordKeepsIncreasingIff(s: System, id: OrderId)
    requires Inv(s) && Enabled(s, RecordOrdered) && id in s.store.orders && Increasing(History(s.store.statuses, id))
    ensures Increasing(History(Record(s).store.statuses, id)) <==> !RecordsLate(s, RecordOrdered, id)
  {
    RecordedHistory(s, id);
    assert Shape(History(s.store.statuses, id)) by { assert Lives(s, id); }
    if InFlight(s.pass) == Some(id) {
      OrderedBreaksIff(History(s.store.statuses, id));
      LateIff(s.store, id);
    }
  }

  lemma RecordedHistory(s: System, id: OrderId)
    requires Enabled(s, RecordOrdered) && id in s.store.orders
    ensures var h := History(s.store.statuses, id);
      History(Record(s).store.statuses, id) == if InFlight(s.pass) == Some(id) then h + [CardOrdered] else h
  {
    HistoryOfInsert(s.store, s.pass.value.inFlight.value, CardOrdered, id);
  }

  lemma LateIff(t: Store, id: OrderId)
    requires RowsInOrder(t) && Shape(History(t.statuses, id)) && Increasing(History(t.statuses, id))
    ensures LastOrderStatus(t, id) == Some(OrderCreated) <==> History(t.statuses, id) == [OrderCreated]
  {
    LastOrderStatusIsLast(t, id);
    CreationAlone(History(t.statuses, id));
  }

  // ----- The two grain sizes -----

  lemma {:induction false} OneMore(s: System, calls: seq<Call>, c: Call)
    requires CanHappen(s, calls) && Enabled(AfterAll(s, calls), c)
    ensures CanHappen(s, calls + [c]) && AfterAll(s, calls + [c]) == After(AfterAll(s, calls), c)
    decreases |calls|
  {
    if calls == [] {
      assert [c][1..] == [];
    } else {
      assert (calls + [c])[1..] == calls[1..] + [c];
      OneMore(After(s, calls[0]), calls[1..], c);
    }
  }

  lemma ReachNext(s: System, c: Call)
    requires Reachable(s) && Enabled(s, c)
    ensures Reachable(After(s, c))
  {
    var calls :| CanHappen(IDLE, calls) && AfterAll(IDLE, calls) == s;
    OneMore(IDLE, calls, c);
  }

  lemma DispatchIsReachable(s: System, ids: seq<OrderId>, answers: seq<Answer>) returns (u: System)
    requires Reachable(s) && s.pass == Some(Pass(ids, None)) && |answers| == |ids| && Declined !in answers
    requires forall i :: 0 <= i < |ids| ==> ids[i] in s.store.orders
    ensures Reachable(u) && u.store == Dispatch(s.store, ids, answers)
    decreases |ids|
  {
    if ids == [] || answers[0] == Failed {
      u := s;
    } else {
      assert answers[0] in answers;
      ReachNext(s, Post);
      var posted := After(s, Post);
      ReachNext(posted, RecordOrdered);
      var recorded := After(posted, RecordOrdered);
      u := DispatchIsReachable(recorded, ids[1..], answers[1..]);
    }
  }

  /** A whole pass of the work scheduler without interference, as the coarse grain has it, is one of the interleavings; the
      manufacturer never declines an order. */
  lemma WholePassIsReachable(s: System, answers: seq<Answer>) returns (u: System)
    requires Reachable(s) && s.pass.None? && IsStep(s.store, WorkPass(answers)) && Declined !in answers
    ensures Reachable(u) && u.store == Next(s.store, WorkPass(answers))
  {
    ReachableKeepsInv(s);
    ReachNext(s, StartPass);
    var ids := OrdersJustCreated(s.store.statuses, |s.store.statuses|);
    forall i | 0 <= i < |ids| ensures ids[i] in s.store.orders {
      LastIsCreation(s.store, ids[i]);
    }
    u := DispatchIsReachable(After(s, StartPass), ids, answers);
  }

  // ----- What late recording allows -----

  lemma Placed() returns (s: System)
    ensures Reachable(s) && 7 in s.store.orders && s.pass == None && s.making == [] && s.parcels == []
    ensures s.store.statuses == [StatusRow(0, 7, 0, OrderCreated)]
  {
    assert CanHappen(IDLE, []) && AfterAll(IDLE, []) == IDLE;
    ReachNext(IDLE, PlaceOrder(1, 7));
    s := After(IDLE, PlaceOrder(1, 7));
  }

  lemma ReportIsRecorded(t: Store, id: OrderId, status: StatusType, details: Details)
    requires Tidy(t) && Fits(status, details) && CanFollow(History(t.statuses, id), status)
    ensures var u := Told(t, id, status, details);
      id in u.orders && History(u.statuses, id) == History(t.statuses, id) + [status]
  {
    HandleAcceptsIff(t, id, id, Some(status), details);
    ReportIsUpdate(t, id, status, details);
  }

  lemma OneRow(row: StatusRow)
    requires row.status == OrderCreated
    ensures History([row], row.orderId) == [OrderCreated] && OrdersJustCreated([row], 1) == [row.orderId]
  {
    assert [row][..0] == [];
    assert History([row], row.orderId) == [] + [OrderCreated] == [OrderCreated];
    assert LatestById([row], row.orderId) == Some(row);
  }

  lemma Posted() returns (s: System)
    ensures Reachable(s) && 7 in s.store.orders && s.pass == Some(Pass([], Some(7)))
    ensures s.making == [Process(7, Issuing, false)] && s.parcels == []
    ensures History(s.store.statuses, 7) == [OrderCreated]
  {
    var placed := Placed();
    OneRow(StatusRow(0, 7, 0, OrderCreated));
    ReachNext(placed, StartPass);
    var started := After(placed, StartPass);
    assert started.pass == Some(Pass([7], None)) && [7][1..] == [];
    ReachNext(started, Post);
    s := After(started, Post);
  }

  lemma CardIsMade(s: System) returns (u: System)
    requires Reachable(s) && 7 in s.store.orders && s.making == [Process(7, Issuing, false)]
    requires CanFollow(History(s.store.statuses, 7), CardCreated)
    ensures Reachable(u) && 7 in u.store.orders && u.pass == s.pass && u.parcels == s.parcels
    ensures u.making == [Process(7, CardMade, false)]
    ensures History(u.store.statuses, 7) == History(s.store.statuses, 7) + [CardCreated]
  {
    ReachableKeepsInv(s);
    ReachNext(s, ReportCreated(0));
    ReportIsRecorded(s.store, 7, CardCreated, CardDetails);
    u := After(s, ReportCreated(0));
  }

  lemma HandedOverTwice() returns (s: System)
    ensures Reachable(s) && 7 in s.store.orders && s.pass == Some(Pass([], Some(7)))
    ensures s.parcels == [Parcel(7, NewCardReceived), Parcel(7, NewCardReceived)]
    ensures History(s.store.statuses, 7) == [OrderCreated, CardCreated]
  {
    var posted := Posted();
    var made := CardIsMade(posted);
    ReachNext(made, HandOver(0));
    ReachNext(After(made, HandOver(0)), HandOver(0));
    s := After(After(made, HandOver(0)), HandOver(0));
  }

  lemma AddressIsKnown(s: System, k: nat, shippingId: int) returns (u: System)
    requires Reachable(s) && k < |s.parcels| && s.parcels[k] == Parcel(7, NewCardReceived) && 7 in s.store.orders
    ensures Reachable(u) && u == s.(parcels := s.parcels[k := Parcel(7, Addressed(shippingId))])
  {
    ReachNext(s, GetAddress(k, shippingId));
    u := After(s, GetAddress(k, shippingId));
  }

  lemma ParcelShips(s: System, k: nat, shippingId: int) returns (u: System)
    requires Reachable(s) && k < |s.parcels| && s.parcels[k] == Parcel(7, NewCardReceived) && 7 in s.store.orders
    requires CanFollow(History(s.store.statuses, 7), CardShipped)
    ensures Reachable(u) && u.pass == s.pass && u.parcels == s.parcels[k := Parcel(7, CardSent)] && 7 in u.store.orders
    ensures History(u.store.statuses, 7) == History(s.store.statuses, 7) + [CardShipped]
  {
    var sent := AddressIsKnown(s, k, shippingId);
    u := AddressedShips(sent, k, shippingId);
  }

  lemma AddressedShips(s: System, k: nat, shippingId: int) returns (u: System)
    requires Reachable(s) && k < |s.parcels| && s.parcels[k] == Parcel(7, Addressed(shippingId)) && 7 in s.store.orders
    requires CanFollow(History(s.store.statuses, 7), CardShipped)
    ensures Reachable(u) && u.pass == s.pass && u.parcels == s.parcels[k := Parcel(7, CardSent)] && 7 in u.store.orders
    ensures History(u.store.statuses, 7) == History(s.store.statuses, 7) + [CardShipped]
  {
    ReachableKeepsInv(s);
    ReachNext(s, ReportShipped(k));
    ReportIsRecorded(s.store, 7, CardShipped, ShippingDetails(shippingId));
    u := After(s, ReportShipped(k));
  }

  lemma OrderIsRecorded(s: System) returns (u: System)
    requires Reachable(s) && s.pass == Some(Pass([], Some(7))) && 7 in s.store.orders
    ensures Reachable(u) && u.parcels == s.parcels && 7 in u.store.orders
    ensures History(u.store.statuses, 7) == History(s.store.statuses, 7) + [CardOrdered]
  {
    ReachNext(s, RecordOrdered);
    HistoryOfInsert(s.store, 7, CardOrdered, 7);
    u := After(s, RecordOrdered);
  }

  /** A reachable state in which the card was handed over twice and card_ordered was recorded between the two shipments: the
      sequence check let the second shipment through. */
  lemma LateRecordingLetsACardShipTwice() returns (s: System)
    ensures Reachable(s)
    ensures History(s.store.statuses, 7) == [OrderCreated, CardCreated, CardShipped, CardOrdered, CardShipped]
  {
    s := HandedOverTwice();
    s := ParcelShips(s, 0, 100);
    s := OrderIsRecorded(s);
    s := ParcelShips(s, 1, 200);
  }
}
