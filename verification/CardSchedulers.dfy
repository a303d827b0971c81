/** One pass of the manufacturer and of the courier, as they are written: a loop over a list of mutable processes that
    collects what is finished, and a second loop that removes it. A pass that is interrupted between two processes never
    reaches its removal loop. Each pass is proved to be a series of calls of CardWorkflow, so what holds of every
    interleaving holds of the code. */
module CardSchedulers {
  import opened Wrappers
  import opened CardOrders
  import opened CardOrderService
  import opened CardWorkflow

  /** How the factory fares with one process: everything fails, a delay, or success. */
  datatype Outcome = Crisis | Delay | Success

  // ----- The passes on values -----

  function CallFor(p: Process, k: nat, outcome: Outcome): Option<Call> {
    if p.status == CardMade then Some(HandOver(k))
    else match outcome
      case Crisis => if p.status == ManufactureError then None else Some(ReportError(k))
      case Delay => Some(ReportError(k))
      case Success => Some(ReportCreated(k))
  }

  function WorkOn(s: System, k: nat, outcome: Outcome): (u: System)
    requires k < |s.making|
    ensures |u.making| == |s.making| && forall j :: 0 <= j < |s.making| && j != k ==> u.making[j] == s.making[j]
  {
    var c := CallFor(s.making[k], k, outcome);
    if c.Some? then After(s, c.value) else s
  }

  /** Processes k..n of the manufacturer's list, in order. */
  function WorkFrom(s: System, k: nat, n: nat, outcomes: seq<Outcome>): (u: System)
    requires k <= n <= |s.making| <= |outcomes|
    ensures |u.making| == |s.making|
    decreases n - k
  {
    if k == n then s else WorkFrom(WorkOn(s, k, outcomes[k]), k + 1, n, outcomes)
  }

  function Deliver(s: System, k: nat, shippingId: int): (u: System)
    requires k < |s.parcels|
    ensures |u.parcels| == |s.parcels| && forall j :: 0 <= j < |s.parcels| && j != k ==> u.parcels[j] == s.parcels[j]
  {
    match s.parcels[k].status
    case NewCardReceived =>
      var u := After(s, GetAddress(k, shippingId));
      if u.parcels[k].status.Addressed? then After(u, ReportShipped(k)) else u
    case CardSent => After(s, ReportDelivered(k))
    case _ => s
  }

  /** Parcels k..n of the courier's list, in order; `ids` are the shipping ids drawn for them. */
  function DeliverFrom(s: System, k: nat, n: nat, ids: seq<int>): (u: System)
    requires k <= n <= |s.parcels| <= |ids|
    ensures |u.parcels| == |s.parcels|
    decreases n - k
  {
    if k == n then s else DeliverFrom(Deliver(s, k, ids[k]), k + 1, n, ids)
  }

  /** The elements that are not flagged. */
  function Rest<T>(list: seq<T>, done: seq<bool>): seq<T>
    requires |done| == |list|
    decreases |list|
  {
    if list == [] then [] else (if done[0] then [] else [list[0]]) + Rest(list[1..], done[1..])
  }

  function MadeFlags(making: seq<Process>): seq<bool> {
    seq(|making|, i requires 0 <= i < |making| => making[i].status == CardMade)
  }

  function DeliveredFlags(parcels: seq<Parcel>): seq<bool> {
    seq(|parcels|, i requires 0 <= i < |parcels| => parcels[i].status == Delivered)
  }

  /** A manufacturer's pass that reaches its end, or is interrupted before process `stopAt`; when that is the length of the
      list, after the last process and before the removal loop, which a process added during the last visit causes. */
  function ManufacturePass(s: System, outcomes: seq<Outcome>, stopAt: nat): System
    requires |s.making| <= |outcomes|
  {
    if stopAt <= |s.making| then WorkFrom(s, 0, stopAt, outcomes)
    else
      var u := WorkFrom(s, 0, |s.making|, outcomes);
      u.(making := Rest(u.making, MadeFlags(s.making)))
  }

  function CourierPass(s: System, ids: seq<int>, stopAt: nat): System
    requires |s.parcels| <= |ids|
  {
    if stopAt <= |s.parcels| then DeliverFrom(s, 0, stopAt, ids)
    else
      var u := DeliverFrom(s, 0, |s.parcels|, ids);
      u.(parcels := Rest(u.parcels, DeliveredFlags(s.parcels)))
  }

  // ----- A pass is a series of calls -----

  lemma {:induction false} WorkIsReachable(s: System, k: nat, n: nat, outcomes: seq<Outcome>)
    requires k <= n <= |s.making| <= |outcomes| && Reachable(s)
    ensures Reachable(WorkFrom(s, k, n, outcomes))
    decreases n - k
  {
    if k < n {
      var c := CallFor(s.making[k], k, outcomes[k]);
      if c.Some? {
        ReachNext(s, c.value);
      }
      WorkIsReachable(WorkOn(s, k, outcomes[k]), k + 1, n, outcomes);
    }
  }

  /** A process that was made when the pass began has been handed over when it ends. */
  lemma {:induction false} MadeIsHanded(s: System, k: nat, n: nat, outcomes: seq<Outcome>, j: nat)
    requires k <= n <= |s.making| <= |outcomes| && j < |s.making|
    ensures var p := WorkFrom(s, k, n, outcomes).making[j];
      && (j < k || n <= j ==> p == s.making[j])
      && (k <= j < n && s.making[j].status == CardMade ==> p.handed)
    decreases n - k
  {
    if k < n {
      var u := WorkOn(s, k, outcomes[k]);
      MadeIsHanded(u, k + 1, n, outcomes, j);
    }
  }

  ghost predicate AllHanded(making: seq<Process>, done: seq<bool>) {
    |done| == |making| && forall i :: 0 <= i < |making| && done[i] ==> making[i].handed
  }

  /** Dropping the flagged elements from n on, one step earlier. */
  lemma RestStep<T>(list: seq<T>, done: seq<bool>, n: nat)
    requires |done| == |list| && n < |list|
    ensures var later, now := list[..n + 1] + Rest(list[n + 1..], done[n + 1..]), list[..n] + Rest(list[n..], done[n..]);
      |later| > n && later[n] == list[n] && now == if done[n] then later[..n] + later[n + 1..] else later
  {
    assert list[n..][1..] == list[n + 1..] && done[n..][1..] == done[n + 1..];
  }

  lemma {:induction false} RestIsReachable(s: System, done: seq<bool>, n: nat)
    requires Reachable(s) && n <= |s.making| && AllHanded(s.making, done)
    ensures Reachable(s.(making := s.making[..n] + Rest(s.making[n..], done[n..])))
    decreases |s.making| - n
  {
    if n < |s.making| {
      RestIsReachable(s, done, n + 1);
      var u := s.(making := s.making[..n + 1] + Rest(s.making[n + 1..], done[n + 1..]));
      RestStep(s.making, done, n);
      if done[n] {
        ReachNext(u, RemoveProcess(n));
      }
    } else {
      assert s.making[..n] + Rest(s.making[n..], done[n..]) == s.making;
      assert s.(making := s.making) == s;
    }
  }

  lemma ManufacturePassIsReachable(s: System, outcomes: seq<Outcome>, stopAt: nat)
    requires |s.making| <= |outcomes| && Reachable(s)
    ensures Reachable(ManufacturePass(s, outcomes, stopAt))
  {
    var n := if stopAt <= |s.making| then stopAt else |s.making|;
    WorkIsReachable(s, 0, n, outcomes);
    if stopAt > |s.making| {
      var u, done := WorkFrom(s, 0, n, outcomes), MadeFlags(s.making);
      forall j | 0 <= j < |u.making| && done[j] ensures u.making[j].handed {
        MadeIsHanded(s, 0, n, outcomes, j);
      }
      RestIsReachable(u, done, 0);
      assert u.making[0..] == u.making && done[0..] == done && u.making[..0] + Rest(u.making, done) == Rest(u.making, done);
    }
  }

  lemma DeliverIsReachable(s: System, k: nat, shippingId: int)
    requires k < |s.parcels| && Reachable(s)
    ensures Reachable(Deliver(s, k, shippingId))
  {
    match s.parcels[k].status
    case NewCardReceived =>
      ReachNext(s, GetAddress(k, shippingId));
      var u := After(s, GetAddress(k, shippingId));
      if u.parcels[k].status.Addressed? {
        ReachNext(u, ReportShipped(k));
      }
    case CardSent => ReachNext(s, ReportDelivered(k));
    case _ =>
  }

  lemma {:induction false} DeliveriesAreReachable(s: System, k: nat, n: nat, ids: seq<int>)
    requires k <= n <= |s.parcels| <= |ids| && Reachable(s)
    ensures Reachable(DeliverFrom(s, k, n, ids))
    decreases n - k
  {
    if k < n {
      DeliverIsReachable(s, k, ids[k]);
      DeliveriesAreReachable(Deliver(s, k, ids[k]), k + 1, n, ids);
    }
  }

  lemma {:induction false} DeliveredStays(s: System, k: nat, n: nat, ids: seq<int>, j: nat)
    requires k <= n <= |s.parcels| <= |ids| && j < |s.parcels| && s.parcels[j].status == Delivered
    ensures DeliverFrom(s, k, n, ids).parcels[j] == s.parcels[j]
    decreases n - k
  {
    if k < n {
      DeliveredStays(Deliver(s, k, ids[k]), k + 1, n, ids, j);
    }
  }

  ghost predicate AllDelivered(parcels: seq<Parcel>, done: seq<bool>) {
    |done| == |parcels| && forall i :: 0 <= i < |parcels| && done[i] ==> parcels[i].status == Delivered
  }

  lemma {:induction false} RestOfParcelsIsReachable(s: System, done: seq<bool>, n: nat)
    requires Reachable(s) && n <= |s.parcels| && AllDelivered(s.parcels, done)
    ensures Reachable(s.(parcels := s.parcels[..n] + Rest(s.parcels[n..], done[n..])))
    decreases |s.parcels| - n
  {
    if n < |s.parcels| {
      RestOfParcelsIsReachable(s, done, n + 1);
      var u := s.(parcels := s.parcels[..n + 1] + Rest(s.parcels[n + 1..], done[n + 1..]));
      RestStep(s.parcels, done, n);
      if done[n] {
        ReachNext(u, RemoveParcel(n));
      }
    } else {
      assert s.parcels[..n] + Rest(s.parcels[n..], done[n..]) == s.parcels;
      assert s.(parcels := s.parcels) == s;
    }
  }

  lemma CourierPassIsReachable(s: System, ids: seq<int>, stopAt: nat)
    requires |s.parcels| <= |ids| && Reachable(s)
    ensures Reachable(CourierPass(s, ids, stopAt))
  {
    var n := if stopAt <= |s.parcels| then stopAt else |s.parcels|;
    DeliveriesAreReachable(s, 0, n, ids);
    if stopAt > |s.parcels| {
      var u, done := DeliverFrom(s, 0, n, ids), DeliveredFlags(s.parcels);
      forall j | 0 <= j < |u.parcels| && done[j] ensures u.parcels[j].status == Delivered {
        DeliveredStays(s, 0, n, ids, j);
      }
      RestOfParcelsIsReachable(u, done, 0);
      assert u.parcels[0..] == u.parcels && done[0..] == done;
      assert u.parcels[..0] + Rest(u.parcels, done) == Rest(u.parcels, done);
    }
  }

  // ----- Lists of processes that change in place -----

  /** Removes the first occurrence. */
  function Remove<T(==)>(list: seq<T>, x: T): seq<T> {
    if list == [] then [] else if list[0] == x then list[1..] else [list[0]] + Remove(list[1..], x)
  }

  function GoneFlags<T(==)>(list: seq<T>, gone: seq<T>): seq<bool> {
    seq(|list|, i requires 0 <= i < |list| => list[i] in gone)
  }

  /** Of the first k elements, the removal list holds just those that are done. */
  ghost predicate Noted<T>(list: seq<T>, toBeRemoved: seq<T>, done: seq<bool>, k: nat) {
    && |done| == |list|
    && forall i :: 0 <= i < |list| ==> (list[i] in toBeRemoved <==> i < k && done[i])
  }

  lemma OneMoreNoted<T>(list: seq<T>, toBeRemoved: seq<T>, done: seq<bool>, k: nat)
    requires Distinct(list) && k < |list| && Noted(list, toBeRemoved, done, k)
    ensures Noted(list, if done[k] then toBeRemoved + [list[k]] else toBeRemoved, done, k + 1)
  {
  }

  lemma AllNoted<T>(list: seq<T>, toBeRemoved: seq<T>, done: seq<bool>)
    requires Noted(list, toBeRemoved, done, |list|)
    ensures GoneFlags(list, toBeRemoved) == done
  {
  }

  lemma {:induction false} RemoveOne<T>(list: seq<T>, gone: seq<T>, x: T)
    requires Distinct(list)
    ensures Remove(Rest(list, GoneFlags(list, gone)), x) == Rest(list, GoneFlags(list, gone + [x]))
    decreases |list|
  {
    if list != [] {
      var tail := list[1..];
      assert GoneFlags(list, gone)[1..] == GoneFlags(tail, gone);
      assert GoneFlags(list, gone + [x])[1..] == GoneFlags(tail, gone + [x]);
      var rest := Rest(tail, GoneFlags(tail, gone));
      assert ([list[0]] + rest)[1..] == rest;
      if list[0] in gone {
        RemoveOne(tail, gone, x);
        assert [] + rest == rest;
      } else if list[0] != x {
        RemoveOne(tail, gone, x);
      } else {
        assert forall i :: 0 <= i < |tail| ==> tail[i] == list[i + 1];
        assert GoneFlags(tail, gone) == GoneFlags(tail, gone + [x]);
      }
    }
  }

  lemma {:induction false} NothingGone<T>(list: seq<T>)
    ensures Rest(list, GoneFlags(list, [])) == list
    decreases |list|
  {
    if list != [] {
      assert GoneFlags(list, [])[1..] == GoneFlags(list[1..], []);
      NothingGone(list[1..]);
    }
  }

  class ManufactureProcess {
    const id: OrderId
    var status: Making
    ghost var handed: bool

    constructor (id: OrderId)
      ensures this.id == id && status == Issuing && !handed
    {
      this.id, status, handed := id, Issuing, false;
    }
  }

  class CourierProcess {
    const id: OrderId
    var status: Delivery

    constructor (id: OrderId)
      ensures this.id == id && status == NewCardReceived
    {
      this.id, status := id, NewCardReceived;
    }
  }

  ghost function Processes(list: seq<ManufactureProcess>): seq<Process>
    reads list
  {
    seq(|list|, i requires 0 <= i < |list| reads list => Process(list[i].id, list[i].status, list[i].handed))
  }

  ghost function Parcels(list: seq<CourierProcess>): seq<Parcel>
    reads list
  {
    seq(|list|, i requires 0 <= i < |list| reads list => Parcel(list[i].id, list[i].status))
  }

  lemma {:induction false} RestOfProcesses(list: seq<ManufactureProcess>, done: seq<bool>)
    requires |done| == |list|
    ensures Processes(Rest(list, done)) == Rest(Processes(list), done)
    decreases |list|
  {
    if list != [] {
      RestOfProcesses(list[1..], done[1..]);
      assert Processes(list)[1..] == Processes(list[1..]);
    }
  }

  lemma {:induction false} RestOfParcels(list: seq<CourierProcess>, done: seq<bool>)
    requires |done| == |list|
    ensures Parcels(Rest(list, done)) == Rest(Parcels(list), done)
    decreases |list|
  {
    if list != [] {
      RestOfParcels(list[1..], done[1..]);
      assert Parcels(list)[1..] == Parcels(list[1..]);
    }
  }

  lemma {:induction false} DeliverOneMore(s: System, k: nat, n: nat, ids: seq<int>)
    requires k <= n < |s.parcels| <= |ids|
    ensures DeliverFrom(s, k, n + 1, ids) == Deliver(DeliverFrom(s, k, n, ids), n, ids[n])
    decreases n - k
  {
    if k < n {
      DeliverOneMore(Deliver(s, k, ids[k]), k + 1, n, ids);
    }
  }

  lemma {:induction false} ParcelIsNext(s: System, k: nat, n: nat, ids: seq<int>)
    requires k <= n < |s.parcels| <= |ids|
    ensures DeliverFrom(s, k, n, ids).parcels[n] == s.parcels[n]
    decreases n - k
  {
    if k < n {
      ParcelIsNext(Deliver(s, k, ids[k]), k + 1, n, ids);
    }
  }

  lemma {:induction false} WorkOneMore(s: System, k: nat, n: nat, outcomes: seq<Outcome>)
    requires k <= n < |s.making| <= |outcomes|
    ensures WorkFrom(s, k, n + 1, outcomes) == WorkOn(WorkFrom(s, k, n, outcomes), n, outcomes[n])
    decreases n - k
  {
    if k < n {
      WorkOneMore(WorkOn(s, k, outcomes[k]), k + 1, n, outcomes);
    }
  }

  lemma {:induction false} ProcessIsNext(s: System, k: nat, n: nat, outcomes: seq<Outcome>)
    requires k <= n < |s.making| <= |outcomes|
    ensures WorkFrom(s, k, n, outcomes).making[n] == s.making[n]
    decreases n - k
  {
    if k < n {
      ProcessIsNext(WorkOn(s, k, outcomes[k]), k + 1, n, outcomes);
    }
  }

  class CourierScheduler {
    var syncList: seq<CourierProcess>
    const orders: OrderController

    constructor (orders: OrderController)
      ensures syncList == [] && this.orders == orders
    {
      syncList, this.orders := [], orders;
    }

    method AddProcess(process: CourierProcess)
      modifies this
      ensures syncList == old(syncList) + [process]
    {
      syncList := syncList + [process];
    }

    method ProcessNewCardReceivedStatus(k: nat, shippingId: int, ghost s: System)
      requires k < |syncList| && Distinct(syncList)
      requires s.store == orders.dbHelper.Tables() && s.parcels == Parcels(syncList)
      requires s.parcels[k].status == NewCardReceived
      modifies syncList[k], orders.dbHelper
      ensures orders.dbHelper.Tables() == Deliver(s, k, shippingId).store
      ensures Parcels(syncList) == Deliver(s, k, shippingId).parcels
    {
      var process := syncList[k];
      if process.id in orders.dbHelper.orders {
        process.status := CardSent;
        var _ := orders.UpdateStatus(process.id, process.id, Some(CardShipped), ShippingDetails(shippingId));
      }
    }

    method ProcessCardSentStatus(k: nat, ghost s: System)
      requires k < |syncList| && Distinct(syncList)
      requires s.store == orders.dbHelper.Tables() && s.parcels == Parcels(syncList)
      requires s.parcels[k].status == CardSent
      modifies syncList[k], orders.dbHelper
      ensures orders.dbHelper.Tables() == Deliver(s, k, 0).store
      ensures Parcels(syncList) == Deliver(s, k, 0).parcels
    {
      var process := syncList[k];
      process.status := Delivered;
      var _ := orders.UpdateStatus(process.id, process.id, Some(CardDelivered), NoDetails);
    }

    /** The switch over the status of one parcel; true when it was delivered before. */
    method Visit(k: nat, shippingId: int, ghost s: System) returns (delivered: bool)
      requires k < |syncList| && Distinct(syncList)
      requires s.store == orders.dbHelper.Tables() && s.parcels == Parcels(syncList)
      modifies syncList[k], orders.dbHelper
      ensures delivered <==> s.parcels[k].status == Delivered
      ensures orders.dbHelper.Tables() == Deliver(s, k, shippingId).store
      ensures Parcels(syncList) == Deliver(s, k, shippingId).parcels
    {
      match syncList[k].status {
        case NewCardReceived => ProcessNewCardReceivedStatus(k, shippingId, s);
        case CardSent => ProcessCardSentStatus(k, s);
        case Delivered => return true;
        case Addressed(_) =>
      }
      return false;
    }

    /** `ids` are the shipping ids drawn; `s` is the system the pass starts from, seen through the two services. */
    method Run(ids: seq<int>, stopAt: nat, ghost s: System)
      requires Distinct(syncList) && |syncList| <= |ids|
      requires s.store == orders.dbHelper.Tables() && s.parcels == Parcels(syncList)
      modifies this, syncList, orders.dbHelper
      ensures orders.dbHelper.Tables() == CourierPass(s, ids, stopAt).store
      ensures Parcels(syncList) == CourierPass(s, ids, stopAt).parcels
    {
      var toBeRemoved: seq<CourierProcess> := [];
      ghost var now := s;
      var k := 0;
      while k < |syncList|
        invariant k <= |syncList| && k <= stopAt && syncList == old(syncList)
        invariant now.store == orders.dbHelper.Tables() && now.parcels == Parcels(syncList)
        invariant now == DeliverFrom(s, 0, k, ids)
        invariant Noted(syncList, toBeRemoved, DeliveredFlags(s.parcels), k)
      {
        if k == stopAt {
          return;
        }
        DeliverOneMore(s, 0, k, ids);
        ParcelIsNext(s, 0, k, ids);
        OneMoreNoted(syncList, toBeRemoved, DeliveredFlags(s.parcels), k);
        var delivered := Visit(k, ids[k], now);
        if delivered {
          toBeRemoved := toBeRemoved + [syncList[k]];
        }
        now := Deliver(now, k, ids[k]);
        k := k + 1;
      }
      if k == stopAt {
        return;
      }
      RemoveDelivered(toBeRemoved, s.parcels);
    }

    method RemoveDelivered(toBeRemoved: seq<CourierProcess>, ghost parcels: seq<Parcel>)
      requires Distinct(syncList) && Noted(syncList, toBeRemoved, DeliveredFlags(parcels), |syncList|)
      modifies this`syncList
      ensures Parcels(syncList) == Rest(old(Parcels(syncList)), DeliveredFlags(parcels))
    {
      RemoveAll(toBeRemoved);
      AllNoted(old(syncList), toBeRemoved, DeliveredFlags(parcels));
      RestOfParcels(old(syncList), DeliveredFlags(parcels));
    }

    method RemoveAll(toBeRemoved: seq<CourierProcess>)
      requires Distinct(syncList)
      modifies this`syncList
      ensures syncList == Rest(old(syncList), GoneFlags(old(syncList), toBeRemoved))
    {
      NothingGone(syncList);
      for i := 0 to |toBeRemoved|
        invariant syncList == Rest(old(syncList), GoneFlags(old(syncList), toBeRemoved[..i]))
      {
        RemoveOne(old(syncList), toBeRemoved[..i], toBeRemoved[i]);
        assert toBeRemoved[..i] + [toBeRemoved[i]] == toBeRemoved[..i + 1];
        syncList := Remove(syncList, toBeRemoved[i]);
      }
      assert toBeRemoved[..|toBeRemoved|] == toBeRemoved;
    }
  }

  class ManufactureScheduler {
    var syncList: seq<ManufactureProcess>
    const orders: OrderController
    const courier: CourierScheduler

    constructor (orders: OrderController, courier: CourierScheduler)
      ensures syncList == [] && this.orders == orders && this.courier == courier
    {
      syncList, this.orders, this.courier := [], orders, courier;
    }

    method AddProcess(process: ManufactureProcess)
      modifies this
      ensures syncList == old(syncList) + [process]
    {
      syncList := syncList + [process];
    }

    method ProcessIssueAndErrorStatus(k: nat, outcome: Outcome, ghost s: System)
      requires k < |syncList| && Distinct(syncList)
      requires s.store == orders.dbHelper.Tables() && s.making == Processes(syncList)
      requires s.making[k].status != CardMade
      modifies syncList[k], orders.dbHelper
      ensures orders.dbHelper.Tables() == WorkOn(s, k, outcome).store
      ensures Processes(syncList) == WorkOn(s, k, outcome).making
    {
      var process := syncList[k];
      if outcome == Crisis {
        if process.status != ManufactureError {
          process.status := ManufactureError;
          var _ := orders.UpdateStatus(process.id, process.id, Some(CardError), ErrorDetails);
        }
        return;
      }
      if outcome == Delay {
        process.status := ManufactureError;
        var _ := orders.UpdateStatus(process.id, process.id, Some(CardError), ErrorDetails);
      } else {
        process.status := CardMade;
        var _ := orders.UpdateStatus(process.id, process.id, Some(CardCreated), CardDetails);
      }
    }

    method HandToCourier(k: nat, ghost s: System)
      requires k < |syncList| && Distinct(syncList)
      requires s.making == Processes(syncList) && s.parcels == Parcels(courier.syncList)
      modifies syncList[k], courier
      ensures Processes(syncList) == s.making[k := s.making[k].(handed := true)]
      ensures Parcels(courier.syncList) == s.parcels + [Parcel(s.making[k].id, NewCardReceived)]
    {
      var parcel := new CourierProcess(syncList[k].id);
      courier.AddProcess(parcel);
      syncList[k].handed := true;
    }

    /** The switch over the status of one process; true when the card went to the courier. */
    method Visit(k: nat, outcome: Outcome, ghost s: System) returns (handedOver: bool)
      requires k < |syncList| && Distinct(syncList)
      requires s.store == orders.dbHelper.Tables() && s.making == Processes(syncList)
      requires s.parcels == Parcels(courier.syncList)
      modifies syncList[k], courier, orders.dbHelper
      ensures handedOver <==> s.making[k].status == CardMade
      ensures orders.dbHelper.Tables() == WorkOn(s, k, outcome).store
      ensures Processes(syncList) == WorkOn(s, k, outcome).making
      ensures Parcels(courier.syncList) == WorkOn(s, k, outcome).parcels
    {
      match syncList[k].status {
        case Issuing => ProcessIssueAndErrorStatus(k, outcome, s);
        case ManufactureError => ProcessIssueAndErrorStatus(k, outcome, s);
        case CardMade =>
          HandToCourier(k, s);
          return true;
      }
      return false;
    }

    /** `outcomes` are how the factory fares; `s` is the system the pass starts from, seen through the services. */
    method Run(outcomes: seq<Outcome>, stopAt: nat, ghost s: System)
      requires Distinct(syncList) && |syncList| <= |outcomes|
      requires s.store == orders.dbHelper.Tables() && s.making == Processes(syncList)
      requires s.parcels == Parcels(courier.syncList)
      modifies this, syncList, courier, orders.dbHelper
      ensures orders.dbHelper.Tables() == ManufacturePass(s, outcomes, stopAt).store
      ensures Processes(syncList) == ManufacturePass(s, outcomes, stopAt).making
      ensures Parcels(courier.syncList) == ManufacturePass(s, outcomes, stopAt).parcels
    {
      var toBeRemoved: seq<ManufactureProcess> := [];
      ghost var now := s;
      var k := 0;
      while k < |syncList|
        invariant k <= |syncList| && k <= stopAt && syncList == old(syncList)
        invariant now.store == orders.dbHelper.Tables() && now.making == Processes(syncList)
        invariant now.parcels == Parcels(courier.syncList)
        invariant now == WorkFrom(s, 0, k, outcomes)
        invariant Noted(syncList, toBeRemoved, MadeFlags(s.making), k)
      {
        if k == stopAt {
          return;
        }
        WorkOneMore(s, 0, k, outcomes);
        ProcessIsNext(s, 0, k, outcomes);
        OneMoreNoted(syncList, toBeRemoved, MadeFlags(s.making), k);
        var handedOver := Visit(k, outcomes[k], now);
        if handedOver {
          toBeRemoved := toBeRemoved + [syncList[k]];
        }
        now := WorkOn(now, k, outcomes[k]);
        k := k + 1;
      }
      if k == stopAt {
        return;
      }
      RemoveMade(toBeRemoved, s.making);
    }

    method RemoveMade(toBeRemoved: seq<ManufactureProcess>, ghost making: seq<Process>)
      requires Distinct(syncList) && Noted(syncList, toBeRemoved, MadeFlags(making), |syncList|)
      modifies this`syncList
      ensures Processes(syncList) == Rest(old(Processes(syncList)), MadeFlags(making))
    {
      RemoveAll(toBeRemoved);
      AllNoted(old(syncList), toBeRemoved, MadeFlags(making));
      RestOfProcesses(old(syncList), MadeFlags(making));
    }

    method RemoveAll(toBeRemoved: seq<ManufactureProcess>)
      requires Distinct(syncList)
      modifies this`syncList
      ensures syncList == Rest(old(syncList), GoneFlags(old(syncList), toBeRemoved))
    {
      NothingGone(syncList);
      for i := 0 to |toBeRemoved|
        invariant syncList == Rest(old(syncList), GoneFlags(old(syncList), toBeRemoved[..i]))
      {
        RemoveOne(old(syncList), toBeRemoved[..i], toBeRemoved[i]);
        assert toBeRemoved[..i] + [toBeRemoved[i]] == toBeRemoved[..i + 1];
        syncList := Remove(syncList, toBeRemoved[i]);
      }
      assert toBeRemoved[..|toBeRemoved|] == toBeRemoved;
    }
  }
}
