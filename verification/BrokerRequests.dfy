/** The broker's requests: each runs in one transaction over a fresh context, and commits exactly what the tables'
    specification says, or nothing. */
module BrokerRequests {
  import opened Wrappers
  import opened BrokerTables
  import opened BrokerService

  /** How a request ends, given what the specification says of it and whether the database accepts the save. */
  ghost predicate Ends(spec: Result<Tables, BrokerError>, saved: bool, before: Tables, after: Tables,
                       error: Option<BrokerError>)
  {
    if spec.Failure? then error == Some(spec.error) && after == before
    else if !saved then error == Some(SaveFailed) && after == before
    else error == None && after == spec.value
  }

  method SaveChangesOrRollback(database: Database, context: DbContext, saved: bool) returns (error: Option<BrokerError>)
    requires context.Valid() && database !in context.tracked
    modifies database
    ensures database.tables == if saved then old(context.tables) else old(database.tables)
    ensures error == if saved then None else Some(SaveFailed)
  {
    if saved {
      database.tables := context.Snapshot();
      return None;
    }
    return Some(SaveFailed);
  }

  /** Deposit and withdraw. */
  method ModifyBalance(database: Database, accountId: int, amount: real, action: ActionType, saved: bool)
    returns (error: Option<BrokerError>)
    requires action == Deposit || action == Withdraw
    modifies database
    ensures Ends(BrokerTables.ModifyBalance(old(database.tables), accountId, amount, action), saved,
                 old(database.tables), database.tables, error)
  {
    var context := new DbContext.Load(database);
    if accountId !in context.balances {
      return Some(AccountNotFound);
    }
    var balance := context.balances[accountId];
    assert balance in context.tracked;
    error := context.ChangeBalance(balance, amount, action);
    if error.None? {
      error := SaveChangesOrRollback(database, context, saved);
    }
  }

  method BuyAssets(database: Database, m: Market, accountId: int, instrumentId: int, amount: real, now: int, saved: bool)
    returns (error: Option<BrokerError>)
    modifies database
    ensures Ends(QuickTransaction(old(database.tables), m, accountId, instrumentId, amount, Buy, now), saved,
                 old(database.tables), database.tables, error)
  {
    if amount < 0.0 {
      return Some(NegativeAmount);
    }
    var context := new DbContext.Load(database);
    if accountId !in context.balances {
      return Some(AccountNotFound);
    }
    if instrumentId !in m.instruments {
      return Some(InstrumentNotFound);
    }
    if instrumentId !in m.prices || m.instruments[instrumentId] !in m.products {
      return Some(MissingData);
    }
    var price := m.prices[instrumentId].open;
    var fee := m.products[m.instruments[instrumentId]];
    var totalCost := Cost(amount, price) + fee;
    if totalCost > context.balances[accountId].value {
      return Some(NotEnoughMoney);
    }
    if OWNER_ID !in context.balances {
      return Some(MissingData);
    }
    var row := QuickTrade(accountId, instrumentId, Buy, price, amount, now);
    context.AddTrade(row);
    context.Settle(row, fee);
    error := SaveChangesOrRollback(database, context, saved);
  }

  method SellAssets(database: Database, m: Market, accountId: int, instrumentId: int, amount: real, now: int, saved: bool)
    returns (error: Option<BrokerError>)
    modifies database
    ensures Ends(QuickTransaction(old(database.tables), m, accountId, instrumentId, amount, Sell, now), saved,
                 old(database.tables), database.tables, error)
  {
    if amount < 0.0 {
      return Some(NegativeAmount);
    }
    var context := new DbContext.Load(database);
    if accountId !in context.balances {
      return Some(AccountNotFound);
    }
    if instrumentId !in m.instruments {
      return Some(InstrumentNotFound);
    }
    if instrumentId !in m.prices || m.instruments[instrumentId] !in m.products {
      return Some(MissingData);
    }
    var price := m.prices[instrumentId].open;
    var fee := m.products[m.instruments[instrumentId]];
    var key := (accountId, instrumentId);
    if key !in context.owned || context.owned[key].quantity < amount {
      return Some(NotEnoughAssets);
    }
    if OWNER_ID !in context.balances {
      return Some(MissingData);
    }
    var row := QuickTrade(accountId, instrumentId, Sell, price, amount, now);
    context.AddTrade(row);
    context.Settle(row, fee);
    error := SaveChangesOrRollback(database, context, saved);
  }

  method CreateLongTransaction(database: Database, m: Market, accountId: int, instrumentId: int, amount: real,
                               duration: int, price: real, direction: ActionType, now: int, saved: bool)
    returns (error: Option<BrokerError>)
    requires direction == LongBuy || direction == LongSell
    modifies database
    ensures Ends(BrokerTables.CreateLongTransaction(old(database.tables), m, accountId, instrumentId, amount, duration,
                                                    price, direction, now),
                 saved, old(database.tables), database.tables, error)
  {
    if amount < 0.0 || price < 0.0 || duration < 0 {
      return Some(NegativeAmount);
    }
    var context := new DbContext.Load(database);
    if accountId !in context.balances {
      return Some(AccountNotFound);
    }
    if instrumentId !in m.instruments {
      return Some(InstrumentNotFound);
    }
    context.AddTrade(LongTrade(accountId, instrumentId, direction, price, amount, duration, now));
    error := SaveChangesOrRollback(database, context, saved);
  }

  // ----- The batch -----

  /** The sweep visits the rows in the database's order; every row ends up swept. */
  method CloseOverdueTrades(context: DbContext, now: int, scan: seq<nat>)
    requires context.Valid() && IsScan(scan, |context.trades|)
    modifies context`tables, context.trades
    ensures context.Valid()
    ensures context.tables ==
            old(context.tables).(trades := BrokerTables.CloseOverdueTrades(old(context.tables).trades, now))
  {
    ghost var before := context.tables;
    for k := 0 to |scan|
      invariant context.Valid()
      invariant context.tables == before.(trades := context.tables.trades)
      invariant forall id: nat :: id < |before.trades| ==>
        context.tables.trades[id] == if id in scan[..k] then SweptRow(before.trades[id], now) else before.trades[id]
    {
      var trade := context.trades[scan[k]];
      assert scan[k] !in scan[..k];
      assert scan[..k + 1] == scan[..k] + [scan[k]];
      if !trade.row.tradeClosed && trade.row.timestampClose.Some? && trade.row.timestampClose.value < now {
        context.CloseTrade(trade, TimeIsUp, false);
      }
    }
    assert scan[..|scan|] == scan;
  }

  /** The query for the open trades, in the database's order. */
  method QueryOpenTrades(trades: seq<TrackedTrade>, ghost rows: seq<Trade>, scan: seq<nat>) returns (open: seq<nat>)
    requires |rows| == |trades| && forall i :: 0 <= i < |rows| ==> trades[i].row == rows[i]
    requires forall k :: 0 <= k < |scan| ==> scan[k] < |rows|
    ensures open == OpenTrades(rows, scan)
  {
    open := [];
    for k := 0 to |scan|
      invariant open + OpenTrades(rows, scan[k..]) == OpenTrades(rows, scan)
    {
      assert scan[k..][1..] == scan[k + 1..];
      if !trades[scan[k]].row.tradeClosed {
        open := open + [scan[k]];
      }
    }
  }

  method ProcessLongRunningTransactions(database: Database, m: Market, now: int, scan: seq<nat>, saved: bool)
    returns (error: Option<BrokerError>)
    requires Consistent(database.tables) && IsScan(scan, |database.tables.trades|)
    modifies database
    ensures Ends(BrokerTables.ProcessLongRunningTransactions(old(database.tables), m, now, scan), saved,
                 old(database.tables), database.tables, error)
  {
    var context := new DbContext.Load(database);
    var processed := RunBatch(context, m, now, scan);
    if !processed {
      return Some(MissingData);
    }
    error := SaveChangesOrRollback(database, context, saved);
  }

  method RunBatch(context: DbContext, m: Market, now: int, scan: seq<nat>) returns (processed: bool)
    requires context.Valid() && Consistent(context.tables) && IsScan(scan, |context.tables.trades|)
    modifies context, context.tracked
    ensures var spec := BrokerTables.ProcessLongRunningTransactions(old(context.tables), m, now, scan);
      if processed then spec == Success(context.tables) else spec == Failure(MissingData)
    ensures processed ==> context.Valid()
    ensures fresh(context.tracked - old(context.tracked))
  {
    var open := SweepAndQuery(context, now, scan);
    ghost var swept := context.tables;
    processed := ProcessOpenTrades(context, m, open);
    BatchResult(old(context.tables), m, now, scan, swept, open, processed, context.tables);
  }

  method SweepAndQuery(context: DbContext, now: int, scan: seq<nat>) returns (open: seq<nat>)
    requires context.Valid() && IsScan(scan, |context.trades|)
    modifies context`tables, context.trades
    ensures context.Valid() && context.tables
              == old(context.tables).(trades := BrokerTables.CloseOverdueTrades(old(context.tables).trades, now))
    ensures open == OpenTrades(context.tables.trades, scan)
    ensures forall i :: 0 <= i < |open| ==> open[i] < |context.trades|
  {
    CloseOverdueTrades(context, now, scan);
    open := QueryOpenTrades(context.trades, context.tables.trades, scan);
    OpenTradesInRange(context.tables, open, scan);
  }

  lemma BatchResult(t: Tables, m: Market, now: int, scan: seq<nat>, swept: Tables, open: seq<nat>, processed: bool, u: Tables)
    requires Consistent(t) && IsScan(scan, |t.trades|)
    requires swept == t.(trades := BrokerTables.CloseOverdueTrades(t.trades, now))
    requires open == OpenTrades(swept.trades, scan)
    requires processed == AllPriced(swept, m, open) && (processed ==> u == ProcessAll(swept, m, open))
    ensures BrokerTables.ProcessLongRunningTransactions(t, m, now, scan)
         == if processed then Success(u) else Failure(MissingData)
  {
  }

  /** The loop over the open trades; it stops at the first one without an instrument, price or product. */
  method ProcessOpenTrades(context: DbContext, m: Market, open: seq<nat>) returns (processed: bool)
    requires context.Valid() && Consistent(context.tables)
    requires forall i :: 0 <= i < |open| ==> open[i] < |context.trades|
    modifies context, context.tracked
    ensures processed == AllPriced(old(context.tables), m, open)
    ensures processed ==> context.Valid() && context.tables == ProcessAll(old(context.tables), m, open)
    ensures fresh(context.tracked - old(context.tracked))
  {
    ghost var swept := context.tables;
    assert open[0..] == open;
    for k := 0 to |open|
      invariant context.Valid() && fresh(context.tracked - old(context.tracked))
      invariant Reached(swept, m, open, k, context.tables)
    {
      var openTrade := context.trades[open[k]];
      ghost var t := context.tables;
      var instrumentId := openTrade.row.instrumentId;
      if instrumentId !in m.instruments || instrumentId !in m.prices || m.instruments[instrumentId] !in m.products {
        assert !AllPriced(swept, m, open);
        return false;
      }
      ProcessOpenTrade(context, openTrade, m);
      NextTrade(swept, t, m, open, k);
    }
    AllReached(swept, m, open, context.tables);
    return true;
  }

  lemma OpenTradesInRange(swept: Tables, open: seq<nat>, scan: seq<nat>)
    requires IsScan(scan, |swept.trades|) && open == OpenTrades(swept.trades, scan)
    ensures forall i :: 0 <= i < |open| ==> open[i] < |swept.trades|
  {
    OpenTradesMembers(swept.trades, scan);
    assert forall i :: 0 <= i < |open| ==> open[i] in open;
  }

  method ProcessOpenTrade(context: DbContext, openTrade: TrackedTrade, m: Market)
    requires context.Valid() && Consistent(context.tables)
    requires openTrade.id < |context.trades| && context.trades[openTrade.id] == openTrade
    requires IsPriced(m, openTrade.row.instrumentId)
    modifies context, context.tracked
    ensures openTrade.id < |old(context.tables).trades|
    ensures IsPriced(m, old(context.tables).trades[openTrade.id].instrumentId)
    ensures context.Valid() && context.tables == ProcessTrade(old(context.tables), m, openTrade.id)
    ensures context.trades == old(context.trades) && fresh(context.tracked - old(context.tracked))
  {
    var price := m.prices[openTrade.row.instrumentId];
    var fee := m.products[m.instruments[openTrade.row.instrumentId]];
    if openTrade.row.direction == LongBuy {
      context.ProcessLongBuy(openTrade, price, fee);
    } else if openTrade.row.direction == LongSell {
      context.ProcessLongSell(openTrade, price, fee);
    } else {
      context.CloseTrade(openTrade, NotLongRunning, false);
    }
  }

  /** The batch after k open trades, all of them priced: processing the rest from here ends where the whole batch ends. */
  ghost predicate Reached(swept: Tables, m: Market, open: seq<nat>, k: nat, t: Tables)
    requires k <= |open|
  {
    && Consistent(swept) && Consistent(t) && |t.trades| == |swept.trades|
    && (forall i :: 0 <= i < |open| ==> open[i] < |swept.trades|)
    && (forall i :: 0 <= i < |t.trades| ==> t.trades[i].instrumentId == swept.trades[i].instrumentId)
    && (forall i :: 0 <= i < k ==> IsPriced(m, swept.trades[open[i]].instrumentId))
    && (AllPriced(swept, m, open) ==>
          AllPriced(t, m, open[k..]) && ProcessAll(t, m, open[k..]) == ProcessAll(swept, m, open))
  }

  lemma NextTrade(swept: Tables, t: Tables, m: Market, open: seq<nat>, k: nat)
    requires k < |open| && Reached(swept, m, open, k, t)
    requires IsPriced(m, t.trades[open[k]].instrumentId)
    ensures Reached(swept, m, open, k + 1, ProcessTrade(t, m, open[k]))
  {
    assert open[k..][0] == open[k] && open[k..][1..] == open[k + 1..];
    ProcessKeepsInstruments(t, m, open[k]);
    if AllPriced(t, m, open[k..]) {
      FirstThenRest(t, m, open[k..]);
    }
    ReachedNext(swept, t, m, open, k, ProcessTrade(t, m, open[k]));
  }

  lemma ProcessKeepsInstruments(t: Tables, m: Market, id: nat)
    requires Consistent(t) && id < |t.trades| && IsPriced(m, t.trades[id].instrumentId)
    ensures var u := ProcessTrade(t, m, id);
      && Consistent(u) && |u.trades| == |t.trades|
      && forall i :: 0 <= i < |t.trades| ==> u.trades[i].instrumentId == t.trades[i].instrumentId
  {
    ProcessTradeKeepsKeys(t, m, id, []);
  }

  lemma FirstThenRest(t: Tables, m: Market, rest: seq<nat>)
    requires Consistent(t) && AllPriced(t, m, rest) && rest != []
    ensures var u := ProcessTrade(t, m, rest[0]);
      Consistent(u) && AllPriced(u, m, rest[1..]) && ProcessAll(u, m, rest[1..]) == ProcessAll(t, m, rest)
  {
    ProcessTradeKeepsKeys(t, m, rest[0], rest[1..]);
  }

  lemma ReachedNext(swept: Tables, t: Tables, m: Market, open: seq<nat>, k: nat, u: Tables)
    requires k < |open| && Reached(swept, m, open, k, t) && IsPriced(m, t.trades[open[k]].instrumentId)
    requires Consistent(u) && |u.trades| == |t.trades|
    requires forall i :: 0 <= i < |t.trades| ==> u.trades[i].instrumentId == t.trades[i].instrumentId
    requires AllPriced(t, m, open[k..]) ==>
               AllPriced(u, m, open[k + 1..]) && ProcessAll(u, m, open[k + 1..]) == ProcessAll(t, m, open[k..])
    ensures Reached(swept, m, open, k + 1, u)
  {
  }

  lemma AllReached(swept: Tables, m: Market, open: seq<nat>, t: Tables)
    requires Reached(swept, m, open, |open|, t)
    ensures AllPriced(swept, m, open) && ProcessAll(swept, m, open) == t
  {
    assert open[|open|..] == [];
  }
}
