/** The batch over long trades: exactly which trades it closes or executes, and whose money and instruments it moves. */
module BrokerBatch {
  import opened BrokerTables
  import opened BrokerLedger
  import opened BrokerRuns

  // ----- The exact effect on each trade -----

  /** An open trade that survives the batch: not overdue at the sweep, and its price is still out of reach. */
  predicate StaysOpen(row: Trade, m: Market, now: int) {
    && !row.tradeClosed && !IsOverdue(row, now)
    && row.instrumentId in m.prices && IsWaiting(row, m.prices[row.instrumentId])
  }

  /** What the batch makes of one row. */
  ghost predicate IsDecided(row: Trade, after: Trade, m: Market, now: int) {
    && (after.tradeClosed <==> !StaysOpen(row, m, now))
    && (row.tradeClosed || !after.tradeClosed ==> after == row)
    && (IsOverdue(row, now) ==> after == Closed(row, TimeIsUp, false))
    && (after.transactionHappened ==> after.tradeClosed)
    && (after.transactionHappened && !row.tradeClosed ==>
          !IsOverdue(row, now) && (row.direction == LongBuy || row.direction == LongSell))
  }

  lemma ProcessTradeRow(t: Tables, m: Market, x: nat, id: nat)
    requires Consistent(t) && x < |t.trades| && id < |t.trades| && IsPriced(m, t.trades[x].instrumentId)
    requires !t.trades[x].transactionHappened
    ensures var row, after := t.trades[id], ProcessTrade(t, m, x).trades[id];
      && (id != x ==> after == row)
      && (id == x ==>
            && (after.tradeClosed <==> row.tradeClosed || !IsWaiting(row, m.prices[row.instrumentId]))
            && (!after.tradeClosed ==> after == row)
            && (after.transactionHappened ==> after.tradeClosed && (row.direction == LongBuy || row.direction == LongSell)))
  {
  }

  lemma {:induction false} ProcessAllRow(t: Tables, m: Market, ids: seq<nat>, id: nat)
    requires WellFormed(t) && AllPriced(t, m, ids) && AreOpen(t, ids) && id < |t.trades|
    ensures var u := ProcessAll(t, m, ids);
      && |u.trades| == |t.trades|
      && (id !in ids ==> u.trades[id] == t.trades[id])
      && (id in ids ==>
            var row, after := t.trades[id], u.trades[id];
            && row.instrumentId in m.prices
            && (after.tradeClosed <==> !IsWaiting(row, m.prices[row.instrumentId]))
            && (!after.tradeClosed ==> after == row)
            && (after.transactionHappened ==> after.tradeClosed && (row.direction == LongBuy || row.direction == LongSell)))
    decreases |ids|
  {
    if ids != [] {
      var next := ProcessTrade(t, m, ids[0]);
      assert WellFormedRow(t.trades[ids[0]]);
      ProcessTradeRow(t, m, ids[0], id);
      ProcessTradeWellFormed(t, m, ids[0]);
      ProcessTradeKeepsKeys(t, m, ids[0], ids[1..]);
      ProcessTradeKeepsOpen(t, m, ids);
      ProcessAllRow(next, m, ids[1..], id);
      assert id in ids <==> id == ids[0] || id in ids[1..];
    }
  }

  /** A trade is open after the batch exactly when it was open, not overdue and still waiting for its price; overdue
      trades never execute, and closed trades are not touched. */
  lemma BatchDecidesEveryTrade(t: Tables, m: Market, now: int, scan: seq<nat>, id: nat)
    requires WellFormed(t) && IsScan(scan, |t.trades|) && id < |t.trades|
    requires ProcessLongRunningTransactions(t, m, now, scan).Success?
    ensures var u := ProcessLongRunningTransactions(t, m, now, scan).value;
      |u.trades| == |t.trades| && IsDecided(t.trades[id], u.trades[id], m, now)
  {
    var swept := t.(trades := CloseOverdueTrades(t.trades, now));
    assert WellFormedRow(t.trades[id]);
    forall i | 0 <= i < |t.trades| ensures WellFormedRow(swept.trades[i]) {
      assert WellFormedRow(t.trades[i]);
    }
    OpenTradesAreOpen(swept, scan);
    OpenTradesMembers(swept.trades, scan);
    ProcessAllRow(swept, m, OpenTrades(swept.trades, scan), id);
    assert id in scan;
  }

  /** The batch fails exactly when an open trade that is not overdue lacks its instrument, price or product. */
  lemma BatchFailsIff(t: Tables, m: Market, now: int, scan: seq<nat>)
    requires Consistent(t) && IsScan(scan, |t.trades|)
    ensures ProcessLongRunningTransactions(t, m, now, scan).Failure? <==>
            exists id: nat :: id < |t.trades| && !t.trades[id].tradeClosed && !IsOverdue(t.trades[id], now)
              && !IsPriced(m, t.trades[id].instrumentId)
  {
    var swept := t.(trades := CloseOverdueTrades(t.trades, now));
    var open := OpenTrades(swept.trades, scan);
    OpenTradesMembers(swept.trades, scan);
    if !AllPriced(swept, m, open) {
      var k :| 0 <= k < |open| && !(open[k] < |t.trades| && IsPriced(m, swept.trades[open[k]].instrumentId));
      assert open[k] in open;
    }
    forall id: nat | id < |t.trades| && !t.trades[id].tradeClosed && !IsOverdue(t.trades[id], now)
      ensures id in open
    {
      assert id in scan;
    }
  }

  /** Closed trades are never touched again, by any run of requests. */
  lemma {:induction false} ClosedTradesNeverChange(t: Tables, run: seq<(Request, bool)>, id: nat)
    requires WellFormed(t) && IsRun(t, run) && id < |t.trades| && t.trades[id].tradeClosed
    ensures id < |Run(t, run).trades| && Run(t, run).trades[id] == t.trades[id]
    decreases |run|
  {
    if run != [] {
      var r := run[0].0;
      StepWellFormed(t, r, run[0].1);
      if r.Batch? && Handle(t, r).Success? {
        BatchDecidesEveryTrade(t, r.market, r.now, r.scan, id);
      }
      ClosedTradesNeverChange(Step(t, r, run[0].1), run[1..], id);
    }
  }

  // ----- One trade: its money and its row -----

  ghost function RowsOf(h: seq<BalanceHistory>, a: int): seq<BalanceHistory> {
    if h == [] then []
    else
      var last := h[|h| - 1];
      RowsOf(h[..|h| - 1], a) + if last.accountId == a then [last] else []
  }

  datatype Outcome = Wait | Reject(status: TradeStatus) | Execute(status: TradeStatus)

  /** What happens to a trade, decided by its own row, balance and holding. */
  function Decide(t: Tables, m: Market, id: nat): Outcome
    requires Consistent(t) && id < |t.trades| && IsPriced(m, t.trades[id].instrumentId)
  {
    var row := t.trades[id];
    var price, fee := m.prices[row.instrumentId], Fee(m, row.instrumentId);
    if row.direction == LongBuy then
      if row.entryPrice < price.low then Wait
      else if Cost(row.quantity, row.entryPrice) + fee > t.balances[row.accountId] then Reject(NotEnoughMoneyToBuy)
      else Execute(LongBuyFinished)
    else if row.direction == LongSell then
      if row.entryPrice > price.high then Wait
      else if !Owns(t, row.accountId, row.instrumentId, row.quantity) then Reject(NotEnoughStocksToSell)
      else Execute(LongSellFinished)
    else Reject(NotLongRunning)
  }

  /** The money side of an outcome; it leaves the trade table alone. */
  function Money(t: Tables, row: Trade, fee: real, outcome: Outcome): Tables
    requires row.accountId in t.balances && OWNER_ID in t.balances
  {
    if outcome.Execute? then Settle(t, row, fee) else t
  }

  /** The row side of an outcome. */
  function RowAfter(row: Trade, outcome: Outcome): Trade {
    match outcome
    case Wait => row
    case Reject(status) => Closed(row, status, false)
    case Execute(status) => Closed(row, status, true)
  }

  ghost predicate Priced(t: Tables, m: Market, id: nat) {
    Consistent(t) && id < |t.trades| && IsPriced(m, t.trades[id].instrumentId)
  }

  lemma ProcessIsMoneyAndRow(t: Tables, m: Market, id: nat)
    requires Priced(t, m, id)
    ensures var row, outcome := t.trades[id], Decide(t, m, id);
      ProcessTrade(t, m, id) ==
        Money(t, row, Fee(m, row.instrumentId), outcome).(trades := t.trades[id := RowAfter(row, outcome)])
  {
    if Decide(t, m, id).Wait? {
      assert t.trades[id := t.trades[id]] == t.trades;
    }
  }

  lemma RowsOfSettle(t: Tables, row: Trade, fee: real, a: int)
    requires row.accountId in t.balances && OWNER_ID in t.balances && a != OWNER_ID
    ensures RowsOf(Settle(t, row, fee).history, a) == RowsOf(t.history, a)
      + if a != row.accountId then []
        else
          var income := Income(row.direction, Cost(row.quantity, row.entryPrice));
          [BalanceHistory(a, t.balances[a], income, row.direction),
           BalanceHistory(a, t.balances[a] + income, -fee, TransactionFee)]
  {
    RowsOfUpdate(t, row.accountId, Cost(row.quantity, row.entryPrice), fee, row.direction, a);
    assert RowsOf(t.history, a) + [] == RowsOf(t.history, a);
  }

  lemma RowsOfUpdate(t: Tables, accountId: int, amount: real, fee: real, action: ActionType, a: int)
    requires accountId in t.balances && OWNER_ID in t.balances && a != OWNER_ID
    ensures RowsOf(UpdateBalance(t, accountId, amount, fee, action).history, a)
         == if a != accountId then RowsOf(t.history, a)
            else
              var income := Income(action, amount);
              RowsOf(t.history, a)
                + [BalanceHistory(a, t.balances[a], income, action)]
                + [BalanceHistory(a, t.balances[a] + income, -fee, TransactionFee)]
  {
    var income := Income(action, amount);
    var traded := Post(t, accountId, income, action);
    var charged := Post(traded, accountId, -fee, TransactionFee);
    RowsOfPost(t, accountId, income, action, a);
    RowsOfPost(traded, accountId, -fee, TransactionFee, a);
    RowsOfPost(charged, OWNER_ID, fee, CollectFee, a);
  }

  lemma RowsOfPost(t: Tables, accountId: int, change: real, action: ActionType, a: int)
    requires accountId in t.balances
    ensures RowsOf(Post(t, accountId, change, action).history, a)
         == if a != accountId then RowsOf(t.history, a)
            else RowsOf(t.history, a) + [BalanceHistory(a, t.balances[a], change, action)]
  {
    var h := Post(t, accountId, change, action).history;
    assert h[..|h| - 1] == t.history;
    assert RowsOf(t.history, a) + [] == RowsOf(t.history, a);
  }

  // ----- What the batch moves -----

  ghost predicate Executes(before: Trade, after: Trade) {
    after.transactionHappened && !before.transactionHappened
  }

  /** The trades that were executed between two states of the trade table, as account, direction and signed amount. */
  ghost function NewlyExecuted(before: seq<Trade>, after: seq<Trade>): multiset<Executed>
    requires |before| == |after|
  {
    if before == [] then multiset{}
    else
      var n := |before| - 1;
      NewlyExecuted(before[..n], after[..n]) + if Executes(before[n], after[n]) then ExecutedTrade(after[n]) else multiset{}
  }

  lemma {:induction false} NewlyExecutedAdds(before: seq<Trade>, after: seq<Trade>)
    requires |before| == |after|
    requires forall i :: 0 <= i < |before| && before[i].transactionHappened ==> after[i] == before[i]
    ensures ExecutedTrades(after) == ExecutedTrades(before) + NewlyExecuted(before, after)
  {
    if before != [] {
      var n := |before| - 1;
      NewlyExecutedAdds(before[..n], after[..n]);
    }
  }

  lemma {:induction false} NewlyExecutedSame(a: seq<Trade>, b: seq<Trade>, after: seq<Trade>)
    requires |a| == |b| == |after|
    requires forall i :: 0 <= i < |a| ==> a[i].transactionHappened == b[i].transactionHappened
    ensures NewlyExecuted(a, after) == NewlyExecuted(b, after)
  {
    if a != [] {
      NewlyExecutedSame(a[..|a| - 1], b[..|a| - 1], after[..|a| - 1]);
    }
  }

  lemma SameRest(e: multiset<Executed>, more: multiset<Executed>, h: multiset<Executed>, rows: multiset<Executed>)
    requires e + (h + rows) == (e + more) + h
    ensures rows == more
  {
    forall x ensures rows[x] == more[x] {
      assert (e + (h + rows))[x] == ((e + more) + h)[x];
    }
  }

  /** The account has the same balance, holdings and rows. */
  ghost predicate SameAccount(t: Tables, u: Tables, a: int) {
    && Balance(u, a) == Balance(t, a) && (forall i :: Holding(u, a, i) == Holding(t, a, i))
    && RowsOf(u.history, a) == RowsOf(t.history, a)
  }

  lemma SettleKeepsOthers(t: Tables, row: Trade, fee: real, a: int)
    requires row.accountId in t.balances && OWNER_ID in t.balances && a != OWNER_ID && a != row.accountId
    ensures SameAccount(t, Settle(t, row, fee), a)
  {
    RowsOfSettle(t, row, fee, a);
    assert RowsOf(t.history, a) + [] == RowsOf(t.history, a);
  }

  lemma ProcessKeepsAccount(t: Tables, m: Market, id: nat, a: int)
    requires Priced(t, m, id) && !t.trades[id].transactionHappened && a != OWNER_ID
    requires t.trades[id].accountId == a ==> !ProcessTrade(t, m, id).trades[id].transactionHappened
    ensures SameAccount(t, ProcessTrade(t, m, id), a)
  {
    var row, outcome := t.trades[id], Decide(t, m, id);
    ProcessIsMoneyAndRow(t, m, id);
    if outcome.Execute? {
      SettleKeepsOthers(t, row, Fee(m, row.instrumentId), a);
    }
  }

  /** None of these trades is one of the account's that got executed. */
  ghost predicate NoneExecuted(t: Tables, u: Tables, ids: seq<nat>, a: int) {
    && |u.trades| == |t.trades|
    && forall k :: 0 <= k < |ids| && ids[k] < |t.trades| && t.trades[ids[k]].accountId == a ==>
         !u.trades[ids[k]].transactionHappened
  }

  lemma {:induction false} ProcessAllKeepsAccount(t: Tables, m: Market, ids: seq<nat>, a: int)
    requires WellFormed(t) && AllPriced(t, m, ids) && AreOpen(t, ids) && a != OWNER_ID
    requires NoneExecuted(t, ProcessAll(t, m, ids), ids, a)
    ensures SameAccount(t, ProcessAll(t, m, ids), a)
    decreases |ids|
  {
    if ids != [] {
      var id, u := ids[0], ProcessAll(t, m, ids);
      var next := ProcessTrade(t, m, id);
      assert WellFormedRow(t.trades[id]);
      ProcessTradeWellFormed(t, m, id);
      ProcessTradeKeepsKeys(t, m, id, ids[1..]);
      ProcessTradeKeepsOpen(t, m, ids);
      ProcessAllRow(next, m, ids[1..], id);
      ProcessKeepsAccount(t, m, id, a);
      LaterNoneExecuted(t, m, ids, a);
      ProcessAllKeepsAccount(next, m, ids[1..], a);
    }
  }

  lemma LaterNoneExecuted(t: Tables, m: Market, ids: seq<nat>, a: int)
    requires WellFormed(t) && AllPriced(t, m, ids) && AreOpen(t, ids) && ids != []
    requires NoneExecuted(t, ProcessAll(t, m, ids), ids, a)
    ensures Consistent(ProcessTrade(t, m, ids[0])) && AllPriced(ProcessTrade(t, m, ids[0]), m, ids[1..])
    ensures var next := ProcessTrade(t, m, ids[0]); NoneExecuted(next, ProcessAll(next, m, ids[1..]), ids[1..], a)
  {
    ProcessTradeKeepsKeys(t, m, ids[0], ids[1..]);
    ProcessKeepsAccounts(t, m, ids[0]);
    TailNoneExecuted(t, ProcessTrade(t, m, ids[0]), ProcessAll(t, m, ids), ids, a);
  }

  lemma ProcessKeepsAccounts(t: Tables, m: Market, id: nat)
    requires Priced(t, m, id)
    ensures var u := ProcessTrade(t, m, id);
      |u.trades| == |t.trades| && forall i :: 0 <= i < |t.trades| ==> u.trades[i].accountId == t.trades[i].accountId
  {
    ProcessIsMoneyAndRow(t, m, id);
  }

  lemma TailNoneExecuted(t: Tables, next: Tables, u: Tables, ids: seq<nat>, a: int)
    requires NoneExecuted(t, u, ids, a) && ids != [] && |next.trades| == |t.trades|
    requires forall i :: 0 <= i < |t.trades| ==> next.trades[i].accountId == t.trades[i].accountId
    ensures NoneExecuted(next, u, ids[1..], a)
  {
    forall k | 0 <= k < |ids[1..]| && ids[1..][k] < |t.trades| && t.trades[ids[1..][k]].accountId == a
      ensures !u.trades[ids[1..][k]].transactionHappened
    {
      assert ids[1..][k] == ids[k + 1];
    }
  }

  lemma SweptIsWellFormed(t: Tables, now: int)
    requires WellFormed(t)
    ensures WellFormed(t.(trades := CloseOverdueTrades(t.trades, now)))
    ensures forall i :: 0 <= i < |t.trades| ==>
              CloseOverdueTrades(t.trades, now)[i].transactionHappened == t.trades[i].transactionHappened
  {
    forall i | 0 <= i < |t.trades|
      ensures WellFormedRow(SweptRow(t.trades[i], now))
      ensures SweptRow(t.trades[i], now).transactionHappened == t.trades[i].transactionHappened
    {
      assert WellFormedRow(t.trades[i]);
    }
  }

  /** Only an open trade that is not overdue and whose price is within reach gets executed. */
  lemma OnlyDueTradesExecute(t: Tables, m: Market, now: int, scan: seq<nat>, id: nat)
    requires WellFormed(t) && IsScan(scan, |t.trades|) && id < |t.trades|
    requires ProcessLongRunningTransactions(t, m, now, scan).Success?
    ensures var u := ProcessLongRunningTransactions(t, m, now, scan).value; var row := t.trades[id];
      && |u.trades| == |t.trades|
      && (Executes(row, u.trades[id]) ==>
            && !row.tradeClosed && !IsOverdue(row, now) && (row.direction == LongBuy || row.direction == LongSell)
            && row.instrumentId in m.prices && !IsWaiting(row, m.prices[row.instrumentId]))
      && (row.transactionHappened ==> u.trades[id] == row)
  {
    BatchDecidesEveryTrade(t, m, now, scan, id);
    assert WellFormedRow(t.trades[id]);
    BatchPricesOpenTrades(t, m, now, scan, id);
  }

  lemma BatchPricesOpenTrades(t: Tables, m: Market, now: int, scan: seq<nat>, id: nat)
    requires Consistent(t) && IsScan(scan, |t.trades|) && id < |t.trades|
    requires ProcessLongRunningTransactions(t, m, now, scan).Success?
    ensures !t.trades[id].tradeClosed && !IsOverdue(t.trades[id], now) ==> IsPriced(m, t.trades[id].instrumentId)
  {
    BatchFailsIff(t, m, now, scan);
  }

  lemma RowsAreExecutions(t: Tables, u: Tables)
    requires LedgerStep(t, u) && |t.trades| == |u.trades|
    requires forall i :: 0 <= i < |t.trades| && t.trades[i].transactionHappened ==> u.trades[i] == t.trades[i]
    ensures TradeRows(u.history[|t.history|..]) == NewlyExecuted(t.trades, u.trades)
  {
    var rows := u.history[|t.history|..];
    assert u.history == t.history + rows;
    NewlyExecutedAdds(t.trades, u.trades);
    TradeRowsConcat(t.history, rows);
    SameRest(ExecutedTrades(t.trades), NewlyExecuted(t.trades, u.trades), TradeRows(t.history), TradeRows(rows));
  }

  /** The tables after the sweep, and what the loop keeps of them. */
  lemma LoopStep(t: Tables, m: Market, now: int, scan: seq<nat>)
    requires WellFormed(t) && IsScan(scan, |t.trades|)
    requires ProcessLongRunningTransactions(t, m, now, scan).Success?
    ensures var swept := t.(trades := CloseOverdueTrades(t.trades, now));
      var u := ProcessLongRunningTransactions(t, m, now, scan).value;
      LedgerStep(swept, u) && |u.trades| == |t.trades|
  {
    var swept := t.(trades := CloseOverdueTrades(t.trades, now));
    var open := OpenTrades(swept.trades, scan);
    SweptIsWellFormed(t, now);
    OpenTradesAreOpen(swept, scan);
    ProcessAllLedger(swept, m, open);
    ProcessAllLength(swept, m, open);
  }

  lemma HappenedStays(t: Tables, m: Market, now: int, scan: seq<nat>, i: nat)
    requires WellFormed(t) && IsScan(scan, |t.trades|) && i < |t.trades|
    requires ProcessLongRunningTransactions(t, m, now, scan).Success?
    requires CloseOverdueTrades(t.trades, now)[i].transactionHappened
    ensures var u := ProcessLongRunningTransactions(t, m, now, scan).value;
      |u.trades| == |t.trades| && u.trades[i] == CloseOverdueTrades(t.trades, now)[i]
  {
    OnlyDueTradesExecute(t, m, now, scan, i);
    assert WellFormedRow(t.trades[i]);
  }

  /** The money the batch moves is that of the trades it executes and nothing else: its trade rows are exactly those trades,
      each followed by its fee rows. Overdue, waiting, rejected and closed trades leave no row. */
  lemma BatchRowsAreExecutions(t: Tables, m: Market, now: int, scan: seq<nat>)
    requires WellFormed(t) && IsScan(scan, |t.trades|)
    requires ProcessLongRunningTransactions(t, m, now, scan).Success?
    ensures var u := ProcessLongRunningTransactions(t, m, now, scan).value;
      && |u.trades| == |t.trades| && t.history <= u.history
      && TradeRows(u.history[|t.history|..]) == NewlyExecuted(t.trades, u.trades)
      && FeesFollowTrades(u.history[|t.history|..])
  {
    var swept := t.(trades := CloseOverdueTrades(t.trades, now));
    LoopStep(t, m, now, scan);
    var u := ProcessLongRunningTransactions(t, m, now, scan).value;
    forall i | 0 <= i < |t.trades| && swept.trades[i].transactionHappened ensures u.trades[i] == swept.trades[i] {
      HappenedStays(t, m, now, scan, i);
    }
    RowsAreExecutions(swept, u);
    SweptIsWellFormed(t, now);
    NewlyExecutedSame(t.trades, swept.trades, u.trades);
  }

  lemma {:induction false} ProcessAllLength(t: Tables, m: Market, ids: seq<nat>)
    requires Consistent(t) && AllPriced(t, m, ids)
    ensures |ProcessAll(t, m, ids).trades| == |t.trades|
    decreases |ids|
  {
    if ids != [] {
      ProcessTradeKeepsKeys(t, m, ids[0], ids[1..]);
      ProcessAllLength(ProcessTrade(t, m, ids[0]), m, ids[1..]);
    }
  }

  /** An account other than the owner of whose trades none is executed keeps its balance, its holdings and its rows. */
  lemma BatchSparesAccount(t: Tables, m: Market, now: int, scan: seq<nat>, a: int)
    requires WellFormed(t) && IsScan(scan, |t.trades|) && a != OWNER_ID
    requires ProcessLongRunningTransactions(t, m, now, scan).Success?
    requires var u := ProcessLongRunningTransactions(t, m, now, scan).value;
      forall id :: 0 <= id < |t.trades| && id < |u.trades| && t.trades[id].accountId == a ==>
        !Executes(t.trades[id], u.trades[id])
    ensures SameAccount(t, ProcessLongRunningTransactions(t, m, now, scan).value, a)
  {
    var swept := t.(trades := CloseOverdueTrades(t.trades, now));
    var open, u := OpenTrades(swept.trades, scan), ProcessLongRunningTransactions(t, m, now, scan).value;
    SweptIsWellFormed(t, now);
    OpenTradesAreOpen(swept, scan);
    ProcessAllLength(swept, m, open);
    forall k | 0 <= k < |open| && swept.trades[open[k]].accountId == a
      ensures !u.trades[open[k]].transactionHappened
    {
      assert WellFormedRow(t.trades[open[k]]);
      assert !Executes(t.trades[open[k]], u.trades[open[k]]);
    }
    ProcessAllKeepsAccount(swept, m, open, a);
  }
}
