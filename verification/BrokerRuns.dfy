/** Whole runs of broker requests: what every reachable state of the tables satisfies. */
module BrokerRuns {
  import opened Wrappers
  import opened BrokerTables
  import opened BrokerLedger

  // ----- Well-formed tables -----

  ghost predicate WellFormedRow(row: Trade) {
    row.quantity >= 0.0 && row.entryPrice >= 0.0 && (row.transactionHappened ==> row.tradeClosed)
  }

  ghost predicate WellFormed(t: Tables) {
    && Consistent(t)
    && (forall i :: 0 <= i < |t.trades| ==> WellFormedRow(t.trades[i]))
    && (forall k :: k in t.holdings ==> t.holdings[k] >= 0.0)
  }

  // ----- Solvency -----

  /** The fees charged to the account on its sells: the fee rows that follow one of its sell rows. */
  ghost function SellFees(rows: seq<BalanceHistory>, accountId: int): real {
    if |rows| < 2 then 0.0
    else
      var n := |rows|;
      SellFees(rows[..n - 1], accountId)
        + if rows[n - 1].action == TransactionFee && rows[n - 1].accountId == accountId && IsSell(rows[n - 2].action)
          then -rows[n - 1].valueChange else 0.0
  }

  ghost predicate FeesCharged(rows: seq<BalanceHistory>) {
    forall k :: 0 <= k < |rows| && rows[k].action == TransactionFee ==> rows[k].valueChange <= 0.0
  }

  lemma {:induction false} SellFeesNonNegative(rows: seq<BalanceHistory>, accountId: int)
    requires FeesCharged(rows)
    ensures SellFees(rows, accountId) >= 0.0
    decreases |rows|
  {
    if |rows| >= 2 {
      SellFeesNonNegative(rows[..|rows| - 1], accountId);
    }
  }

  lemma {:induction false} NoSellsNoSellFees(rows: seq<BalanceHistory>, accountId: int)
    requires FeesFollowTrades(rows)
    requires forall k :: 0 <= k < |rows| && rows[k].accountId == accountId ==> !IsSell(rows[k].action)
    ensures SellFees(rows, accountId) == 0.0
  {
    NoSellsNoSellFeesUpTo(rows, |rows|, accountId);
    assert rows[..|rows|] == rows;
  }

  lemma {:induction false} NoSellsNoSellFeesUpTo(rows: seq<BalanceHistory>, n: nat, accountId: int)
    requires n <= |rows| && FeesFollowTrades(rows)
    requires forall k :: 0 <= k < |rows| && rows[k].accountId == accountId ==> !IsSell(rows[k].action)
    ensures SellFees(rows[..n], accountId) == 0.0
  {
    if n >= 2 {
      assert rows[..n][..n - 1] == rows[..n - 1];
      NoSellsNoSellFeesUpTo(rows, n - 1, accountId);
      assert RowFits(rows, n - 1);
      assert RowFits(rows, n - 2);
    }
  }

  /** Every balance is at least minus the fees of the account's sells since the history had n rows. */
  ghost predicate Solvent(t: Tables, n: nat) {
    && n <= |t.history|
    && FeesCharged(t.history[n..])
    && forall a :: a in t.balances ==> t.balances[a] >= -SellFees(t.history[n..], a)
  }

  lemma PostKeepsSolvent(t: Tables, n: nat, accountId: int, change: real, action: ActionType)
    requires Solvent(t, n) && accountId in t.balances && !IsFee(action) && !IsTrade(action)
    requires change >= 0.0 || t.balances[accountId] + change >= 0.0
    ensures Solvent(Post(t, accountId, change, action), n)
  {
    var u := Post(t, accountId, change, action);
    var rows := u.history[n..];
    assert rows[..|rows| - 1] == t.history[n..];
    forall a | a in u.balances ensures u.balances[a] >= -SellFees(rows, a) {
      assert SellFees(rows, a) == SellFees(t.history[n..], a);
      SellFeesNonNegative(t.history[n..], a);
    }
  }

  lemma SellFeesOfSettle(rows: seq<BalanceHistory>, more: seq<BalanceHistory>, a: int)
    requires |more| == 3
    requires more[0].action != TransactionFee && more[1].action == TransactionFee && more[2].action == CollectFee
    ensures SellFees(rows + more, a) == SellFees(rows, a)
              + if more[1].accountId == a && IsSell(more[0].action) then -more[1].valueChange else 0.0
  {
    var n := |rows|;
    var all := rows + more;
    assert all[..n + 2][..n + 1] == all[..n + 1] && all[..n + 1][..n] == rows && all[..n + 3] == all;
    assert SellFees(all, a) == SellFees(all[..n + 2], a);
    assert all[..n + 2][n] == more[0] && all[..n + 2][n + 1] == more[1];
    assert SellFees(all[..n + 1], a) == SellFees(rows, a);
  }

  /** A buy is checked against its cost and fee; a sell is not checked against its fee. */
  lemma SettleKeepsSolvent(t: Tables, n: nat, row: Trade, fee: real)
    requires Solvent(t, n) && row.accountId in t.balances && OWNER_ID in t.balances
    requires IsTrade(row.direction) && row.quantity >= 0.0 && row.entryPrice >= 0.0 && fee >= 0.0
    requires IsSell(row.direction) || Cost(row.quantity, row.entryPrice) + fee <= t.balances[row.accountId]
    ensures Solvent(Settle(t, row, fee), n)
  {
    var amount := Cost(row.quantity, row.entryPrice);
    UpdateBalanceEffect(t, row.accountId, amount, fee, row.direction);
    var u := Settle(t, row, fee);
    var rows, more := t.history[n..], u.history[|t.history|..];
    assert u.history[n..] == rows + more;
    forall a | a in u.balances ensures u.balances[a] >= -SellFees(u.history[n..], a) {
      SellFeesOfSettle(rows, more, a);
      SellFeesNonNegative(rows, a);
    }
  }

  // ----- The batch -----

  /** Distinct open trades. */
  ghost predicate AreOpen(t: Tables, ids: seq<nat>) {
    && (forall k :: 0 <= k < |ids| ==> ids[k] < |t.trades| && !t.trades[ids[k]].tradeClosed)
    && Distinct(ids)
  }

  lemma DistinctCons(id: nat, rest: seq<nat>)
    requires Distinct(rest) && id !in rest
    ensures Distinct([id] + rest)
  {
  }

  lemma {:induction false} OpenTradesDistinct(trades: seq<Trade>, scan: seq<nat>)
    requires forall i :: 0 <= i < |scan| ==> scan[i] < |trades|
    requires Distinct(scan)
    ensures Distinct(OpenTrades(trades, scan))
  {
    if scan != [] {
      OpenTradesDistinct(trades, scan[1..]);
      OpenTradesMembers(trades, scan[1..]);
      assert scan[0] !in scan[1..];
      DistinctCons(scan[0], OpenTrades(trades, scan[1..]));
    }
  }

  lemma OpenTradesAreOpen(t: Tables, scan: seq<nat>)
    requires IsScan(scan, |t.trades|)
    ensures AreOpen(t, OpenTrades(t.trades, scan))
  {
    var open := OpenTrades(t.trades, scan);
    OpenTradesDistinct(t.trades, scan);
    OpenTradesMembers(t.trades, scan);
    forall k | 0 <= k < |open| ensures open[k] < |t.trades| && !t.trades[open[k]].tradeClosed {
      assert open[k] in open;
    }
  }

  lemma ProcessTradeWellFormed(t: Tables, m: Market, id: nat)
    requires WellFormed(t)
    requires id < |t.trades| && IsPriced(m, t.trades[id].instrumentId)
    ensures WellFormed(ProcessTrade(t, m, id))
  {
    assert WellFormedRow(t.trades[id]);
  }

  lemma ProcessTradeLedger(t: Tables, m: Market, id: nat)
    requires Consistent(t)
    requires id < |t.trades| && !t.trades[id].transactionHappened && IsPriced(m, t.trades[id].instrumentId)
    ensures LedgerStep(t, ProcessTrade(t, m, id))
  {
    var row := t.trades[id];
    var price, fee := m.prices[row.instrumentId], Fee(m, row.instrumentId);
    if row.direction == LongBuy {
      ProcessLongBuyLedger(t, id, price, fee);
    } else if row.direction == LongSell {
      ProcessLongSellLedger(t, id, price, fee);
    } else {
      RejectIsLedgerStep(t, id, NotLongRunning);
    }
  }

  lemma ProcessLongBuyLedger(t: Tables, id: nat, price: Price, fee: real)
    requires Consistent(t) && id < |t.trades| && !t.trades[id].transactionHappened && t.trades[id].direction == LongBuy
    ensures LedgerStep(t, ProcessLongBuy(t, id, price, fee))
  {
    var row := t.trades[id];
    if row.entryPrice < price.low {
      LedgerStepReflexive(t);
    } else if Cost(row.quantity, row.entryPrice) + fee > t.balances[row.accountId] {
      RejectIsLedgerStep(t, id, NotEnoughMoneyToBuy);
    } else {
      ExecuteIsLedgerStep(t, id, fee, LongBuyFinished);
    }
  }

  lemma ProcessLongSellLedger(t: Tables, id: nat, price: Price, fee: real)
    requires Consistent(t) && id < |t.trades| && !t.trades[id].transactionHappened && t.trades[id].direction == LongSell
    ensures LedgerStep(t, ProcessLongSell(t, id, price, fee))
  {
    var row := t.trades[id];
    if row.entryPrice > price.high {
      LedgerStepReflexive(t);
    } else if !Owns(t, row.accountId, row.instrumentId, row.quantity) {
      RejectIsLedgerStep(t, id, NotEnoughStocksToSell);
    } else {
      ExecuteIsLedgerStep(t, id, fee, LongSellFinished);
    }
  }

  lemma ProcessTradeSolvent(t: Tables, m: Market, id: nat, n: nat)
    requires WellFormed(t) && NonNegativeMarket(m) && Solvent(t, n)
    requires id < |t.trades| && IsPriced(m, t.trades[id].instrumentId)
    ensures Solvent(ProcessTrade(t, m, id), n)
  {
    var row := t.trades[id];
    var price, fee := m.prices[row.instrumentId], Fee(m, row.instrumentId);
    assert WellFormedRow(row);
    var buys := row.direction == LongBuy && Cost(row.quantity, row.entryPrice) + fee <= t.balances[row.accountId];
    if buys || row.direction == LongSell {
      FeeNonNegative(m, row.instrumentId);
      SettleKeepsSolvent(t, n, row, fee);
    }
  }

  lemma ProcessTradeKeepsOpen(t: Tables, m: Market, ids: seq<nat>)
    requires Consistent(t) && AllPriced(t, m, ids) && AreOpen(t, ids) && ids != []
    ensures AreOpen(ProcessTrade(t, m, ids[0]), ids[1..])
  {
  }

  lemma {:induction false} ProcessAllWellFormed(t: Tables, m: Market, ids: seq<nat>)
    requires WellFormed(t) && AllPriced(t, m, ids)
    ensures WellFormed(ProcessAll(t, m, ids))
    decreases |ids|
  {
    if ids != [] {
      ProcessTradeWellFormed(t, m, ids[0]);
      ProcessTradeKeepsKeys(t, m, ids[0], ids[1..]);
      ProcessAllWellFormed(ProcessTrade(t, m, ids[0]), m, ids[1..]);
    }
  }

  lemma {:induction false} ProcessAllSolvent(t: Tables, m: Market, ids: seq<nat>, n: nat)
    requires WellFormed(t) && NonNegativeMarket(m) && Solvent(t, n) && AllPriced(t, m, ids)
    ensures Solvent(ProcessAll(t, m, ids), n)
    decreases |ids|
  {
    if ids != [] {
      ProcessTradeWellFormed(t, m, ids[0]);
      ProcessTradeSolvent(t, m, ids[0], n);
      ProcessTradeKeepsKeys(t, m, ids[0], ids[1..]);
      ProcessAllSolvent(ProcessTrade(t, m, ids[0]), m, ids[1..], n);
    }
  }

  lemma {:induction false} ProcessAllLedger(t: Tables, m: Market, ids: seq<nat>)
    requires WellFormed(t) && AllPriced(t, m, ids) && AreOpen(t, ids)
    ensures LedgerStep(t, ProcessAll(t, m, ids))
    decreases |ids|
  {
    if ids == [] {
      LedgerStepReflexive(t);
    } else {
      var next := ProcessTrade(t, m, ids[0]);
      assert WellFormedRow(t.trades[ids[0]]);
      ProcessTradeWellFormed(t, m, ids[0]);
      ProcessTradeKeepsKeys(t, m, ids[0], ids[1..]);
      ProcessTradeKeepsOpen(t, m, ids);
      ProcessAllLedger(next, m, ids[1..]);
      ProcessTradeLedger(t, m, ids[0]);
      LedgerStepTransitive(t, next, ProcessAll(next, m, ids[1..]));
    }
  }

  /** Rows that agree on what an executed trade contributes have the same sums. */
  lemma {:induction false} SameContributions(a: seq<Trade>, b: seq<Trade>, f: Trade -> real)
    requires |a| == |b|
    requires forall i :: 0 <= i < |a| ==> f(a[i]) == f(b[i])
    ensures SumTrades(a, f) == SumTrades(b, f)
  {
    if a != [] {
      SameContributions(a[..|a| - 1], b[..|b| - 1], f);
    }
  }

  lemma {:induction false} SameExecutions(a: seq<Trade>, b: seq<Trade>)
    requires |a| == |b|
    requires forall i :: 0 <= i < |a| ==> ExecutedTrade(a[i]) == ExecutedTrade(b[i])
    ensures ExecutedTrades(a) == ExecutedTrades(b)
  {
    if a != [] {
      SameExecutions(a[..|a| - 1], b[..|b| - 1]);
    }
  }

  /** A swept row counts for as much as before: what is overdue was never executed. */
  lemma SweptRowCounts(row: Trade, now: int)
    requires WellFormedRow(row)
    ensures WellFormedRow(SweptRow(row, now)) && ExecutedTrade(SweptRow(row, now)) == ExecutedTrade(row)
    ensures forall a :: CashOf(a)(SweptRow(row, now)) == CashOf(a)(row)
    ensures forall a, i :: QuantityOf(a, i)(SweptRow(row, now)) == QuantityOf(a, i)(row)
  {
  }

  lemma SweepOffsets(t: Tables, now: int, a: int, i: int)
    requires WellFormed(t)
    ensures var u := t.(trades := CloseOverdueTrades(t.trades, now));
      CashOffset(t, a) == CashOffset(u, a) && HoldingOffset(t, a, i) == HoldingOffset(u, a, i)
  {
    var swept := CloseOverdueTrades(t.trades, now);
    forall k | 0 <= k < |t.trades|
      ensures CashOf(a)(t.trades[k]) == CashOf(a)(swept[k]) && QuantityOf(a, i)(t.trades[k]) == QuantityOf(a, i)(swept[k])
    {
      SweptRowCounts(t.trades[k], now);
    }
    SameContributions(t.trades, swept, CashOf(a));
    SameContributions(t.trades, swept, QuantityOf(a, i));
  }

  lemma SweepKeepsRows(t: Tables, now: int)
    requires WellFormed(t)
    ensures WellFormed(t.(trades := CloseOverdueTrades(t.trades, now)))
    ensures ExecutedTrades(CloseOverdueTrades(t.trades, now)) == ExecutedTrades(t.trades)
  {
    var swept := CloseOverdueTrades(t.trades, now);
    forall i | 0 <= i < |t.trades|
      ensures WellFormedRow(swept[i]) && ExecutedTrade(t.trades[i]) == ExecutedTrade(swept[i])
    {
      SweptRowCounts(t.trades[i], now);
    }
    SameExecutions(t.trades, swept);
  }

  lemma SweepStep(t: Tables, now: int, n: nat)
    requires WellFormed(t) && Solvent(t, n)
    ensures var u := t.(trades := CloseOverdueTrades(t.trades, now));
      WellFormed(u) && LedgerStep(t, u) && Solvent(u, n)
  {
    var u := t.(trades := CloseOverdueTrades(t.trades, now));
    assert u.history[|t.history|..] == [];
    SweepKeepsRows(t, now);
    forall a ensures CashOffset(t, a) == CashOffset(u, a) {
      SweepOffsets(t, now, a, 0);
    }
    forall a, i ensures HoldingOffset(t, a, i) == HoldingOffset(u, a, i) {
      SweepOffsets(t, now, a, i);
    }
  }

  lemma BatchStep(t: Tables, m: Market, now: int, scan: seq<nat>, n: nat)
    requires WellFormed(t) && NonNegativeMarket(m) && Solvent(t, n) && IsScan(scan, |t.trades|)
    requires ProcessLongRunningTransactions(t, m, now, scan).Success?
    ensures var u := ProcessLongRunningTransactions(t, m, now, scan).value;
      WellFormed(u) && LedgerStep(t, u) && Solvent(u, n)
  {
    var swept := t.(trades := CloseOverdueTrades(t.trades, now));
    SweepStep(t, now, n);
    OpenTradesAreOpen(swept, scan);
    var open := OpenTrades(swept.trades, scan);
    ProcessAllWellFormed(swept, m, open);
    ProcessAllSolvent(swept, m, open, n);
    ProcessAllLedger(swept, m, open);
    LedgerStepTransitive(t, swept, ProcessAll(swept, m, open));
  }

  // ----- Any request, and any run -----

  lemma CreateLongStep(t: Tables, row: Trade, n: nat)
    requires WellFormed(t) && Solvent(t, n) && WellFormedRow(row) && row.accountId in t.balances
    requires !row.transactionHappened
    ensures var u := t.(trades := t.trades + [row]); WellFormed(u) && LedgerStep(t, u) && Solvent(u, n)
  {
    var u := t.(trades := t.trades + [row]);
    assert u.history[|t.history|..] == [];
    assert u.trades[..|t.trades|] == t.trades;
    forall a ensures CashOffset(t, a) == CashOffset(u, a) {
      SumTradesAppend(t.trades, row, CashOf(a));
    }
    forall a, i ensures HoldingOffset(t, a, i) == HoldingOffset(u, a, i) {
      SumTradesAppend(t.trades, row, QuantityOf(a, i));
    }
  }

  lemma QuickStep(t: Tables, row: Trade, fee: real, n: nat)
    requires WellFormed(t) && Solvent(t, n) && WellFormedRow(row) && fee >= 0.0
    requires row.accountId in t.balances && IsTrade(row.direction) && row.transactionHappened
    requires IsSell(row.direction) ==> Owns(t, row.accountId, row.instrumentId, row.quantity)
    requires IsSell(row.direction) || Cost(row.quantity, row.entryPrice) + fee <= t.balances[row.accountId]
    ensures var u := Settle(t.(trades := t.trades + [row]), row, fee); WellFormed(u) && LedgerStep(t, u) && Solvent(u, n)
  {
    var s := t.(trades := t.trades + [row]);
    QuickIsLedgerStep(t, row, fee);
    SettleWellFormed(s, row, fee);
    SettleKeepsSolvent(s, n, row, fee);
  }

  lemma SettleWellFormed(t: Tables, row: Trade, fee: real)
    requires WellFormed(t) && WellFormedRow(row) && row.accountId in t.balances
    requires IsSell(row.direction) ==> Owns(t, row.accountId, row.instrumentId, row.quantity)
    ensures WellFormed(Settle(t, row, fee))
  {
  }

  /** What one request keeps; n is the length of the history when the run began. */
  ghost predicate Keeps(t: Tables, u: Tables, n: nat) {
    WellFormed(u) && LedgerStep(t, u) && Solvent(u, n)
  }

  lemma CashKeeps(t: Tables, accountId: int, amount: real, action: ActionType, n: nat)
    requires WellFormed(t) && Solvent(t, n) && (action == Deposit || action == Withdraw)
    requires ModifyBalance(t, accountId, amount, action).Success?
    ensures Keeps(t, ModifyBalance(t, accountId, amount, action).value, n)
  {
    var change := if action == Withdraw then -amount else amount;
    PostIsLedgerStep(t, accountId, change, action);
    PostKeepsSolvent(t, n, accountId, change, action);
  }

  lemma QuickKeeps(t: Tables, m: Market, accountId: int, instrumentId: int, amount: real, action: ActionType, now: int, n: nat)
    requires WellFormed(t) && Solvent(t, n) && (action == Buy || action == Sell) && NonNegativeMarket(m)
    requires QuickTransaction(t, m, accountId, instrumentId, amount, action, now).Success?
    ensures Keeps(t, QuickTransaction(t, m, accountId, instrumentId, amount, action, now).value, n)
  {
    var row := QuickTrade(accountId, instrumentId, action, m.prices[instrumentId].open, amount, now);
    FeeNonNegative(m, instrumentId);
    QuickStep(t, row, Fee(m, instrumentId), n);
  }

  lemma LongKeeps(t: Tables, m: Market, accountId: int, instrumentId: int, amount: real, duration: int, price: real,
                  action: ActionType, now: int, n: nat)
    requires WellFormed(t) && Solvent(t, n) && (action == LongBuy || action == LongSell)
    requires CreateLongTransaction(t, m, accountId, instrumentId, amount, duration, price, action, now).Success?
    ensures Keeps(t, CreateLongTransaction(t, m, accountId, instrumentId, amount, duration, price, action, now).value, n)
  {
    CreateLongStep(t, LongTrade(accountId, instrumentId, action, price, amount, duration, now), n);
  }

  lemma HandleKeeps(t: Tables, r: Request, n: nat)
    requires WellFormed(t) && IsRequest(t, r) && Solvent(t, n) && Handle(t, r).Success?
    ensures Keeps(t, Handle(t, r).value, n)
  {
    match r
    case Cash(accountId, amount, action) => CashKeeps(t, accountId, amount, action, n);
    case Quick(m, accountId, instrumentId, amount, action, now) =>
      QuickKeeps(t, m, accountId, instrumentId, amount, action, now, n);
    case Long(m, accountId, instrumentId, amount, duration, price, action, now) =>
      LongKeeps(t, m, accountId, instrumentId, amount, duration, price, action, now, n);
    case Batch(m, now, scan) => BatchStep(t, m, now, scan, n);
  }

  lemma StepKeeps(t: Tables, r: Request, saved: bool, n: nat)
    requires WellFormed(t) && IsRequest(t, r) && Solvent(t, n)
    ensures Keeps(t, Step(t, r, saved), n)
  {
    if Step(t, r, saved) == t {
      LedgerStepReflexive(t);
    } else {
      HandleKeeps(t, r, n);
    }
  }

  /** A run: requests with the outcome of their final save, each allowed in the tables it meets. */
  ghost predicate IsRun(t: Tables, run: seq<(Request, bool)>)
    requires WellFormed(t)
    decreases |run|
  {
    run == [] ||
    (IsRequest(t, run[0].0) &&
     (StepWellFormed(t, run[0].0, run[0].1);
      IsRun(Step(t, run[0].0, run[0].1), run[1..])))
  }

  ghost function Run(t: Tables, run: seq<(Request, bool)>): Tables
    requires WellFormed(t) && IsRun(t, run)
    decreases |run|
  {
    if run == [] then t
    else
      StepWellFormed(t, run[0].0, run[0].1);
      Run(Step(t, run[0].0, run[0].1), run[1..])
  }

  lemma StepWellFormed(t: Tables, r: Request, saved: bool)
    requires WellFormed(t) && IsRequest(t, r)
    ensures WellFormed(Step(t, r, saved))
  {
    if Step(t, r, saved) != t {
      match r
      case Cash(accountId, amount, action) =>
      case Quick(m, accountId, instrumentId, amount, action, now) =>
        var row := QuickTrade(accountId, instrumentId, action, m.prices[instrumentId].open, amount, now);
        assert WellFormedRow(row);
      case Long(m, accountId, instrumentId, amount, duration, price, action, now) =>
        assert WellFormedRow(LongTrade(accountId, instrumentId, action, price, amount, duration, now));
      case Batch(m, now, scan) =>
        BatchWellFormed(t, m, now, scan);
    }
  }

  lemma BatchWellFormed(t: Tables, m: Market, now: int, scan: seq<nat>)
    requires WellFormed(t) && IsScan(scan, |t.trades|)
    requires ProcessLongRunningTransactions(t, m, now, scan).Success?
    ensures WellFormed(ProcessLongRunningTransactions(t, m, now, scan).value)
  {
    var swept := t.(trades := CloseOverdueTrades(t.trades, now));
    forall i | 0 <= i < |t.trades| ensures WellFormedRow(swept.trades[i]) {
      assert WellFormedRow(t.trades[i]);
    }
    OpenTradesMembers(swept.trades, scan);
    ProcessAllWellFormed(swept, m, OpenTrades(swept.trades, scan));
  }

  lemma {:induction false} RunKeeps(t: Tables, run: seq<(Request, bool)>, n: nat)
    requires WellFormed(t) && IsRun(t, run) && Solvent(t, n)
    ensures Keeps(t, Run(t, run), n)
    decreases |run|
  {
    if run == [] {
      LedgerStepReflexive(t);
    } else {
      var next := Step(t, run[0].0, run[0].1);
      StepKeeps(t, run[0].0, run[0].1, n);
      RunKeeps(next, run[1..], n);
      LedgerStepTransitive(t, next, Run(t, run));
    }
  }
}
