/** The broker's main results about whole runs: the state is the fold of the log, money is conserved, balances stay
    within the solvency bound, and the history of every account is a chain that ends in its balance. */
module BrokerTheorems {
  import opened Wrappers
  import opened BrokerTables
  import opened BrokerLedger
  import opened BrokerRuns

  /** The history rows a run adds. */
  ghost function NewRows(t: Tables, u: Tables): seq<BalanceHistory>
    requires |t.history| <= |u.history|
  {
    u.history[|t.history|..]
  }

  /** Before the first request every balance is non-negative. */
  ghost predicate IsStart(t: Tables) {
    WellFormed(t) && forall a :: a in t.balances ==> t.balances[a] >= 0.0
  }

  lemma RunFromStart(t: Tables, run: seq<(Request, bool)>)
    requires IsStart(t) && IsRun(t, run)
    ensures Keeps(t, Run(t, run), |t.history|)
  {
    assert t.history[|t.history|..] == [];
    RunKeeps(t, run, |t.history|);
  }

  /** Quantity times entry price of an executed trade of the account: plus for a sell, minus for a buy. */
  ghost function ProceedsOf(accountId: int): Trade -> real {
    (row: Trade) =>
      if !row.transactionHappened || row.accountId != accountId then 0.0
      else if row.direction == Sell || row.direction == LongSell then row.quantity * row.entryPrice
      else -(row.quantity * row.entryPrice)
  }

  /** The executed trades as account, direction and proceeds. */
  ghost function Executions(trades: seq<Trade>): multiset<Executed> {
    if trades == [] then multiset{}
    else
      var row := trades[|trades| - 1];
      Executions(trades[..|trades| - 1])
        + if row.transactionHappened then multiset{(row.accountId, row.direction, ProceedsOf(row.accountId)(row))} else multiset{}
  }

  lemma ProceedsAreCash(row: Trade, a: int)
    ensures ProceedsOf(a)(row) == CashOf(a)(row)
  {
  }

  lemma {:induction false} ProceedsSum(trades: seq<Trade>, a: int)
    ensures SumTrades(trades, ProceedsOf(a)) == SumTrades(trades, CashOf(a))
  {
    if trades != [] {
      ProceedsSum(trades[..|trades| - 1], a);
      ProceedsAreCash(trades[|trades| - 1], a);
    }
  }

  lemma {:induction false} ExecutionsAre(trades: seq<Trade>)
    ensures Executions(trades) == ExecutedTrades(trades)
  {
    if trades != [] {
      ExecutionsAre(trades[..|trades| - 1]);
      ProceedsAreCash(trades[|trades| - 1], trades[|trades| - 1].accountId);
    }
  }

  /** State is the fold of the log. The balance moves by all the account's new rows; its trade rows sum to plus or minus
      quantity times entry price over the trades executed since; its holding moves by executed buys minus executed
      sells; the trade rows are one for one the executed trades, and each is followed by its own fee. */
  lemma StateIsFoldOfLog(t: Tables, run: seq<(Request, bool)>, a: int, i: int)
    requires IsStart(t) && IsRun(t, run)
    ensures var u := Run(t, run);
      && t.history <= u.history
      && (var rows := NewRows(t, u);
          && Balance(u, a) == Balance(t, a) + SumRows(rows, ChangeOf(a))
          && SumRows(rows, TradeChangeOf(a)) == SumTrades(u.trades, ProceedsOf(a)) - SumTrades(t.trades, ProceedsOf(a))
          && Executions(u.trades) == Executions(t.trades) + TradeRows(rows)
          && FeesFollowTrades(rows))
      && Holding(u, a, i) ==
           Holding(t, a, i) + SumTrades(u.trades, QuantityOf(a, i)) - SumTrades(t.trades, QuantityOf(a, i))
  {
    RunFromStart(t, run);
    LogFolds(t, Run(t, run), a, i);
    ProceedsSum(t.trades, a);
    ProceedsSum(Run(t, run).trades, a);
    ExecutionsAre(t.trades);
    ExecutionsAre(Run(t, run).trades);
  }

  lemma LogFolds(t: Tables, u: Tables, a: int, i: int)
    requires LedgerStep(t, u)
    ensures var rows := NewRows(t, u);
      && Balance(u, a) == Balance(t, a) + SumRows(rows, ChangeOf(a))
      && SumRows(rows, TradeChangeOf(a)) == SumTrades(u.trades, CashOf(a)) - SumTrades(t.trades, CashOf(a))
      && ExecutedTrades(u.trades) == ExecutedTrades(t.trades) + TradeRows(rows)
      && Holding(u, a, i) ==
           Holding(t, a, i) + SumTrades(u.trades, QuantityOf(a, i)) - SumTrades(t.trades, QuantityOf(a, i))
  {
    var rows := NewRows(t, u);
    assert u.history == t.history + rows;
    SumRowsConcat(t.history, rows, ChangeOf(a));
    SumRowsConcat(t.history, rows, TradeChangeOf(a));
    TradeRowsConcat(t.history, rows);
    assert BalanceOffset(t, a) == BalanceOffset(u, a) && CashOffset(t, a) == CashOffset(u, a);
    assert HoldingOffset(t, a, i) == HoldingOffset(u, a, i);
    CancelSum(ExecutedTrades(t.trades), ExecutedTrades(u.trades), TradeRows(t.history), TradeRows(rows));
  }

  lemma CancelSum(et: multiset<Executed>, eu: multiset<Executed>, ht: multiset<Executed>, hr: multiset<Executed>)
    requires et + (ht + hr) == eu + ht
    ensures eu == et + hr
  {
    forall x ensures eu[x] == (et + hr)[x] {
      assert (et + (ht + hr))[x] == (eu + ht)[x];
    }
  }

  // ----- Conservation -----

  ghost function TotalMoney(t: Tables, accounts: seq<int>): real {
    if accounts == [] then 0.0 else Balance(t, accounts[0]) + TotalMoney(t, accounts[1..])
  }

  /** The accounts of the tables, each once. */
  ghost predicate Enumerates(accounts: seq<int>, keys: set<int>) {
    && (forall k :: 0 <= k < |accounts| ==> accounts[k] in keys)
    && (forall a :: a in keys ==> a in accounts)
    && Distinct(accounts)
  }

  ghost function ChangesOver(rows: seq<BalanceHistory>, accounts: seq<int>): real {
    if accounts == [] then 0.0 else SumRows(rows, ChangeOf(accounts[0])) + ChangesOver(rows, accounts[1..])
  }

  ghost function ChangeOver(row: BalanceHistory, accounts: seq<int>): real {
    if accounts == [] then 0.0 else ChangeOf(accounts[0])(row) + ChangeOver(row, accounts[1..])
  }

  lemma {:induction false} ChangesOverSnoc(rows: seq<BalanceHistory>, accounts: seq<int>)
    requires rows != []
    ensures ChangesOver(rows, accounts) == ChangesOver(rows[..|rows| - 1], accounts) + ChangeOver(rows[|rows| - 1], accounts)
  {
    if accounts != [] {
      ChangesOverSnoc(rows, accounts[1..]);
    }
  }

  lemma {:induction false} ChangesOverNone(accounts: seq<int>)
    ensures ChangesOver([], accounts) == 0.0
  {
    if accounts != [] {
      ChangesOverNone(accounts[1..]);
    }
  }

  lemma {:induction false} ChangeOverOnce(row: BalanceHistory, accounts: seq<int>)
    requires Distinct(accounts)
    ensures ChangeOver(row, accounts) == if row.accountId in accounts then row.valueChange else 0.0
  {
    if accounts != [] {
      ChangeOverOnce(row, accounts[1..]);
      if accounts[0] == row.accountId {
        assert row.accountId !in accounts[1..];
      }
    }
  }

  lemma {:induction false} ChangesOverAll(rows: seq<BalanceHistory>, accounts: seq<int>)
    requires Distinct(accounts)
    requires forall k :: 0 <= k < |rows| ==> rows[k].accountId in accounts
    ensures ChangesOver(rows, accounts) == SumRows(rows, AnyChange())
  {
    if rows == [] {
      ChangesOverNone(accounts);
    } else {
      var n := |rows| - 1;
      ChangesOverAll(rows[..n], accounts);
      ChangesOverSnoc(rows, accounts);
      ChangeOverOnce(rows[n], accounts);
    }
  }

  lemma {:induction false} TotalMoneyMoves(t: Tables, u: Tables, rows: seq<BalanceHistory>, accounts: seq<int>)
    requires forall a :: Balance(u, a) == Balance(t, a) + SumRows(rows, ChangeOf(a))
    ensures TotalMoney(u, accounts) == TotalMoney(t, accounts) + ChangesOver(rows, accounts)
  {
    if accounts != [] {
      TotalMoneyMoves(t, u, rows, accounts[1..]);
    }
  }

  /** Fees charged and fees collected cancel: total money moves only by deposits, withdrawals and trade amounts. */
  lemma MoneyIsConserved(t: Tables, run: seq<(Request, bool)>, accounts: seq<int>)
    requires IsStart(t) && IsRun(t, run) && Enumerates(accounts, t.balances.Keys)
    ensures var u := Run(t, run);
      && t.history <= u.history
      && TotalMoney(u, accounts) == TotalMoney(t, accounts) + SumRows(NewRows(t, u), NonFeeChange())
  {
    RunFromStart(t, run);
    var u := Run(t, run);
    var rows := NewRows(t, u);
    forall a ensures Balance(u, a) == Balance(t, a) + SumRows(rows, ChangeOf(a)) {
      StateIsFoldOfLog(t, run, a, 0);
    }
    TotalMoneyMoves(t, u, rows, accounts);
    forall k | 0 <= k < |rows| ensures rows[k].accountId in accounts {
      assert rows[k] == u.history[|t.history| + k];
      assert rows[k].accountId in t.balances.Keys;
    }
    ChangesOverAll(rows, accounts);
    FeesCancel(rows);
  }

  // ----- Solvency -----

  /** No holding goes negative, and a balance is at least minus the fees of the account's own sells. */
  lemma RunsStaySolvent(t: Tables, run: seq<(Request, bool)>, a: int)
    requires IsStart(t) && IsRun(t, run) && a in t.balances
    ensures var u := Run(t, run);
      && t.history <= u.history
      && a in u.balances && u.balances[a] >= -SellFees(NewRows(t, u), a)
      && forall k :: k in u.holdings ==> u.holdings[k] >= 0.0
  {
    RunFromStart(t, run);
  }

  /** An account without a sell row never goes below zero. */
  lemma NonSellersStayNonNegative(t: Tables, run: seq<(Request, bool)>, a: int)
    requires IsStart(t) && IsRun(t, run) && a in t.balances
    requires var u := Run(t, run);
      |t.history| <= |u.history| &&
      forall k :: 0 <= k < |NewRows(t, u)| && NewRows(t, u)[k].accountId == a ==> !IsSell(NewRows(t, u)[k].action)
    ensures a in Run(t, run).balances && Run(t, run).balances[a] >= 0.0
  {
    RunFromStart(t, run);
    NoSellsNoSellFees(NewRows(t, Run(t, run)), a);
  }

  // ----- The chain of each account's history -----

  /** The value the account's last row ended with. */
  ghost function LastValue(h: seq<BalanceHistory>, a: int): Option<real> {
    if h == [] then None
    else
      var last := h[|h| - 1];
      if last.accountId == a then Some(last.oldValue + last.valueChange) else LastValue(h[..|h| - 1], a)
  }

  /** Each row starts from the value the account's previous row ended with. */
  ghost predicate IsLinked(h: seq<BalanceHistory>) {
    h == [] ||
    (var last, before := h[|h| - 1], h[..|h| - 1];
     IsLinked(before)
     && (LastValue(before, last.accountId).Some? ==> LastValue(before, last.accountId).value == last.oldValue))
  }

  /** The history of every account is linked and ends in its balance. */
  ghost predicate IsChain(t: Tables) {
    && IsLinked(t.history)
    && forall a :: LastValue(t.history, a).Some? ==> a in t.balances && t.balances[a] == LastValue(t.history, a).value
  }

  ghost predicate NoRowBetween(h: seq<BalanceHistory>, i: nat, j: nat, a: int) {
    forall k :: i < k < j && k < |h| ==> h[k].accountId != a
  }

  lemma {:induction false} LastValueIsLastRow(h: seq<BalanceHistory>, i: nat, n: nat)
    requires i < n <= |h| && NoRowBetween(h, i, n, h[i].accountId)
    ensures LastValue(h[..n], h[i].accountId) == Some(h[i].oldValue + h[i].valueChange)
    decreases n
  {
    assert h[..n][..n - 1] == h[..n - 1];
    if n > i + 1 {
      LastValueIsLastRow(h, i, n - 1);
    }
  }

  lemma {:induction false} LinkedPrefix(h: seq<BalanceHistory>, n: nat)
    requires IsLinked(h) && n <= |h|
    ensures IsLinked(h[..n])
    decreases |h|
  {
    if n < |h| {
      assert h[..|h| - 1][..n] == h[..n];
      LinkedPrefix(h[..|h| - 1], n);
    } else {
      assert h[..n] == h;
    }
  }

  /** What a chain means row by row: two consecutive rows of an account join, and its last row gives its balance. */
  lemma ChainJoinsRows(t: Tables, i: nat, j: nat)
    requires IsChain(t) && i < j <= |t.history| && NoRowBetween(t.history, i, j, t.history[i].accountId)
    requires j < |t.history| ==> t.history[j].accountId == t.history[i].accountId
    ensures var h := t.history; var ended := h[i].oldValue + h[i].valueChange;
      if j < |h| then h[j].oldValue == ended
      else h[i].accountId in t.balances && t.balances[h[i].accountId] == ended
  {
    var h := t.history;
    LastValueIsLastRow(h, i, j);
    if j < |h| {
      LinkedPrefix(h, j + 1);
      assert h[..j + 1][..j] == h[..j];
    } else {
      assert h[..j] == h;
    }
  }

  lemma PostKeepsChain(t: Tables, accountId: int, change: real, action: ActionType)
    requires IsChain(t) && accountId in t.balances
    ensures IsChain(Post(t, accountId, change, action))
  {
    var u := Post(t, accountId, change, action);
    assert u.history[..|u.history| - 1] == t.history;
  }

  lemma SettleKeepsChain(t: Tables, row: Trade, fee: real)
    requires IsChain(t) && row.accountId in t.balances && OWNER_ID in t.balances
    ensures IsChain(Settle(t, row, fee))
  {
    var traded := Post(t, row.accountId, Income(row.direction, Cost(row.quantity, row.entryPrice)), row.direction);
    PostKeepsChain(t, row.accountId, Income(row.direction, Cost(row.quantity, row.entryPrice)), row.direction);
    var charged := Post(traded, row.accountId, -fee, TransactionFee);
    PostKeepsChain(traded, row.accountId, -fee, TransactionFee);
    PostKeepsChain(charged, OWNER_ID, fee, CollectFee);
    SameLedgerKeepsChain(Post(charged, OWNER_ID, fee, CollectFee), Settle(t, row, fee));
  }

  lemma SameLedgerKeepsChain(t: Tables, u: Tables)
    requires IsChain(t) && u.history == t.history && u.balances == t.balances
    ensures IsChain(u)
  {
  }

  lemma ProcessTradeKeepsChain(t: Tables, m: Market, id: nat)
    requires Consistent(t) && IsChain(t) && id < |t.trades| && IsPriced(m, t.trades[id].instrumentId)
    ensures IsChain(ProcessTrade(t, m, id))
  {
    var row := t.trades[id];
    var settled := Settle(t, row, Fee(m, row.instrumentId));
    SettleKeepsChain(t, row, Fee(m, row.instrumentId));
    var u := ProcessTrade(t, m, id);
    if u.history == t.history && u.balances == t.balances {
      SameLedgerKeepsChain(t, u);
    } else {
      SameLedgerKeepsChain(settled, u);
    }
  }

  lemma {:induction false} ProcessAllKeepsChain(t: Tables, m: Market, ids: seq<nat>)
    requires Consistent(t) && IsChain(t) && AllPriced(t, m, ids)
    ensures IsChain(ProcessAll(t, m, ids))
    decreases |ids|
  {
    if ids != [] {
      ProcessTradeKeepsChain(t, m, ids[0]);
      ProcessTradeKeepsKeys(t, m, ids[0], ids[1..]);
      ProcessAllKeepsChain(ProcessTrade(t, m, ids[0]), m, ids[1..]);
    }
  }

  lemma BatchKeepsChain(t: Tables, m: Market, now: int, scan: seq<nat>)
    requires Consistent(t) && IsScan(scan, |t.trades|) && IsChain(t)
    requires ProcessLongRunningTransactions(t, m, now, scan).Success?
    ensures IsChain(ProcessLongRunningTransactions(t, m, now, scan).value)
  {
    var swept := t.(trades := CloseOverdueTrades(t.trades, now));
    SameLedgerKeepsChain(t, swept);
    ProcessAllKeepsChain(swept, m, OpenTrades(swept.trades, scan));
  }

  lemma QuickKeepsChain(t: Tables, m: Market, accountId: int, instrumentId: int, amount: real, action: ActionType, now: int)
    requires IsChain(t) && (action == Buy || action == Sell)
    requires QuickTransaction(t, m, accountId, instrumentId, amount, action, now).Success?
    ensures IsChain(QuickTransaction(t, m, accountId, instrumentId, amount, action, now).value)
  {
    var row := QuickTrade(accountId, instrumentId, action, m.prices[instrumentId].open, amount, now);
    SameLedgerKeepsChain(t, t.(trades := t.trades + [row]));
    SettleKeepsChain(t.(trades := t.trades + [row]), row, Fee(m, instrumentId));
  }

  lemma HandleKeepsChain(t: Tables, r: Request)
    requires Consistent(t) && IsRequest(t, r) && IsChain(t) && Handle(t, r).Success?
    ensures IsChain(Handle(t, r).value)
  {
    match r
    case Cash(accountId, amount, action) =>
      PostKeepsChain(t, accountId, if action == Withdraw then -amount else amount, action);
    case Quick(m, accountId, instrumentId, amount, action, now) =>
      QuickKeepsChain(t, m, accountId, instrumentId, amount, action, now);
    case Long(m, accountId, instrumentId, amount, duration, price, action, now) =>
      SameLedgerKeepsChain(t, Handle(t, r).value);
    case Batch(m, now, scan) =>
      BatchKeepsChain(t, m, now, scan);
  }

  /** Every run keeps every account's history a chain that ends in its balance, the owner's included. */
  lemma {:induction false} RunsKeepChain(t: Tables, run: seq<(Request, bool)>)
    requires WellFormed(t) && IsRun(t, run) && IsChain(t)
    ensures IsChain(Run(t, run))
    decreases |run|
  {
    if run != [] {
      var next := Step(t, run[0].0, run[0].1);
      StepWellFormed(t, run[0].0, run[0].1);
      if next != t {
        HandleKeepsChain(t, run[0].0);
      }
      RunsKeepChain(next, run[1..]);
    }
  }
}
