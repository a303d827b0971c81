/** The balance history as a ledger: over any run of broker requests the balances and the holdings are the fold of the
    recorded rows and of the executed trades, and the fees cancel. */
module BrokerLedger {
  import opened BrokerTables

  // ----- Sums over history rows and over trades -----

  ghost function SumRows(rows: seq<BalanceHistory>, f: BalanceHistory -> real): real {
    if rows == [] then 0.0 else SumRows(rows[..|rows| - 1], f) + f(rows[|rows| - 1])
  }

  ghost function SumTrades(trades: seq<Trade>, f: Trade -> real): real {
    if trades == [] then 0.0 else SumTrades(trades[..|trades| - 1], f) + f(trades[|trades| - 1])
  }

  lemma {:induction false} SumRowsConcat(a: seq<BalanceHistory>, b: seq<BalanceHistory>, f: BalanceHistory -> real)
    ensures SumRows(a + b, f) == SumRows(a, f) + SumRows(b, f)
    decreases |b|
  {
    if b == [] {
      assert a + b == a;
    } else {
      var n := |b| - 1;
      assert (a + b)[..|a + b| - 1] == a + b[..n];
      SumRowsConcat(a, b[..n], f);
    }
  }

  lemma SumTradesAppend(trades: seq<Trade>, row: Trade, f: Trade -> real)
    ensures SumTrades(trades + [row], f) == SumTrades(trades, f) + f(row)
  {
    assert (trades + [row])[..|trades|] == trades;
  }

  lemma {:induction false} SumTradesUpdate(trades: seq<Trade>, id: nat, row: Trade, f: Trade -> real)
    requires id < |trades|
    ensures SumTrades(trades[id := row], f) == SumTrades(trades, f) - f(trades[id]) + f(row)
    decreases |trades|
  {
    var n := |trades| - 1;
    if id < n {
      assert trades[id := row][..n] == trades[..n][id := row];
      SumTradesUpdate(trades[..n], id, row, f);
    } else {
      assert trades[id := row][..n] == trades[..n];
    }
  }

  /** All changes of an account's balance. */
  ghost function ChangeOf(accountId: int): BalanceHistory -> real {
    (row: BalanceHistory) => if row.accountId == accountId then row.valueChange else 0.0
  }

  /** The changes of an account's balance that are trade amounts. */
  ghost function TradeChangeOf(accountId: int): BalanceHistory -> real {
    (row: BalanceHistory) => if row.accountId == accountId && IsTrade(row.action) then row.valueChange else 0.0
  }

  ghost function AnyChange(): BalanceHistory -> real {
    (row: BalanceHistory) => row.valueChange
  }

  predicate IsFee(action: ActionType) {
    action == TransactionFee || action == CollectFee
  }

  ghost function NonFeeChange(): BalanceHistory -> real {
    (row: BalanceHistory) => if IsFee(row.action) then 0.0 else row.valueChange
  }

  /** Plus or minus quantity times entry price of an executed trade of the account. */
  ghost function CashOf(accountId: int): Trade -> real {
    (row: Trade) =>
      if row.transactionHappened && row.accountId == accountId then
        Income(row.direction, Cost(row.quantity, row.entryPrice))
      else 0.0
  }

  /** Plus (buy) or minus (sell) the quantity of an executed trade of the account in the instrument. */
  ghost function QuantityOf(accountId: int, instrumentId: int): Trade -> real {
    (row: Trade) =>
      if row.transactionHappened && row.accountId == accountId && row.instrumentId == instrumentId then
        if IsSell(row.direction) then -row.quantity else row.quantity
      else 0.0
  }

  ghost function Balance(t: Tables, accountId: int): real {
    if accountId in t.balances then t.balances[accountId] else 0.0
  }

  // ----- The trade rows of the history are the executed trades -----

  type Executed = (int, ActionType, real)

  ghost function TradeRow(row: BalanceHistory): multiset<Executed> {
    if IsTrade(row.action) then multiset{(row.accountId, row.action, row.valueChange)} else multiset{}
  }

  ghost function TradeRows(rows: seq<BalanceHistory>): multiset<Executed> {
    if rows == [] then multiset{} else TradeRows(rows[..|rows| - 1]) + TradeRow(rows[|rows| - 1])
  }

  ghost function ExecutedTrade(row: Trade): multiset<Executed> {
    if row.transactionHappened then
      multiset{(row.accountId, row.direction, Income(row.direction, Cost(row.quantity, row.entryPrice)))}
    else multiset{}
  }

  ghost function ExecutedTrades(trades: seq<Trade>): multiset<Executed> {
    if trades == [] then multiset{} else ExecutedTrades(trades[..|trades| - 1]) + ExecutedTrade(trades[|trades| - 1])
  }

  lemma {:induction false} TradeRowsConcat(a: seq<BalanceHistory>, b: seq<BalanceHistory>)
    ensures TradeRows(a + b) == TradeRows(a) + TradeRows(b)
    decreases |b|
  {
    if b == [] {
      assert a + b == a;
    } else {
      var n := |b| - 1;
      assert (a + b)[..|a + b| - 1] == a + b[..n];
      TradeRowsConcat(a, b[..n]);
    }
  }

  lemma {:induction false} ExecutedTradesUpdate(trades: seq<Trade>, id: nat, row: Trade)
    requires id < |trades| && !trades[id].transactionHappened
    ensures ExecutedTrades(trades[id := row]) == ExecutedTrades(trades) + ExecutedTrade(row)
    decreases |trades|
  {
    var n := |trades| - 1;
    if id < n {
      assert trades[id := row][..n] == trades[..n][id := row];
      ExecutedTradesUpdate(trades[..n], id, row);
    } else {
      assert trades[id := row][..n] == trades[..n];
    }
  }

  // ----- The shape of the fee rows -----

  /** A trade row is followed by its own fee row and by the owner's row for the same fee; a fee row follows a trade row
      and a collection row follows a fee row. So fees, collections and trades pair off one to one. */
  ghost predicate RowFits(rows: seq<BalanceHistory>, k: nat)
    requires k < |rows|
  {
    && (IsTrade(rows[k].action) ==>
          && k + 2 < |rows|
          && rows[k + 1].action == TransactionFee && rows[k + 1].accountId == rows[k].accountId
          && rows[k + 2].action == CollectFee && rows[k + 2].accountId == OWNER_ID
          && rows[k + 2].valueChange == -rows[k + 1].valueChange)
    && (rows[k].action == TransactionFee ==> k >= 1 && IsTrade(rows[k - 1].action))
    && (rows[k].action == CollectFee ==> k >= 1 && rows[k - 1].action == TransactionFee)
  }

  ghost predicate FeesFollowTrades(rows: seq<BalanceHistory>) {
    forall k :: 0 <= k < |rows| ==> RowFits(rows, k)
  }

  lemma FeesFollowTradesConcat(a: seq<BalanceHistory>, b: seq<BalanceHistory>)
    requires FeesFollowTrades(a) && FeesFollowTrades(b)
    ensures FeesFollowTrades(a + b)
  {
    forall k | 0 <= k < |a + b| ensures RowFits(a + b, k) {
      if k < |a| {
        assert RowFits(a, k);
      } else {
        assert RowFits(b, k - |a|);
      }
    }
  }

  lemma {:induction false} SumOfThree(rows: seq<BalanceHistory>, f: BalanceHistory -> real)
    requires |rows| == 3
    ensures SumRows(rows, f) == f(rows[0]) + f(rows[1]) + f(rows[2])
  {
    assert rows[..2][..1] == rows[..1] && rows[..1][..0] == [];
    assert SumRows(rows, f) == SumRows(rows[..2], f) + f(rows[2]);
    assert SumRows(rows[..2], f) == SumRows(rows[..1], f) + f(rows[1]);
    assert SumRows(rows[..1], f) == SumRows(rows[..0], f) + f(rows[0]);
  }

  /** Fees charged and fees collected cancel. */
  lemma {:induction false} FeesCancel(rows: seq<BalanceHistory>)
    requires FeesFollowTrades(rows)
    ensures SumRows(rows, AnyChange()) == SumRows(rows, NonFeeChange())
    decreases |rows|
  {
    if rows != [] {
      var n := |rows|;
      assert RowFits(rows, n - 1);
      if rows[n - 1].action == CollectFee {
        assert RowFits(rows, n - 2);
        assert RowFits(rows, n - 3);
        var prefix, last := rows[..n - 3], rows[n - 3..];
        forall k | 0 <= k < |prefix| ensures RowFits(prefix, k) {
          assert RowFits(rows, k);
        }
        FeesCancel(prefix);
        assert rows == prefix + last;
        SumRowsConcat(prefix, last, AnyChange());
        SumRowsConcat(prefix, last, NonFeeChange());
        SumOfThree(last, AnyChange());
        SumOfThree(last, NonFeeChange());
      } else {
        assert n >= 2 ==> RowFits(rows, n - 2);
        var prefix := rows[..n - 1];
        forall k | 0 <= k < |prefix| ensures RowFits(prefix, k) {
          assert RowFits(rows, k);
        }
        FeesCancel(prefix);
      }
    }
  }

  // ----- One ledger step -----

  ghost function BalanceOffset(t: Tables, accountId: int): real {
    Balance(t, accountId) - SumRows(t.history, ChangeOf(accountId))
  }

  ghost function CashOffset(t: Tables, accountId: int): real {
    SumRows(t.history, TradeChangeOf(accountId)) - SumTrades(t.trades, CashOf(accountId))
  }

  ghost function HoldingOffset(t: Tables, accountId: int, instrumentId: int): real {
    Holding(t, accountId, instrumentId) - SumTrades(t.trades, QuantityOf(accountId, instrumentId))
  }

  ghost predicate SameOffsets(t: Tables, u: Tables) {
    && (forall a :: BalanceOffset(t, a) == BalanceOffset(u, a))
    && (forall a :: CashOffset(t, a) == CashOffset(u, a))
    && (forall a, i :: HoldingOffset(t, a, i) == HoldingOffset(u, a, i))
    && ExecutedTrades(t.trades) + TradeRows(u.history) == ExecutedTrades(u.trades) + TradeRows(t.history)
  }

  /** What every broker request keeps between the tables before and after it: the history only grows, by rows of known
      accounts whose fees pair off, and balances, trade amounts, holdings and executed trades move together. */
  ghost predicate LedgerStep(t: Tables, u: Tables) {
    && u.balances.Keys == t.balances.Keys
    && t.history <= u.history
    && (forall k :: |t.history| <= k < |u.history| ==> u.history[k].accountId in t.balances)
    && FeesFollowTrades(u.history[|t.history|..])
    && SameOffsets(t, u)
  }

  lemma LedgerStepReflexive(t: Tables)
    ensures LedgerStep(t, t)
  {
  }

  lemma SameOffsetsTransitive(t: Tables, u: Tables, v: Tables)
    requires SameOffsets(t, u) && SameOffsets(u, v)
    ensures SameOffsets(t, v)
  {
    var et, eu, ev := ExecutedTrades(t.trades), ExecutedTrades(u.trades), ExecutedTrades(v.trades);
    var ht, hu, hv := TradeRows(t.history), TradeRows(u.history), TradeRows(v.history);
    forall x ensures (et + hv)[x] == (ev + ht)[x] {
      assert (et + hu)[x] == (eu + ht)[x] && (eu + hv)[x] == (ev + hu)[x];
    }
    forall a ensures BalanceOffset(t, a) == BalanceOffset(v, a) && CashOffset(t, a) == CashOffset(v, a) {
      assert BalanceOffset(t, a) == BalanceOffset(u, a) && CashOffset(t, a) == CashOffset(u, a);
    }
  }

  /** The ledger rows added by two steps in a row. */
  lemma HistoryGrows(a: seq<BalanceHistory>, b: seq<BalanceHistory>, c: seq<BalanceHistory>)
    requires a <= b <= c && FeesFollowTrades(b[|a|..]) && FeesFollowTrades(c[|b|..])
    ensures a <= c && FeesFollowTrades(c[|a|..])
  {
    FeesFollowTradesConcat(b[|a|..], c[|b|..]);
    assert c[|a|..] == b[|a|..] + c[|b|..];
  }

  lemma LedgerStepTransitive(t: Tables, u: Tables, v: Tables)
    requires LedgerStep(t, u) && LedgerStep(u, v)
    ensures LedgerStep(t, v)
  {
    HistoryGrows(t.history, u.history, v.history);
    SameOffsetsTransitive(t, u, v);
    forall k | |t.history| <= k < |v.history| ensures v.history[k].accountId in t.balances {
      if k < |u.history| {
        assert v.history[k] == u.history[k];
      }
    }
  }

  // ----- The steps the requests are made of -----

  /** The new rows and balances of one UpdateBalance call, also when the trader is the owner. */
  lemma UpdateBalanceEffect(t: Tables, accountId: int, amount: real, fee: real, action: ActionType)
    requires accountId in t.balances && OWNER_ID in t.balances && IsTrade(action)
    ensures var u := UpdateBalance(t, accountId, amount, fee, action);
      && u.balances.Keys == t.balances.Keys
      && u.trades == t.trades && u.holdings == t.holdings
      && u.history[..|t.history|] == t.history
      && |u.history| == |t.history| + 3
      && (var rows := u.history[|t.history|..];
          && rows[0].accountId == accountId && rows[0].action == action && rows[0].valueChange == Income(action, amount)
          && rows[1].accountId == accountId && rows[1].action == TransactionFee && rows[1].valueChange == -fee
          && rows[2].accountId == OWNER_ID && rows[2].action == CollectFee && rows[2].valueChange == fee)
      && (forall a :: a in t.balances ==>
            u.balances[a] == t.balances[a]
              + (if a == accountId then Income(action, amount) - fee else 0.0)
              + (if a == OWNER_ID then fee else 0.0))
  {
  }

  lemma {:induction false} TradeRowsOfThree(rows: seq<BalanceHistory>)
    requires |rows| == 3
    ensures TradeRows(rows) == TradeRow(rows[0]) + TradeRow(rows[1]) + TradeRow(rows[2])
  {
    assert rows[..2][..1] == rows[..1] && rows[..1][..0] == [];
    assert TradeRows(rows) == TradeRows(rows[..2]) + TradeRow(rows[2]);
    assert TradeRows(rows[..2]) == TradeRows(rows[..1]) + TradeRow(rows[1]);
    assert TradeRows(rows[..1]) == TradeRows(rows[..0]) + TradeRow(rows[0]);
  }

  /** A deposit or withdrawal. */
  lemma PostIsLedgerStep(t: Tables, accountId: int, change: real, action: ActionType)
    requires accountId in t.balances && !IsTrade(action) && !IsFee(action)
    ensures LedgerStep(t, Post(t, accountId, change, action))
  {
    var u := Post(t, accountId, change, action);
    var row := BalanceHistory(accountId, t.balances[accountId], change, action);
    assert u.history[|t.history|..] == [row];
    assert u.history[..|u.history| - 1] == t.history;
    assert forall f :: SumRows(u.history, f) == SumRows(t.history, f) + f(row);
    forall a ensures BalanceOffset(t, a) == BalanceOffset(u, a) {
      assert SumRows(u.history, ChangeOf(a)) == SumRows(t.history, ChangeOf(a)) + ChangeOf(a)(row);
    }
    forall a ensures CashOffset(t, a) == CashOffset(u, a) {
      assert SumRows(u.history, TradeChangeOf(a)) == SumRows(t.history, TradeChangeOf(a)) + TradeChangeOf(a)(row);
    }
    assert TradeRows(u.history) == TradeRows(t.history) + TradeRow(row);
  }

  /** The three rows of a settlement: the trade, its fee, and the owner's collection of that fee. */
  ghost predicate AreSettlementRows(rows: seq<BalanceHistory>, row: Trade, fee: real) {
    && |rows| == 3
    && rows[0].accountId == row.accountId && rows[0].action == row.direction
    && rows[0].valueChange == Income(row.direction, Cost(row.quantity, row.entryPrice))
    && rows[1].accountId == row.accountId && rows[1].action == TransactionFee && rows[1].valueChange == -fee
    && rows[2].accountId == OWNER_ID && rows[2].action == CollectFee && rows[2].valueChange == fee
  }

  lemma SettlementRowsFit(rows: seq<BalanceHistory>, row: Trade, fee: real)
    requires AreSettlementRows(rows, row, fee) && IsTrade(row.direction)
    ensures FeesFollowTrades(rows)
  {
    assert RowFits(rows, 0) && RowFits(rows, 1) && RowFits(rows, 2);
  }

  lemma SettlementTradeRows(rows: seq<BalanceHistory>, row: Trade, fee: real)
    requires AreSettlementRows(rows, row, fee) && IsTrade(row.direction)
    ensures TradeRows(rows) == ExecutedTrade(row.(transactionHappened := true))
  {
    TradeRowsOfThree(rows);
    assert TradeRow(rows[1]) == multiset{} && TradeRow(rows[2]) == multiset{};
  }

  lemma SettlementChanges(rows: seq<BalanceHistory>, row: Trade, fee: real, a: int)
    requires AreSettlementRows(rows, row, fee) && IsTrade(row.direction)
    ensures SumRows(rows, ChangeOf(a)) ==
            (if a == row.accountId then Income(row.direction, Cost(row.quantity, row.entryPrice)) - fee else 0.0)
            + (if a == OWNER_ID then fee else 0.0)
    ensures SumRows(rows, TradeChangeOf(a)) == CashOf(a)(row.(transactionHappened := true))
  {
    SumOfThree(rows, ChangeOf(a));
    SumOfThree(rows, TradeChangeOf(a));
  }

  /** A settlement appends its three rows, and moves the balances by them; the trader may be the owner. */
  lemma SettleHistory(t: Tables, row: Trade, fee: real) returns (rows: seq<BalanceHistory>)
    requires row.accountId in t.balances && OWNER_ID in t.balances && IsTrade(row.direction)
    ensures var u := Settle(t, row, fee);
      && u.history == t.history + rows && AreSettlementRows(rows, row, fee)
      && u.trades == t.trades && u.balances.Keys == t.balances.Keys
      && forall a :: a in t.balances ==>
           u.balances[a] == t.balances[a]
             + (if a == row.accountId then Income(row.direction, Cost(row.quantity, row.entryPrice)) - fee else 0.0)
             + (if a == OWNER_ID then fee else 0.0)
  {
    UpdateBalanceEffect(t, row.accountId, Cost(row.quantity, row.entryPrice), fee, row.direction);
    var u := Settle(t, row, fee);
    rows := u.history[|t.history|..];
  }

  /** Settling a trade moves the balances by exactly the rows it records. */
  lemma SettledRows(t: Tables, u: Tables, rows: seq<BalanceHistory>, row: Trade, fee: real)
    requires row.accountId in t.balances && OWNER_ID in t.balances && IsTrade(row.direction)
    requires u.history == t.history + rows && AreSettlementRows(rows, row, fee)
    ensures t.history <= u.history && FeesFollowTrades(u.history[|t.history|..])
    ensures forall k :: |t.history| <= k < |u.history| ==> u.history[k].accountId in t.balances
  {
    assert u.history[|t.history|..] == rows;
    SettlementRowsFit(rows, row, fee);
    forall k | |t.history| <= k < |u.history| ensures u.history[k].accountId in t.balances {
      assert u.history[k] == rows[k - |t.history|];
    }
  }

  lemma SettleRows(t: Tables, row: Trade, fee: real)
    requires row.accountId in t.balances && OWNER_ID in t.balances && IsTrade(row.direction)
    ensures var u := Settle(t, row, fee);
      && u.balances.Keys == t.balances.Keys
      && t.history <= u.history && u.trades == t.trades
      && (forall k :: |t.history| <= k < |u.history| ==> u.history[k].accountId in t.balances)
      && FeesFollowTrades(u.history[|t.history|..])
      && TradeRows(u.history) == TradeRows(t.history) + ExecutedTrade(row.(transactionHappened := true))
  {
    var rows := SettleHistory(t, row, fee);
    SettledRows(t, Settle(t, row, fee), rows, row, fee);
    TradeRowsConcat(t.history, rows);
    SettlementTradeRows(rows, row, fee);
  }

  lemma SettleOffsets(t: Tables, row: Trade, fee: real, a: int)
    requires row.accountId in t.balances && OWNER_ID in t.balances && IsTrade(row.direction)
    ensures var u := Settle(t, row, fee);
      && BalanceOffset(u, a) == BalanceOffset(t, a)
      && SumRows(u.history, TradeChangeOf(a))
           == SumRows(t.history, TradeChangeOf(a)) + CashOf(a)(row.(transactionHappened := true))
  {
    var rows := SettleHistory(t, row, fee);
    SumRowsConcat(t.history, rows, ChangeOf(a));
    SumRowsConcat(t.history, rows, TradeChangeOf(a));
    SettlementChanges(rows, row, fee, a);
  }

  lemma QuickOffsets(t: Tables, row: Trade, fee: real, a: int)
    requires row.accountId in t.balances && OWNER_ID in t.balances && IsTrade(row.direction) && row.transactionHappened
    ensures var u := Settle(t.(trades := t.trades + [row]), row, fee);
      BalanceOffset(t, a) == BalanceOffset(u, a) && CashOffset(t, a) == CashOffset(u, a)
  {
    var s := t.(trades := t.trades + [row]);
    assert row.(transactionHappened := true) == row && Settle(s, row, fee).trades == s.trades;
    SettleOffsets(s, row, fee, a);
    SumTradesAppend(t.trades, row, CashOf(a));
  }

  lemma QuickHoldings(t: Tables, row: Trade, fee: real, a: int, i: int)
    requires row.accountId in t.balances && OWNER_ID in t.balances && IsTrade(row.direction) && row.transactionHappened
    ensures HoldingOffset(t, a, i) == HoldingOffset(Settle(t.(trades := t.trades + [row]), row, fee), a, i)
  {
    SumTradesAppend(t.trades, row, QuantityOf(a, i));
  }

  /** Settling a trade and appending its executed row: a quick buy or sell. */
  lemma QuickIsLedgerStep(t: Tables, row: Trade, fee: real)
    requires row.accountId in t.balances && OWNER_ID in t.balances && IsTrade(row.direction) && row.transactionHappened
    ensures LedgerStep(t, Settle(t.(trades := t.trades + [row]), row, fee))
  {
    var s := t.(trades := t.trades + [row]);
    var u := Settle(s, row, fee);
    SettleRows(s, row, fee);
    assert row.(transactionHappened := true) == row;
    forall a ensures BalanceOffset(t, a) == BalanceOffset(u, a) && CashOffset(t, a) == CashOffset(u, a) {
      QuickOffsets(t, row, fee, a);
    }
    forall a, i ensures HoldingOffset(t, a, i) == HoldingOffset(u, a, i) {
      QuickHoldings(t, row, fee, a, i);
    }
    assert s.trades[..|t.trades|] == t.trades;
    assert ExecutedTrades(s.trades) == ExecutedTrades(t.trades) + ExecutedTrade(row);
  }

  /** Closing an open row without money. */
  lemma RejectIsLedgerStep(t: Tables, id: nat, status: TradeStatus)
    requires id < |t.trades| && !t.trades[id].transactionHappened
    ensures LedgerStep(t, CloseTrade(t, id, status, false))
  {
    var row := Closed(t.trades[id], status, false);
    var u := CloseTrade(t, id, status, false);
    assert u.history[|t.history|..] == [];
    forall a ensures CashOffset(t, a) == CashOffset(u, a) {
      RejectOffsets(t, id, status, a, 0);
    }
    forall a, i ensures HoldingOffset(t, a, i) == HoldingOffset(u, a, i) {
      RejectOffsets(t, id, status, a, i);
    }
    ExecutedTradesUpdate(t.trades, id, row);
  }

  lemma RejectOffsets(t: Tables, id: nat, status: TradeStatus, a: int, i: int)
    requires id < |t.trades| && !t.trades[id].transactionHappened
    ensures var u := CloseTrade(t, id, status, false);
      CashOffset(t, a) == CashOffset(u, a) && HoldingOffset(t, a, i) == HoldingOffset(u, a, i)
  {
    var row := Closed(t.trades[id], status, false);
    SumTradesUpdate(t.trades, id, row, CashOf(a));
    SumTradesUpdate(t.trades, id, row, QuantityOf(a, i));
  }

  ghost predicate MayExecute(t: Tables, id: nat) {
    && id < |t.trades| && OWNER_ID in t.balances && t.trades[id].accountId in t.balances
    && IsTrade(t.trades[id].direction) && !t.trades[id].transactionHappened
  }

  lemma ExecuteOffsets(t: Tables, id: nat, fee: real, status: TradeStatus, a: int)
    requires MayExecute(t, id)
    ensures var u := CloseTrade(Settle(t, t.trades[id], fee), id, status, true);
      BalanceOffset(t, a) == BalanceOffset(u, a) && CashOffset(t, a) == CashOffset(u, a)
  {
    var pending := t.trades[id];
    var row := Closed(pending, status, true);
    SettleOffsets(t, pending, fee, a);
    SumTradesUpdate(t.trades, id, row, CashOf(a));
    assert CashOf(a)(row) == CashOf(a)(pending.(transactionHappened := true));
  }

  lemma ExecuteHoldings(t: Tables, id: nat, fee: real, status: TradeStatus, a: int, i: int)
    requires MayExecute(t, id)
    ensures HoldingOffset(t, a, i) == HoldingOffset(CloseTrade(Settle(t, t.trades[id], fee), id, status, true), a, i)
  {
    SumTradesUpdate(t.trades, id, Closed(t.trades[id], status, true), QuantityOf(a, i));
  }

  /** Settling an open trade and closing its row as executed. */
  lemma ExecuteIsLedgerStep(t: Tables, id: nat, fee: real, status: TradeStatus)
    requires MayExecute(t, id)
    ensures LedgerStep(t, CloseTrade(Settle(t, t.trades[id], fee), id, status, true))
  {
    var pending := t.trades[id];
    var row := Closed(pending, status, true);
    var s := Settle(t, pending, fee);
    var u := CloseTrade(s, id, status, true);
    SettleRows(t, pending, fee);
    forall a ensures BalanceOffset(t, a) == BalanceOffset(u, a) && CashOffset(t, a) == CashOffset(u, a) {
      ExecuteOffsets(t, id, fee, status, a);
    }
    forall a, i ensures HoldingOffset(t, a, i) == HoldingOffset(u, a, i) {
      ExecuteHoldings(t, id, fee, status, a, i);
    }
    ExecutedTradesUpdate(t.trades, id, row);
  }
}
