/** The user generator's objects: balances, owned instruments, accounts and the two shared histories, changed in place. Each
    method is proved against the functions of TradingHistory. */
module TradingObjects {
  import opened Wrappers
  import opened TradingHistory

  class BalanceHistory {
    var entryId: nat
    var entries: seq<BalanceEntry>

    constructor ()
      ensures entryId == STARTING_INDEX && entries == []
    {
      entryId, entries := STARTING_INDEX, [];
    }

    method GetEntryId() returns (id: nat)
      modifies this`entryId
      ensures id == old(entryId) && entryId == old(entryId) + 1
    {
      id := entryId;
      entryId := entryId + 1;
    }

    method NewEntry(accountId: int, oldValue: real, change: real, action: ActionType, date: int)
      modifies this
      ensures entries == old(entries) + [BalanceEntry(old(entryId), accountId, oldValue, change, action, date)]
      ensures entryId == old(entryId) + 1
    {
      var id := GetEntryId();
      entries := entries + [BalanceEntry(id, accountId, oldValue, change, action, date)];
    }
  }

  class TradeHistory {
    var entryId: nat
    var entries: seq<TradeEntry>

    constructor ()
      ensures entryId == STARTING_INDEX && entries == []
    {
      entryId, entries := STARTING_INDEX, [];
    }

    method GetEntryId() returns (id: nat)
      modifies this`entryId
      ensures id == old(entryId) && entryId == old(entryId) + 1
    {
      id := entryId;
      entryId := entryId + 1;
    }

    method NewEntry(accountId: int, instrument: nat, action: ActionType, quantity: int, price: real, openedAt: int,
                    closedAt: int, successful: bool)
      modifies this
      ensures entries == old(entries)
           + [TradeEntry(old(entryId), accountId, instrument, action, quantity, price, openedAt, closedAt, true, successful)]
      ensures entryId == old(entryId) + 1
    {
      var id := GetEntryId();
      entries := entries
        + [TradeEntry(id, accountId, instrument, action, quantity, price, openedAt, closedAt, true, successful)];
    }
  }

  class Balance {
    const accountId: int
    var value: real
    const history: BalanceHistory

    constructor (accountId: int, history: BalanceHistory)
      ensures this.accountId == accountId && value == 0.0 && this.history == history
    {
      this.accountId, value, this.history := accountId, 0.0, history;
    }

    /** Withdrawals, purchases and fees take money, deposits and sales bring it. */
    method Act(action: ActionType, amount: real, date: int) returns (done: bool)
      modifies this, history
      ensures action == Deposit || action == Sell ==>
                IsAdded(old(value), old(history.entries), old(history.entryId), action, amount, date, done)
      ensures action != Deposit && action != Sell ==>
                IsRemoved(old(value), old(history.entries), old(history.entryId), action, amount, date, done)
    {
      match action {
        case Withdraw | Buy | TransactionFee => done := RemoveFunds(action, amount, date);
        case Deposit | Sell => done := AddFunds(action, amount, date);
      }
    }

    ghost predicate IsChange(before: real, entries: seq<BalanceEntry>, id: nat, action: ActionType, change: real, date: int)
      reads this, history
    {
      && value == before + change && history.entryId == id + 1
      && history.entries == entries + [BalanceEntry(id, accountId, before, change, action, date)]
    }

    ghost predicate IsSame(before: real, entries: seq<BalanceEntry>, id: nat)
      reads this, history
    {
      value == before && history.entries == entries && history.entryId == id
    }

    ghost predicate IsRemoved(before: real, entries: seq<BalanceEntry>, id: nat, action: ActionType, amount: real, date: int,
                              done: bool)
      reads this, history
    {
      && done == (amount > MIN_WITHDRAW_VALUE && amount <= before)
      && if done then IsChange(before, entries, id, action, -amount, date) else IsSame(before, entries, id)
    }

    ghost predicate IsAdded(before: real, entries: seq<BalanceEntry>, id: nat, action: ActionType, amount: real, date: int,
                            done: bool)
      reads this, history
    {
      && done == (amount >= MIN_DEPOSIT_VALUE)
      && if done then IsChange(before, entries, id, action, amount, date) else IsSame(before, entries, id)
    }

    method RemoveFunds(action: ActionType, amount: real, date: int) returns (done: bool)
      modifies this, history
      ensures IsRemoved(old(value), old(history.entries), old(history.entryId), action, amount, date, done)
    {
      if amount <= MIN_WITHDRAW_VALUE {
        return false;
      }
      if amount > value {
        return false;
      }
      history.NewEntry(accountId, value, -amount, action, date);
      value := value - amount;
      return true;
    }

    method AddFunds(action: ActionType, amount: real, date: int) returns (done: bool)
      modifies this, history
      ensures IsAdded(old(value), old(history.entries), old(history.entryId), action, amount, date, done)
    {
      if amount < MIN_DEPOSIT_VALUE {
        return false;
      }
      history.NewEntry(accountId, value, amount, action, date);
      value := value + amount;
      return true;
    }
  }

  class OwnedInstrument {
    var quantity: int
    var lastModification: int

    constructor (date: int)
      ensures quantity == 0 && lastModification == date
    {
      quantity, lastModification := 0, date;
    }

    method Modify(change: int, date: int)
      modifies this
      ensures quantity == old(quantity) + change && lastModification == date
    {
      quantity, lastModification := quantity + change, date;
    }
  }

  ghost function Quantities(owned: seq<OwnedInstrument>): seq<int>
    reads owned
  {
    seq(|owned|, i requires 0 <= i < |owned| reads owned => owned[i].quantity)
  }

  lemma OneMoreHeld(holdings: seq<int>, i: nat)
    requires 0 < i < |holdings|
    ensures LeastHeld(holdings[..i + 1])
         == if holdings[i] < holdings[LeastHeld(holdings[..i])] then i else LeastHeld(holdings[..i])
  {
    assert holdings[..i + 1][..i] == holdings[..i];
  }

  class Account {
    const id: int
    const balance: Balance
    const owned: seq<OwnedInstrument>

    constructor (id: int, balance: Balance, owned: seq<OwnedInstrument>)
      requires Distinct(owned) && balance.accountId == id
      ensures this.id == id && this.balance == balance && this.owned == owned && Valid()
    {
      this.id, this.balance, this.owned := id, balance, owned;
    }

    ghost predicate Valid() {
      Distinct(owned) && balance.accountId == id
    }

    /** The account and the histories it shares with the others, as values. */
    ghost function Value(trades: TradeHistory): World
      reads balance, balance.history, owned, trades
    {
      World(AccountState(id, balance.value, Quantities(owned)),
            Histories(balance.history.entries, balance.history.entryId, trades.entries, trades.entryId))
    }

    method ModifyInstrument(instrument: nat, change: int, date: int)
      requires Valid() && instrument < |owned|
      modifies owned[instrument]
      ensures Quantities(owned) == old(Quantities(owned))[instrument := old(owned[instrument].quantity) + change]
    {
      owned[instrument].Modify(change, date);
    }

    method Buy(instrument: nat, quantity: int, price: real, date: int, ghost trades: TradeHistory) returns (accepted: bool)
      requires Valid() && instrument < |owned|
      modifies balance, balance.history, owned
      ensures (Value(trades), accepted) == BuyInstrument(old(Value(trades)), instrument, quantity, price, date)
    {
      if balance.value < price {
        return false;
      }
      var _ := balance.RemoveFunds(ActionType.Buy, price, date);
      ModifyInstrument(instrument, quantity, date);
      return true;
    }

    method Sell(instrument: nat, quantity: int, price: real, date: int, ghost trades: TradeHistory) returns (accepted: bool)
      requires Valid() && instrument < |owned|
      modifies balance, balance.history, owned
      ensures (Value(trades), accepted) == SellInstrument(old(Value(trades)), instrument, quantity, price, date)
    {
      if owned[instrument].quantity < quantity {
        return false;
      }
      ModifyInstrument(instrument, -quantity, date);
      var _ := balance.AddFunds(ActionType.Sell, price, date);
      return true;
    }

    method DepositFunds(amount: real, date: int, ghost trades: TradeHistory)
      requires Valid()
      modifies balance, balance.history
      ensures Value(trades) == AddFunds(old(Value(trades)), Deposit, amount, date).0
    {
      var _ := balance.Act(Deposit, amount, date);
    }

    method WithdrawFunds(amount: real, date: int, ghost trades: TradeHistory)
      requires Valid()
      modifies balance, balance.history
      ensures Value(trades) == RemoveFunds(old(Value(trades)), Withdraw, amount, date).0
    {
      var _ := balance.Act(Withdraw, amount, date);
    }

    /** The first of the instruments held least. */
    method LeastHeldInstrument() returns (k: nat)
      requires owned != []
      ensures k == LeastHeld(Quantities(owned))
    {
      k := 0;
      ghost var all := Quantities(owned);
      assert all[..1] == [all[0]];
      for i := 1 to |owned|
        invariant k < i && k == LeastHeld(all[..i])
      {
        OneMoreHeld(all, i);
        if owned[i].quantity < owned[k].quantity {
          k := i;
        }
      }
      assert all[..|owned|] == all;
    }
  }

  class TradeManager {
    const history: TradeHistory

    constructor (history: TradeHistory)
      ensures this.history == history
    {
      this.history := history;
    }

    method Trade(action: ActionType, account: Account, instrument: nat, quantity: int, unitPrice: real, date: int,
                 success: bool)
      requires account.Valid() && instrument < |account.owned| && (action == Buy || action == Sell)
      modifies account.balance, account.balance.history, account.owned, history
      ensures account.Value(history)
           == TradingHistory.Trade(old(account.Value(history)), action, instrument, quantity, unitPrice, date, success)
    {
      var price := quantity as real * unitPrice;
      if success {
        var accepted;
        if action == Buy {
          accepted := account.Buy(instrument, quantity, price, date, history);
        } else {
          accepted := account.Sell(instrument, quantity, price, date, history);
        }
        if !accepted {
          return;
        }
      }
      history.NewEntry(account.id, instrument, action, quantity, unitPrice, date, date, success);
    }
  }

  class ActionGenerator {
    const tradeManager: TradeManager

    constructor (tradeManager: TradeManager)
      ensures this.tradeManager == tradeManager
    {
      this.tradeManager := tradeManager;
    }

    method GenerateAction(account: Account, reference: real, d: Draw)
      requires account.Valid() && account.owned != [] && IsDraw(d, |account.owned|)
      modifies account.balance, account.balance.history, account.owned, tradeManager.history
      ensures account.Value(tradeManager.history)
           == TradingHistory.GenerateAction(old(account.Value(tradeManager.history)), reference, d)
    {
      var value := account.balance.value;
      if value < LOW_BALANCE_THRESHOLD * reference {
        account.DepositFunds(reference - value, d.date, tradeManager.history);
        return;
      }
      if value > HIGH_BALANCE_THRESHOLD * reference {
        account.WithdrawFunds(BALANCE_WITHDRAW_RATIO * value, d.date, tradeManager.history);
        return;
      }
      var i := account.LeastHeldInstrument();
      var held := account.owned[i].quantity;
      if held < DESIRED_STOCK_QUANTITY {
        var quantity := BuyQuantity(value, d.buyRatio, d.unitPrices[i]);
        tradeManager.Trade(Buy, account, i, quantity, d.unitPrices[i], d.date, d.success);
        return;
      }
      if held > DESIRED_STOCK_QUANTITY {
        var quantity := SellQuantity(held, d.sellRatio);
        tradeManager.Trade(Sell, account, i, quantity, d.unitPrices[i], d.date, d.success);
      }
    }

    /** One account's whole history; the books hold afterwards if they held before. */
    method MakeHistory(account: Account, reference: real, draws: seq<Draw>)
      requires account.Valid() && account.owned != []
      requires forall k :: 0 <= k < |draws| ==> IsDraw(draws[k], |account.owned|)
      modifies account.balance, account.balance.history, account.owned, tradeManager.history
      ensures old(Holds(account.Value(tradeManager.history))) ==>
                && Holds(account.Value(tradeManager.history))
                && Follows(old(account.Value(tradeManager.history)), account.Value(tradeManager.history))
    {
      ghost var first := account.Value(tradeManager.history);
      for k := 0 to |draws|
        invariant Holds(first) ==>
                    && Holds(account.Value(tradeManager.history))
                    && Follows(first, account.Value(tradeManager.history))
      {
        ghost var before := account.Value(tradeManager.history);
        GenerateAction(account, reference, draws[k]);
        if Holds(first) {
          ActionKeepsBooks(before, reference, draws[k]);
          FollowsTwice(first, before, account.Value(tradeManager.history));
        }
      }
    }
  }
}
