/** The broker's services over tracked rows.

    Each request loads the rows it needs into a context, changes the tracked objects in place and saves them in one
    transaction. Two names may reach the same tracked object: when the trader is the owner, the balance being charged
    and the owner's balance are one. */
module BrokerService {
  import opened Wrappers
  import opened BrokerTables

  // ----- Tracked rows -----

  class Balance {
    const accountId: int
    var value: real

    constructor (accountId: int, value: real)
      ensures this.accountId == accountId && this.value == value
    {
      this.accountId := accountId;
      this.value := value;
    }

    method Deposit(amount: real) returns (error: Option<BrokerError>)
      modifies this
      ensures if amount < 0.0 then error == Some(NegativeAmount) && value == old(value)
              else error == None && value == old(value) + amount
    {
      if amount < 0.0 {
        return Some(NegativeAmount);
      }
      value := value + amount;
      return None;
    }

    method Withdraw(amount: real) returns (error: Option<BrokerError>)
      modifies this
      ensures if amount < 0.0 then error == Some(NegativeAmount) && value == old(value)
              else if amount > old(value) then error == Some(NotEnoughMoney) && value == old(value)
              else error == None && value == old(value) - amount
    {
      if amount < 0.0 {
        return Some(NegativeAmount);
      } else if amount > value {
        return Some(NotEnoughMoney);
      }
      value := value - amount;
      return None;
    }

    /** A withdrawal or a deposit; `change` is what it adds to the value. */
    method Move(amount: real, action: ActionType) returns (error: Option<BrokerError>, change: real)
      modifies this
      ensures change == if action == ActionType.Withdraw then -amount else amount
      ensures if amount < 0.0 then error == Some(NegativeAmount) && value == old(value)
              else if action == ActionType.Withdraw && amount > old(value) then
                error == Some(NotEnoughMoney) && value == old(value)
              else error == None && value == old(value) + change
    {
      if action == ActionType.Withdraw {
        error := Withdraw(amount);
        change := -amount;
      } else {
        error := Deposit(amount);
        change := amount;
      }
    }
  }

  class OwnedInstrument {
    const accountId: int
    const instrumentId: int
    var quantity: real

    constructor (accountId: int, instrumentId: int, quantity: real)
      ensures this.accountId == accountId && this.instrumentId == instrumentId && this.quantity == quantity
    {
      this.accountId := accountId;
      this.instrumentId := instrumentId;
      this.quantity := quantity;
    }
  }

  /** A tracked trade; the database gives each a distinct id. */
  class TrackedTrade {
    const id: nat
    var row: Trade

    constructor (id: nat, row: Trade)
      ensures this.id == id && this.row == row
    {
      this.id := id;
      this.row := row;
    }
  }

  /** The committed tables. */
  class Database {
    var tables: Tables

    constructor (tables: Tables)
      ensures this.tables == tables
    {
      this.tables := tables;
    }
  }

  method Pick<K>(keys: set<K>) returns (k: K)
    requires keys != {}
    ensures k in keys
  {
    k :| k in keys;
  }

  // ----- The context of one request -----

  /** The rows one request works on, as tracked objects. The ghost `tables` are the values they
      stand for, and the ghost `tracked` are the objects themselves. */
  class DbContext {
    var balances: map<int, Balance>
    var owned: map<(int, int), OwnedInstrument>
    var trades: seq<TrackedTrade>
    var history: seq<BalanceHistory>
    ghost var tables: Tables
    ghost var tracked: set<object>

    /** The tracked objects stand for the tables. A row is found under its own key, so no object is tracked under two. */
    ghost predicate Valid()
      reads this, tracked
    {
      && balances.Keys == tables.balances.Keys && owned.Keys == tables.holdings.Keys && |trades| == |tables.trades|
      && (forall a :: a in balances ==>
            balances[a] in tracked && balances[a].accountId == a && balances[a].value == tables.balances[a])
      && (forall k :: k in owned ==>
            && owned[k] in tracked && owned[k].accountId == k.0 && owned[k].instrumentId == k.1
            && owned[k].quantity == tables.holdings[k])
      && (forall i :: 0 <= i < |trades| ==>
            trades[i] in tracked && trades[i].id == i && trades[i].row == tables.trades[i])
      && history == tables.history
    }

    /** The tables the tracked objects stand for, read off the objects. */
    function Snapshot(): (t: Tables)
      requires Valid()
      reads this, tracked
      ensures t == tables
    {
      var rows := seq(|trades|, i requires 0 <= i < |trades| reads this, trades => trades[i].row);
      assert rows == tables.trades;
      var values := map a | a in balances :: balances[a].value;
      assert forall a :: a in tables.balances ==> values[a] == tables.balances[a];
      assert values == tables.balances;
      var quantities := map k | k in owned :: owned[k].quantity;
      assert quantities == tables.holdings;
      Tables(values, quantities, rows, history)
    }

    constructor Load(database: Database)
      ensures Valid() && tables == database.tables
      ensures fresh(tracked)
    {
      var t := database.tables;
      balances, owned, trades, history := map[], map[], [], t.history;
      tables, tracked := t, {};
      new;
      LoadBalances(t);
      LoadOwned(t);
      LoadTrades(t);
    }

    method LoadBalances(t: Tables)
      requires balances == map[]
      modifies this`balances, this`tracked
      ensures old(tracked) <= tracked && fresh(tracked - old(tracked))
      ensures balances.Keys == t.balances.Keys
      ensures forall a :: a in balances ==>
        (balances[a] in tracked && balances[a].accountId == a && balances[a].value == t.balances[a])
    {
      var accounts := t.balances.Keys;
      while accounts != {}
        invariant old(tracked) <= tracked && fresh(tracked - old(tracked))
        invariant accounts <= t.balances.Keys && balances.Keys == t.balances.Keys - accounts
        invariant forall a :: a in balances ==>
          (balances[a] in tracked && balances[a].accountId == a && balances[a].value == t.balances[a])
        decreases accounts
      {
        var a := Pick(accounts);
        var balance := new Balance(a, t.balances[a]);
        balances := balances[a := balance];
        tracked := tracked + {balance};
        accounts := accounts - {a};
      }
    }

    method LoadOwned(t: Tables)
      requires owned == map[]
      modifies this`owned, this`tracked
      ensures old(tracked) <= tracked && fresh(tracked - old(tracked))
      ensures owned.Keys == t.holdings.Keys
      ensures forall k :: k in owned ==>
        (&& owned[k] in tracked && owned[k].accountId == k.0 && owned[k].instrumentId == k.1
            && owned[k].quantity == t.holdings[k])
    {
      var keys := t.holdings.Keys;
      while keys != {}
        invariant old(tracked) <= tracked && fresh(tracked - old(tracked))
        invariant keys <= t.holdings.Keys && owned.Keys == t.holdings.Keys - keys
        invariant forall k :: k in owned ==>
          (&& owned[k] in tracked && owned[k].accountId == k.0 && owned[k].instrumentId == k.1
            && owned[k].quantity == t.holdings[k])
        decreases keys
      {
        var k := Pick(keys);
        var row := new OwnedInstrument(k.0, k.1, t.holdings[k]);
        owned := owned[k := row];
        tracked := tracked + {row};
        keys := keys - {k};
      }
    }

    method LoadTrades(t: Tables)
      requires trades == []
      modifies this`trades, this`tracked
      ensures old(tracked) <= tracked && fresh(tracked - old(tracked))
      ensures |trades| == |t.trades|
      ensures forall i :: 0 <= i < |trades| ==> trades[i] in tracked && trades[i].id == i && trades[i].row == t.trades[i]
    {
      for n := 0 to |t.trades|
        invariant |trades| == n
        invariant old(tracked) <= tracked && fresh(tracked - old(tracked))
        invariant forall i :: 0 <= i < n ==> trades[i] in tracked && trades[i].id == i && trades[i].row == t.trades[i]
      {
        var trade := new TrackedTrade(n, t.trades[n]);
        trades := trades + [trade];
        tracked := tracked + {trade};
      }
    }

    // ----- Balances -----

    predicate IsTracked(balance: Balance)
      reads this
    {
      balance.accountId in balances && balances[balance.accountId] == balance
    }

    /** A deposit or withdrawal on a tracked balance, with its history row. */
    method ChangeBalance(balance: Balance, amount: real, action: ActionType) returns (error: Option<BrokerError>)
      requires Valid() && IsTracked(balance) && (action == Deposit || action == Withdraw)
      modifies this`history, this`tables, balance
      ensures var spec := BrokerTables.ModifyBalance(old(tables), balance.accountId, amount, action);
        if spec.Success? then error == None && Valid() && tables == spec.value else error == Some(spec.error)
    {
      var oldValue := balance.value;
      var balanceDifference: real;
      error, balanceDifference := balance.Move(amount, action);
      if error.None? {
        history := history + [BalanceHistory(balance.accountId, oldValue, balanceDifference, action)];
        tables := Post(tables, balance.accountId, balanceDifference, action);
      }
    }

    /** A history row and the change of the tracked balance it records. */
    method Record(balance: Balance, change: real, action: ActionType)
      requires Valid() && IsTracked(balance)
      modifies this`history, this`tables, balance
      ensures Valid() && tables == Post(old(tables), balance.accountId, change, action)
    {
      history := history + [BalanceHistory(balance.accountId, balance.value, change, action)];
      balance.value := balance.value + change;
      tables := Post(tables, balance.accountId, change, action);
    }

    method UpdateBalance(balance: Balance, amount: real, fee: real, action: ActionType)
      requires Valid() && OWNER_ID in balances && IsTracked(balance)
      modifies this`history, this`tables, balance, balances[OWNER_ID]
      ensures Valid() && tables == BrokerTables.UpdateBalance(old(tables), balance.accountId, amount, fee, action)
    {
      RecordWithFee(balance, Income(action, amount), fee, action);
      CollectFee(fee);
    }

    /** The trade row and the fee row of the trader. */
    method RecordWithFee(balance: Balance, income: real, fee: real, action: ActionType)
      requires Valid() && IsTracked(balance)
      modifies this`history, this`tables, balance
      ensures Valid() && tables == Post(Post(old(tables), balance.accountId, income, action),
                                        balance.accountId, -fee, TransactionFee)
    {
      Record(balance, income, action);
      Record(balance, -fee, TransactionFee);
    }

    method CollectFee(fee: real)
      requires Valid() && OWNER_ID in balances
      modifies this`history, this`tables, balances[OWNER_ID]
      ensures Valid() && tables == Post(old(tables), OWNER_ID, fee, ActionType.CollectFee)
    {
      var ownerBalance := balances[OWNER_ID];
      Record(ownerBalance, fee, ActionType.CollectFee);
    }

    // ----- Holdings -----

    method UpdateOwnedInstrument(accountId: int, instrumentId: int, amount: real)
      requires Valid()
      modifies this`owned, this`tables, this`tracked, owned.Values
      ensures Valid() && tables == BrokerTables.UpdateOwnedInstrument(old(tables), accountId, instrumentId, amount)
      ensures fresh(tracked - old(tracked))
    {
      var key := (accountId, instrumentId);
      if key !in owned {
        AddOwned(accountId, instrumentId, amount);
      } else {
        owned[key].quantity := owned[key].quantity + amount;
        tables := BrokerTables.UpdateOwnedInstrument(tables, accountId, instrumentId, amount);
      }
    }

    method AddOwned(accountId: int, instrumentId: int, quantity: real)
      requires Valid() && (accountId, instrumentId) !in owned
      modifies this`owned, this`tables, this`tracked
      ensures Valid() && tables == BrokerTables.UpdateOwnedInstrument(old(tables), accountId, instrumentId, quantity)
      ensures fresh(tracked - old(tracked))
    {
      var row := new OwnedInstrument(accountId, instrumentId, quantity);
      owned := owned[(accountId, instrumentId) := row];
      tracked := tracked + {row};
      tables := BrokerTables.UpdateOwnedInstrument(tables, accountId, instrumentId, quantity);
    }

    // ----- Trades -----

    method AddTrade(row: Trade)
      requires Valid()
      modifies this`trades, this`tables, this`tracked
      ensures Valid() && tables == old(tables).(trades := old(tables).trades + [row])
      ensures fresh(tracked - old(tracked))
    {
      var trade := new TrackedTrade(|trades|, row);
      trades := trades + [trade];
      tracked := tracked + {trade};
      tables := tables.(trades := tables.trades + [row]);
    }

    method CloseTrade(trade: TrackedTrade, status: TradeStatus, transactionHappened: bool)
      requires Valid() && trade.id < |trades| && trades[trade.id] == trade
      modifies this`tables, trade
      ensures Valid() && tables == BrokerTables.CloseTrade(old(tables), trade.id, status, transactionHappened)
    {
      trade.row := trade.row.(status := status, transactionHappened := transactionHappened, tradeClosed := true);
      tables := BrokerTables.CloseTrade(tables, trade.id, status, transactionHappened);
    }

    /** The money and the instruments of one executed trade. */
    method Settle(row: Trade, fee: real)
      requires Valid() && OWNER_ID in balances && row.accountId in balances
      modifies this`history, this`owned, this`tables, this`tracked, tracked
      ensures Valid() && tables == BrokerTables.Settle(old(tables), row, fee)
      ensures trades == old(trades) && fresh(tracked - old(tracked))
    {
      var amount := Cost(row.quantity, row.entryPrice);
      var balance := balances[row.accountId];
      var quantity := if IsSell(row.direction) then -row.quantity else row.quantity;
      Exchange(balance, amount, fee, row.direction, row.instrumentId, quantity);
    }

    /** Money for instruments, with the fee. */
    method Exchange(balance: Balance, amount: real, fee: real, action: ActionType, instrumentId: int, quantity: real)
      requires Valid() && OWNER_ID in balances && IsTracked(balance)
      modifies this`history, this`owned, this`tables, this`tracked, tracked
      ensures Valid() && trades == old(trades) && fresh(tracked - old(tracked))
      ensures tables == BrokerTables.UpdateOwnedInstrument(
                          BrokerTables.UpdateBalance(old(tables), balance.accountId, amount, fee, action),
                          balance.accountId, instrumentId, quantity)
    {
      UpdateBalance(balance, amount, fee, action);
      UpdateOwnedInstrument(balance.accountId, instrumentId, quantity);
    }

    // ----- The batch over long trades -----

    method ProcessLongBuy(trade: TrackedTrade, price: Price, fee: real)
      requires Valid() && Consistent(tables) && trade.id < |trades| && trades[trade.id] == trade
      modifies this, tracked
      ensures Valid() && tables == BrokerTables.ProcessLongBuy(old(tables), trade.id, price, fee)
      ensures trades == old(trades) && fresh(tracked - old(tracked))
    {
      var row := trade.row;
      if row.entryPrice < price.low {
        return;
      }
      var totalCost := Cost(row.quantity, row.entryPrice) + fee;
      if totalCost > balances[row.accountId].value {
        CloseTrade(trade, NotEnoughMoneyToBuy, false);
      } else {
        Settle(row, fee);
        CloseTrade(trade, LongBuyFinished, true);
      }
    }

    method ProcessLongSell(trade: TrackedTrade, price: Price, fee: real)
      requires Valid() && Consistent(tables) && trade.id < |trades| && trades[trade.id] == trade
      modifies this, tracked
      ensures Valid() && tables == BrokerTables.ProcessLongSell(old(tables), trade.id, price, fee)
      ensures trades == old(trades) && fresh(tracked - old(tracked))
    {
      var row := trade.row;
      if row.entryPrice > price.high {
        return;
      }
      var key := (row.accountId, row.instrumentId);
      if key !in owned || owned[key].quantity < row.quantity {
        CloseTrade(trade, NotEnoughStocksToSell, false);
      } else {
        Settle(row, fee);
        CloseTrade(trade, LongSellFinished, true);
      }
    }
  }
}
