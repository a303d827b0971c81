/** What one request does to the money, the holdings and the trades of everybody, in plain amounts. Whatever the tables'
    operations are made of, a caller can hold them to this. */
module BrokerEffects {
  import opened Wrappers
  import opened BrokerTables
  import opened BrokerLedger
  import opened BrokerBatch

  /** What the account holds of the instrument; nothing when there is no row. */
  function Held(t: Tables, accountId: int, instrumentId: int): real {
    if (accountId, instrumentId) in t.holdings then t.holdings[(accountId, instrumentId)] else 0.0
  }

  /** One account's balance changes by an amount and it pays a fee to account 1, which may be that account; its holding of one
      instrument changes by a quantity; nobody else is touched. */
  ghost predicate Exchanged(t: Tables, u: Tables, accountId: int, change: real, fee: real, instrumentId: int, quantity: real)
  {
    && accountId in t.balances && 1 in t.balances
    && u.balances.Keys == t.balances.Keys
    && (forall a :: a in t.balances ==>
          u.balances[a] == t.balances[a] + (if a == accountId then change - fee else 0.0) + (if a == 1 then fee else 0.0))
    && u.holdings == t.holdings[(accountId, instrumentId) := Held(t, accountId, instrumentId) + quantity]
  }

  /** The rows of a trade: the amount, the fee, and the fee again on account 1, each from the value before it. */
  ghost predicate Recorded(t: Tables, u: Tables, accountId: int, change: real, fee: real, action: ActionType)
    requires accountId in t.balances && 1 in t.balances
  {
    var before := t.balances[accountId];
    u.history == t.history
      + [BalanceHistory(accountId, before, change, action),
         BalanceHistory(accountId, before + change, -fee, TransactionFee),
         BalanceHistory(1, if accountId == 1 then before + change - fee else t.balances[1], fee, CollectFee)]
  }

  // ----- Settlements -----

  lemma PostedTwice(t: Tables, accountId: int, first: real, second: real, action: ActionType)
    requires accountId in t.balances
    ensures var before := t.balances[accountId];
      var u := Post(Post(t, accountId, first, action), accountId, second, TransactionFee);
      && u.history == t.history + [BalanceHistory(accountId, before, first, action),
                                   BalanceHistory(accountId, before + first, second, TransactionFee)]
      && u.balances == t.balances[accountId := before + first + second]
      && u.holdings == t.holdings && u.trades == t.trades
  {
  }

  lemma UpdatedBalances(t: Tables, accountId: int, amount: real, fee: real, action: ActionType)
    requires accountId in t.balances && OWNER_ID in t.balances
    ensures var u := UpdateBalance(t, accountId, amount, fee, action);
      var change := if action == Sell || action == LongSell then amount else -amount;
      && Recorded(t, u, accountId, change, fee, action)
      && u.holdings == t.holdings && u.trades == t.trades && u.balances.Keys == t.balances.Keys
      && forall a :: a in t.balances ==>
           u.balances[a] == t.balances[a] + (if a == accountId then change - fee else 0.0) + (if a == 1 then fee else 0.0)
  {
    var change := if action == Sell || action == LongSell then amount else -amount;
    PostedTwice(t, accountId, change, -fee, action);
  }

  /** The trade gives its account this change of money for this change of quantity. */
  ghost predicate Trades(row: Trade, change: real, quantity: real) {
    if row.direction == Sell || row.direction == LongSell then
      change == Cost(row.quantity, row.entryPrice) && quantity == -row.quantity
    else
      change == -Cost(row.quantity, row.entryPrice) && quantity == row.quantity
  }

  /** Both sides of an exchange and its rows. */
  ghost predicate Moved(t: Tables, u: Tables, accountId: int, change: real, fee: real, instrumentId: int, quantity: real,
                        action: ActionType)
  {
    && Exchanged(t, u, accountId, change, fee, instrumentId, quantity)
    && Recorded(t, u, accountId, change, fee, action)
  }

  lemma SettlementEffect(t: Tables, row: Trade, fee: real, change: real, quantity: real)
    requires row.accountId in t.balances && OWNER_ID in t.balances && Trades(row, change, quantity)
    ensures var u := Settle(t, row, fee);
      u.trades == t.trades && Moved(t, u, row.accountId, change, fee, row.instrumentId, quantity, row.direction)
  {
    var amount := Cost(row.quantity, row.entryPrice);
    UpdatedBalances(t, row.accountId, amount, fee, row.direction);
    HoldingEffect(t, UpdateBalance(t, row.accountId, amount, fee, row.direction), row.accountId, change, fee, row.instrumentId,
                  quantity, row.direction);
  }

  lemma HoldingEffect(t: Tables, paid: Tables, accountId: int, change: real, fee: real, instrumentId: int, quantity: real,
                      action: ActionType)
    requires accountId in t.balances && 1 in t.balances && Recorded(t, paid, accountId, change, fee, action)
    requires paid.holdings == t.holdings && paid.trades == t.trades && paid.balances.Keys == t.balances.Keys
    requires forall a :: a in t.balances ==>
      paid.balances[a] == t.balances[a] + (if a == accountId then change - fee else 0.0) + (if a == 1 then fee else 0.0)
    ensures var u := UpdateOwnedInstrument(paid, accountId, instrumentId, quantity);
      Moved(t, u, accountId, change, fee, instrumentId, quantity, action) && u.trades == t.trades
  {
  }

  lemma CostIs(quantity: real, price: real)
    ensures Cost(quantity, price) == quantity * price
  {
  }

  // ----- Quick trades -----

  /** A quick buy goes through exactly when the amount is not negative, everything it needs is there, and the balance covers
      amount times open price and the fee. */
  lemma QuickBuySucceedsIff(t: Tables, m: Market, accountId: int, instrumentId: int, amount: real, now: int)
    ensures QuickTransaction(t, m, accountId, instrumentId, amount, Buy, now).Success?
       <==> && amount >= 0.0 && accountId in t.balances && 1 in t.balances
            && instrumentId in m.instruments && instrumentId in m.prices && m.instruments[instrumentId] in m.products
            && amount * m.prices[instrumentId].open + m.products[m.instruments[instrumentId]] <= t.balances[accountId]
  {
    if instrumentId in m.prices {
      CostIs(amount, m.prices[instrumentId].open);
    }
  }

  /** A quick sell goes through exactly when the seller holds the amount; nothing is asked of the balance. */
  lemma QuickSellSucceedsIff(t: Tables, m: Market, accountId: int, instrumentId: int, amount: real, now: int)
    ensures QuickTransaction(t, m, accountId, instrumentId, amount, Sell, now).Success?
       <==> && amount >= 0.0 && accountId in t.balances && 1 in t.balances
            && instrumentId in m.instruments && instrumentId in m.prices && m.instruments[instrumentId] in m.products
            && (accountId, instrumentId) in t.holdings && amount <= t.holdings[(accountId, instrumentId)]
  {
  }

  /** Why a quick trade is refused, in the order of the checks. */
  lemma QuickRefusal(t: Tables, m: Market, accountId: int, instrumentId: int, amount: real, action: ActionType, now: int)
    requires action == Buy || action == Sell
    ensures var r := QuickTransaction(t, m, accountId, instrumentId, amount, action, now);
      && (r == Failure(NegativeAmount) <==> amount < 0.0)
      && (r == Failure(AccountNotFound) <==> amount >= 0.0 && accountId !in t.balances)
      && (r == Failure(InstrumentNotFound) <==>
            amount >= 0.0 && accountId in t.balances && instrumentId !in m.instruments)
      && (r == Failure(NotEnoughMoney) ==> action == Buy) && (r == Failure(NotEnoughAssets) ==> action == Sell)
      && r != Failure(SaveFailed)
  {
  }

  lemma QuickEffect(t: Tables, row: Trade, fee: real, change: real, quantity: real)
    requires row.accountId in t.balances && OWNER_ID in t.balances && Trades(row, change, quantity)
    ensures var u := Settle(t.(trades := t.trades + [row]), row, fee);
      && u.trades == t.trades + [row]
      && Moved(t, u, row.accountId, change, fee, row.instrumentId, quantity, row.direction)
  {
    SettlementEffect(t.(trades := t.trades + [row]), row, fee, change, quantity);
  }

  /** After a quick buy: the buyer has `amount` times the open price and the fee less, and `amount` more of the instrument. */
  lemma QuickBuyEffect(t: Tables, m: Market, accountId: int, instrumentId: int, amount: real, now: int)
    requires QuickTransaction(t, m, accountId, instrumentId, amount, Buy, now).Success?
    ensures IsPriced(m, instrumentId)
    ensures var u := QuickTransaction(t, m, accountId, instrumentId, amount, Buy, now).value;
      var price, fee := m.prices[instrumentId].open, m.products[m.instruments[instrumentId]];
      && Moved(t, u, accountId, -(amount * price), fee, instrumentId, amount, Buy)
      && u.trades == t.trades + [Trade(accountId, instrumentId, Buy, amount, price, Some(now), true, true, InstantDone)]
  {
    var row := Trade(accountId, instrumentId, Buy, amount, m.prices[instrumentId].open, Some(now), true, true, InstantDone);
    CostIs(amount, m.prices[instrumentId].open);
    QuickEffect(t, row, m.products[m.instruments[instrumentId]], -(amount * m.prices[instrumentId].open), amount);
  }

  /** After a quick sell: the seller has `amount` times the open price more and the fee less, and `amount` less of the
      instrument. */
  lemma QuickSellEffect(t: Tables, m: Market, accountId: int, instrumentId: int, amount: real, now: int)
    requires QuickTransaction(t, m, accountId, instrumentId, amount, Sell, now).Success?
    ensures IsPriced(m, instrumentId)
    ensures var u := QuickTransaction(t, m, accountId, instrumentId, amount, Sell, now).value;
      var price, fee := m.prices[instrumentId].open, m.products[m.instruments[instrumentId]];
      && Moved(t, u, accountId, amount * price, fee, instrumentId, -amount, Sell)
      && u.trades == t.trades + [Trade(accountId, instrumentId, Sell, amount, price, Some(now), true, true, InstantDone)]
  {
    var row := Trade(accountId, instrumentId, Sell, amount, m.prices[instrumentId].open, Some(now), true, true, InstantDone);
    CostIs(amount, m.prices[instrumentId].open);
    QuickEffect(t, row, m.products[m.instruments[instrumentId]], amount * m.prices[instrumentId].open, -amount);
  }

  // ----- Deposits and withdrawals -----

  /** A deposit or withdrawal goes through exactly when the account exists, the amount is not negative and a withdrawal is
      covered; it moves one balance by the amount and leaves one row. */
  lemma CashEffect(t: Tables, accountId: int, amount: real, action: ActionType)
    requires action == Deposit || action == Withdraw
    ensures var r := ModifyBalance(t, accountId, amount, action);
      && (r.Success? <==>
            accountId in t.balances && amount >= 0.0 && (action == Withdraw ==> amount <= t.balances[accountId]))
      && (r.Success? ==>
            var before, change := t.balances[accountId], if action == Deposit then amount else -amount;
            && r.value.balances == t.balances[accountId := before + change]
            && r.value.history == t.history + [BalanceHistory(accountId, before, change, action)]
            && r.value.holdings == t.holdings && r.value.trades == t.trades)
      && (r == Failure(AccountNotFound) <==> accountId !in t.balances)
      && (r == Failure(NegativeAmount) <==> accountId in t.balances && amount < 0.0)
      && (r == Failure(NotEnoughMoney) <==>
            action == Withdraw && accountId in t.balances && amount >= 0.0 && amount > t.balances[accountId])
  {
  }

  // ----- Long trades -----

  /** A long trade is taken on exactly when nothing asked for is negative and the account and the instrument exist. Then one
      row is added and nothing else changes: open, not executed, with what was asked for, closing that many hours of 3600
      seconds of ten million ticks from now. */
  lemma LongTradeIsAsAsked(t: Tables, m: Market, accountId: int, instrumentId: int, amount: real, duration: int, price: real,
                           direction: ActionType, now: int)
    requires direction == LongBuy || direction == LongSell
    ensures var r := CreateLongTransaction(t, m, accountId, instrumentId, amount, duration, price, direction, now);
      && (r.Success? <==>
            amount >= 0.0 && price >= 0.0 && duration >= 0 && accountId in t.balances && instrumentId in m.instruments)
      && (r.Success? ==>
            && |r.value.trades| == |t.trades| + 1 && r.value == t.(trades := r.value.trades)
            && r.value.trades[..|t.trades|] == t.trades
            && var row := r.value.trades[|t.trades|];
               && row.accountId == accountId && row.instrumentId == instrumentId && row.direction == direction
               && row.quantity == amount && row.entryPrice == price
               && row.timestampClose == Some(now + duration * 3600 * 10_000_000)
               && !row.tradeClosed && !row.transactionHappened && row.status == Registered)
      && (r == Failure(NegativeAmount) <==> amount < 0.0 || price < 0.0 || duration < 0)
      && (r == Failure(AccountNotFound) ==> accountId !in t.balances)
      && (r == Failure(InstrumentNotFound) ==> instrumentId !in m.instruments)
  {
  }

  /** What the sweep does to each row: it closes, as not happened, the open ones whose closing time is over. */
  lemma SweepEffect(trades: seq<Trade>, now: int, id: nat)
    requires id < |trades|
    ensures var row, after := trades[id], CloseOverdueTrades(trades, now)[id];
      && (after != row ==> !row.tradeClosed && row.timestampClose.Some? && row.timestampClose.value < now)
      && (!row.tradeClosed && row.timestampClose.Some? && row.timestampClose.value < now ==>
            after == row.(tradeClosed := true, transactionHappened := false, status := TimeIsUp))
  {
  }

  /** Closed without having happened. */
  function Refused(row: Trade, status: TradeStatus): Trade {
    row.(tradeClosed := true, transactionHappened := false, status := status)
  }

  /** One trade of the batch in plain amounts: a buy below the low and a sell above the high wait; a buy that is not covered and
      a sell of what is not held are closed without money; any other buy or sell moves its quantity at its entry price. */
  ghost predicate IsProcessed(t: Tables, u: Tables, m: Market, id: nat)
    requires id < |t.trades| && IsPriced(m, t.trades[id].instrumentId)
    requires t.trades[id].accountId in t.balances && 1 in t.balances
  {
    var row, price := t.trades[id], m.prices[t.trades[id].instrumentId];
    var fee, amount := m.products[m.instruments[row.instrumentId]], row.quantity * row.entryPrice;
    if row.direction == LongBuy then
      if row.entryPrice < price.low then u == t
      else if amount + fee > t.balances[row.accountId] then
        u == t.(trades := t.trades[id := Refused(row, NotEnoughMoneyToBuy)])
      else
        && Moved(t, u, row.accountId, -amount, fee, row.instrumentId, row.quantity, LongBuy)
        && u.trades == t.trades[id := row.(tradeClosed := true, status := LongBuyFinished, transactionHappened := true)]
    else if row.direction == LongSell then
      if row.entryPrice > price.high then u == t
      else if (row.accountId, row.instrumentId) !in t.holdings || t.holdings[(row.accountId, row.instrumentId)] < row.quantity
      then
        u == t.(trades := t.trades[id := Refused(row, NotEnoughStocksToSell)])
      else
        && Moved(t, u, row.accountId, amount, fee, row.instrumentId, -row.quantity, LongSell)
        && u.trades == t.trades[id := row.(tradeClosed := true, status := LongSellFinished, transactionHappened := true)]
    else
      u == t.(trades := t.trades[id := Refused(row, NotLongRunning)])
  }

  lemma BuyEffect(t: Tables, id: nat, price: Price, fee: real, amount: real)
    requires Consistent(t) && id < |t.trades| && t.trades[id].direction == LongBuy
    requires Cost(t.trades[id].quantity, t.trades[id].entryPrice) == amount && t.trades[id].entryPrice >= price.low
    ensures var row, u := t.trades[id], ProcessLongBuy(t, id, price, fee);
      if amount + fee > t.balances[row.accountId] then
        u == t.(trades := t.trades[id := Refused(row, NotEnoughMoneyToBuy)])
      else
        && Moved(t, u, row.accountId, -amount, fee, row.instrumentId, row.quantity, LongBuy)
        && u.trades == t.trades[id := row.(tradeClosed := true, status := LongBuyFinished, transactionHappened := true)]
  {
    SettlementEffect(t, t.trades[id], fee, -amount, t.trades[id].quantity);
  }

  lemma SellEffect(t: Tables, id: nat, price: Price, fee: real, amount: real)
    requires Consistent(t) && id < |t.trades| && t.trades[id].direction == LongSell
    requires Cost(t.trades[id].quantity, t.trades[id].entryPrice) == amount && t.trades[id].entryPrice <= price.high
    ensures var row, u := t.trades[id], ProcessLongSell(t, id, price, fee);
      if (row.accountId, row.instrumentId) !in t.holdings || t.holdings[(row.accountId, row.instrumentId)] < row.quantity then
        u == t.(trades := t.trades[id := Refused(row, NotEnoughStocksToSell)])
      else
        && Moved(t, u, row.accountId, amount, fee, row.instrumentId, -row.quantity, LongSell)
        && u.trades == t.trades[id := row.(tradeClosed := true, status := LongSellFinished, transactionHappened := true)]
  {
    SettlementEffect(t, t.trades[id], fee, amount, -t.trades[id].quantity);
  }

  lemma ProcessEffect(t: Tables, m: Market, id: nat)
    requires Priced(t, m, id)
    ensures IsProcessed(t, ProcessTrade(t, m, id), m, id)
  {
    var row, price := t.trades[id], m.prices[t.trades[id].instrumentId];
    var fee, amount := m.products[m.instruments[row.instrumentId]], row.quantity * row.entryPrice;
    CostIs(row.quantity, row.entryPrice);
    if row.direction == LongBuy && row.entryPrice >= price.low {
      BuyEffect(t, id, price, fee, amount);
    } else if row.direction == LongSell && row.entryPrice <= price.high {
      SellEffect(t, id, price, fee, amount);
    }
  }

  /** From the request to the execution: when the batch executes a long trade as it was created, in whatever tables, it moves
      the quantity that was asked for at the price that was asked for. */
  lemma AskedIsExecuted(t: Tables, m: Market, accountId: int, instrumentId: int, amount: real, duration: int, price: real,
                        direction: ActionType, now: int, w: Tables, later: Market, id: nat)
    requires direction == LongBuy || direction == LongSell
    requires CreateLongTransaction(t, m, accountId, instrumentId, amount, duration, price, direction, now).Success?
    requires Priced(w, later, id)
    requires var u := CreateLongTransaction(t, m, accountId, instrumentId, amount, duration, price, direction, now).value;
      |u.trades| > |t.trades| && w.trades[id] == u.trades[|t.trades|]
    requires ProcessTrade(w, later, id).trades[id].transactionHappened
    ensures instrumentId in later.instruments && later.instruments[instrumentId] in later.products
    ensures var v, fee := ProcessTrade(w, later, id), later.products[later.instruments[instrumentId]];
      if direction == LongBuy then Moved(w, v, accountId, -(amount * price), fee, instrumentId, amount, LongBuy)
      else Moved(w, v, accountId, amount * price, fee, instrumentId, -amount, LongSell)
  {
    var row := AskedRow(t, m, accountId, instrumentId, amount, duration, price, direction, now);
    if direction == LongBuy {
      ExecutedMoves(w, later, id, -(amount * price), amount);
    } else {
      ExecutedMoves(w, later, id, amount * price, -amount);
    }
  }

  lemma AskedRow(t: Tables, m: Market, accountId: int, instrumentId: int, amount: real, duration: int, price: real,
                 direction: ActionType, now: int) returns (row: Trade)
    requires direction == LongBuy || direction == LongSell
    requires CreateLongTransaction(t, m, accountId, instrumentId, amount, duration, price, direction, now).Success?
    ensures var u := CreateLongTransaction(t, m, accountId, instrumentId, amount, duration, price, direction, now).value;
      |u.trades| > |t.trades| && u.trades[|t.trades|] == row
    ensures row.accountId == accountId && row.instrumentId == instrumentId && row.direction == direction
    ensures !row.transactionHappened
    ensures if direction == LongBuy then Trades(row, -(amount * price), amount) else Trades(row, amount * price, -amount)
  {
    LongTradeIsAsAsked(t, m, accountId, instrumentId, amount, duration, price, direction, now);
    row := CreateLongTransaction(t, m, accountId, instrumentId, amount, duration, price, direction, now).value.trades[|t.trades|];
    CostIs(amount, price);
  }

  lemma ExecutedMoves(w: Tables, m: Market, id: nat, change: real, quantity: real)
    requires Priced(w, m, id) && !w.trades[id].transactionHappened && Trades(w.trades[id], change, quantity)
    requires ProcessTrade(w, m, id).trades[id].transactionHappened
    ensures var row := w.trades[id];
      Moved(w, ProcessTrade(w, m, id), row.accountId, change, m.products[m.instruments[row.instrumentId]], row.instrumentId,
            quantity, row.direction)
  {
    var row, outcome, fee := w.trades[id], Decide(w, m, id), Fee(m, w.trades[id].instrumentId);
    ProcessIsMoneyAndRow(w, m, id);
    SettlementEffect(w, row, fee, change, quantity);
    MovedIgnoresTrades(w, Settle(w, row, fee), row.accountId, change, fee, row.instrumentId, quantity, row.direction,
                       w.trades[id := RowAfter(row, outcome)]);
  }

  lemma MovedIgnoresTrades(t: Tables, u: Tables, accountId: int, change: real, fee: real, instrumentId: int, quantity: real,
                           action: ActionType, trades: seq<Trade>)
    requires Moved(t, u, accountId, change, fee, instrumentId, quantity, action)
    ensures Moved(t, u.(trades := trades), accountId, change, fee, instrumentId, quantity, action)
  {
  }
}
