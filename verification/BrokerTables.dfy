/** The broker's tables as values, and the effect of each broker request on them.

    A request either succeeds with new tables or fails with an error; a failed request changes nothing,
    because every request writes inside one database transaction. Money, quantities and prices are exact. */
module BrokerTables {
  import opened Wrappers

  /** The account that collects the transaction fees. */
  const OWNER_ID: int := 1

  const TICKS_PER_HOUR: int := 36_000_000_000

  datatype ActionType =
    | Sell | Buy | Deposit | Withdraw | PackageFee | TransactionFee | CollectFee | LongSell | LongBuy

  datatype TradeStatus =
    | InstantDone | Registered
    | TimeIsUp | NotLongRunning | NotEnoughMoneyToBuy | NotEnoughStocksToSell
    | LongBuyFinished | LongSellFinished

  datatype Trade = Trade(
    accountId: int,
    instrumentId: int,
    direction: ActionType,
    quantity: real,
    entryPrice: real,
    timestampClose: Option<int>,
    tradeClosed: bool,
    transactionHappened: bool,
    status: TradeStatus)

  datatype BalanceHistory = BalanceHistory(accountId: int, oldValue: real, valueChange: real, action: ActionType)

  /** Holdings are keyed by account and instrument. */
  datatype Tables = Tables(
    balances: map<int, real>,
    holdings: map<(int, int), real>,
    trades: seq<Trade>,
    history: seq<BalanceHistory>)

  datatype Price = Price(open: real, high: real, low: real, close: real)

  /** What a request reads and never writes: the product of each instrument, the fee per transaction of each
      product, and the latest price of each instrument. */
  datatype Market = Market(instruments: map<int, int>, products: map<int, real>, prices: map<int, Price>)

  datatype BrokerError =
    | NegativeAmount | AccountNotFound | InstrumentNotFound | NotEnoughMoney | NotEnoughAssets
    | MissingData | SaveFailed

  // ----- Balances -----

  /** One history row and the balance change it records. */
  function Post(t: Tables, accountId: int, change: real, action: ActionType): Tables
    requires accountId in t.balances
  {
    t.(history := t.history + [BalanceHistory(accountId, t.balances[accountId], change, action)],
       balances := t.balances[accountId := t.balances[accountId] + change])
  }

  predicate IsSell(action: ActionType) {
    action == Sell || action == LongSell
  }

  predicate IsTrade(action: ActionType) {
    action == Sell || action == LongSell || action == Buy || action == LongBuy
  }

  function Income(action: ActionType, amount: real): real {
    if IsSell(action) then amount else -amount
  }

  function Cost(quantity: real, price: real): (r: real)
    ensures quantity >= 0.0 && price >= 0.0 ==> r >= 0.0
  {
    quantity * price
  }

  function ModifyBalance(t: Tables, accountId: int, amount: real, action: ActionType): Result<Tables, BrokerError>
    requires action == Deposit || action == Withdraw
  {
    if accountId !in t.balances then Failure(AccountNotFound)
    else if amount < 0.0 then Failure(NegativeAmount)
    else if action == Withdraw && amount > t.balances[accountId] then Failure(NotEnoughMoney)
    else Success(Post(t, accountId, if action == Withdraw then -amount else amount, action))
  }

  /** The trade amount and the fee on the trader's balance, and the fee on the owner's: three rows, in this order.
      The trader may be the owner. */
  function UpdateBalance(t: Tables, accountId: int, amount: real, fee: real, action: ActionType): Tables
    requires accountId in t.balances && OWNER_ID in t.balances
  {
    var traded := Post(t, accountId, Income(action, amount), action);
    var charged := Post(traded, accountId, -fee, TransactionFee);
    Post(charged, OWNER_ID, fee, CollectFee)
  }

  // ----- Holdings -----

  function Holding(t: Tables, accountId: int, instrumentId: int): real {
    if (accountId, instrumentId) in t.holdings then t.holdings[(accountId, instrumentId)] else 0.0
  }

  function UpdateOwnedInstrument(t: Tables, accountId: int, instrumentId: int, amount: real): Tables {
    t.(holdings := t.holdings[(accountId, instrumentId) := Holding(t, accountId, instrumentId) + amount])
  }

  predicate Owns(t: Tables, accountId: int, instrumentId: int, quantity: real) {
    (accountId, instrumentId) in t.holdings && t.holdings[(accountId, instrumentId)] >= quantity
  }

  // ----- Trades -----

  function QuickTrade(accountId: int, instrumentId: int, direction: ActionType, price: real, quantity: real, now: int): Trade {
    Trade(accountId, instrumentId, direction, quantity, price, Some(now), true, true, InstantDone)
  }

  function LongTrade(accountId: int, instrumentId: int, direction: ActionType, price: real, quantity: real,
                     duration: int, now: int): Trade
  {
    Trade(accountId, instrumentId, direction, quantity, price, Some(now + duration * TICKS_PER_HOUR),
          false, false, Registered)
  }

  function Closed(row: Trade, status: TradeStatus, transactionHappened: bool): Trade {
    row.(status := status, transactionHappened := transactionHappened, tradeClosed := true)
  }

  function CloseTrade(t: Tables, id: nat, status: TradeStatus, transactionHappened: bool): Tables
    requires id < |t.trades|
  {
    t.(trades := t.trades[id := Closed(t.trades[id], status, transactionHappened)])
  }

  /** The money and the instruments of one executed trade. */
  function Settle(t: Tables, row: Trade, fee: real): Tables
    requires row.accountId in t.balances && OWNER_ID in t.balances
  {
    var paid := UpdateBalance(t, row.accountId, Cost(row.quantity, row.entryPrice), fee, row.direction);
    UpdateOwnedInstrument(paid, row.accountId, row.instrumentId,
                          if IsSell(row.direction) then -row.quantity else row.quantity)
  }

  // ----- Quick trades -----

  function QuickTransaction(t: Tables, m: Market, accountId: int, instrumentId: int, amount: real,
                            direction: ActionType, now: int): Result<Tables, BrokerError>
    requires direction == Buy || direction == Sell
  {
    if amount < 0.0 then Failure(NegativeAmount)
    else if accountId !in t.balances then Failure(AccountNotFound)
    else if instrumentId !in m.instruments then Failure(InstrumentNotFound)
    else if instrumentId !in m.prices || m.instruments[instrumentId] !in m.products then Failure(MissingData)
    else
      var price := m.prices[instrumentId].open;
      var fee := m.products[m.instruments[instrumentId]];
      var row := QuickTrade(accountId, instrumentId, direction, price, amount, now);
      if direction == Buy && Cost(amount, price) + fee > t.balances[accountId] then Failure(NotEnoughMoney)
      else if direction == Sell && !Owns(t, accountId, instrumentId, amount) then Failure(NotEnoughAssets)
      else if OWNER_ID !in t.balances then Failure(MissingData)
      else Success(Settle(t.(trades := t.trades + [row]), row, fee))
  }

  // ----- Long trades -----

  function CreateLongTransaction(t: Tables, m: Market, accountId: int, instrumentId: int, amount: real,
                                 duration: int, price: real, direction: ActionType, now: int)
    : Result<Tables, BrokerError>
    requires direction == LongBuy || direction == LongSell
  {
    if amount < 0.0 || price < 0.0 || duration < 0 then Failure(NegativeAmount)
    else if accountId !in t.balances then Failure(AccountNotFound)
    else if instrumentId !in m.instruments then Failure(InstrumentNotFound)
    else
      Success(t.(trades := t.trades + [LongTrade(accountId, instrumentId, direction, price, amount, duration, now)]))
  }

  predicate IsOverdue(row: Trade, now: int) {
    !row.tradeClosed && row.timestampClose.Some? && row.timestampClose.value < now
  }

  function SweptRow(row: Trade, now: int): Trade {
    if IsOverdue(row, now) then Closed(row, TimeIsUp, false) else row
  }

  function CloseOverdueTrades(trades: seq<Trade>, now: int): (r: seq<Trade>)
    ensures |r| == |trades|
    ensures forall i :: 0 <= i < |trades| ==> r[i] == SweptRow(trades[i], now)
  {
    if trades == [] then [] else [SweptRow(trades[0], now)] + CloseOverdueTrades(trades[1..], now)
  }

  /** Each trade id once: the order in which the database hands out the rows of the trade table. */
  ghost predicate IsScan(scan: seq<nat>, count: nat) {
    && (forall i :: 0 <= i < |scan| ==> scan[i] < count)
    && Distinct(scan)
    && (forall id: nat :: id < count ==> id in scan)
  }

  function OpenTrades(trades: seq<Trade>, scan: seq<nat>): seq<nat>
    requires forall i :: 0 <= i < |scan| ==> scan[i] < |trades|
  {
    if scan == [] then []
    else
      var rest := OpenTrades(trades, scan[1..]);
      if trades[scan[0]].tradeClosed then rest else [scan[0]] + rest
  }

  lemma {:induction false} OpenTradesMembers(trades: seq<Trade>, scan: seq<nat>)
    requires forall i :: 0 <= i < |scan| ==> scan[i] < |trades|
    ensures forall id :: id in OpenTrades(trades, scan) <==> id in scan && id < |trades| && !trades[id].tradeClosed
  {
    if scan != [] {
      OpenTradesMembers(trades, scan[1..]);
    }
  }

  predicate IsPriced(m: Market, instrumentId: int) {
    instrumentId in m.instruments && instrumentId in m.prices && m.instruments[instrumentId] in m.products
  }

  function Fee(m: Market, instrumentId: int): real
    requires IsPriced(m, instrumentId)
  {
    m.products[m.instruments[instrumentId]]
  }

  /** The referential integrity the broker relies on: the owner and every trader have a balance row. */
  ghost predicate Consistent(t: Tables) {
    && OWNER_ID in t.balances
    && forall i :: 0 <= i < |t.trades| ==> t.trades[i].accountId in t.balances
  }

  /** A long trade whose price is still out of reach. */
  predicate IsWaiting(row: Trade, price: Price) {
    || (row.direction == LongBuy && row.entryPrice < price.low)
    || (row.direction == LongSell && row.entryPrice > price.high)
  }

  function ProcessLongBuy(t: Tables, id: nat, price: Price, fee: real): Tables
    requires Consistent(t) && id < |t.trades|
  {
    var row := t.trades[id];
    if row.entryPrice < price.low then t
    else if Cost(row.quantity, row.entryPrice) + fee > t.balances[row.accountId] then
      CloseTrade(t, id, NotEnoughMoneyToBuy, false)
    else
      CloseTrade(Settle(t, row, fee), id, LongBuyFinished, true)
  }

  function ProcessLongSell(t: Tables, id: nat, price: Price, fee: real): Tables
    requires Consistent(t) && id < |t.trades|
  {
    var row := t.trades[id];
    if row.entryPrice > price.high then t
    else if !Owns(t, row.accountId, row.instrumentId, row.quantity) then
      CloseTrade(t, id, NotEnoughStocksToSell, false)
    else
      CloseTrade(Settle(t, row, fee), id, LongSellFinished, true)
  }

  function ProcessTrade(t: Tables, m: Market, id: nat): Tables
    requires Consistent(t) && id < |t.trades| && IsPriced(m, t.trades[id].instrumentId)
  {
    var row := t.trades[id];
    var price := m.prices[row.instrumentId];
    if row.direction == LongBuy then ProcessLongBuy(t, id, price, Fee(m, row.instrumentId))
    else if row.direction == LongSell then ProcessLongSell(t, id, price, Fee(m, row.instrumentId))
    else CloseTrade(t, id, NotLongRunning, false)
  }

  ghost predicate AllPriced(t: Tables, m: Market, ids: seq<nat>) {
    forall k :: 0 <= k < |ids| ==> ids[k] < |t.trades| && IsPriced(m, t.trades[ids[k]].instrumentId)
  }

  /** Processing one trade keeps every row's account and instrument, so the rest can still be processed. */
  lemma ProcessTradeKeepsKeys(t: Tables, m: Market, id: nat, ids: seq<nat>)
    requires Consistent(t) && id < |t.trades| && IsPriced(m, t.trades[id].instrumentId)
    requires AllPriced(t, m, ids)
    ensures Consistent(ProcessTrade(t, m, id))
    ensures |ProcessTrade(t, m, id).trades| == |t.trades|
    ensures ProcessTrade(t, m, id).balances.Keys == t.balances.Keys
    ensures AllPriced(ProcessTrade(t, m, id), m, ids)
  {
  }

  function ProcessAll(t: Tables, m: Market, ids: seq<nat>): Tables
    requires Consistent(t) && AllPriced(t, m, ids)
    decreases |ids|
  {
    if ids == [] then t
    else
      ProcessTradeKeepsKeys(t, m, ids[0], ids[1..]);
      ProcessAll(ProcessTrade(t, m, ids[0]), m, ids[1..])
  }

  /** The batch: sweep the overdue trades, then process the open ones in the order the database returns them.
      A missing instrument, price or product aborts the whole batch. */
  ghost function ProcessLongRunningTransactions(t: Tables, m: Market, now: int, scan: seq<nat>)
    : Result<Tables, BrokerError>
    requires Consistent(t) && IsScan(scan, |t.trades|)
  {
    var swept := t.(trades := CloseOverdueTrades(t.trades, now));
    var open := OpenTrades(swept.trades, scan);
    if AllPriced(swept, m, open) then Success(ProcessAll(swept, m, open)) else Failure(MissingData)
  }

  // ----- Runs -----

  datatype Request =
    | Cash(accountId: int, amount: real, action: ActionType)
    | Quick(market: Market, accountId: int, instrumentId: int, amount: real, action: ActionType, now: int)
    | Long(market: Market, accountId: int, instrumentId: int, amount: real, duration: int, price: real,
           action: ActionType, now: int)
    | Batch(market: Market, now: int, scan: seq<nat>)

  /** The requests the broker's interface can make in the given tables, with non-negative prices and fees. */
  ghost predicate IsRequest(t: Tables, r: Request) {
    match r
    case Cash(_, _, action) => action == Deposit || action == Withdraw
    case Quick(m, _, _, _, action, _) => (action == Buy || action == Sell) && NonNegativeMarket(m)
    case Long(m, _, _, _, _, _, action, _) => (action == LongBuy || action == LongSell) && NonNegativeMarket(m)
    case Batch(m, _, scan) => IsScan(scan, |t.trades|) && NonNegativeMarket(m)
  }

  ghost predicate NonNegativeMarket(m: Market) {
    && (forall productId :: productId in m.products ==> m.products[productId] >= 0.0)
    && (forall i :: i in m.prices ==> m.prices[i].open >= 0.0)
  }

  lemma FeeNonNegative(m: Market, instrumentId: int)
    requires NonNegativeMarket(m) && IsPriced(m, instrumentId)
    ensures Fee(m, instrumentId) >= 0.0
  {
    var productId := m.instruments[instrumentId];
    assert m.products[productId] >= 0.0;
  }

  ghost function Handle(t: Tables, r: Request): Result<Tables, BrokerError>
    requires Consistent(t) && IsRequest(t, r)
  {
    match r
    case Cash(accountId, amount, action) => ModifyBalance(t, accountId, amount, action)
    case Quick(m, accountId, instrumentId, amount, action, now) =>
      QuickTransaction(t, m, accountId, instrumentId, amount, action, now)
    case Long(m, accountId, instrumentId, amount, duration, price, action, now) =>
      CreateLongTransaction(t, m, accountId, instrumentId, amount, duration, price, action, now)
    case Batch(m, now, scan) => ProcessLongRunningTransactions(t, m, now, scan)
  }

  /** One request; `saved` says whether the database accepts the final save. */
  ghost function Step(t: Tables, r: Request, saved: bool): Tables
    requires Consistent(t) && IsRequest(t, r)
  {
    var result := Handle(t, r);
    if saved && result.Success? then result.value else t
  }
}
