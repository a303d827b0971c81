/** The generated trading history on values: what one action does to an account and to the two shared histories, and what
    every run of actions keeps. */
module TradingHistory {

  datatype ActionType = Withdraw | Deposit | Buy | Sell | TransactionFee

  datatype BalanceEntry = BalanceEntry(id: nat, accountId: int, oldValue: real, valueChange: real, action: ActionType,
                                       date: int)

  datatype TradeEntry = TradeEntry(id: nat, accountId: int, instrument: nat, action: ActionType, quantity: int, price: real,
                                   openedAt: int, closedAt: int, ended: bool, successful: bool)

  /** `holdings` are the quantities of the instruments, in the order the account lists them. */
  datatype AccountState = AccountState(id: int, value: real, holdings: seq<int>)

  /** The two histories, shared by all accounts, with their next ids. */
  datatype Histories = Histories(entries: seq<BalanceEntry>, entryId: nat, trades: seq<TradeEntry>, tradeId: nat)

  const STARTING_INDEX := 1
  const MIN_WITHDRAW_VALUE := 0.0
  const MIN_DEPOSIT_VALUE := 0.0
  const HIGH_BALANCE_THRESHOLD := 2.0
  const LOW_BALANCE_THRESHOLD := 0.3
  const BALANCE_WITHDRAW_RATIO := 0.5
  const DESIRED_STOCK_QUANTITY := 500
  const MIN_STOCK_BUY_RATIO := 0.3
  const MAX_STOCK_BUY_RATIO := 0.7
  const MIN_STOCK_SELL_RATIO := 0.3
  const MAX_STOCK_SELL_RATIO := 0.6

  // ----- Balances -----

  function NewEntry(h: Histories, accountId: int, oldValue: real, change: real, action: ActionType, date: int): Histories {
    h.(entries := h.entries + [BalanceEntry(h.entryId, accountId, oldValue, change, action, date)], entryId := h.entryId + 1)
  }

  datatype World = World(account: AccountState, histories: Histories)

  function RemoveFunds(w: World, action: ActionType, amount: real, date: int): (World, bool) {
    var a := w.account;
    if amount <= MIN_WITHDRAW_VALUE || amount > a.value then (w, false)
    else (World(a.(value := a.value - amount), NewEntry(w.histories, a.id, a.value, -amount, action, date)), true)
  }

  function AddFunds(w: World, action: ActionType, amount: real, date: int): (World, bool) {
    var a := w.account;
    if amount < MIN_DEPOSIT_VALUE then (w, false)
    else (World(a.(value := a.value + amount), NewEntry(w.histories, a.id, a.value, amount, action, date)), true)
  }

  // ----- Trades -----

  function Modify(a: AccountState, instrument: nat, change: int): AccountState
    requires instrument < |a.holdings|
  {
    a.(holdings := a.holdings[instrument := a.holdings[instrument] + change])
  }

  /** The result of taking the money is not looked at. */
  function BuyInstrument(w: World, instrument: nat, quantity: int, price: real, date: int): (World, bool)
    requires instrument < |w.account.holdings|
  {
    if w.account.value < price then (w, false)
    else
      var paid := RemoveFunds(w, Buy, price, date).0;
      (paid.(account := Modify(paid.account, instrument, quantity)), true)
  }

  function SellInstrument(w: World, instrument: nat, quantity: int, price: real, date: int): (World, bool)
    requires instrument < |w.account.holdings|
  {
    if w.account.holdings[instrument] < quantity then (w, false)
    else (AddFunds(w.(account := Modify(w.account, instrument, -quantity)), Sell, price, date).0, true)
  }

  function NewTrade(h: Histories, accountId: int, instrument: nat, action: ActionType, quantity: int, price: real,
                    openedAt: int, closedAt: int, successful: bool): Histories
  {
    h.(trades := h.trades
         + [TradeEntry(h.tradeId, accountId, instrument, action, quantity, price, openedAt, closedAt, true, successful)],
       tradeId := h.tradeId + 1)
  }

  /** A trade that should succeed but is refused leaves no entry at all. */
  function Trade(w: World, action: ActionType, instrument: nat, quantity: int, unitPrice: real, date: int, success: bool): World
    requires (action == Buy || action == Sell) && instrument < |w.account.holdings|
  {
    var price := quantity as real * unitPrice;
    var (u, accepted) :=
      if !success then (w, true)
      else if action == Buy then BuyInstrument(w, instrument, quantity, price, date)
      else SellInstrument(w, instrument, quantity, price, date);
    if !accepted then w
    else u.(histories := NewTrade(u.histories, w.account.id, instrument, action, quantity, unitPrice, date, date, success))
  }

  // ----- Actions -----

  /** What an action draws or looks up: the share to buy, the share to sell, whether the trade succeeds, the unit prices. */
  datatype Draw = Draw(buyRatio: real, sellRatio: real, success: bool, unitPrices: seq<real>, date: int)

  ghost predicate IsDraw(d: Draw, instruments: nat) {
    && MIN_STOCK_BUY_RATIO <= d.buyRatio <= MAX_STOCK_BUY_RATIO
    && MIN_STOCK_SELL_RATIO <= d.sellRatio <= MAX_STOCK_SELL_RATIO
    && |d.unitPrices| == instruments && forall i :: 0 <= i < instruments ==> 0.0 < d.unitPrices[i]
  }

  /** The first of the instruments held least, which is what a stable sort by quantity puts first. */
  function LeastHeld(holdings: seq<int>): (k: nat)
    requires holdings != []
    ensures k < |holdings|
    ensures forall i :: 0 <= i < |holdings| ==> holdings[k] <= holdings[i]
    ensures forall i :: 0 <= i < k ==> holdings[k] < holdings[i]
  {
    if |holdings| == 1 then 0
    else
      var k := LeastHeld(holdings[..|holdings| - 1]);
      if holdings[|holdings| - 1] < holdings[k] then |holdings| - 1 else k
  }

  function BuyQuantity(value: real, ratio: real, unitPrice: real): int
    requires 0.0 < unitPrice
  {
    (value * ratio / unitPrice).Floor
  }

  function SellQuantity(owned: int, ratio: real): int {
    (owned as real * ratio).Floor
  }

  function GenerateAction(w: World, reference: real, d: Draw): World
    requires w.account.holdings != [] && IsDraw(d, |w.account.holdings|)
  {
    var a := w.account;
    if a.value < LOW_BALANCE_THRESHOLD * reference then AddFunds(w, Deposit, reference - a.value, d.date).0
    else if a.value > HIGH_BALANCE_THRESHOLD * reference then
      RemoveFunds(w, Withdraw, BALANCE_WITHDRAW_RATIO * a.value, d.date).0
    else
      var i := LeastHeld(a.holdings);
      if a.holdings[i] < DESIRED_STOCK_QUANTITY then
        Trade(w, Buy, i, BuyQuantity(a.value, d.buyRatio, d.unitPrices[i]), d.unitPrices[i], d.date, d.success)
      else if a.holdings[i] > DESIRED_STOCK_QUANTITY then
        Trade(w, Sell, i, SellQuantity(a.holdings[i], d.sellRatio), d.unitPrices[i], d.date, d.success)
      else w
  }

  // ----- What the histories say -----

  ghost function SumOfEntries(entries: seq<BalanceEntry>, accountId: int): real {
    if entries == [] then 0.0
    else
      SumOfEntries(entries[..|entries| - 1], accountId)
        + if entries[|entries| - 1].accountId == accountId then entries[|entries| - 1].valueChange else 0.0
  }

  /** What a trade moved. */
  function Moved(t: TradeEntry): int {
    if !t.successful then 0 else if t.action == Buy then t.quantity else -t.quantity
  }

  ghost function NetOfTrades(trades: seq<TradeEntry>, accountId: int, instrument: nat): int {
    if trades == [] then 0
    else
      var t := trades[|trades| - 1];
      NetOfTrades(trades[..|trades| - 1], accountId, instrument)
        + if t.accountId == accountId && t.instrument == instrument then Moved(t) else 0
  }

  ghost predicate Numbered(h: Histories) {
    && h.entryId == STARTING_INDEX + |h.entries| && h.tradeId == STARTING_INDEX + |h.trades|
    && (forall i :: 0 <= i < |h.entries| ==> h.entries[i].id == STARTING_INDEX + i)
    && (forall i :: 0 <= i < |h.trades| ==> h.trades[i].id == STARTING_INDEX + i)
  }

  /** Each entry starts from the sum of the account's entries before it. */
  ghost predicate Chained(entries: seq<BalanceEntry>) {
    forall i :: 0 <= i < |entries| ==> entries[i].oldValue == SumOfEntries(entries[..i], entries[i].accountId)
  }

  ghost predicate HoldingsMatch(a: AccountState, trades: seq<TradeEntry>) {
    forall i :: 0 <= i < |a.holdings| ==> a.holdings[i] == NetOfTrades(trades, a.id, i)
  }

  ghost predicate NothingNegative(a: AccountState) {
    0.0 <= a.value && forall i :: 0 <= i < |a.holdings| ==> 0 <= a.holdings[i]
  }

  /** The account is solvent, its balance is the sum of its entries and its holdings are the net of its successful trades. */
  ghost predicate Reconciles(a: AccountState, h: Histories) {
    NothingNegative(a) && a.value == SumOfEntries(h.entries, a.id) && HoldingsMatch(a, h.trades)
  }

  ghost predicate Sound(h: Histories) {
    Numbered(h) && Chained(h.entries)
  }

  /** Nothing was taken back, and everything new belongs to this account. */
  ghost predicate Extends(h: Histories, next: Histories, accountId: int) {
    && |h.entries| <= |next.entries| && next.entries[..|h.entries|] == h.entries
    && |h.trades| <= |next.trades| && next.trades[..|h.trades|] == h.trades
    && (forall i :: |h.entries| <= i < |next.entries| ==> next.entries[i].accountId == accountId)
    && (forall i :: |h.trades| <= i < |next.trades| ==> next.trades[i].accountId == accountId)
  }

  // ----- One entry, one trade -----

  lemma EntryIsAdded(h: Histories, accountId: int, change: real, action: ActionType, date: int)
    requires Sound(h)
    ensures var next := NewEntry(h, accountId, SumOfEntries(h.entries, accountId), change, action, date);
      && Sound(next) && Extends(h, next, accountId) && next.trades == h.trades
      && SumOfEntries(next.entries, accountId) == SumOfEntries(h.entries, accountId) + change
  {
    var next := NewEntry(h, accountId, SumOfEntries(h.entries, accountId), change, action, date);
    var n := |h.entries|;
    assert next.entries[..n] == h.entries;
    forall i | 0 <= i <= n ensures next.entries[i].oldValue == SumOfEntries(next.entries[..i], next.entries[i].accountId) {
      assert i < n ==> next.entries[..i] == h.entries[..i];
    }
  }

  lemma TradeIsAdded(h: Histories, t: TradeEntry, next: Histories)
    requires Sound(h) && t.id == h.tradeId && next == h.(trades := h.trades + [t], tradeId := h.tradeId + 1)
    ensures Sound(next) && Extends(h, next, t.accountId)
    ensures forall i: nat :: NetOfTrades(next.trades, t.accountId, i)
                          == NetOfTrades(h.trades, t.accountId, i) + if i == t.instrument then Moved(t) else 0
  {
    assert next.trades[..|h.trades|] == h.trades;
  }

  lemma {:induction false} OthersKeepSums(h: Histories, next: Histories, accountId: int, other: int)
    requires Extends(h, next, accountId) && other != accountId
    ensures SumOfEntries(next.entries, other) == SumOfEntries(h.entries, other)
    decreases |next.entries|
  {
    var n := |next.entries|;
    if n > |h.entries| {
      assert next.entries[..n - 1][..|h.entries|] == h.entries;
      OthersKeepSums(h, next.(entries := next.entries[..n - 1]), accountId, other);
    } else {
      assert next.entries == h.entries;
    }
  }

  lemma {:induction false} OthersKeepTrades(h: Histories, next: Histories, accountId: int, other: int, instrument: nat)
    requires Extends(h, next, accountId) && other != accountId
    ensures NetOfTrades(next.trades, other, instrument) == NetOfTrades(h.trades, other, instrument)
    decreases |next.trades|
  {
    var n := |next.trades|;
    if n > |h.trades| {
      assert next.trades[..n - 1][..|h.trades|] == h.trades;
      OthersKeepTrades(h, next.(trades := next.trades[..n - 1]), accountId, other, instrument);
    } else {
      assert next.trades == h.trades;
    }
  }

  /** An account that did not act reconciles with the longer histories too. */
  lemma OthersStillReconcile(a: AccountState, h: Histories, next: Histories, accountId: int)
    requires Reconciles(a, h) && Extends(h, next, accountId) && a.id != accountId
    ensures Reconciles(a, next)
  {
    OthersKeepSums(h, next, accountId, a.id);
    forall i | 0 <= i < |a.holdings| ensures a.holdings[i] == NetOfTrades(next.trades, a.id, i) {
      OthersKeepTrades(h, next, accountId, a.id, i);
    }
  }

  // ----- One action -----

  ghost predicate Holds(w: World) {
    Sound(w.histories) && Reconciles(w.account, w.histories)
  }

  ghost predicate Follows(w: World, u: World) {
    && u.account.id == w.account.id && |u.account.holdings| == |w.account.holdings|
    && Extends(w.histories, u.histories, w.account.id)
  }

  lemma FundsKeep(w: World, u: World, change: real, action: ActionType, date: int)
    requires Holds(w) && 0.0 <= w.account.value + change
    requires u == World(w.account.(value := w.account.value + change),
                        NewEntry(w.histories, w.account.id, w.account.value, change, action, date))
    ensures Holds(u) && Follows(w, u)
  {
    EntryIsAdded(w.histories, w.account.id, change, action, date);
  }

  lemma FollowsTwice(w: World, u: World, v: World)
    requires Follows(w, u) && Follows(u, v)
    ensures Follows(w, v)
  {
    var n, m := |w.histories.entries|, |w.histories.trades|;
    assert v.histories.entries[..n] == v.histories.entries[..|u.histories.entries|][..n];
    assert v.histories.trades[..m] == v.histories.trades[..|u.histories.trades|][..m];
  }

  /** Once the money has moved, changing the holding and writing the trade restores the books. */
  lemma TradeKeeps(u: World, v: World, instrument: nat, t: TradeEntry)
    requires Holds(u) && instrument < |u.account.holdings|
    requires t.accountId == u.account.id && t.instrument == instrument && t.id == u.histories.tradeId
    requires 0 <= u.account.holdings[instrument] + Moved(t)
    requires v.account == Modify(u.account, instrument, Moved(t))
    requires v.histories == u.histories.(trades := u.histories.trades + [t], tradeId := u.histories.tradeId + 1)
    ensures Holds(v) && Follows(u, v)
  {
    TradeIsAdded(u.histories, t, v.histories);
  }

  lemma BuyKeeps(w: World, instrument: nat, quantity: int, unitPrice: real, date: int)
    requires Holds(w) && instrument < |w.account.holdings| && 0 <= quantity
    requires quantity as real * unitPrice <= w.account.value && 0.0 < unitPrice
    ensures var v := Trade(w, Buy, instrument, quantity, unitPrice, date, true);
      && Holds(v) && Follows(w, v) && |v.histories.trades| == |w.histories.trades| + 1
      && v.account.value == w.account.value - quantity as real * unitPrice
  {
    var price := quantity as real * unitPrice;
    var paid, v := RemoveFunds(w, Buy, price, date).0, Trade(w, Buy, instrument, quantity, unitPrice, date, true);
    assert 0.0 <= price;
    if paid != w {
      FundsKeep(w, paid, -price, Buy, date);
    }
    TradeKeeps(paid, v, instrument, v.histories.trades[|v.histories.trades| - 1]);
    FollowsTwice(w, paid, v);
  }

  lemma SellKeeps(w: World, instrument: nat, quantity: int, unitPrice: real, date: int)
    requires Holds(w) && instrument < |w.account.holdings| && 0 <= quantity <= w.account.holdings[instrument]
    requires 0.0 < unitPrice
    ensures var v := Trade(w, Sell, instrument, quantity, unitPrice, date, true);
      && Holds(v) && Follows(w, v) && |v.histories.trades| == |w.histories.trades| + 1
      && v.account.value == w.account.value + quantity as real * unitPrice
  {
    var price := quantity as real * unitPrice;
    var paid, v := AddFunds(w, Sell, price, date).0, Trade(w, Sell, instrument, quantity, unitPrice, date, true);
    assert 0.0 <= price;
    FundsKeep(w, paid, price, Sell, date);
    TradeKeeps(paid, v, instrument, v.histories.trades[|v.histories.trades| - 1]);
    FollowsTwice(w, paid, v);
  }

  lemma FailedTradeKeeps(w: World, action: ActionType, instrument: nat, quantity: int, unitPrice: real, date: int)
    requires Holds(w) && instrument < |w.account.holdings| && (action == Buy || action == Sell)
    ensures var v := Trade(w, action, instrument, quantity, unitPrice, date, false);
      Holds(v) && Follows(w, v) && |v.histories.trades| == |w.histories.trades| + 1 && v.account == w.account
  {
    var v := Trade(w, action, instrument, quantity, unitPrice, date, false);
    assert Modify(w.account, instrument, 0).holdings == w.account.holdings;
    TradeKeeps(w, v, instrument, v.histories.trades[|v.histories.trades| - 1]);
  }

  // ----- Quantities -----

  /** The generated purchase is never more than the balance can pay. */
  lemma PurchaseIsAffordable(value: real, ratio: real, unitPrice: real)
    requires 0.0 <= value && MIN_STOCK_BUY_RATIO <= ratio <= MAX_STOCK_BUY_RATIO && 0.0 < unitPrice
    ensures 0 <= BuyQuantity(value, ratio, unitPrice)
    ensures BuyQuantity(value, ratio, unitPrice) as real * unitPrice <= value
  {
    ShareOf(value, ratio);
    CreditCoversPurchase(value, value * ratio, unitPrice, BuyQuantity(value, ratio, unitPrice));
  }

  lemma CreditCoversPurchase(value: real, credit: real, unitPrice: real, quantity: int)
    requires 0.0 <= credit <= value && 0.0 < unitPrice && quantity == (credit / unitPrice).Floor
    ensures 0 <= quantity && quantity as real * unitPrice <= value
  {
    QuotientIs(credit, unitPrice);
    FlooredProduct(credit / unitPrice, unitPrice);
  }

  lemma QuotientIs(credit: real, unitPrice: real)
    requires 0.0 <= credit && 0.0 < unitPrice
    ensures 0.0 <= credit / unitPrice && credit / unitPrice * unitPrice == credit
  {
  }

  lemma ShareOf(value: real, ratio: real)
    requires 0.0 <= value && 0.0 <= ratio <= 1.0
    ensures 0.0 <= value * ratio <= value
  {
    assert 0.0 <= value * (1.0 - ratio);
  }

  lemma FlooredProduct(quotient: real, unitPrice: real)
    requires 0.0 < unitPrice
    ensures quotient.Floor as real * unitPrice <= quotient * unitPrice
  {
    assert 0.0 <= (quotient - quotient.Floor as real) * unitPrice;
  }

  /** The generated sale is never more than is held. */
  lemma SaleIsCovered(owned: int, ratio: real)
    requires 0 <= owned && MIN_STOCK_SELL_RATIO <= ratio <= MAX_STOCK_SELL_RATIO
    ensures 0 <= SellQuantity(owned, ratio) <= owned
  {
    ShareOf(owned as real, ratio);
  }

  /** The action that trades: the balance lies between the thresholds and the least held instrument is off its target. */
  predicate IsTrade(w: World, reference: real) {
    && LOW_BALANCE_THRESHOLD * reference <= w.account.value <= HIGH_BALANCE_THRESHOLD * reference
    && w.account.holdings != [] && w.account.holdings[LeastHeld(w.account.holdings)] != DESIRED_STOCK_QUANTITY
  }

  lemma TradingKeeps(w: World, reference: real, d: Draw)
    requires Holds(w) && w.account.holdings != [] && IsDraw(d, |w.account.holdings|) && IsTrade(w, reference)
    ensures var u := GenerateAction(w, reference, d);
      Holds(u) && Follows(w, u) && |u.histories.trades| == |w.histories.trades| + 1
  {
    var a, i := w.account, LeastHeld(w.account.holdings);
    var unitPrice := d.unitPrices[i];
    if a.holdings[i] < DESIRED_STOCK_QUANTITY {
      PurchaseIsAffordable(a.value, d.buyRatio, unitPrice);
      if d.success {
        BuyKeeps(w, i, BuyQuantity(a.value, d.buyRatio, unitPrice), unitPrice, d.date);
      } else {
        FailedTradeKeeps(w, Buy, i, BuyQuantity(a.value, d.buyRatio, unitPrice), unitPrice, d.date);
      }
    } else {
      SaleIsCovered(a.holdings[i], d.sellRatio);
      if d.success {
        SellKeeps(w, i, SellQuantity(a.holdings[i], d.sellRatio), unitPrice, d.date);
      } else {
        FailedTradeKeeps(w, Sell, i, SellQuantity(a.holdings[i], d.sellRatio), unitPrice, d.date);
      }
    }
  }

  lemma FundingKeeps(w: World, reference: real, d: Draw)
    requires Holds(w) && w.account.holdings != [] && IsDraw(d, |w.account.holdings|) && !IsTrade(w, reference)
    ensures var u := GenerateAction(w, reference, d);
      Holds(u) && Follows(w, u) && u.histories.trades == w.histories.trades
  {
    var a := w.account;
    var u := GenerateAction(w, reference, d);
    if u != w {
      if a.value < LOW_BALANCE_THRESHOLD * reference {
        FundsKeep(w, u, reference - a.value, Deposit, d.date);
      } else {
        FundsKeep(w, u, -(BALANCE_WITHDRAW_RATIO * a.value), Withdraw, d.date);
      }
    }
  }

  /** Every action keeps the books, and none of its trades is dropped: an action that trades adds exactly one trade entry,
      and no other action adds any. */
  lemma ActionKeepsBooks(w: World, reference: real, d: Draw)
    requires Holds(w) && w.account.holdings != [] && IsDraw(d, |w.account.holdings|)
    ensures var u := GenerateAction(w, reference, d);
      && Holds(u) && Follows(w, u)
      && |u.histories.trades| == |w.histories.trades| + if IsTrade(w, reference) then 1 else 0
  {
    if IsTrade(w, reference) {
      TradingKeeps(w, reference, d);
    } else {
      FundingKeeps(w, reference, d);
    }
  }

  // ----- Runs over many accounts -----

  datatype Books = Books(accounts: seq<AccountState>, histories: Histories)

  datatype Step = Step(k: nat, reference: real, draw: Draw)

  ghost predicate IsStep(b: Books, s: Step) {
    s.k < |b.accounts| && b.accounts[s.k].holdings != [] && IsDraw(s.draw, |b.accounts[s.k].holdings|)
  }

  function Next(b: Books, s: Step): Books
    requires IsStep(b, s)
  {
    var u := GenerateAction(World(b.accounts[s.k], b.histories), s.reference, s.draw);
    Books(b.accounts[s.k := u.account], u.histories)
  }

  ghost predicate IsRun(b: Books, steps: seq<Step>)
    decreases |steps|
  {
    steps == [] || (IsStep(b, steps[0]) && IsRun(Next(b, steps[0]), steps[1..]))
  }

  ghost function Run(b: Books, steps: seq<Step>): Books
    requires IsRun(b, steps)
    decreases |steps|
  {
    if steps == [] then b else Run(Next(b, steps[0]), steps[1..])
  }

  ghost predicate DistinctAccounts(accounts: seq<AccountState>) {
    forall i, j :: 0 <= i < j < |accounts| ==> accounts[i].id != accounts[j].id
  }

  ghost predicate BooksHold(b: Books) {
    && Sound(b.histories) && DistinctAccounts(b.accounts)
    && forall i :: 0 <= i < |b.accounts| ==> Reconciles(b.accounts[i], b.histories)
  }

  lemma StepKeepsBooks(b: Books, s: Step)
    requires BooksHold(b) && IsStep(b, s)
    ensures BooksHold(Next(b, s))
  {
    var w := World(b.accounts[s.k], b.histories);
    ActionKeepsBooks(w, s.reference, s.draw);
    var u, c := GenerateAction(w, s.reference, s.draw), Next(b, s);
    forall i | 0 <= i < |c.accounts| ensures Reconciles(c.accounts[i], c.histories) {
      if i != s.k {
        OthersStillReconcile(b.accounts[i], b.histories, c.histories, w.account.id);
      }
    }
  }

  /** Accounts as the factory makes them: no money, nothing held. */
  ghost predicate IsFresh(b: Books) {
    && DistinctAccounts(b.accounts) && b.histories == Histories([], STARTING_INDEX, [], STARTING_INDEX)
    && forall i :: 0 <= i < |b.accounts| ==>
         b.accounts[i].value == 0.0 && forall k :: 0 <= k < |b.accounts[i].holdings| ==> b.accounts[i].holdings[k] == 0
  }

  lemma {:induction false} RunKeepsBooks(b: Books, steps: seq<Step>)
    requires BooksHold(b) && IsRun(b, steps)
    ensures BooksHold(Run(b, steps))
    decreases |steps|
  {
    if steps != [] {
      StepKeepsBooks(b, steps[0]);
      RunKeepsBooks(Next(b, steps[0]), steps[1..]);
    }
  }

  /** Over every run of generated actions from fresh accounts: entry ids are consecutive, every entry starts from the sum of
      those before it, no balance and no holding is negative, each balance is the sum of its entries and each holding the
      net of its successful trades. */
  lemma HistoryReconciles(b: Books, steps: seq<Step>)
    requires IsFresh(b) && IsRun(b, steps)
    ensures BooksHold(Run(b, steps))
  {
    RunKeepsBooks(b, steps);
  }
}
