/** When a balance goes below zero: exactly when a sell of an account other than the owner does not earn its fee. Two places
    sell without checking the fee, the quick sell and the batch. */
module BrokerSolvency {
  import opened Wrappers
  import opened BrokerTables
  import opened BrokerLedger
  import opened BrokerRuns
  import opened BrokerBatch

  ghost predicate NonNegative(t: Tables) {
    forall a :: a in t.balances ==> t.balances[a] >= 0.0
  }

  // ----- One settlement -----

  /** The trade passed the checks that the broker makes before it settles. */
  ghost predicate IsChecked(t: Tables, row: Trade, fee: real) {
    && row.accountId in t.balances && OWNER_ID in t.balances && IsTrade(row.direction)
    && WellFormedRow(row) && fee >= 0.0
    && (IsSell(row.direction) || Cost(row.quantity, row.entryPrice) + fee <= t.balances[row.accountId])
  }

  /** What the seller has and gets does not pay the fee. */
  predicate Overdraws(t: Tables, row: Trade, fee: real)
    requires row.accountId in t.balances
  {
    && IsSell(row.direction) && row.accountId != OWNER_ID
    && t.balances[row.accountId] + Cost(row.quantity, row.entryPrice) < fee
  }

  /** A settlement takes a balance that is not negative below zero exactly for a seller other than the owner whose income
      does not cover the fee; a buyer, the owner and everybody else stay at or above zero. */
  lemma SettlementOverdrawsIff(t: Tables, row: Trade, fee: real, a: int)
    requires IsChecked(t, row, fee) && a in t.balances && t.balances[a] >= 0.0
    ensures var u := Settle(t, row, fee);
      a in u.balances && (u.balances[a] < 0.0 <==> a == row.accountId && Overdraws(t, row, fee))
  {
    UpdateBalanceEffect(t, row.accountId, Cost(row.quantity, row.entryPrice), fee, row.direction);
    assert Cost(row.quantity, row.entryPrice) >= 0.0;
  }

  lemma SettlementStaysNonNegativeIff(t: Tables, row: Trade, fee: real)
    requires IsChecked(t, row, fee) && NonNegative(t)
    ensures NonNegative(Settle(t, row, fee)) <==> !Overdraws(t, row, fee)
  {
    var u := Settle(t, row, fee);
    UpdateBalanceEffect(t, row.accountId, Cost(row.quantity, row.entryPrice), fee, row.direction);
    forall a | a in t.balances
      ensures a in u.balances && (u.balances[a] < 0.0 <==> a == row.accountId && Overdraws(t, row, fee))
    {
      SettlementOverdrawsIff(t, row, fee, a);
    }
  }

  // ----- The quick sell -----

  ghost predicate QuickOverdraws(t: Tables, m: Market, accountId: int, instrumentId: int, amount: real, action: ActionType,
                                 now: int)
    requires action == Buy || action == Sell
  {
    && QuickTransaction(t, m, accountId, instrumentId, amount, action, now).Success?
    && Overdraws(t, QuickTrade(accountId, instrumentId, action, m.prices[instrumentId].open, amount, now),
                 Fee(m, instrumentId))
  }

  /** A quick trade: the condition is checked on the balance, the price and the fee before the call. */
  lemma QuickOverdrawsIff(t: Tables, m: Market, accountId: int, instrumentId: int, amount: real, action: ActionType,
                          now: int, a: int)
    requires (action == Buy || action == Sell) && NonNegativeMarket(m)
    requires QuickTransaction(t, m, accountId, instrumentId, amount, action, now).Success?
    requires a in t.balances && t.balances[a] >= 0.0
    ensures var u := QuickTransaction(t, m, accountId, instrumentId, amount, action, now).value;
      && IsPriced(m, instrumentId) && accountId in t.balances && a in u.balances
      && (u.balances[a] < 0.0 <==>
            && a == accountId && action == Sell && accountId != OWNER_ID
            && t.balances[a] + amount * m.prices[instrumentId].open < m.products[m.instruments[instrumentId]])
  {
    var row := QuickTrade(accountId, instrumentId, action, m.prices[instrumentId].open, amount, now);
    var s := t.(trades := t.trades + [row]);
    FeeNonNegative(m, instrumentId);
    SettlementOverdrawsIff(s, row, Fee(m, instrumentId), a);
  }

  // ----- The sell of the batch -----

  predicate LongSellOverdraws(t: Tables, m: Market, id: nat)
    requires Priced(t, m, id)
  {
    Decide(t, m, id).Execute? && Overdraws(t, t.trades[id], Fee(m, t.trades[id].instrumentId))
  }

  /** Processing one open trade takes a balance that is not negative below zero exactly when it executes a long sell of that
      account, not the owner, and balance and income together are less than the fee. */
  lemma ProcessOverdrawsIff(t: Tables, m: Market, id: nat, a: int)
    requires Priced(t, m, id) && WellFormedRow(t.trades[id]) && NonNegativeMarket(m)
    requires a in t.balances && t.balances[a] >= 0.0
    ensures var row, u := t.trades[id], ProcessTrade(t, m, id);
      && a in u.balances
      && (u.balances[a] < 0.0 <==>
            && a == row.accountId && row.direction == LongSell && a != OWNER_ID && Decide(t, m, id).Execute?
            && t.balances[a] + row.quantity * row.entryPrice < m.products[m.instruments[row.instrumentId]])
  {
    var row := t.trades[id];
    ProcessIsMoneyAndRow(t, m, id);
    FeeNonNegative(m, row.instrumentId);
    if Decide(t, m, id).Execute? {
      SettlementOverdrawsIff(t, row, Fee(m, row.instrumentId), a);
    }
  }

  lemma ProcessStaysNonNegativeIff(t: Tables, m: Market, id: nat)
    requires Priced(t, m, id) && WellFormedRow(t.trades[id]) && NonNegativeMarket(m) && NonNegative(t)
    ensures NonNegative(ProcessTrade(t, m, id)) <==> !LongSellOverdraws(t, m, id)
  {
    var row := t.trades[id];
    ProcessIsMoneyAndRow(t, m, id);
    FeeNonNegative(m, row.instrumentId);
    if Decide(t, m, id).Execute? {
      SettlementStaysNonNegativeIff(t, row, Fee(m, row.instrumentId));
    }
  }

  /** Some sell in this order overdraws its account when its turn comes. */
  ghost predicate SomeSellOverdraws(t: Tables, m: Market, ids: seq<nat>)
    requires Consistent(t) && AllPriced(t, m, ids)
    decreases |ids|
  {
    ids != [] &&
    (LongSellOverdraws(t, m, ids[0]) ||
     (ProcessTradeKeepsKeys(t, m, ids[0], ids[1..]); SomeSellOverdraws(ProcessTrade(t, m, ids[0]), m, ids[1..])))
  }

  /** The tables are free of negative balances now and after every turn of the loop. */
  ghost predicate StaysNonNegative(t: Tables, m: Market, ids: seq<nat>)
    requires Consistent(t) && AllPriced(t, m, ids)
    decreases |ids|
  {
    NonNegative(t) &&
    (ids == [] ||
     (ProcessTradeKeepsKeys(t, m, ids[0], ids[1..]); StaysNonNegative(ProcessTrade(t, m, ids[0]), m, ids[1..])))
  }

  lemma {:induction false} LoopStaysNonNegativeIff(t: Tables, m: Market, ids: seq<nat>)
    requires WellFormed(t) && AllPriced(t, m, ids) && NonNegativeMarket(m) && NonNegative(t)
    ensures StaysNonNegative(t, m, ids) <==> !SomeSellOverdraws(t, m, ids)
    ensures StaysNonNegative(t, m, ids) ==> NonNegative(ProcessAll(t, m, ids))
    decreases |ids|
  {
    if ids != [] {
      var next := ProcessTrade(t, m, ids[0]);
      assert WellFormedRow(t.trades[ids[0]]);
      ProcessTradeKeepsKeys(t, m, ids[0], ids[1..]);
      ProcessTradeWellFormed(t, m, ids[0]);
      ProcessStaysNonNegativeIff(t, m, ids[0]);
      if NonNegative(next) {
        LoopStaysNonNegativeIff(next, m, ids[1..]);
      } else {
        NegativeIsSeen(next, m, ids[1..]);
      }
    }
  }

  lemma NegativeIsSeen(t: Tables, m: Market, ids: seq<nat>)
    requires Consistent(t) && AllPriced(t, m, ids) && !NonNegative(t)
    ensures !StaysNonNegative(t, m, ids)
  {
  }

  // ----- Requests and runs -----

  /** The request makes a sell that does not earn its fee. */
  ghost predicate RequestOverdraws(t: Tables, r: Request)
    requires Consistent(t) && IsRequest(t, r)
  {
    match r
    case Cash(_, _, _) => false
    case Quick(m, accountId, instrumentId, amount, action, now) =>
      QuickOverdraws(t, m, accountId, instrumentId, amount, action, now)
    case Long(_, _, _, _, _, _, _, _) => false
    case Batch(m, now, scan) =>
      var swept := t.(trades := CloseOverdueTrades(t.trades, now));
      var open := OpenTrades(swept.trades, scan);
      AllPriced(swept, m, open) && SomeSellOverdraws(swept, m, open)
  }

  /** No balance is negative in any state that the request passes through. */
  ghost predicate RequestStaysNonNegative(t: Tables, r: Request)
    requires Consistent(t) && IsRequest(t, r)
  {
    && (Handle(t, r).Success? ==> (r.Batch? || NonNegative(Handle(t, r).value)))
    && (r.Batch? ==>
          var swept := t.(trades := CloseOverdueTrades(t.trades, r.now));
          var open := OpenTrades(swept.trades, r.scan);
          AllPriced(swept, r.market, open) ==> StaysNonNegative(swept, r.market, open))
  }

  lemma QuickStaysNonNegativeIff(t: Tables, m: Market, accountId: int, instrumentId: int, amount: real, action: ActionType,
                                 now: int)
    requires WellFormed(t) && (action == Buy || action == Sell) && NonNegativeMarket(m) && NonNegative(t)
    requires QuickTransaction(t, m, accountId, instrumentId, amount, action, now).Success?
    ensures NonNegative(QuickTransaction(t, m, accountId, instrumentId, amount, action, now).value)
       <==> !QuickOverdraws(t, m, accountId, instrumentId, amount, action, now)
  {
    var row := QuickTrade(accountId, instrumentId, action, m.prices[instrumentId].open, amount, now);
    FeeNonNegative(m, instrumentId);
    SettlementStaysNonNegativeIff(t.(trades := t.trades + [row]), row, Fee(m, instrumentId));
  }

  lemma BatchStaysNonNegativeIff(t: Tables, m: Market, now: int, scan: seq<nat>)
    requires WellFormed(t) && IsScan(scan, |t.trades|) && NonNegativeMarket(m) && NonNegative(t)
    ensures var swept := t.(trades := CloseOverdueTrades(t.trades, now)); var open := OpenTrades(swept.trades, scan);
      AllPriced(swept, m, open) ==>
        && (StaysNonNegative(swept, m, open) <==> !SomeSellOverdraws(swept, m, open))
        && (StaysNonNegative(swept, m, open) ==> NonNegative(ProcessAll(swept, m, open)))
  {
    var swept := t.(trades := CloseOverdueTrades(t.trades, now));
    SweptIsWellFormed(t, now);
    assert NonNegative(swept);
    if AllPriced(swept, m, OpenTrades(swept.trades, scan)) {
      LoopStaysNonNegativeIff(swept, m, OpenTrades(swept.trades, scan));
    }
  }

  /** From balances that are not negative, every state that a request passes through keeps them so exactly when it makes no
      sell that does not earn its fee. */
  lemma RequestStaysNonNegativeIff(t: Tables, r: Request)
    requires WellFormed(t) && IsRequest(t, r) && NonNegative(t)
    ensures RequestStaysNonNegative(t, r) <==> !RequestOverdraws(t, r)
    ensures RequestStaysNonNegative(t, r) && Handle(t, r).Success? ==> NonNegative(Handle(t, r).value)
  {
    match r
    case Cash(_, _, _) =>
    case Quick(m, accountId, instrumentId, amount, action, now) =>
      if Handle(t, r).Success? {
        QuickStaysNonNegativeIff(t, m, accountId, instrumentId, amount, action, now);
      }
    case Long(_, _, _, _, _, _, _, _) =>
    case Batch(m, now, scan) => BatchStaysNonNegativeIff(t, m, now, scan);
  }

  /** Some saved request of the run makes a sell that does not earn its fee. */
  ghost predicate RunOverdraws(t: Tables, run: seq<(Request, bool)>)
    requires WellFormed(t) && IsRun(t, run)
    decreases |run|
  {
    run != [] &&
    ((run[0].1 && RequestOverdraws(t, run[0].0)) ||
     (StepWellFormed(t, run[0].0, run[0].1); RunOverdraws(Step(t, run[0].0, run[0].1), run[1..])))
  }

  /** No balance is negative in any state of the run. */
  ghost predicate RunStaysNonNegative(t: Tables, run: seq<(Request, bool)>)
    requires WellFormed(t) && IsRun(t, run)
    decreases |run|
  {
    NonNegative(t) &&
    (run == [] ||
     ((run[0].1 ==> RequestStaysNonNegative(t, run[0].0)) &&
      (StepWellFormed(t, run[0].0, run[0].1); RunStaysNonNegative(Step(t, run[0].0, run[0].1), run[1..]))))
  }

  /** Over every run: no balance ever goes below zero if and only if no sell is made that does not earn its fee. */
  lemma {:induction false} RunStaysNonNegativeIff(t: Tables, run: seq<(Request, bool)>)
    requires WellFormed(t) && IsRun(t, run) && NonNegative(t)
    ensures RunStaysNonNegative(t, run) <==> !RunOverdraws(t, run)
    ensures RunStaysNonNegative(t, run) ==> NonNegative(Run(t, run))
    decreases |run|
  {
    if run != [] {
      var r, saved := run[0].0, run[0].1;
      var next := Step(t, r, saved);
      StepWellFormed(t, r, saved);
      RequestStaysNonNegativeIff(t, r);
      if NonNegative(next) {
        RunStaysNonNegativeIff(next, run[1..]);
      }
    }
  }

  // ----- Both sells can overdraw -----

  /** The bound is reached: with nothing on the account, selling nothing costs exactly the fee. */
  lemma SellCanOverdraw()
    ensures var t := Tables(map[1 := 0.0, 2 := 0.0], map[(2, 7) := 0.0], [], []);
      var m := Market(map[7 := 3], map[3 := 5.0], map[7 := Price(1.0, 1.0, 1.0, 1.0)]);
      var request := Quick(m, 2, 7, 0.0, Sell, 0);
      && WellFormed(t) && NonNegative(t) && IsRequest(t, request)
      && Step(t, request, true).balances == map[1 := 5.0, 2 := -5.0]
      && SellFees(Step(t, request, true).history, 2) == 5.0
  {
    var t := Tables(map[1 := 0.0, 2 := 0.0], map[(2, 7) := 0.0], [], []);
    var m := Market(map[7 := 3], map[3 := 5.0], map[7 := Price(1.0, 1.0, 1.0, 1.0)]);
    var request := Quick(m, 2, 7, 0.0, Sell, 0);
    var row := QuickTrade(2, 7, Sell, 1.0, 0.0, 0);
    assert IsRequest(t, request);
    assert [] + [row] == [row];
    QuickSellSettles(t, m, 2, 7, 0.0, 0);
    SettledForNothing(t.(trades := [row]), row);
  }

  lemma QuickSellSettles(t: Tables, m: Market, accountId: int, instrumentId: int, amount: real, now: int)
    requires Consistent(t) && IsRequest(t, Quick(m, accountId, instrumentId, amount, Sell, now))
    requires amount >= 0.0 && accountId in t.balances && IsPriced(m, instrumentId) && Owns(t, accountId, instrumentId, amount)
    ensures var row := QuickTrade(accountId, instrumentId, Sell, m.prices[instrumentId].open, amount, now);
      Step(t, Quick(m, accountId, instrumentId, amount, Sell, now), true)
        == Settle(t.(trades := t.trades + [row]), row, Fee(m, instrumentId))
  {
  }

  lemma SettledForNothing(t: Tables, row: Trade)
    requires t.balances == map[1 := 0.0, 2 := 0.0] && t.history == []
    requires row.accountId == 2 && row.direction == Sell && Cost(row.quantity, row.entryPrice) == 0.0
    ensures var u := Settle(t, row, 5.0); u.balances == map[1 := 5.0, 2 := -5.0] && SellFees(u.history, 2) == 5.0
  {
    var h := Settle(t, row, 5.0).history;
    UpdateBalanceEffect(t, 2, 0.0, 5.0, Sell);
    assert h == [BalanceHistory(2, 0.0, 0.0, Sell), BalanceHistory(2, 0.0, -5.0, TransactionFee),
                 BalanceHistory(1, 0.0, 5.0, CollectFee)];
    FeesOfOneSell(h);
  }

  lemma FeesOfOneSell(h: seq<BalanceHistory>)
    requires |h| == 3 && h[0].action == Sell && h[1].action == TransactionFee && h[2].action == CollectFee
    requires h[1].accountId == 2 && h[1].valueChange == -5.0
    ensures SellFees(h, 2) == 5.0
  {
    assert SellFees(h[..2], 2) == SellFees(h[..2][..1], 2) + 5.0;
  }

  /** The batch reaches it too: a due long sell of nothing costs exactly the fee. */
  lemma LongSellCanOverdraw()
    ensures var row := Trade(2, 7, LongSell, 0.0, 1.0, None, false, false, Registered);
      var t := Tables(map[1 := 0.0, 2 := 0.0], map[(2, 7) := 0.0], [row], []);
      var m := Market(map[7 := 3], map[3 := 5.0], map[7 := Price(1.0, 1.0, 1.0, 1.0)]);
      && WellFormed(t) && NonNegative(t) && NonNegativeMarket(m) && Priced(t, m, 0)
      && ProcessTrade(t, m, 0).balances == map[1 := 5.0, 2 := -5.0]
  {
    var row := Trade(2, 7, LongSell, 0.0, 1.0, None, false, false, Registered);
    var t := Tables(map[1 := 0.0, 2 := 0.0], map[(2, 7) := 0.0], [row], []);
    assert WellFormedRow(row);
    UpdateBalanceEffect(t, 2, 0.0, 5.0, LongSell);
  }
}
