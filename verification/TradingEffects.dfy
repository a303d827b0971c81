/** What one action of the generated history does, in plain amounts: to the money, the holdings and the two histories. */
module TradingEffects {
  import opened TradingHistory

  /** One balance entry with the next id, and the balance it leads to. */
  ghost predicate Entered(w: World, u: World, change: real, action: ActionType, date: int) {
    && u.account == w.account.(value := w.account.value + change)
    && u.histories == w.histories.(
         entries := w.histories.entries
           + [BalanceEntry(w.histories.entryId, w.account.id, w.account.value, change, action, date)],
         entryId := w.histories.entryId + 1)
  }

  /** Taking money needs an amount above zero that is there; giving money needs an amount that is not negative. Everything
      else is refused and leaves no trace. */
  lemma FundsEffect(w: World, action: ActionType, amount: real, date: int)
    ensures var (u, done) := RemoveFunds(w, action, amount, date);
      && (done <==> 0.0 < amount <= w.account.value) && (!done ==> u == w) && (done ==> Entered(w, u, -amount, action, date))
    ensures var (u, done) := AddFunds(w, action, amount, date);
      && (done <==> 0.0 <= amount) && (!done ==> u == w) && (done ==> Entered(w, u, amount, action, date))
  {
  }

  /** One trade entry with the next id. */
  ghost predicate Noted(h: Histories, next: Histories, a: AccountState, instrument: nat, action: ActionType, quantity: int,
                        unitPrice: real, date: int, success: bool)
  {
    && next.trades == h.trades
         + [TradeEntry(h.tradeId, a.id, instrument, action, quantity, unitPrice, date, date, true, success)]
    && next.tradeId == h.tradeId + 1
  }

  ghost predicate Holds(w: World, u: World, instrument: nat, change: int)
    requires instrument < |w.account.holdings|
  {
    && u.account.holdings == w.account.holdings[instrument := w.account.holdings[instrument] + change]
    && u.account.id == w.account.id
  }

  /** A trade that is to fail only leaves its entry. One that is to succeed is refused without a trace when the balance does not
      cover a buy or the holding a sale; otherwise quantity and money move together, at quantity times unit price. */
  lemma TradeEffect(w: World, action: ActionType, instrument: nat, quantity: int, unitPrice: real, date: int, success: bool)
    requires (action == Buy || action == Sell) && instrument < |w.account.holdings|
    requires quantity as real * unitPrice >= 0.0
    ensures var u, price := Trade(w, action, instrument, quantity, unitPrice, date, success), quantity as real * unitPrice;
      if !success then
        && u.account == w.account && u.histories.entries == w.histories.entries && u.histories.entryId == w.histories.entryId
        && Noted(w.histories, u.histories, w.account, instrument, action, quantity, unitPrice, date, false)
      else if (action == Buy && w.account.value < price) || (action == Sell && w.account.holdings[instrument] < quantity) then
        u == w
      else
        && Noted(w.histories, u.histories, w.account, instrument, action, quantity, unitPrice, date, true)
        && Holds(w, u, instrument, if action == Buy then quantity else -quantity)
        && u.account.value == w.account.value + (if action == Buy then -price else price)
        && u.histories.entries == w.histories.entries
             + if action == Buy && price == 0.0 then []
               else [BalanceEntry(w.histories.entryId, w.account.id, w.account.value,
                                  if action == Buy then -price else price, action, date)]
  {
  }

  /** An action: below three tenths of the reference the balance is filled up to it, above twice the reference half of it is
      withdrawn; in between the account trades the instrument it holds least of, buying below five hundred and selling
      above. */
  lemma ActionEffect(w: World, reference: real, d: Draw)
    requires w.account.holdings != [] && IsDraw(d, |w.account.holdings|) && 0.0 <= w.account.value && 0.0 <= reference
    ensures var u, a, i := GenerateAction(w, reference, d), w.account, LeastHeld(w.account.holdings);
      && (a.value < 0.3 * reference ==> Entered(w, u, reference - a.value, Deposit, d.date) && u.account.value == reference)
      && (a.value > 2.0 * reference ==> Entered(w, u, -(a.value / 2.0), Withdraw, d.date) && u.account.value == a.value / 2.0)
      && (0.3 * reference <= a.value <= 2.0 * reference ==>
            && (a.holdings[i] < 500 ==>
                  u == Trade(w, Buy, i, BuyQuantity(a.value, d.buyRatio, d.unitPrices[i]), d.unitPrices[i], d.date, d.success))
            && (a.holdings[i] > 500 ==>
                  u == Trade(w, Sell, i, SellQuantity(a.holdings[i], d.sellRatio), d.unitPrices[i], d.date, d.success))
            && (a.holdings[i] == 500 ==> u == w))
  {
  }

  /** A purchase is the whole number of units that the drawn share of the balance pays for. */
  lemma PurchaseFits(value: real, ratio: real, unitPrice: real)
    requires 0.0 < unitPrice
    ensures var quantity := BuyQuantity(value, ratio, unitPrice) as real;
      quantity <= value * ratio / unitPrice < quantity + 1.0
  {
  }

  /** That share is between three and seven tenths. */
  lemma PurchaseShare(value: real, d: Draw, n: nat)
    requires 0.0 <= value && IsDraw(d, n)
    ensures 0.3 * value <= value * d.buyRatio <= 0.7 * value
  {
    ShareGrows(value, 0.3, d.buyRatio);
    ShareGrows(value, d.buyRatio, 0.7);
  }

  lemma ShareGrows(value: real, p: real, q: real)
    requires 0.0 <= value && p <= q
    ensures p * value <= value * q && value * p <= q * value
  {
    assert 0.0 <= value * (q - p);
    assert value * (q - p) == value * q - value * p;
  }

  /** A sale gives away between three and six tenths of the holding, rounded down. */
  lemma SaleShare(owned: nat, d: Draw, n: nat)
    requires IsDraw(d, n)
    ensures var quantity := SellQuantity(owned, d.sellRatio);
      && quantity as real <= owned as real * d.sellRatio < quantity as real + 1.0
      && 0.3 * owned as real <= owned as real * d.sellRatio <= 0.6 * owned as real
  {
    ShareGrows(owned as real, 0.3, d.sellRatio);
    ShareGrows(owned as real, d.sellRatio, 0.6);
  }

  /** From fresh accounts the entries of both histories are numbered from one. */
  lemma IdsStartAtOne(b: Books, steps: seq<Step>, k: nat)
    requires IsFresh(b) && IsRun(b, steps)
    ensures var h := Run(b, steps).histories;
      (k < |h.entries| ==> h.entries[k].id == k + 1) && (k < |h.trades| ==> h.trades[k].id == k + 1)
  {
    HistoryReconciles(b, steps);
  }
}
