/** The order in which the database returns the open trades: two trades of different accounts give the same outcome in both
    orders unless a fee tips a buy of the owner's, and a whole batch does not depend on the order exactly when the fees of
    the other accounts' trades, together, tip none. */
module BrokerOrder {
  import opened Wrappers
  import opened BrokerTables
  import opened BrokerRuns
  import opened BrokerBatch

  // ----- One trade -----

  /** The same balances, holdings and trades, and the same history for every account but the owner. */
  ghost predicate SameOutcome(u: Tables, v: Tables) {
    && u.balances == v.balances && u.holdings == v.holdings && u.trades == v.trades
    && forall a :: a != OWNER_ID ==> RowsOf(u.history, a) == RowsOf(v.history, a)
  }

  lemma MoneyCongruent(u: Tables, v: Tables, row: Trade, fee: real, outcome: Outcome)
    requires SameOutcome(u, v) && row.accountId in u.balances && OWNER_ID in u.balances
    ensures SameOutcome(Money(u, row, fee, outcome), Money(v, row, fee, outcome))
  {
    if outcome.Execute? {
      var su, sv := Settle(u, row, fee), Settle(v, row, fee);
      forall a | a != OWNER_ID ensures RowsOf(su.history, a) == RowsOf(sv.history, a) {
        RowsCongruent(u, v, row, fee, a);
      }
    }
  }

  lemma RowsCongruent(u: Tables, v: Tables, row: Trade, fee: real, a: int)
    requires SameOutcome(u, v) && row.accountId in u.balances && OWNER_ID in u.balances && a != OWNER_ID
    ensures RowsOf(Settle(u, row, fee).history, a) == RowsOf(Settle(v, row, fee).history, a)
  {
    RowsOfSettle(u, row, fee, a);
    RowsOfSettle(v, row, fee, a);
  }

  /** Processing depends on the tables only up to the owner's history. */
  lemma ProcessCongruent(u: Tables, v: Tables, m: Market, id: nat)
    requires Priced(u, m, id) && Priced(v, m, id) && SameOutcome(u, v)
    ensures SameOutcome(ProcessTrade(u, m, id), ProcessTrade(v, m, id))
  {
    var row := u.trades[id];
    ProcessIsMoneyAndRow(u, m, id);
    ProcessIsMoneyAndRow(v, m, id);
    MoneyCongruent(u, v, row, Fee(m, row.instrumentId), Decide(u, m, id));
  }

  // ----- What one trade sees of another -----

  /** A buy of the owner's whose price is within reach: the only trade whose outcome depends on the owner's balance, which
      every executed trade changes. */
  predicate LooksAtOwner(row: Trade, m: Market) {
    && row.accountId == OWNER_ID && row.direction == LongBuy
    && row.instrumentId in m.prices && row.entryPrice >= m.prices[row.instrumentId].low
  }

  /** What the trade has to pay. */
  function TotalCost(t: Tables, m: Market, x: nat): real
    requires Priced(t, m, x)
  {
    var row := t.trades[x];
    Cost(row.quantity, row.entryPrice) + Fee(m, row.instrumentId)
  }

  /** The fee of y makes the difference between enough and not enough for x. */
  predicate Tips(t: Tables, m: Market, x: nat, y: nat)
    requires Priced(t, m, x) && Priced(t, m, y)
  {
    && LooksAtOwner(t.trades[x], m) && Decide(t, m, y).Execute?
    && (TotalCost(t, m, x) <= t.balances[OWNER_ID])
         != (TotalCost(t, m, x) <= t.balances[OWNER_ID] + Fee(m, t.trades[y].instrumentId))
  }

  /** With fees that are not negative, tipping means that the owner's balance was too small and the fee fills the gap. */
  lemma TipsMeans(t: Tables, m: Market, x: nat, y: nat)
    requires Priced(t, m, x) && Priced(t, m, y) && NonNegativeMarket(m)
    ensures Tips(t, m, x, y)
       <==> && LooksAtOwner(t.trades[x], m) && Decide(t, m, y).Execute?
            && var row := t.trades[x]; var cost := row.quantity * row.entryPrice + m.products[m.instruments[row.instrumentId]];
               t.balances[OWNER_ID] < cost <= t.balances[OWNER_ID] + Fee(m, t.trades[y].instrumentId)
  {
    FeeNonNegative(m, t.trades[y].instrumentId);
  }

  /** The share of a settlement in the balance of an account. */
  function Share(row: Trade, fee: real, a: int): real {
    (if a == row.accountId then Income(row.direction, Cost(row.quantity, row.entryPrice)) - fee else 0.0)
      + if a == OWNER_ID then fee else 0.0
  }

  /** What a settlement does, in one piece. */
  ghost predicate IsSettled(t: Tables, row: Trade, fee: real, u: Tables)
    requires row.accountId in t.balances && OWNER_ID in t.balances
  {
    && u.balances.Keys == t.balances.Keys
    && (forall a :: a in t.balances ==> u.balances[a] == t.balances[a] + Share(row, fee, a))
    && u.holdings == UpdateOwnedInstrument(t, row.accountId, row.instrumentId,
                                           if IsSell(row.direction) then -row.quantity else row.quantity).holdings
    && u.trades == t.trades
    && forall c :: c != OWNER_ID ==>
         RowsOf(u.history, c)
           == RowsOf(t.history, c) + if c == row.accountId then OwnRows(row, t.balances[row.accountId], fee) else []
  }

  /** The rows a settlement leaves on the trader's account. */
  ghost function OwnRows(row: Trade, before: real, fee: real): seq<BalanceHistory> {
    var income := Income(row.direction, Cost(row.quantity, row.entryPrice));
    [BalanceHistory(row.accountId, before, income, row.direction),
     BalanceHistory(row.accountId, before + income, -fee, TransactionFee)]
  }

  lemma SettleBalances(t: Tables, row: Trade, fee: real, a: int)
    requires row.accountId in t.balances && OWNER_ID in t.balances && a in t.balances
    ensures var u := Settle(t, row, fee);
      u.balances.Keys == t.balances.Keys && u.balances[a] == t.balances[a] + Share(row, fee, a)
  {
  }

  lemma SettleIsSettled(t: Tables, row: Trade, fee: real)
    requires row.accountId in t.balances && OWNER_ID in t.balances
    ensures IsSettled(t, row, fee, Settle(t, row, fee))
  {
    var u := Settle(t, row, fee);
    forall a | a in t.balances ensures u.balances[a] == t.balances[a] + Share(row, fee, a) {
      SettleBalances(t, row, fee, a);
    }
    forall c | c != OWNER_ID
      ensures RowsOf(u.history, c)
        == RowsOf(t.history, c) + if c == row.accountId then OwnRows(row, t.balances[row.accountId], fee) else []
    {
      RowsOfSettle(t, row, fee, c);
    }
  }

  // ----- Settlements of different accounts commute -----

  ghost predicate DifferentTraders(t: Tables, p: Trade, q: Trade) {
    p.accountId in t.balances && q.accountId in t.balances && OWNER_ID in t.balances && p.accountId != q.accountId
  }

  /** The four states of two settlements in both orders. */
  ghost predicate IsSquare(t: Tables, p: Trade, q: Trade, f: real, g: real, u: Tables, v: Tables, uu: Tables, vv: Tables) {
    && DifferentTraders(t, p, q)
    && IsSettled(t, p, f, u) && IsSettled(t, q, g, v) && IsSettled(u, q, g, uu) && IsSettled(v, p, f, vv)
  }

  lemma SettledBalancesCommute(t: Tables, p: Trade, q: Trade, f: real, g: real, u: Tables, v: Tables, uu: Tables, vv: Tables)
    requires IsSquare(t, p, q, f, g, u, v, uu, vv)
    ensures uu.balances == vv.balances
  {
    forall a | a in t.balances ensures uu.balances[a] == vv.balances[a] {
      assert uu.balances[a] == t.balances[a] + Share(p, f, a) + Share(q, g, a);
      assert vv.balances[a] == t.balances[a] + Share(q, g, a) + Share(p, f, a);
    }
  }

  lemma SettledHoldingsCommute(t: Tables, p: Trade, q: Trade, f: real, g: real, u: Tables, v: Tables, uu: Tables, vv: Tables)
    requires IsSquare(t, p, q, f, g, u, v, uu, vv)
    ensures uu.holdings == vv.holdings && uu.trades == vv.trades
  {
  }

  lemma SettledRows(t: Tables, p: Trade, q: Trade, f: real, g: real, u: Tables, uu: Tables, c: int)
    requires DifferentTraders(t, p, q) && c != OWNER_ID
    requires IsSettled(t, p, f, u) && IsSettled(u, q, g, uu)
    ensures RowsOf(uu.history, c) == RowsOf(t.history, c)
      + if c == p.accountId then OwnRows(p, t.balances[p.accountId], f)
        else if c == q.accountId then OwnRows(q, t.balances[q.accountId], g) else []
  {
    assert RowsOf(u.history, c) + [] == RowsOf(u.history, c);
    assert RowsOf(t.history, c) + [] == RowsOf(t.history, c);
    if c == q.accountId {
      assert u.balances[c] == t.balances[c] + Share(p, f, c);
    }
  }

  lemma SettledCommute(t: Tables, p: Trade, q: Trade, f: real, g: real, u: Tables, v: Tables, uu: Tables, vv: Tables)
    requires IsSquare(t, p, q, f, g, u, v, uu, vv)
    ensures SameOutcome(uu, vv)
  {
    SettledBalancesCommute(t, p, q, f, g, u, v, uu, vv);
    SettledHoldingsCommute(t, p, q, f, g, u, v, uu, vv);
    forall c | c != OWNER_ID ensures RowsOf(uu.history, c) == RowsOf(vv.history, c) {
      SettledRows(t, p, q, f, g, u, uu, c);
      SettledRows(t, q, p, g, f, v, vv, c);
    }
  }

  lemma MoneyCommutes(t: Tables, p: Trade, q: Trade, f: real, g: real, op: Outcome, oq: Outcome)
    requires DifferentTraders(t, p, q)
    ensures SameOutcome(Money(Money(t, p, f, op), q, g, oq), Money(Money(t, q, g, oq), p, f, op))
  {
    if op.Execute? && oq.Execute? {
      var u, v := Settle(t, p, f), Settle(t, q, g);
      SettleIsSettled(t, p, f);
      SettleIsSettled(t, q, g);
      SettleIsSettled(u, q, g);
      SettleIsSettled(v, p, f);
      SettledCommute(t, p, q, f, g, u, v, Settle(u, q, g), Settle(v, p, f));
    }
  }

  lemma MoneyIgnoresTrades(t: Tables, trades: seq<Trade>, row: Trade, fee: real, outcome: Outcome)
    requires row.accountId in t.balances && OWNER_ID in t.balances
    ensures Money(t.(trades := trades), row, fee, outcome) == Money(t, row, fee, outcome).(trades := trades)
  {
  }

  // ----- Trades of different accounts commute, or a fee tips one -----

  ghost predicate DifferentAccounts(t: Tables, m: Market, x: nat, y: nat) {
    Priced(t, m, x) && Priced(t, m, y) && t.trades[x].accountId != t.trades[y].accountId
  }

  lemma OneThenOther(t: Tables, m: Market, x: nat, y: nat)
    requires DifferentAccounts(t, m, x, y)
    ensures var u := ProcessTrade(t, m, y); Priced(u, m, x) && u.trades[x] == t.trades[x]
  {
  }

  /** A trade is decided in the same way before and after another account's trade, unless that one's fee tips it. */
  lemma DecidedTheSameIff(t: Tables, m: Market, x: nat, y: nat)
    requires DifferentAccounts(t, m, x, y)
    ensures Priced(ProcessTrade(t, m, y), m, x)
    ensures Decide(ProcessTrade(t, m, y), m, x) == Decide(t, m, x) <==> !Tips(t, m, x, y)
  {
    var u, row, other := ProcessTrade(t, m, y), t.trades[x], t.trades[y];
    OneThenOther(t, m, x, y);
    ProcessIsMoneyAndRow(t, m, y);
    if Decide(t, m, y).Execute? {
      SettleBalances(t, other, Fee(m, other.instrumentId), row.accountId);
    }
  }

  lemma ProcessTwo(t: Tables, m: Market, x: nat, y: nat)
    requires DifferentAccounts(t, m, x, y) && !Tips(t, m, y, x)
    ensures Priced(ProcessTrade(t, m, x), m, y)
    ensures var p, q := t.trades[x], t.trades[y];
      var op, oq := Decide(t, m, x), Decide(t, m, y);
      var f, g := Fee(m, p.instrumentId), Fee(m, q.instrumentId);
      ProcessTrade(ProcessTrade(t, m, x), m, y) ==
        Money(Money(t, p, f, op), q, g, oq).(trades := t.trades[x := RowAfter(p, op)][y := RowAfter(q, oq)])
  {
    OneThenOther(t, m, y, x);
    DecidedTheSameIff(t, m, y, x);
    ProcessIsMoneyAndRow(t, m, x);
    ProcessIsMoneyAndRow(ProcessTrade(t, m, x), m, y);
    var p, q := t.trades[x], t.trades[y];
    var op, oq := Decide(t, m, x), Decide(t, m, y);
    var f, g := Fee(m, p.instrumentId), Fee(m, q.instrumentId);
    MoneyIgnoresTrades(Money(t, p, f, op), t.trades[x := RowAfter(p, op)], q, g, oq);
  }

  lemma ProcessesCommute(t: Tables, m: Market, x: nat, y: nat)
    requires DifferentAccounts(t, m, x, y) && !Tips(t, m, x, y) && !Tips(t, m, y, x)
    ensures Priced(ProcessTrade(t, m, x), m, y) && Priced(ProcessTrade(t, m, y), m, x)
    ensures SameOutcome(ProcessTrade(ProcessTrade(t, m, x), m, y), ProcessTrade(ProcessTrade(t, m, y), m, x))
  {
    var p, q := t.trades[x], t.trades[y];
    var op, oq := Decide(t, m, x), Decide(t, m, y);
    ProcessTwo(t, m, x, y);
    ProcessTwo(t, m, y, x);
    MoneyCommutes(t, p, q, Fee(m, p.instrumentId), Fee(m, q.instrumentId), op, oq);
    assert t.trades[x := RowAfter(p, op)][y := RowAfter(q, oq)] == t.trades[y := RowAfter(q, oq)][x := RowAfter(p, op)];
  }

  lemma RowIsDecided(t: Tables, m: Market, x: nat, y: nat)
    requires DifferentAccounts(t, m, x, y)
    ensures Priced(ProcessTrade(t, m, y), m, x)
    ensures var u := ProcessTrade(t, m, y);
      |ProcessTrade(u, m, x).trades| == |t.trades| && ProcessTrade(u, m, x).trades[x] == RowAfter(t.trades[x], Decide(u, m, x))
  {
    OneThenOther(t, m, x, y);
    ProcessIsMoneyAndRow(ProcessTrade(t, m, y), m, x);
  }

  lemma TippedDiffers(t: Tables, m: Market, x: nat, y: nat)
    requires DifferentAccounts(t, m, x, y) && Tips(t, m, x, y)
    ensures Priced(ProcessTrade(t, m, x), m, y) && Priced(ProcessTrade(t, m, y), m, x)
    ensures ProcessTrade(ProcessTrade(t, m, x), m, y).trades != ProcessTrade(ProcessTrade(t, m, y), m, x).trades
  {
    DecidedTheSameIff(t, m, x, y);
    RowIsDecided(t, m, x, y);
    OneThenOther(t, m, y, x);
    ProcessIsMoneyAndRow(t, m, x);
    var u := ProcessTrade(t, m, x);
    ProcessIsMoneyAndRow(u, m, y);
    assert ProcessTrade(u, m, y).trades[x] == RowAfter(t.trades[x], Decide(t, m, x));
  }

  /** The adjacent swap: two trades of different accounts give the same outcome in both orders exactly when neither tips the
      other, which only a buy of the owner's can suffer. */
  lemma SwapIff(t: Tables, m: Market, x: nat, y: nat)
    requires DifferentAccounts(t, m, x, y)
    ensures Priced(ProcessTrade(t, m, x), m, y) && Priced(ProcessTrade(t, m, y), m, x)
    ensures SameOutcome(ProcessTrade(ProcessTrade(t, m, x), m, y), ProcessTrade(ProcessTrade(t, m, y), m, x))
       <==> !Tips(t, m, x, y) && !Tips(t, m, y, x)
  {
    OneThenOther(t, m, x, y);
    OneThenOther(t, m, y, x);
    if Tips(t, m, x, y) {
      TippedDiffers(t, m, x, y);
    } else if Tips(t, m, y, x) {
      TippedDiffers(t, m, y, x);
    } else {
      ProcessesCommute(t, m, x, y);
    }
  }

  // ----- Whole orders -----

  lemma {:induction false} ProcessAllCongruent(u: Tables, v: Tables, m: Market, ids: seq<nat>)
    requires Consistent(u) && Consistent(v) && SameOutcome(u, v) && AllPriced(u, m, ids)
    ensures AllPriced(v, m, ids) && SameOutcome(ProcessAll(u, m, ids), ProcessAll(v, m, ids))
    decreases |ids|
  {
    if ids != [] {
      ProcessCongruent(u, v, m, ids[0]);
      ProcessTradeKeepsKeys(u, m, ids[0], ids[1..]);
      ProcessTradeKeepsKeys(v, m, ids[0], ids[1..]);
      ProcessAllCongruent(ProcessTrade(u, m, ids[0]), ProcessTrade(v, m, ids[0]), m, ids[1..]);
    }
  }

  // ----- What the fees of others leave of the owner's decisions -----

  /** How far fees can still move the owner's balance, down and up. */
  datatype Span = Span(lo: real, hi: real)

  function Widened(span: Span, fee: real): Span {
    Span(span.lo + (if fee < 0.0 then fee else 0.0), span.hi + (if fee < 0.0 then 0.0 else fee))
  }

  /** The fee that the owner collects from another account's trade, if that is executed now. */
  function FeeFrom(t: Tables, m: Market, id: nat): real
    requires Priced(t, m, id)
  {
    if t.trades[id].accountId != OWNER_ID && Decide(t, m, id).Execute? then Fee(m, t.trades[id].instrumentId) else 0.0
  }

  /** The fees that the other accounts' trades of an order bring the owner, together. */
  ghost function SpanOf(t: Tables, m: Market, ids: seq<nat>): (r: Span)
    ensures r.lo <= 0.0 <= r.hi
    decreases |ids|
  {
    if ids == [] || !Priced(t, m, ids[0]) then Span(0.0, 0.0)
    else Widened(SpanOf(ProcessTrade(t, m, ids[0]), m, ids[1..]), FeeFrom(t, m, ids[0]))
  }

  /** A buy of the owner's that is due can be paid anywhere in the span, or nowhere. */
  ghost predicate Firm(t: Tables, m: Market, id: nat, span: Span)
    requires Priced(t, m, id)
  {
    LooksAtOwner(t.trades[id], m) ==>
      (TotalCost(t, m, id) <= t.balances[OWNER_ID] + span.lo <==> TotalCost(t, m, id) <= t.balances[OWNER_ID] + span.hi)
  }

  /** The owner's trades, in this order and on their own, are all firm. */
  ghost predicate Steady(t: Tables, m: Market, ids: seq<nat>, span: Span)
    decreases |ids|
  {
    ids == [] ||
    (Priced(t, m, ids[0]) && Firm(t, m, ids[0], span) && Steady(ProcessTrade(t, m, ids[0]), m, ids[1..], span))
  }

  // ----- The owner's side and the side of the others -----

  /** What processing never changes in a row. */
  function Terms(row: Trade): Trade {
    Closed(row, Registered, false)
  }

  ghost predicate SameTerms(t: Tables, u: Tables) {
    && Consistent(t) && Consistent(u) && |u.trades| == |t.trades|
    && forall i :: 0 <= i < |t.trades| ==> Terms(u.trades[i]) == Terms(t.trades[i])
  }

  lemma ProcessKeepsTerms(t: Tables, m: Market, id: nat)
    requires Priced(t, m, id)
    ensures SameTerms(t, ProcessTrade(t, m, id))
  {
    ProcessTradeKeepsKeys(t, m, id, []);
    ProcessIsMoneyAndRow(t, m, id);
  }

  lemma TermsDecideMarket(t: Tables, u: Tables, m: Market, id: nat)
    requires SameTerms(t, u) && Priced(t, m, id)
    ensures Priced(u, m, id) && u.trades[id].accountId == t.trades[id].accountId
    ensures LooksAtOwner(u.trades[id], m) == LooksAtOwner(t.trades[id], m) && TotalCost(u, m, id) == TotalCost(t, m, id)
  {
    assert Terms(u.trades[id]) == Terms(t.trades[id]);
  }

  ghost predicate SameHoldings(t: Tables, u: Tables, a: int) {
    forall i :: ((a, i) in u.holdings <==> (a, i) in t.holdings) && Holding(u, a, i) == Holding(t, a, i)
  }

  /** The owner has the same holdings and a balance that differs by this much. */
  ghost predicate OwnerMoved(t: Tables, u: Tables, more: real) {
    SameTerms(t, u) && u.balances[OWNER_ID] == t.balances[OWNER_ID] + more && SameHoldings(t, u, OWNER_ID)
  }

  /** Everybody but the owner has the same balance and holdings. */
  ghost predicate SameOthers(t: Tables, u: Tables) {
    SameTerms(t, u) && OthersKeep(t, u)
  }

  ghost predicate OthersKeep(t: Tables, u: Tables) {
    && u.balances.Keys == t.balances.Keys
    && (forall a :: a in t.balances && a != OWNER_ID ==> u.balances[a] == t.balances[a])
    && (forall a :: a != OWNER_ID ==> SameHoldings(t, u, a))
  }

  /** One trade moves its account's side and, by its fee, the owner's balance. */
  lemma ProcessMoves(t: Tables, m: Market, id: nat)
    requires Priced(t, m, id)
    ensures t.trades[id].accountId != OWNER_ID ==> OwnerMoved(t, ProcessTrade(t, m, id), FeeFrom(t, m, id))
    ensures t.trades[id].accountId == OWNER_ID ==> SameOthers(t, ProcessTrade(t, m, id))
  {
    var row := t.trades[id];
    ProcessKeepsTerms(t, m, id);
    ProcessIsMoneyAndRow(t, m, id);
    if Decide(t, m, id).Execute? {
      SettleIsSettled(t, row, Fee(m, row.instrumentId));
    }
  }

  lemma OwnerDecidesTheSame(t: Tables, u: Tables, m: Market, id: nat, more: real)
    requires OwnerMoved(t, u, more) && Priced(t, m, id) && t.trades[id].accountId == OWNER_ID
    requires LooksAtOwner(t.trades[id], m) ==>
               (TotalCost(t, m, id) <= t.balances[OWNER_ID] <==> TotalCost(t, m, id) <= u.balances[OWNER_ID])
    ensures Priced(u, m, id) && Decide(u, m, id) == Decide(t, m, id)
  {
    TermsDecideMarket(t, u, m, id);
    assert Terms(u.trades[id]) == Terms(t.trades[id]);
  }

  lemma OwnerMovesOn(t: Tables, u: Tables, m: Market, id: nat, more: real)
    requires OwnerMoved(t, u, more) && Priced(t, m, id) && t.trades[id].accountId == OWNER_ID
    requires Priced(u, m, id) && Decide(u, m, id) == Decide(t, m, id)
    ensures OwnerMoved(ProcessTrade(t, m, id), ProcessTrade(u, m, id), more)
  {
    var row, other := t.trades[id], u.trades[id];
    assert Terms(other) == Terms(row);
    TermsStaySame(t, u, m, id);
    ProcessIsMoneyAndRow(t, m, id);
    ProcessIsMoneyAndRow(u, m, id);
    if Decide(t, m, id).Execute? {
      var fee := Fee(m, row.instrumentId);
      SettleIsSettled(t, row, fee);
      SettleIsSettled(u, other, fee);
      OwnerSettles(t, u, row, other, fee, more, Settle(t, row, fee), Settle(u, other, fee));
    }
  }

  lemma OwnerSettles(t: Tables, u: Tables, row: Trade, other: Trade, fee: real, more: real, next: Tables, after: Tables)
    requires OwnerMoved(t, u, more) && row.accountId == OWNER_ID && Terms(other) == Terms(row)
    requires IsSettled(t, row, fee, next) && IsSettled(u, other, fee, after)
    ensures after.balances[OWNER_ID] == next.balances[OWNER_ID] + more && SameHoldings(next, after, OWNER_ID)
  {
  }

  lemma TermsStaySame(t: Tables, u: Tables, m: Market, id: nat)
    requires SameTerms(t, u) && Priced(t, m, id) && Priced(u, m, id)
    ensures SameTerms(ProcessTrade(t, m, id), ProcessTrade(u, m, id))
  {
    ProcessKeepsTerms(t, m, id);
    ProcessKeepsTerms(u, m, id);
  }

  lemma OthersDecideTheSame(t: Tables, u: Tables, m: Market, id: nat)
    requires SameOthers(t, u) && Priced(t, m, id) && t.trades[id].accountId != OWNER_ID
    ensures Priced(u, m, id) && Decide(u, m, id) == Decide(t, m, id) && FeeFrom(u, m, id) == FeeFrom(t, m, id)
  {
    TermsDecideMarket(t, u, m, id);
    assert Terms(u.trades[id]) == Terms(t.trades[id]);
    assert SameHoldings(t, u, t.trades[id].accountId);
  }

  lemma OthersMoveOn(t: Tables, u: Tables, m: Market, id: nat)
    requires SameOthers(t, u) && Priced(t, m, id)
    ensures Priced(u, m, id) && SameOthers(ProcessTrade(t, m, id), ProcessTrade(u, m, id))
    ensures FeeFrom(u, m, id) == FeeFrom(t, m, id)
  {
    TermsDecideMarket(t, u, m, id);
    TermsStaySame(t, u, m, id);
    if t.trades[id].accountId == OWNER_ID {
      ProcessMoves(t, m, id);
      ProcessMoves(u, m, id);
      OthersStaySame(t, u, ProcessTrade(t, m, id), ProcessTrade(u, m, id));
    } else {
      OthersDecideTheSame(t, u, m, id);
      OneOfOthersMoves(t, u, m, id);
    }
  }

  lemma OthersStaySame(t: Tables, u: Tables, next: Tables, other: Tables)
    requires SameOthers(t, u) && SameOthers(t, next) && SameOthers(u, other) && SameTerms(next, other)
    ensures SameOthers(next, other)
  {
    forall a | a != OWNER_ID ensures SameHoldings(next, other, a) {
      assert SameHoldings(t, u, a) && SameHoldings(t, next, a) && SameHoldings(u, other, a);
    }
  }

  lemma OneOfOthersMoves(t: Tables, u: Tables, m: Market, id: nat)
    requires SameOthers(t, u) && Priced(t, m, id) && Priced(u, m, id) && t.trades[id].accountId != OWNER_ID
    requires Decide(u, m, id) == Decide(t, m, id)
    ensures OthersKeep(ProcessTrade(t, m, id), ProcessTrade(u, m, id))
  {
    var row, other, outcome := t.trades[id], u.trades[id], Decide(t, m, id);
    assert Terms(other) == Terms(row);
    ProcessIsMoneyAndRow(t, m, id);
    ProcessIsMoneyAndRow(u, m, id);
    var fee := Fee(m, row.instrumentId);
    OthersMoneyMoves(t, u, row, other, fee, outcome);
    TradesApart(Money(t, row, fee, outcome), Money(u, other, fee, outcome),
                ProcessTrade(t, m, id).trades, ProcessTrade(u, m, id).trades);
  }

  lemma TradesApart(t: Tables, u: Tables, trades: seq<Trade>, others: seq<Trade>)
    requires OthersKeep(t, u)
    ensures OthersKeep(t.(trades := trades), u.(trades := others))
  {
    forall a | a != OWNER_ID ensures SameHoldings(t.(trades := trades), u.(trades := others), a) {
      assert SameHoldings(t, u, a);
    }
  }

  lemma OthersMoneyMoves(t: Tables, u: Tables, row: Trade, other: Trade, fee: real, outcome: Outcome)
    requires SameOthers(t, u) && row.accountId in t.balances && row.accountId != OWNER_ID && Terms(other) == Terms(row)
    ensures OthersKeep(Money(t, row, fee, outcome), Money(u, other, fee, outcome))
  {
    if outcome.Execute? {
      SettleIsSettled(t, row, fee);
      SettleIsSettled(u, other, fee);
      OthersSettle(t, u, row, other, fee, Settle(t, row, fee), Settle(u, other, fee));
    }
  }

  lemma OthersSettle(t: Tables, u: Tables, row: Trade, other: Trade, fee: real, next: Tables, after: Tables)
    requires SameOthers(t, u) && row.accountId in t.balances && row.accountId != OWNER_ID && Terms(other) == Terms(row)
    requires IsSettled(t, row, fee, next) && IsSettled(u, other, fee, after)
    ensures OthersKeep(next, after)
  {
    forall a | a != OWNER_ID ensures SameHoldings(next, after, a) {
      assert SameHoldings(t, u, a) && SameHoldings(t, u, row.accountId);
    }
  }

  /** What the other accounts' trades bring depends on their side alone. */
  lemma {:induction false} SpanSame(t: Tables, u: Tables, m: Market, ids: seq<nat>)
    requires SameOthers(t, u)
    ensures SpanOf(u, m, ids) == SpanOf(t, m, ids)
    decreases |ids|
  {
    if ids != [] {
      PricedTogether(t, u, m, ids[0]);
      if Priced(t, m, ids[0]) {
        OthersMoveOn(t, u, m, ids[0]);
        SpanSame(ProcessTrade(t, m, ids[0]), ProcessTrade(u, m, ids[0]), m, ids[1..]);
      }
    }
  }

  lemma PricedTogether(t: Tables, u: Tables, m: Market, id: nat)
    requires SameTerms(t, u)
    ensures Priced(u, m, id) <==> Priced(t, m, id)
  {
    assert id < |t.trades| ==> Terms(u.trades[id]) == Terms(t.trades[id]);
  }

  /** Firmness survives a move of the owner's balance within the span. */
  lemma {:induction false} SteadyMoved(t: Tables, u: Tables, m: Market, ids: seq<nat>, more: real, span: Span, rest: Span)
    requires OwnerMoved(t, u, more) && Steady(t, m, ids, span) && OwnersOnly(t, ids)
    requires span.lo <= 0.0 <= span.hi && rest.lo <= 0.0 <= rest.hi
    requires span.lo <= more + rest.lo && more + rest.hi <= span.hi
    ensures Steady(u, m, ids, rest)
    decreases |ids|
  {
    if ids != [] {
      var id := ids[0];
      TermsDecideMarket(t, u, m, id);
      OwnerDecidesTheSame(t, u, m, id, more);
      OwnerMovesOn(t, u, m, id, more);
      ProcessKeepsTerms(t, m, id);
      OwnersOnlySame(t, ProcessTrade(t, m, id), ids);
      SteadyMoved(ProcessTrade(t, m, id), ProcessTrade(u, m, id), m, ids[1..], more, span, rest);
    }
  }

  ghost predicate OwnersOnly(t: Tables, ids: seq<nat>) {
    forall k :: 0 <= k < |ids| ==> ids[k] < |t.trades| && t.trades[ids[k]].accountId == OWNER_ID
  }

  lemma OwnersOnlySame(t: Tables, u: Tables, ids: seq<nat>)
    requires SameTerms(t, u) && OwnersOnly(t, ids)
    ensures OwnersOnly(u, ids) && (ids != [] ==> OwnersOnly(u, ids[1..]))
  {
    forall k | 0 <= k < |ids| ensures u.trades[ids[k]].accountId == OWNER_ID {
      assert Terms(u.trades[ids[k]]) == Terms(t.trades[ids[k]]);
    }
  }

  // ----- The trades of one account in an order -----

  /** The trader of each trade; processing never changes it. */
  ghost predicate HasTraders(t: Tables, traders: seq<int>) {
    |traders| == |t.trades| && forall i :: 0 <= i < |traders| ==> t.trades[i].accountId == traders[i]
  }

  lemma TermsKeepTraders(t: Tables, u: Tables, traders: seq<int>)
    requires HasTraders(t, traders) && SameTerms(t, u)
    ensures HasTraders(u, traders)
  {
    forall i | 0 <= i < |traders| ensures u.trades[i].accountId == traders[i] {
      assert Terms(u.trades[i]) == Terms(t.trades[i]);
    }
  }

  ghost predicate AreIds(ids: seq<nat>, traders: seq<int>) {
    forall k :: 0 <= k < |ids| ==> ids[k] < |traders|
  }

  ghost function OfAccount(ids: seq<nat>, traders: seq<int>, a: int): seq<nat>
    requires AreIds(ids, traders)
  {
    if ids == [] then []
    else (if traders[ids[0]] == a then [ids[0]] else []) + OfAccount(ids[1..], traders, a)
  }

  lemma {:induction false} OfAccountConcat(p: seq<nat>, q: seq<nat>, traders: seq<int>, a: int)
    requires AreIds(p, traders) && AreIds(q, traders)
    ensures AreIds(p + q, traders)
    ensures OfAccount(p + q, traders, a) == OfAccount(p, traders, a) + OfAccount(q, traders, a)
  {
    if p == [] {
      assert p + q == q;
    } else {
      assert (p + q)[0] == p[0] && (p + q)[1..] == p[1..] + q;
      OfAccountConcat(p[1..], q, traders, a);
      var head := if traders[p[0]] == a then [p[0]] else [];
      var tail, rest := OfAccount(p[1..], traders, a), OfAccount(q, traders, a);
      assert OfAccount(p + q, traders, a) == head + (tail + rest);
      assert head + (tail + rest) == (head + tail) + rest;
    }
  }

  /** The first trade of an account in an order. */
  lemma {:induction false} FirstOfAccount(ids: seq<nat>, traders: seq<int>, a: int) returns (k: nat)
    requires AreIds(ids, traders) && OfAccount(ids, traders, a) != []
    ensures k < |ids| && ids[k] == OfAccount(ids, traders, a)[0]
    ensures traders[ids[k]] == a && forall j :: 0 <= j < k ==> traders[ids[j]] != a
  {
    if traders[ids[0]] == a {
      k := 0;
    } else {
      var rest := FirstOfAccount(ids[1..], traders, a);
      k := rest + 1;
    }
  }

  lemma {:induction false} AccountOnly(ids: seq<nat>, traders: seq<int>, a: int)
    requires AreIds(ids, traders)
    ensures forall k :: 0 <= k < |OfAccount(ids, traders, a)| ==>
              OfAccount(ids, traders, a)[k] in ids && traders[OfAccount(ids, traders, a)[k]] == a
  {
    if ids != [] {
      AccountOnly(ids[1..], traders, a);
    }
  }

  lemma ElementsPriced(t: Tables, m: Market, ids: seq<nat>, some: seq<nat>)
    requires AllPriced(t, m, ids) && forall k :: 0 <= k < |some| ==> some[k] in ids
    ensures AllPriced(t, m, some)
  {
  }

  // ----- Orders in which no fee matters to the owner -----

  /** Whatever fees this order brings the owner between its own trades, none of these is decided differently. */
  ghost predicate Safe(t: Tables, m: Market, traders: seq<int>, ids: seq<nat>) {
    && Consistent(t) && HasTraders(t, traders) && AreIds(ids, traders) && AllPriced(t, m, ids)
    && Steady(t, m, OfAccount(ids, traders, OWNER_ID), SpanOf(t, m, ids))
  }

  /** Two orders with the same outcome, the same trades of the owner's and the same fees from the others. */
  ghost predicate Alike(t: Tables, m: Market, traders: seq<int>, o: seq<nat>, r: seq<nat>) {
    && Consistent(t) && AreIds(o, traders) && AreIds(r, traders) && AllPriced(t, m, o) && AllPriced(t, m, r)
    && OfAccount(o, traders, OWNER_ID) == OfAccount(r, traders, OWNER_ID) && SpanOf(t, m, o) == SpanOf(t, m, r)
    && SameOutcome(ProcessAll(t, m, o), ProcessAll(t, m, r))
  }

  lemma SafeStep(t: Tables, m: Market, traders: seq<int>, x: nat, rest: seq<nat>)
    requires Safe(t, m, traders, [x] + rest)
    ensures Priced(t, m, x) && Safe(ProcessTrade(t, m, x), m, traders, rest)
  {
    assert ([x] + rest)[0] == x;
    ElementsPriced(t, m, [x] + rest, rest);
    ProcessTradeKeepsKeys(t, m, x, rest);
    ProcessKeepsTerms(t, m, x);
    TermsKeepTraders(t, ProcessTrade(t, m, x), traders);
    SteadyStep(t, m, traders, x, rest);
  }

  lemma SpanOfFirst(t: Tables, m: Market, x: nat, rest: seq<nat>)
    requires Priced(t, m, x)
    ensures SpanOf(t, m, [x] + rest) == Widened(SpanOf(ProcessTrade(t, m, x), m, rest), FeeFrom(t, m, x))
  {
    assert ([x] + rest)[1..] == rest;
  }

  lemma OfAccountFirst(x: nat, rest: seq<nat>, traders: seq<int>, a: int)
    requires AreIds([x] + rest, traders)
    ensures x < |traders| && AreIds(rest, traders)
    ensures OfAccount([x] + rest, traders, a)
         == if traders[x] == a then [x] + OfAccount(rest, traders, a) else OfAccount(rest, traders, a)
  {
    assert ([x] + rest)[0] == x && ([x] + rest)[1..] == rest;
    assert [] + OfAccount(rest, traders, a) == OfAccount(rest, traders, a);
  }

  lemma SteadyStep(t: Tables, m: Market, traders: seq<int>, x: nat, rest: seq<nat>)
    requires HasTraders(t, traders) && AreIds([x] + rest, traders) && Priced(t, m, x)
    requires Steady(t, m, OfAccount([x] + rest, traders, OWNER_ID), SpanOf(t, m, [x] + rest))
    ensures AreIds(rest, traders)
    ensures var u := ProcessTrade(t, m, x); Steady(u, m, OfAccount(rest, traders, OWNER_ID), SpanOf(u, m, rest))
  {
    OfAccountFirst(x, rest, traders, OWNER_ID);
    SpanOfFirst(t, m, x, rest);
    var own, span := OfAccount(rest, traders, OWNER_ID), SpanOf(ProcessTrade(t, m, x), m, rest);
    if traders[x] == OWNER_ID {
      assert Widened(span, FeeFrom(t, m, x)) == span;
      SteadyAfterOwn(t, m, x, own, span);
    } else {
      AccountOnly(rest, traders, OWNER_ID);
      SteadyAfterOther(t, m, x, own, span);
    }
  }

  lemma SteadyAfterOwn(t: Tables, m: Market, x: nat, own: seq<nat>, span: Span)
    requires Steady(t, m, [x] + own, span)
    ensures Priced(t, m, x) && Steady(ProcessTrade(t, m, x), m, own, span)
  {
    assert ([x] + own)[1..] == own;
  }

  lemma SteadyAfterOther(t: Tables, m: Market, x: nat, own: seq<nat>, rest: Span)
    requires Priced(t, m, x) && t.trades[x].accountId != OWNER_ID && OwnersOnly(t, own) && rest.lo <= 0.0 <= rest.hi
    requires Steady(t, m, own, Widened(rest, FeeFrom(t, m, x)))
    ensures Steady(ProcessTrade(t, m, x), m, own, rest)
  {
    ProcessMoves(t, m, x);
    SteadyMoved(t, ProcessTrade(t, m, x), m, own, FeeFrom(t, m, x), Widened(rest, FeeFrom(t, m, x)), rest);
  }

  /** Both fees of the first two trades are within the span. */
  lemma SpanOfTwo(t: Tables, m: Market, x: nat, y: nat, rest: seq<nat>)
    requires DifferentAccounts(t, m, x, y) && AllPriced(t, m, rest)
    ensures AllPriced(t, m, [x, y] + rest)
    ensures Priced(ProcessTrade(t, m, x), m, y)
    ensures FeeFrom(ProcessTrade(t, m, x), m, y) == FeeFrom(t, m, y)
    ensures SpanOf(t, m, [x, y] + rest)
         == Widened(Widened(SpanOf(ProcessTrade(ProcessTrade(t, m, x), m, y), m, rest), FeeFrom(t, m, y)), FeeFrom(t, m, x))
  {
    var u := ProcessTrade(t, m, x);
    OneThenOther(t, m, y, x);
    if t.trades[y].accountId != OWNER_ID {
      DecidedTheSameIff(t, m, y, x);
    }
    assert ([x, y] + rest)[1..] == [y] + rest && ([y] + rest)[1..] == rest;
    assert SpanOf(u, m, [y] + rest) == Widened(SpanOf(ProcessTrade(u, m, y), m, rest), FeeFrom(u, m, y));
  }

  lemma FirmIsNotTipped(t: Tables, m: Market, x: nat, y: nat, span: Span)
    requires DifferentAccounts(t, m, x, y) && Firm(t, m, x, span)
    requires span.lo <= 0.0 <= span.hi && span.lo <= FeeFrom(t, m, y) <= span.hi
    ensures !Tips(t, m, x, y)
  {
  }

  lemma SafeHasNoTips(t: Tables, m: Market, traders: seq<int>, x: nat, y: nat, rest: seq<nat>)
    requires DifferentAccounts(t, m, x, y) && Safe(t, m, traders, [x, y] + rest)
    ensures !Tips(t, m, x, y) && !Tips(t, m, y, x)
  {
    var all := [x, y] + rest;
    var span, own := SpanOf(t, m, all), OfAccount(all, traders, OWNER_ID);
    assert all[0] == x && all[1..] == [y] + rest && all[1] == y && ([y] + rest)[1..] == rest;
    ElementsPriced(t, m, all, rest);
    SpanOfTwo(t, m, x, y, rest);
    assert OfAccount(all[1..], traders, OWNER_ID)
        == (if traders[y] == OWNER_ID then [y] else []) + OfAccount(rest, traders, OWNER_ID);
    if traders[x] == OWNER_ID {
      assert own[0] == x;
      FirmIsNotTipped(t, m, x, y, span);
    } else if traders[y] == OWNER_ID {
      assert own[0] == y;
      FirmIsNotTipped(t, m, y, x, span);
    }
  }

  lemma ProcessAllTwo(t: Tables, m: Market, x: nat, y: nat, rest: seq<nat>)
    requires DifferentAccounts(t, m, x, y) && AllPriced(t, m, rest)
    ensures AllPriced(t, m, [x, y] + rest)
    ensures Priced(ProcessTrade(t, m, x), m, y)
    ensures Consistent(ProcessTrade(ProcessTrade(t, m, x), m, y))
    ensures AllPriced(ProcessTrade(ProcessTrade(t, m, x), m, y), m, rest)
    ensures ProcessAll(t, m, [x, y] + rest) == ProcessAll(ProcessTrade(ProcessTrade(t, m, x), m, y), m, rest)
  {
    var u := ProcessTrade(t, m, x);
    ProcessTradeKeepsKeys(t, m, x, [y] + rest);
    assert ([y] + rest)[0] == y;
    ElementsPriced(u, m, [y] + rest, rest);
    ProcessTradeKeepsKeys(u, m, y, rest);
    assert ([x, y] + rest)[1..] == [y] + rest && ([y] + rest)[1..] == rest;
  }

  /** The same outcome means the same side of the others. */
  lemma OutcomeHasOthers(u: Tables, v: Tables)
    requires SameOutcome(u, v) && Consistent(u) && Consistent(v)
    ensures SameOthers(u, v)
  {
  }

  lemma OwnOfTwo(x: nat, y: nat, rest: seq<nat>, traders: seq<int>)
    requires x < |traders| && y < |traders| && AreIds(rest, traders) && traders[x] != traders[y]
    ensures AreIds([x, y] + rest, traders) && AreIds([y, x] + rest, traders)
    ensures OfAccount([x, y] + rest, traders, OWNER_ID) == OfAccount([y, x] + rest, traders, OWNER_ID)
  {
    OwnOfPair(x, y, traders);
    OwnOfPair(y, x, traders);
    OfAccountConcat([x, y], rest, traders, OWNER_ID);
    OfAccountConcat([y, x], rest, traders, OWNER_ID);
  }

  lemma OwnOfPair(x: nat, y: nat, traders: seq<int>)
    requires x < |traders| && y < |traders| && traders[x] != traders[y]
    ensures AreIds([x, y], traders)
    ensures OfAccount([x, y], traders, OWNER_ID)
         == if traders[x] == OWNER_ID then [x] else if traders[y] == OWNER_ID then [y] else []
  {
    assert [x, y][1..] == [y] && [y][1..] == [];
    assert OfAccount([], traders, OWNER_ID) == [];
    assert OfAccount([y], traders, OWNER_ID) == if traders[y] == OWNER_ID then [y] else [];
  }

  /** Swapping the first two trades of an order. */
  lemma SwapFirstTwo(t: Tables, m: Market, traders: seq<int>, x: nat, y: nat, rest: seq<nat>)
    requires DifferentAccounts(t, m, x, y) && Safe(t, m, traders, [x, y] + rest)
    ensures Alike(t, m, traders, [x, y] + rest, [y, x] + rest)
  {
    ElementsPriced(t, m, [x, y] + rest, rest);
    SafeHasNoTips(t, m, traders, x, y, rest);
    ProcessAllTwo(t, m, x, y, rest);
    ProcessAllTwo(t, m, y, x, rest);
    ProcessesCommute(t, m, x, y);
    var xy, yx := ProcessTrade(ProcessTrade(t, m, x), m, y), ProcessTrade(ProcessTrade(t, m, y), m, x);
    ProcessAllCongruent(xy, yx, m, rest);
    SpanOfTwo(t, m, x, y, rest);
    SpanOfTwo(t, m, y, x, rest);
    OutcomeHasOthers(xy, yx);
    SpanSame(xy, yx, m, rest);
    forall k | 0 <= k < |rest| ensures rest[k] < |traders| {
      assert ([x, y] + rest)[k + 2] == rest[k];
    }
    OwnOfTwo(x, y, rest, traders);
  }

  lemma AlikeIsSafe(t: Tables, m: Market, traders: seq<int>, o: seq<nat>, r: seq<nat>)
    requires Safe(t, m, traders, o) && Alike(t, m, traders, o, r)
    ensures Safe(t, m, traders, r)
  {
  }

  /** Orders that have the same outcome from the next state have it with the same first trade in front. */
  lemma ProcessAllAfter(t: Tables, m: Market, y: nat, p: seq<nat>, q: seq<nat>)
    requires Priced(t, m, y) && AllPriced(t, m, p) && AllPriced(t, m, q)
    ensures var u := ProcessTrade(t, m, y);
      && Consistent(u) && AllPriced(u, m, p) && AllPriced(u, m, q)
      && AllPriced(t, m, [y] + p) && AllPriced(t, m, [y] + q)
      && ProcessAll(t, m, [y] + p) == ProcessAll(u, m, p)
      && ProcessAll(t, m, [y] + q) == ProcessAll(u, m, q)
  {
    ProcessTradeKeepsKeys(t, m, y, p);
    ProcessTradeKeepsKeys(t, m, y, q);
    assert ([y] + p)[1..] == p && ([y] + q)[1..] == q;
  }

  lemma AlikeAfter(t: Tables, m: Market, traders: seq<int>, y: nat, p: seq<nat>, q: seq<nat>)
    requires Priced(t, m, y) && y < |traders| && AllPriced(t, m, p) && AllPriced(t, m, q)
    requires Alike(ProcessTrade(t, m, y), m, traders, p, q)
    ensures Alike(t, m, traders, [y] + p, [y] + q)
  {
    ProcessAllAfter(t, m, y, p, q);
    assert ([y] + p)[1..] == p && ([y] + q)[1..] == q;
  }

  /** A trade moves ahead of trades of other accounts by adjacent swaps. */
  lemma {:induction false} MoveToFront(t: Tables, m: Market, traders: seq<int>, p: seq<nat>, x: nat, q: seq<nat>)
    requires Safe(t, m, traders, p + [x] + q) && x < |traders|
    requires forall j :: 0 <= j < |p| ==> p[j] < |traders| && traders[p[j]] != traders[x]
    ensures Alike(t, m, traders, p + [x] + q, [x] + (p + q))
    decreases |p|, 1
  {
    if p == [] {
      assert p + [x] + q == [x] + (p + q);
    } else {
      HeadApart(p, x, q);
      assert forall j :: 0 <= j < |p[1..]| ==> p[1..][j] == p[j + 1];
      MoveBehind(t, m, traders, p[0], p[1..], x, q);
    }
  }

  lemma HeadApart(p: seq<nat>, x: nat, q: seq<nat>)
    requires p != []
    ensures p + [x] + q == [p[0]] + (p[1..] + [x] + q)
    ensures [x] + (p + q) == [x, p[0]] + (p[1..] + q)
  {
  }

  /** The same with one more trade y in front. */
  lemma {:induction false} MoveBehind(t: Tables, m: Market, traders: seq<int>, y: nat, tail: seq<nat>, x: nat, q: seq<nat>)
    requires Safe(t, m, traders, [y] + (tail + [x] + q)) && x < |traders|
    requires y < |traders| && traders[y] != traders[x]
    requires forall j :: 0 <= j < |tail| ==> tail[j] < |traders| && traders[tail[j]] != traders[x]
    ensures Alike(t, m, traders, [y] + (tail + [x] + q), [x, y] + (tail + q))
    decreases |tail| + 1, 0
  {
    var all, rest := [y] + (tail + [x] + q), tail + q;
    assert all[0] == y && all[|tail| + 1] == x;
    ElementsPriced(t, m, all, tail + [x] + q);
    ElementsPriced(t, m, all, [x] + rest);
    SafeStep(t, m, traders, y, tail + [x] + q);
    MoveToFront(ProcessTrade(t, m, y), m, traders, tail, x, q);
    AlikeAfter(t, m, traders, y, tail + [x] + q, [x] + rest);
    assert [y] + ([x] + rest) == [y, x] + rest;
    AlikeIsSafe(t, m, traders, all, [y, x] + rest);
    SwapFirstTwo(t, m, traders, y, x, rest);
  }

  ghost predicate SameProjections(o: seq<nat>, r: seq<nat>, traders: seq<int>)
    requires AreIds(o, traders) && AreIds(r, traders)
  {
    forall a :: OfAccount(o, traders, a) == OfAccount(r, traders, a)
  }

  lemma ProjectionsAfterFirst(o: seq<nat>, p: seq<nat>, x: nat, q: seq<nat>, traders: seq<int>)
    requires o != [] && o[0] == x && AreIds(o, traders) && AreIds(p + [x] + q, traders)
    requires AreIds(p + q, traders)
    requires SameProjections(o, p + [x] + q, traders)
    requires forall j :: 0 <= j < |p| ==> p[j] < |traders| && traders[p[j]] != traders[x]
    ensures SameProjections(o[1..], p + q, traders)
  {
    forall k | 0 <= k < |q| ensures q[k] < |traders| {
      assert (p + [x] + q)[|p| + 1 + k] == q[k];
    }
    forall b ensures OfAccount(o[1..], traders, b) == OfAccount(p + q, traders, b) {
      OrdersAgreeAfterFirst(o, p, x, q, traders, b);
    }
  }

  /** The other order, cut around the first trade of this one. */
  lemma CutAtFirst(o: seq<nat>, r: seq<nat>, traders: seq<int>) returns (p: seq<nat>, q: seq<nat>)
    requires o != [] && AreIds(o, traders) && AreIds(r, traders) && SameProjections(o, r, traders)
    ensures r == p + [o[0]] + q
    ensures AreIds(p + q, traders) && AreIds(o[1..], traders)
    ensures forall j :: 0 <= j < |p| ==> p[j] < |traders| && traders[p[j]] != traders[o[0]]
    ensures SameProjections(o[1..], p + q, traders)
  {
    var x := o[0];
    assert OfAccount(o, traders, traders[x])[0] == x;
    var k := FirstOfAccount(r, traders, traders[x]);
    p, q := r[..k], r[k + 1..];
    assert r == p + [x] + q;
    forall j | 0 <= j < |p + q| ensures (p + q)[j] in r {
    }
    ProjectionsAfterFirst(o, p, x, q, traders);
  }

  /** Any order that keeps each account's own trades in the relative order of a safe one has its outcome. */
  lemma {:induction false} OrdersAgree(t: Tables, m: Market, traders: seq<int>, o: seq<nat>, r: seq<nat>)
    requires Safe(t, m, traders, r) && AreIds(o, traders) && AllPriced(t, m, o) && SameProjections(o, r, traders)
    ensures SameOutcome(ProcessAll(t, m, o), ProcessAll(t, m, r))
    decreases |o|
  {
    if o == [] {
      NoProjectionsNoTrades(r, traders);
    } else {
      var x, rest := o[0], o[1..];
      var p, q := CutAtFirst(o, r, traders);
      MoveToFront(t, m, traders, p, x, q);
      AlikeIsSafe(t, m, traders, r, [x] + (p + q));
      assert o == [x] + rest;
      ElementsPriced(t, m, o, rest);
      ElementsPriced(t, m, r, p + q);
      SafeStep(t, m, traders, x, p + q);
      ProcessAllAfter(t, m, x, rest, p + q);
      OrdersAgree(ProcessTrade(t, m, x), m, traders, rest, p + q);
    }
  }

  lemma NoProjectionsNoTrades(r: seq<nat>, traders: seq<int>)
    requires AreIds(r, traders) && SameProjections([], r, traders)
    ensures r == []
  {
    assert r != [] ==> OfAccount(r, traders, traders[r[0]]) == OfAccount([], traders, traders[r[0]]);
  }

  lemma OfAccountAround(p: seq<nat>, x: nat, q: seq<nat>, traders: seq<int>, b: int)
    requires AreIds(p, traders) && AreIds(q, traders) && x < |traders|
    requires forall j :: 0 <= j < |p| ==> traders[p[j]] != traders[x]
    ensures AreIds(p + [x] + q, traders) && AreIds(p + q, traders)
    ensures OfAccount(p + [x] + q, traders, b)
         == (if b == traders[x] then [x] else []) + OfAccount(p + q, traders, b)
  {
    OfAccountConcat(p, [x] + q, traders, b);
    OfAccountConcat(p, q, traders, b);
    assert p + [x] + q == p + ([x] + q);
    assert ([x] + q)[1..] == q;
    if b == traders[x] {
      NoneOfAccount(p, traders, b);
    }
  }

  lemma OrdersAgreeAfterFirst(o: seq<nat>, p: seq<nat>, x: nat, q: seq<nat>, traders: seq<int>, b: int)
    requires o != [] && o[0] == x && AreIds(o, traders) && AreIds(p + [x] + q, traders)
    requires AreIds(p, traders) && AreIds(q, traders) && AreIds(p + q, traders)
    requires OfAccount(o, traders, b) == OfAccount(p + [x] + q, traders, b)
    requires forall j :: 0 <= j < |p| ==> traders[p[j]] != traders[x]
    ensures OfAccount(o[1..], traders, b) == OfAccount(p + q, traders, b)
  {
    OfAccountAround(p, x, q, traders, b);
    var head := if b == traders[x] then [x] else [];
    var tail, left := OfAccount(o[1..], traders, b), OfAccount(p + q, traders, b);
    assert head + tail == head + left;
    assert tail == (head + tail)[|head|..];
    assert left == (head + left)[|head|..];
  }

  lemma {:induction false} NoneOfAccount(p: seq<nat>, traders: seq<int>, b: int)
    requires AreIds(p, traders) && forall j :: 0 <= j < |p| ==> traders[p[j]] != b
    ensures OfAccount(p, traders, b) == []
  {
    if p != [] {
      NoneOfAccount(p[1..], traders, b);
    }
  }

  // ----- The two extreme orders -----

  /** The trades of all accounts but one. */
  ghost function NotOfAccount(ids: seq<nat>, traders: seq<int>, a: int): seq<nat>
    requires AreIds(ids, traders)
  {
    if ids == [] then []
    else (if traders[ids[0]] == a then [] else [ids[0]]) + NotOfAccount(ids[1..], traders, a)
  }

  ghost predicate NoneOwner(t: Tables, ids: seq<nat>) {
    forall k :: 0 <= k < |ids| ==> ids[k] < |t.trades| && t.trades[ids[k]].accountId != OWNER_ID
  }

  lemma NoneOwnerSame(t: Tables, u: Tables, ids: seq<nat>)
    requires SameTerms(t, u) && NoneOwner(t, ids)
    ensures NoneOwner(u, ids) && (ids != [] ==> NoneOwner(u, ids[1..]))
  {
    forall k | 0 <= k < |ids| ensures u.trades[ids[k]].accountId != OWNER_ID {
      assert Terms(u.trades[ids[k]]) == Terms(t.trades[ids[k]]);
    }
  }

  lemma BothPriced(t: Tables, m: Market, p: seq<nat>, q: seq<nat>)
    requires AllPriced(t, m, p) && AllPriced(t, m, q)
    ensures AllPriced(t, m, p + q)
  {
  }

  lemma {:induction false} ProcessAllConcat(t: Tables, m: Market, p: seq<nat>, q: seq<nat>)
    requires Consistent(t) && AllPriced(t, m, p) && AllPriced(t, m, q)
    ensures AllPriced(t, m, p + q)
    ensures var u := ProcessAll(t, m, p);
      Consistent(u) && AllPriced(u, m, q) && ProcessAll(t, m, p + q) == ProcessAll(u, m, q)
    decreases |p|
  {
    if p == [] {
      assert p + q == q;
    } else {
      var x, rest := p[0], p[1..];
      assert p == [x] + rest && p + q == [x] + (rest + q);
      ElementsPriced(t, m, p, rest);
      BothPriced(t, m, rest, q);
      ProcessAllAfter(t, m, x, rest, rest + q);
      ProcessTradeKeepsKeys(t, m, x, q);
      ProcessAllConcat(ProcessTrade(t, m, x), m, rest, q);
    }
  }

  /** Rows that are not processed stay as they are. */
  lemma {:induction false} UntouchedRow(t: Tables, m: Market, ids: seq<nat>, id: nat)
    requires Consistent(t) && AllPriced(t, m, ids) && id < |t.trades| && id !in ids
    ensures var u := ProcessAll(t, m, ids); |u.trades| == |t.trades| && u.trades[id] == t.trades[id]
    decreases |ids|
  {
    if ids != [] {
      ProcessTradeKeepsKeys(t, m, ids[0], ids[1..]);
      ProcessIsMoneyAndRow(t, m, ids[0]);
      UntouchedRow(ProcessTrade(t, m, ids[0]), m, ids[1..], id);
    }
  }

  /** Together the other accounts' trades move the owner's balance by their fees. */
  lemma {:induction false} OthersMoveOwner(t: Tables, m: Market, ids: seq<nat>)
    requires Consistent(t) && AllPriced(t, m, ids) && NoneOwner(t, ids) && NonNegativeMarket(m)
    ensures SpanOf(t, m, ids).lo == 0.0 && OwnerMoved(t, ProcessAll(t, m, ids), SpanOf(t, m, ids).hi)
    decreases |ids|
  {
    if ids != [] {
      var u := ProcessTrade(t, m, ids[0]);
      ProcessTradeKeepsKeys(t, m, ids[0], ids[1..]);
      FeeNonNegative(m, t.trades[ids[0]].instrumentId);
      ProcessMoves(t, m, ids[0]);
      NoneOwnerSame(t, u, ids);
      OthersMoveOwner(u, m, ids[1..]);
      OwnerMovedTwice(t, u, ProcessAll(t, m, ids), FeeFrom(t, m, ids[0]), SpanOf(u, m, ids[1..]).hi);
    }
  }

  lemma OwnerMovedTwice(t: Tables, u: Tables, v: Tables, p: real, q: real)
    requires OwnerMoved(t, u, p) && OwnerMoved(u, v, q)
    ensures OwnerMoved(t, v, p + q)
  {
  }

  /** The owner's own trades bring no fees and change nothing for the others. */
  lemma {:induction false} SpanSkipsOwner(t: Tables, m: Market, own: seq<nat>, others: seq<nat>)
    requires Consistent(t) && AllPriced(t, m, own) && OwnersOnly(t, own)
    ensures SpanOf(t, m, own + others) == SpanOf(t, m, others)
    decreases |own|
  {
    if own == [] {
      assert own + others == others;
    } else {
      var u := ProcessTrade(t, m, own[0]);
      assert (own + others)[0] == own[0] && (own + others)[1..] == own[1..] + others;
      ProcessTradeKeepsKeys(t, m, own[0], own[1..]);
      ProcessKeepsTerms(t, m, own[0]);
      OwnersOnlySame(t, u, own);
      SpanSkipsOwner(u, m, own[1..], others);
      ProcessMoves(t, m, own[0]);
      SpanSame(t, u, m, others);
    }
  }

  /** The row tells how its trade was decided. */
  lemma RowTellsDecision(t: Tables, m: Market, ids: seq<nat>)
    requires Consistent(t) && AllPriced(t, m, ids) && ids != [] && Distinct(ids)
    ensures var id := ids[0]; var u := ProcessAll(t, m, ids);
      id < |u.trades| && u.trades[id] == RowAfter(t.trades[id], Decide(t, m, id))
  {
    ProcessTradeKeepsKeys(t, m, ids[0], ids[1..]);
    ProcessIsMoneyAndRow(t, m, ids[0]);
    UntouchedRow(ProcessTrade(t, m, ids[0]), m, ids[1..], ids[0]);
  }

  ghost predicate SameRows(u: Tables, v: Tables, ids: seq<nat>) {
    forall k :: 0 <= k < |ids| ==> ids[k] < |u.trades| && ids[k] < |v.trades| && u.trades[ids[k]] == v.trades[ids[k]]
  }

  /** When the owner's trades end in the same rows with and without more money, each of them was firm. */
  lemma {:induction false} SameRowsSteady(t: Tables, u: Tables, m: Market, ids: seq<nat>, more: real)
    requires OwnerMoved(t, u, more) && 0.0 <= more && OwnersOnly(t, ids) && Distinct(ids) && SameRows(t, u, ids)
    requires AllPriced(t, m, ids) && AllPriced(u, m, ids)
    requires SameRows(ProcessAll(t, m, ids), ProcessAll(u, m, ids), ids)
    ensures Steady(t, m, ids, Span(0.0, more))
    decreases |ids|
  {
    if ids != [] {
      var id, rest := ids[0], ids[1..];
      RowTellsDecision(t, m, ids);
      RowTellsDecision(u, m, ids);
      SameDecision(t, u, m, id, more);
      OwnerMovesOn(t, u, m, id, more);
      ProcessTradeKeepsKeys(t, m, id, rest);
      ProcessTradeKeepsKeys(u, m, id, rest);
      ProcessKeepsTerms(t, m, id);
      OwnersOnlySame(t, ProcessTrade(t, m, id), ids);
      SameRowsAfter(t, u, m, ids);
      SameRowsSteady(ProcessTrade(t, m, id), ProcessTrade(u, m, id), m, rest, more);
    }
  }

  lemma SameDecision(t: Tables, u: Tables, m: Market, id: nat, more: real)
    requires OwnerMoved(t, u, more) && 0.0 <= more && Priced(t, m, id) && Priced(u, m, id)
    requires t.trades[id].accountId == OWNER_ID && u.trades[id] == t.trades[id]
    requires RowAfter(t.trades[id], Decide(t, m, id)) == RowAfter(u.trades[id], Decide(u, m, id))
    ensures Decide(u, m, id) == Decide(t, m, id) && Firm(t, m, id, Span(0.0, more))
  {
    if !LooksAtOwner(t.trades[id], m) {
      OwnerDecidesTheSame(t, u, m, id, more);
    }
  }

  lemma SameRowsAfter(t: Tables, u: Tables, m: Market, ids: seq<nat>)
    requires ids != [] && Distinct(ids) && Priced(t, m, ids[0]) && Priced(u, m, ids[0]) && SameRows(t, u, ids)
    ensures SameRows(ProcessTrade(t, m, ids[0]), ProcessTrade(u, m, ids[0]), ids[1..])
  {
    ProcessIsMoneyAndRow(t, m, ids[0]);
    ProcessIsMoneyAndRow(u, m, ids[0]);
  }

  /** The owner's trades first and the others' after them: when the reverse has the same outcome, no fee matters. */
  lemma ExtremesAreSteady(t: Tables, m: Market, own: seq<nat>, others: seq<nat>)
    requires Consistent(t) && NonNegativeMarket(m) && AllPriced(t, m, own) && AllPriced(t, m, others)
    requires OwnersOnly(t, own) && NoneOwner(t, others) && Distinct(own)
    requires AllPriced(t, m, own + others) && AllPriced(t, m, others + own)
    requires SameOutcome(ProcessAll(t, m, own + others), ProcessAll(t, m, others + own))
    ensures Steady(t, m, own, SpanOf(t, m, others))
  {
    var u := ProcessAll(t, m, others);
    ProcessAllConcat(t, m, others, own);
    OthersMoveOwner(t, m, others);
    ExtremesHaveRows(t, m, own, others);
    SameRowsSteady(t, u, m, own, SpanOf(t, m, others).hi);
    assert SpanOf(t, m, others) == Span(0.0, SpanOf(t, m, others).hi);
  }

  lemma ExtremesHaveRows(t: Tables, m: Market, own: seq<nat>, others: seq<nat>)
    requires Consistent(t) && AllPriced(t, m, own) && AllPriced(t, m, others)
    requires OwnersOnly(t, own) && NoneOwner(t, others)
    requires AllPriced(t, m, own + others) && AllPriced(t, m, others + own)
    requires ProcessAll(t, m, own + others).trades == ProcessAll(t, m, others + own).trades
    ensures var u := ProcessAll(t, m, others);
      && Consistent(u) && AllPriced(u, m, own)
      && SameRows(t, u, own) && SameRows(ProcessAll(t, m, own), ProcessAll(u, m, own), own)
  {
    ProcessAllConcat(t, m, own, others);
    ProcessAllConcat(t, m, others, own);
    forall k | 0 <= k < |own|
      ensures var u, v := ProcessAll(t, m, others), ProcessAll(t, m, own);
        && own[k] < |u.trades| && u.trades[own[k]] == t.trades[own[k]]
        && own[k] < |v.trades| && own[k] < |ProcessAll(v, m, others).trades|
        && ProcessAll(v, m, others).trades[own[k]] == v.trades[own[k]]
    {
      OwnRowUntouched(t, m, own, others, k);
    }
  }

  /** The owner's trades first and the others' after them. */
  lemma SteadyIsSafe(t: Tables, m: Market, traders: seq<int>, own: seq<nat>, others: seq<nat>)
    requires Consistent(t) && HasTraders(t, traders) && AllPriced(t, m, own) && AllPriced(t, m, own + others)
    requires OwnersOnly(t, own) && NoneOwner(t, others) && Steady(t, m, own, SpanOf(t, m, others))
    ensures Safe(t, m, traders, own + others)
  {
    SpanSkipsOwner(t, m, own, others);
    assert AreIds(own, traders) && AreIds(others, traders);
    OfAccountConcat(own, others, traders, OWNER_ID);
    AllOfAccount(own, traders, OWNER_ID);
    NoneOfAccount(others, traders, OWNER_ID);
    assert own + [] == own;
  }

  lemma OwnRowUntouched(t: Tables, m: Market, own: seq<nat>, others: seq<nat>, k: nat)
    requires Consistent(t) && AllPriced(t, m, own) && AllPriced(t, m, others) && k < |own|
    requires OwnersOnly(t, own) && NoneOwner(t, others)
    ensures own[k] !in others
    ensures var u := ProcessAll(t, m, others); own[k] < |u.trades| && u.trades[own[k]] == t.trades[own[k]]
    ensures var v := ProcessAll(t, m, own);
      && Consistent(v) && AllPriced(v, m, others) && own[k] < |v.trades|
      && own[k] < |ProcessAll(v, m, others).trades| && ProcessAll(v, m, others).trades[own[k]] == v.trades[own[k]]
  {
    ProcessAllConcat(t, m, own, others);
    ProcessAllLength(t, m, own);
    UntouchedRow(t, m, others, own[k]);
    UntouchedRow(ProcessAll(t, m, own), m, others, own[k]);
  }

  lemma {:induction false} AllOfAccount(p: seq<nat>, traders: seq<int>, b: int)
    requires AreIds(p, traders) && forall j :: 0 <= j < |p| ==> traders[p[j]] == b
    ensures OfAccount(p, traders, b) == p
  {
    if p != [] {
      AllOfAccount(p[1..], traders, b);
    }
  }

  // ----- Order independence: the batch -----

  ghost function TradersOf(trades: seq<Trade>): (r: seq<int>)
    ensures |r| == |trades| && forall i :: 0 <= i < |r| ==> r[i] == trades[i].accountId
  {
    seq(|trades|, i requires 0 <= i < |trades| => trades[i].accountId)
  }

  /** The open trades after the sweep, in the order the database returns them. */
  ghost function OpenAfterSweep(t: Tables, now: int, scan: seq<nat>): (r: seq<nat>)
    requires IsScan(scan, |t.trades|)
    ensures AreIds(r, TradersOf(t.trades))
  {
    var r := OpenTrades(CloseOverdueTrades(t.trades, now), scan);
    OpenTradesMembers(CloseOverdueTrades(t.trades, now), scan);
    assert forall k :: 0 <= k < |r| ==> r[k] in r;
    r
  }

  lemma OpenAfterSweepIs(t: Tables, now: int, scan: seq<nat>, id: nat)
    requires IsScan(scan, |t.trades|)
    ensures id in OpenAfterSweep(t, now, scan)
       <==> id < |t.trades| && !t.trades[id].tradeClosed && !IsOverdue(t.trades[id], now)
  {
    OpenTradesMembers(CloseOverdueTrades(t.trades, now), scan);
    assert id < |t.trades| ==> id in scan;
  }

  /** Another order of the rows that keeps the relative order of each account's open trades. */
  ghost predicate Rearranges(t: Tables, now: int, scan: seq<nat>, other: seq<nat>) {
    && IsScan(scan, |t.trades|) && IsScan(other, |t.trades|)
    && SameProjections(OpenAfterSweep(t, now, scan), OpenAfterSweep(t, now, other), TradersOf(t.trades))
  }

  /** The batch fails in both orders, or has the same outcome. */
  ghost predicate SameResult(t: Tables, m: Market, now: int, scan: seq<nat>, other: seq<nat>)
    requires Consistent(t) && IsScan(scan, |t.trades|) && IsScan(other, |t.trades|)
  {
    var u := ProcessLongRunningTransactions(t, m, now, scan);
    var v := ProcessLongRunningTransactions(t, m, now, other);
    if u.Success? then v.Success? && SameOutcome(u.value, v.value) else v == u
  }

  function Swept(t: Tables, now: int): Tables {
    t.(trades := CloseOverdueTrades(t.trades, now))
  }

  lemma SweptHasTraders(t: Tables, now: int)
    requires Consistent(t)
    ensures Consistent(Swept(t, now)) && HasTraders(Swept(t, now), TradersOf(t.trades))
  {
  }

  /** All open trades are priced, whatever their order, or none of the orders succeeds. */
  lemma PricedInAnyOrder(t: Tables, m: Market, now: int, scan: seq<nat>, other: seq<nat>)
    requires IsScan(scan, |t.trades|) && IsScan(other, |t.trades|)
    requires AllPriced(Swept(t, now), m, OpenAfterSweep(t, now, scan))
    ensures AllPriced(Swept(t, now), m, OpenAfterSweep(t, now, other))
  {
    var o, r := OpenAfterSweep(t, now, scan), OpenAfterSweep(t, now, other);
    forall k | 0 <= k < |r| ensures r[k] in o {
      assert r[k] in r;
      OpenAfterSweepIs(t, now, scan, r[k]);
      OpenAfterSweepIs(t, now, other, r[k]);
    }
    ElementsPriced(Swept(t, now), m, o, r);
  }

  /** A safe order has the result of every other one. */
  lemma SafeOrderDecides(t: Tables, m: Market, now: int, scan: seq<nat>, other: seq<nat>)
    requires Consistent(t) && Rearranges(t, now, other, scan)
    requires Safe(Swept(t, now), m, TradersOf(t.trades), OpenAfterSweep(t, now, scan))
    ensures SameResult(t, m, now, other, scan)
  {
    PricedInAnyOrder(t, m, now, scan, other);
    OrdersAgree(Swept(t, now), m, TradersOf(t.trades), OpenAfterSweep(t, now, other), OpenAfterSweep(t, now, scan));
  }

  lemma {:induction false} FreeIsSteady(t: Tables, m: Market, ids: seq<nat>, span: Span)
    requires Consistent(t) && AllPriced(t, m, ids)
    requires forall k :: 0 <= k < |ids| ==> !LooksAtOwner(t.trades[ids[k]], m)
    ensures Steady(t, m, ids, span)
    decreases |ids|
  {
    if ids != [] {
      var u := ProcessTrade(t, m, ids[0]);
      ProcessTradeKeepsKeys(t, m, ids[0], ids[1..]);
      ProcessKeepsTerms(t, m, ids[0]);
      forall k | 0 <= k < |ids[1..]| ensures !LooksAtOwner(u.trades[ids[1..][k]], m) {
        assert ids[1..][k] == ids[k + 1];
        assert Terms(u.trades[ids[k + 1]]) == Terms(t.trades[ids[k + 1]]);
      }
      FreeIsSteady(u, m, ids[1..], span);
    }
  }

  lemma OpenIsFree(t: Tables, m: Market, now: int, scan: seq<nat>)
    requires IsScan(scan, |t.trades|)
    requires forall i :: 0 <= i < |t.trades| && !t.trades[i].tradeClosed && !IsOverdue(t.trades[i], now) ==>
               !LooksAtOwner(t.trades[i], m)
    ensures forall id :: id in OpenAfterSweep(t, now, scan) ==>
              id < |t.trades| && !LooksAtOwner(Swept(t, now).trades[id], m)
  {
    forall id | id in OpenAfterSweep(t, now, scan)
      ensures id < |t.trades| && !LooksAtOwner(Swept(t, now).trades[id], m)
    {
      OpenAfterSweepIs(t, now, scan, id);
    }
  }

  /** The outcome of the batch does not depend on the order in which the database returns the open trades, as long as
      each account's own trades keep their relative order and no trade that is open after the sweep is a buy of the owner's
      whose price is within reach. */
  lemma BatchOrderIndependence(t: Tables, m: Market, now: int, scan: seq<nat>, other: seq<nat>)
    requires Consistent(t) && Rearranges(t, now, scan, other)
    requires forall i :: 0 <= i < |t.trades| && !t.trades[i].tradeClosed && !IsOverdue(t.trades[i], now) ==>
               !LooksAtOwner(t.trades[i], m)
    ensures SameResult(t, m, now, scan, other)
  {
    var swept, traders, r := Swept(t, now), TradersOf(t.trades), OpenAfterSweep(t, now, other);
    if AllPriced(swept, m, r) {
      var own := OfAccount(r, traders, OWNER_ID);
      SweptHasTraders(t, now);
      OpenIsFree(t, m, now, other);
      AccountOnly(r, traders, OWNER_ID);
      ElementsPriced(swept, m, r, own);
      FreeIsSteady(swept, m, own, SpanOf(swept, m, r));
      SafeOrderDecides(t, m, now, other, scan);
    } else if AllPriced(swept, m, OpenAfterSweep(t, now, scan)) {
      PricedInAnyOrder(t, m, now, scan, other);
    }
  }

  // ----- Order independence: exactly when -----

  /** The scans in which all the owner's trades come first, or last. */
  ghost function OwnerFirst(t: Tables, scan: seq<nat>): seq<nat>
    requires IsScan(scan, |t.trades|)
  {
    OfAccount(scan, TradersOf(t.trades), OWNER_ID) + NotOfAccount(scan, TradersOf(t.trades), OWNER_ID)
  }

  ghost function OwnerLast(t: Tables, scan: seq<nat>): seq<nat>
    requires IsScan(scan, |t.trades|)
  {
    NotOfAccount(scan, TradersOf(t.trades), OWNER_ID) + OfAccount(scan, TradersOf(t.trades), OWNER_ID)
  }

  lemma {:induction false} Partition(ids: seq<nat>, traders: seq<int>, a: int)
    requires AreIds(ids, traders) && Distinct(ids)
    ensures var p, q := OfAccount(ids, traders, a), NotOfAccount(ids, traders, a);
      && Distinct(p) && Distinct(q)
      && (forall id :: id in p <==> id in ids && id < |traders| && traders[id] == a)
      && (forall id :: id in q <==> id in ids && id < |traders| && traders[id] != a)
  {
    if ids != [] {
      Partition(ids[1..], traders, a);
      assert forall id :: id in ids <==> id == ids[0] || id in ids[1..];
      assert ids[0] !in ids[1..];
    }
  }

  lemma TwoPartsAreScan(p: seq<nat>, q: seq<nat>, count: nat)
    requires Distinct(p) && Distinct(q) && (forall id: nat :: id in p ==> id !in q)
    requires forall id: nat :: id < count <==> id in p || id in q
    ensures IsScan(p + q, count)
  {
    var s := p + q;
    forall i | 0 <= i < |s| ensures s[i] < count {
      assert s[i] in p || s[i] in q;
    }
    forall i, j | 0 <= i < j < |s| ensures s[i] != s[j] {
      if i < |p| <= j {
        assert s[i] in p && s[j] in q;
      }
    }
  }

  lemma {:induction false} OpenConcat(trades: seq<Trade>, p: seq<nat>, q: seq<nat>)
    requires (forall i :: 0 <= i < |p| ==> p[i] < |trades|) && (forall i :: 0 <= i < |q| ==> q[i] < |trades|)
    requires forall i :: 0 <= i < |p + q| ==> (p + q)[i] < |trades|
    ensures OpenTrades(trades, p + q) == OpenTrades(trades, p) + OpenTrades(trades, q)
  {
    if p == [] {
      assert p + q == q;
    } else {
      var id, rest := p[0], p[1..];
      assert p == [id] + rest && p + q == [id] + (rest + q);
      assert forall i :: 0 <= i < |rest + q| ==> (rest + q)[i] == (p + q)[i + 1];
      OpenConcat(trades, rest, q);
      OpenOfHead(trades, id, rest);
      OpenOfHead(trades, id, rest + q);
      var head := if trades[id].tradeClosed then [] else [id];
      assert head + (OpenTrades(trades, rest) + OpenTrades(trades, q))
          == head + OpenTrades(trades, rest) + OpenTrades(trades, q);
    }
  }

  ghost predicate InRange(ids: seq<nat>, count: nat) {
    forall i :: 0 <= i < |ids| ==> ids[i] < count
  }

  /** Taking one account's trades and taking the open ones can be done in either order. */
  lemma {:induction false} OpenOfAccount(trades: seq<Trade>, scan: seq<nat>, traders: seq<int>, a: int)
    requires AreIds(scan, traders) && |traders| == |trades| && InRange(scan, |trades|)
    ensures AreIds(OpenTrades(trades, scan), traders) && InRange(OfAccount(scan, traders, a), |trades|)
    ensures OpenTrades(trades, OfAccount(scan, traders, a)) == OfAccount(OpenTrades(trades, scan), traders, a)
  {
    if scan != [] {
      OpenOfAccount(trades, scan[1..], traders, a);
      var id, rest := scan[0], OpenTrades(trades, scan[1..]);
      OpenOfHead(trades, id, OfAccount(scan[1..], traders, a));
      if !trades[id].tradeClosed {
        OfAccountFirst(id, rest, traders, a);
      }
    }
  }

  /** The same for the trades of all others. */
  lemma {:induction false} OpenOfOthers(trades: seq<Trade>, scan: seq<nat>, traders: seq<int>, a: int)
    requires AreIds(scan, traders) && |traders| == |trades| && InRange(scan, |trades|)
    ensures AreIds(OpenTrades(trades, scan), traders) && InRange(NotOfAccount(scan, traders, a), |trades|)
    ensures OpenTrades(trades, NotOfAccount(scan, traders, a)) == NotOfAccount(OpenTrades(trades, scan), traders, a)
  {
    if scan != [] {
      OpenOfOthers(trades, scan[1..], traders, a);
      var id, rest := scan[0], OpenTrades(trades, scan[1..]);
      OpenOfHead(trades, id, NotOfAccount(scan[1..], traders, a));
      if !trades[id].tradeClosed {
        assert ([id] + rest)[1..] == rest;
      }
    }
  }

  lemma OpenOfHead(trades: seq<Trade>, id: nat, rest: seq<nat>)
    requires id < |trades| && forall i :: 0 <= i < |rest| ==> rest[i] < |trades|
    ensures OpenTrades(trades, [id] + rest)
         == (if trades[id].tradeClosed then [] else [id]) + OpenTrades(trades, rest)
    ensures OpenTrades(trades, [] + rest) == OpenTrades(trades, rest)
  {
    assert ([id] + rest)[1..] == rest;
    assert [] + rest == rest;
  }

  lemma {:induction false} OthersProjection(ids: seq<nat>, traders: seq<int>, a: int, b: int)
    requires AreIds(ids, traders) && AreIds(NotOfAccount(ids, traders, a), traders) && b != a
    ensures OfAccount(NotOfAccount(ids, traders, a), traders, b) == OfAccount(ids, traders, b)
  {
    if ids != [] {
      var rest := NotOfAccount(ids[1..], traders, a);
      assert traders[ids[0]] != a ==> NotOfAccount(ids, traders, a)[1..] == rest;
      assert traders[ids[0]] == a ==> NotOfAccount(ids, traders, a) == rest;
      forall k | 0 <= k < |rest| ensures rest[k] < |traders| {
        assert rest[k] in NotOfAccount(ids, traders, a);
      }
      OthersProjection(ids[1..], traders, a, b);
    }
  }

  /** Putting one account's trades first, or last, keeps the order of every account's own trades. */
  lemma PartsKeepProjections(ids: seq<nat>, traders: seq<int>, a: int, b: int)
    requires AreIds(ids, traders) && Distinct(ids)
    ensures var p, q := OfAccount(ids, traders, a), NotOfAccount(ids, traders, a);
      && AreIds(p, traders) && AreIds(q, traders) && AreIds(p + q, traders) && AreIds(q + p, traders)
      && OfAccount(p + q, traders, b) == OfAccount(ids, traders, b) == OfAccount(q + p, traders, b)
  {
    var p, q := OfAccount(ids, traders, a), NotOfAccount(ids, traders, a);
    Partition(ids, traders, a);
    forall k | 0 <= k < |p| ensures p[k] < |traders| && traders[p[k]] == a {
      assert p[k] in p;
    }
    forall k | 0 <= k < |q| ensures q[k] < |traders| && traders[q[k]] != a {
      assert q[k] in q;
    }
    OfAccountConcat(p, q, traders, b);
    OfAccountConcat(q, p, traders, b);
    if b == a {
      AllOfAccount(p, traders, b);
      NoneOfAccount(q, traders, b);
    } else {
      NoneOfAccount(p, traders, b);
      OthersProjection(ids, traders, a, b);
    }
    assert OfAccount(ids, traders, b) + [] == OfAccount(ids, traders, b) == [] + OfAccount(ids, traders, b);
  }

  /** The owner's open trades, and those of the others, in the order of the scan. */
  ghost function OwnOpen(t: Tables, now: int, scan: seq<nat>): seq<nat>
    requires IsScan(scan, |t.trades|)
  {
    OfAccount(OpenAfterSweep(t, now, scan), TradersOf(t.trades), OWNER_ID)
  }

  ghost function OthersOpen(t: Tables, now: int, scan: seq<nat>): seq<nat>
    requires IsScan(scan, |t.trades|)
  {
    NotOfAccount(OpenAfterSweep(t, now, scan), TradersOf(t.trades), OWNER_ID)
  }

  lemma ExtremesAreScans(t: Tables, scan: seq<nat>)
    requires IsScan(scan, |t.trades|)
    ensures IsScan(OwnerFirst(t, scan), |t.trades|) && IsScan(OwnerLast(t, scan), |t.trades|)
  {
    var p, q := OfAccount(scan, TradersOf(t.trades), OWNER_ID), NotOfAccount(scan, TradersOf(t.trades), OWNER_ID);
    Partition(scan, TradersOf(t.trades), OWNER_ID);
    forall id: nat ensures id < |t.trades| <==> id in p || id in q {
      assert id in scan ==> id < |t.trades|;
    }
    TwoPartsAreScan(p, q, |t.trades|);
    TwoPartsAreScan(q, p, |t.trades|);
  }

  lemma OpenOfExtremes(t: Tables, now: int, scan: seq<nat>)
    requires IsScan(scan, |t.trades|) && IsScan(OwnerFirst(t, scan), |t.trades|) && IsScan(OwnerLast(t, scan), |t.trades|)
    ensures OpenAfterSweep(t, now, OwnerFirst(t, scan)) == OwnOpen(t, now, scan) + OthersOpen(t, now, scan)
    ensures OpenAfterSweep(t, now, OwnerLast(t, scan)) == OthersOpen(t, now, scan) + OwnOpen(t, now, scan)
  {
    var trades, traders := CloseOverdueTrades(t.trades, now), TradersOf(t.trades);
    OpenOfAccount(trades, scan, traders, OWNER_ID);
    OpenOfOthers(trades, scan, traders, OWNER_ID);
    OpenConcat(trades, OfAccount(scan, traders, OWNER_ID), NotOfAccount(scan, traders, OWNER_ID));
    OpenConcat(trades, NotOfAccount(scan, traders, OWNER_ID), OfAccount(scan, traders, OWNER_ID));
  }

  lemma {:induction false} OpenIsDistinct(trades: seq<Trade>, scan: seq<nat>)
    requires (forall i :: 0 <= i < |scan| ==> scan[i] < |trades|) && Distinct(scan)
    ensures Distinct(OpenTrades(trades, scan))
  {
    if scan != [] {
      OpenIsDistinct(trades, scan[1..]);
      OpenTradesMembers(trades, scan[1..]);
      assert scan[0] !in scan[1..];
    }
  }

  lemma ExtremesRearrange(t: Tables, now: int, scan: seq<nat>)
    requires IsScan(scan, |t.trades|)
    ensures IsScan(OwnerFirst(t, scan), |t.trades|) && IsScan(OwnerLast(t, scan), |t.trades|)
    ensures Rearranges(t, now, scan, OwnerFirst(t, scan)) && Rearranges(t, now, scan, OwnerLast(t, scan))
  {
    ExtremesAreScans(t, scan);
    OpenOfExtremes(t, now, scan);
    OpenIsDistinct(CloseOverdueTrades(t.trades, now), scan);
    forall b
      ensures OfAccount(OpenAfterSweep(t, now, OwnerFirst(t, scan)), TradersOf(t.trades), b)
           == OfAccount(OpenAfterSweep(t, now, scan), TradersOf(t.trades), b)
           == OfAccount(OpenAfterSweep(t, now, OwnerLast(t, scan)), TradersOf(t.trades), b)
    {
      PartsKeepProjections(OpenAfterSweep(t, now, scan), TradersOf(t.trades), OWNER_ID, b);
    }
  }

  /** Every order that keeps each account's own trades in order has this one's result. */
  ghost predicate IndependentOfOrder(t: Tables, m: Market, now: int, scan: seq<nat>)
    requires Consistent(t) && IsScan(scan, |t.trades|)
  {
    forall other :: Rearranges(t, now, scan, other) ==> SameResult(t, m, now, scan, other)
  }

  /** Each due buy of the owner's can be paid from what the owner has without the others' fees, or not even with all of them;
      the batch that fails for want of a price fails in any order. */
  ghost predicate OwnerIsIndifferent(t: Tables, m: Market, now: int, scan: seq<nat>)
    requires Consistent(t) && IsScan(scan, |t.trades|)
  {
    AllPriced(Swept(t, now), m, OpenAfterSweep(t, now, scan)) ==>
      Steady(Swept(t, now), m, OwnOpen(t, now, scan), SpanOf(Swept(t, now), m, OthersOpen(t, now, scan)))
  }

  /** The batch has the same result in every order if and only if it has it in the two extreme ones, which is exactly when the
      owner's decisions do not hang on the others' fees. */
  lemma BatchIndependentIff(t: Tables, m: Market, now: int, scan: seq<nat>)
    requires Consistent(t) && IsScan(scan, |t.trades|) && NonNegativeMarket(m)
    ensures IsScan(OwnerFirst(t, scan), |t.trades|) && IsScan(OwnerLast(t, scan), |t.trades|)
    ensures IndependentOfOrder(t, m, now, scan) <==> SameResult(t, m, now, OwnerFirst(t, scan), OwnerLast(t, scan))
    ensures IndependentOfOrder(t, m, now, scan) <==> OwnerIsIndifferent(t, m, now, scan)
  {
    ExtremesRearrange(t, now, scan);
    if SameResult(t, m, now, OwnerFirst(t, scan), OwnerLast(t, scan)) {
      ExtremesMakeIndifferent(t, m, now, scan);
    }
    if OwnerIsIndifferent(t, m, now, scan) {
      IndifferentIsIndependent(t, m, now, scan);
    }
    if IndependentOfOrder(t, m, now, scan) {
      IndependentExtremes(t, m, now, scan);
    }
  }

  lemma IndependentExtremes(t: Tables, m: Market, now: int, scan: seq<nat>)
    requires Consistent(t) && IsScan(scan, |t.trades|) && IndependentOfOrder(t, m, now, scan)
    ensures IsScan(OwnerFirst(t, scan), |t.trades|) && IsScan(OwnerLast(t, scan), |t.trades|)
    ensures SameResult(t, m, now, OwnerFirst(t, scan), OwnerLast(t, scan))
  {
    ExtremesRearrange(t, now, scan);
    assert SameResult(t, m, now, scan, OwnerFirst(t, scan)) && SameResult(t, m, now, scan, OwnerLast(t, scan));
  }

  lemma PartsOfOpen(t: Tables, now: int, scan: seq<nat>)
    requires Consistent(t) && IsScan(scan, |t.trades|)
    ensures var own, others := OwnOpen(t, now, scan), OthersOpen(t, now, scan);
      && OwnersOnly(Swept(t, now), own) && NoneOwner(Swept(t, now), others) && Distinct(own)
      && (forall k :: 0 <= k < |own| ==> own[k] in OpenAfterSweep(t, now, scan))
      && (forall k :: 0 <= k < |others| ==> others[k] in OpenAfterSweep(t, now, scan))
  {
    var own, others := OwnOpen(t, now, scan), OthersOpen(t, now, scan);
    SweptHasTraders(t, now);
    OpenIsDistinct(CloseOverdueTrades(t.trades, now), scan);
    Partition(OpenAfterSweep(t, now, scan), TradersOf(t.trades), OWNER_ID);
    assert forall k :: 0 <= k < |own| ==> own[k] in own;
    assert forall k :: 0 <= k < |others| ==> others[k] in others;
  }

  lemma ExtremesMakeIndifferent(t: Tables, m: Market, now: int, scan: seq<nat>)
    requires Consistent(t) && IsScan(scan, |t.trades|) && NonNegativeMarket(m)
    requires IsScan(OwnerFirst(t, scan), |t.trades|) && IsScan(OwnerLast(t, scan), |t.trades|)
    requires SameResult(t, m, now, OwnerFirst(t, scan), OwnerLast(t, scan))
    ensures OwnerIsIndifferent(t, m, now, scan)
  {
    var swept, traders := Swept(t, now), TradersOf(t.trades);
    var own, others := OwnOpen(t, now, scan), OthersOpen(t, now, scan);
    if AllPriced(swept, m, OpenAfterSweep(t, now, scan)) {
      SweptHasTraders(t, now);
      OpenOfExtremes(t, now, scan);
      PartsOfOpen(t, now, scan);
      PricedInAnyOrder(t, m, now, scan, OwnerFirst(t, scan));
      PricedInAnyOrder(t, m, now, scan, OwnerLast(t, scan));
      ElementsPriced(swept, m, OpenAfterSweep(t, now, scan), own);
      ElementsPriced(swept, m, OpenAfterSweep(t, now, scan), others);
      ExtremesAreSteady(swept, m, own, others);
    }
  }

  lemma IndifferentIsIndependent(t: Tables, m: Market, now: int, scan: seq<nat>)
    requires Consistent(t) && IsScan(scan, |t.trades|) && OwnerIsIndifferent(t, m, now, scan)
    ensures IndependentOfOrder(t, m, now, scan)
  {
    var first := OwnerFirst(t, scan);
    ExtremesRearrange(t, now, scan);
    if AllPriced(Swept(t, now), m, OpenAfterSweep(t, now, scan)) {
      FirstIsSafe(t, m, now, scan);
      SafeOrderDecides(t, m, now, first, scan);
    }
    forall other | Rearranges(t, now, scan, other) ensures SameResult(t, m, now, scan, other) {
      if AllPriced(Swept(t, now), m, OpenAfterSweep(t, now, scan)) {
        SafeOrderDecides(t, m, now, first, other);
      } else if AllPriced(Swept(t, now), m, OpenAfterSweep(t, now, other)) {
        PricedInAnyOrder(t, m, now, other, scan);
      }
    }
  }

  lemma FirstIsSafe(t: Tables, m: Market, now: int, scan: seq<nat>)
    requires Consistent(t) && IsScan(scan, |t.trades|) && OwnerIsIndifferent(t, m, now, scan)
    requires AllPriced(Swept(t, now), m, OpenAfterSweep(t, now, scan))
    requires IsScan(OwnerFirst(t, scan), |t.trades|) && IsScan(OwnerLast(t, scan), |t.trades|)
    ensures Safe(Swept(t, now), m, TradersOf(t.trades), OpenAfterSweep(t, now, OwnerFirst(t, scan)))
  {
    SweptHasTraders(t, now);
    OpenOfExtremes(t, now, scan);
    PartsOfOpen(t, now, scan);
    PricedInAnyOrder(t, m, now, scan, OwnerFirst(t, scan));
    ElementsPriced(Swept(t, now), m, OpenAfterSweep(t, now, scan), OwnOpen(t, now, scan));
    SteadyIsSafe(Swept(t, now), m, TradersOf(t.trades), OwnOpen(t, now, scan), OthersOpen(t, now, scan));
  }

  // ----- The owner's trades are the exception -----

  /** Trade 0 is the owner's, trade 1 is account 2's: both buy at 5, and the owner has just 5. */
  function OwnerExample(): Tables {
    var row := Trade(1, 7, LongBuy, 1.0, 5.0, None, false, false, Registered);
    Tables(map[1 := 5.0, 2 := 100.0], map[], [row, row.(accountId := 2)], [])
  }

  function ExampleMarket(): Market {
    Market(map[7 := 3], map[3 := 5.0], map[7 := Price(5.0, 5.0, 5.0, 5.0)])
  }

  lemma TwoOpenTrades(trades: seq<Trade>, scan: seq<nat>)
    requires |scan| == 2 && scan[0] < |trades| && scan[1] < |trades|
    requires !trades[scan[0]].tradeClosed && !trades[scan[1]].tradeClosed
    ensures OpenTrades(trades, scan) == scan
  {
    assert scan[1..][1..] == [];
    assert OpenTrades(trades, scan[1..]) == [scan[1]] + OpenTrades(trades, scan[1..][1..]);
    assert OpenTrades(trades, scan) == [scan[0]] + OpenTrades(trades, scan[1..]);
  }

  lemma ExampleOrders(scan: seq<nat>)
    requires |scan| == 2 && scan[0] < 2 && scan[1] < 2 && scan[0] != scan[1]
    ensures IsScan(scan, 2) && WellFormed(OwnerExample())
    ensures CloseOverdueTrades(OwnerExample().trades, 0) == OwnerExample().trades
    ensures OpenTrades(OwnerExample().trades, scan) == scan
  {
    TwoOpenTrades(OwnerExample().trades, scan);
  }

  lemma ExampleProcess(x: nat, y: nat)
    requires x < 2 && y < 2
    ensures AllPriced(OwnerExample(), ExampleMarket(), [x, y])
    ensures Priced(OwnerExample(), ExampleMarket(), x)
    ensures Priced(ProcessTrade(OwnerExample(), ExampleMarket(), x), ExampleMarket(), y)
    ensures ProcessAll(OwnerExample(), ExampleMarket(), [x, y])
         == ProcessTrade(ProcessTrade(OwnerExample(), ExampleMarket(), x), ExampleMarket(), y)
  {
    ProcessPair(OwnerExample(), ExampleMarket(), x, y);
  }

  lemma ProcessPair(t: Tables, m: Market, x: nat, y: nat)
    requires Priced(t, m, x) && Priced(t, m, y)
    ensures AllPriced(t, m, [x, y]) && Priced(ProcessTrade(t, m, x), m, y)
    ensures ProcessAll(t, m, [x, y]) == ProcessTrade(ProcessTrade(t, m, x), m, y)
  {
    ProcessAllAfter(t, m, x, [y], [y]);
    var u := ProcessTrade(t, m, x);
    assert Priced(u, m, y) by { assert [y][0] == y; }
    ProcessAllAfter(u, m, y, [], []);
    assert [x] + [y] == [x, y] && [y] + [] == [y];
  }

  /** A fee collected first can pay for the owner's own buy, so the owner's trades do depend on the order. */
  lemma OwnerTradesDependOnOrder()
    ensures IsScan([0, 1], |OwnerExample().trades|) && IsScan([1, 0], |OwnerExample().trades|)
    ensures WellFormed(OwnerExample())
    ensures var u := ProcessLongRunningTransactions(OwnerExample(), ExampleMarket(), 0, [0, 1]);
      u.Success? && |u.value.trades| == 2 && !u.value.trades[0].transactionHappened
    ensures var v := ProcessLongRunningTransactions(OwnerExample(), ExampleMarket(), 0, [1, 0]);
      v.Success? && |v.value.trades| == 2 && v.value.trades[0].transactionHappened
  {
    ExampleOrders([0, 1]);
    ExampleOrders([1, 0]);
    ExampleProcess(0, 1);
    ExampleProcess(1, 0);
  }
}
