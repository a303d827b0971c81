/** The price table: how the content creator fills it, and what "the latest prices" are.

    Instants are in whole seconds, and a calendar's minute is that of the hour. Random draws are an arbitrary function of
    the candle they are drawn for. */
module PriceSeries {
  import opened PriceCurve

  const MINUTES_IN_DAY := 1440
  const BATCH_SIZE := 100

  // ----- Counting rows -----

  ghost function Count(rows: seq<Pricing>, id: int, timestamp: int): nat {
    if rows == [] then 0
    else
      Count(rows[..|rows| - 1], id, timestamp)
        + if rows[|rows| - 1].instrumentId == id && rows[|rows| - 1].timestamp == timestamp then 1 else 0
  }

  lemma {:induction false} CountConcat(a: seq<Pricing>, b: seq<Pricing>, id: int, timestamp: int)
    ensures Count(a + b, id, timestamp) == Count(a, id, timestamp) + Count(b, id, timestamp)
  {
    if b == [] {
      assert a + b == a;
    } else {
      assert (a + b)[..|a + b| - 1] == a + b[..|b| - 1];
      CountConcat(a, b[..|b| - 1], id, timestamp);
    }
  }

  ghost predicate HasId(instruments: seq<Instrument>, id: int) {
    exists k :: 0 <= k < |instruments| && instruments[k].id == id
  }

  ghost predicate DistinctIds(instruments: seq<Instrument>) {
    forall j, k :: 0 <= j < k < |instruments| ==> instruments[j].id != instruments[k].id
  }

  /** A minute of the series from `first` to `last`. */
  predicate InGrid(first: int, last: int, timestamp: int) {
    first <= timestamp <= last && (timestamp - first) % 60 == 0
  }

  /** Exactly one candle per instrument for every minute from `first` to `last`, and nothing else. */
  ghost predicate GapFree(rows: seq<Pricing>, instruments: seq<Instrument>, first: int, last: int) {
    forall id, timestamp ::
      Count(rows, id, timestamp) == if HasId(instruments, id) && InGrid(first, last, timestamp) then 1 else 0
  }

  // ----- The connector -----

  class SQLDatabaseConnector {
    var pricing: seq<Pricing>
    var batch: seq<Pricing>

    constructor (rows: seq<Pricing>)
      ensures pricing == rows && batch == []
    {
      pricing, batch := rows, [];
    }

    method DeleteFromTable()
      modifies this`pricing
      ensures pricing == []
    {
      pricing := [];
    }

    method ExecuteBatch()
      modifies this
      ensures pricing == old(pricing) + old(batch) && batch == []
    {
      pricing, batch := pricing + batch, [];
    }

    /** Rows are flushed in batches, and the table receives them all in order. */
    method InsertBatchData(data: seq<Pricing>, batchSize: nat)
      requires batchSize > 0 && batch == []
      modifies this
      ensures pricing == old(pricing) + data && batch == []
    {
      for i := 0 to |data|
        invariant pricing + batch == old(pricing) + data[..i]
        invariant |batch| == i % batchSize
      {
        assert data[..i + 1] == data[..i] + [data[i]];
        assert pricing + (batch + [data[i]]) == pricing + batch + [data[i]];
        batch := batch + [data[i]];
        OneMoreInBatch(i, batchSize);
        if (i + 1) % batchSize == 0 {
          ExecuteBatch();
        }
      }
      ExecuteBatch();
      assert data[..|data|] == data;
    }

    method DeleteFromTableBeforeDate(date: int)
      modifies this`pricing
      ensures pricing == From(old(pricing), date)
    {
      pricing := From(pricing, date);
    }
  }

  lemma OneMoreInBatch(i: nat, batchSize: nat)
    requires batchSize > 0
    ensures (i + 1) % batchSize == if i % batchSize + 1 == batchSize then 0 else i % batchSize + 1
  {
    var q, r := i / batchSize, i % batchSize;
    if r + 1 == batchSize {
      RemainderIs((i + 1) / batchSize, (i + 1) % batchSize, q + 1, 0, batchSize);
    } else {
      RemainderIs((i + 1) / batchSize, (i + 1) % batchSize, q, r + 1, batchSize);
    }
  }

  lemma RemainderIs(p: int, m: nat, q: int, r: nat, d: nat)
    requires p * d + m == q * d + r && m < d && r < d
    ensures m == r
  {
    assert (q - p) * d == q * d - p * d;
    SmallMultiple(q - p, d);
  }

  lemma SmallMultiple(k: int, d: nat)
    requires -(d as int) < k * d < d
    ensures k == 0
  {
    MultipleGrows(k, d);
  }

  lemma MultipleGrows(k: int, d: nat)
    ensures k > 0 ==> k * d >= d
    ensures k < 0 ==> k * d <= -(d as int)
  {
  }

  /** The rows that are not older than the date. */
  function From(rows: seq<Pricing>, date: int): seq<Pricing> {
    if rows == [] then []
    else From(rows[..|rows| - 1], date) + if rows[|rows| - 1].timestamp < date then [] else [rows[|rows| - 1]]
  }

  lemma {:induction false} CountFrom(rows: seq<Pricing>, date: int, id: int, timestamp: int)
    ensures Count(From(rows, date), id, timestamp) == if timestamp < date then 0 else Count(rows, id, timestamp)
  {
    if rows != [] {
      var n := |rows| - 1;
      CountFrom(rows[..n], date, id, timestamp);
      CountKept(From(rows[..n], date), rows[n], date, id, timestamp);
    }
  }

  /** One more row, kept unless it is older than the date. */
  lemma CountKept(kept: seq<Pricing>, row: Pricing, date: int, id: int, timestamp: int)
    ensures Count(kept + if row.timestamp < date then [] else [row], id, timestamp)
         == Count(kept, id, timestamp)
              + if row.timestamp >= date && row.instrumentId == id && row.timestamp == timestamp then 1 else 0
  {
    if row.timestamp < date {
      assert kept + [] == kept;
    } else {
      assert (kept + [row])[..|kept|] == kept;
    }
  }

  // ----- The generated rows -----

  ghost predicate Draws(random: (int, int) -> seq<real>) {
    forall id, timestamp :: AreDraws(random(id, timestamp))
  }

  /** The row is the candle of the instrument it names, at its own timestamp, drawn around that instrument's curve. */
  ghost predicate OnItsCurve(row: Pricing, instruments: seq<Instrument>, random: (int, int) -> seq<real>) {
    exists n :: 0 <= n < |instruments| && IsCandleFor(row, instruments[n], random)
  }

  ghost predicate IsCandleFor(row: Pricing, i: Instrument, random: (int, int) -> seq<real>) {
    IsCandleAt(row, row.timestamp, i, random(i.id, row.timestamp))
  }

  ghost predicate AllOnCurve(rows: seq<Pricing>, instruments: seq<Instrument>, random: (int, int) -> seq<real>) {
    forall k :: 0 <= k < |rows| ==> OnItsCurve(rows[k], instruments, random)
  }

  lemma SeriesIsOnCurve(rows: seq<Pricing>, more: seq<Pricing>, instruments: seq<Instrument>, n: nat, first: nat,
                        random: (int, int) -> seq<real>)
    requires AllOnCurve(rows, instruments, random) && n < |instruments|
    requires forall k :: 0 <= k < |more| ==>
      IsCandleAt(more[k], first + 60 * k, instruments[n], random(instruments[n].id, first + 60 * k))
    ensures AllOnCurve(rows + more, instruments, random)
  {
    forall k | 0 <= k < |rows + more| ensures OnItsCurve((rows + more)[k], instruments, random) {
      if k >= |rows| {
        var j := k - |rows|;
        assert IsCandleAt(more[j], first + 60 * j, instruments[n], random(instruments[n].id, first + 60 * j));
        assert IsCandleFor(more[j], instruments[n], random);
      }
    }
  }

  lemma {:induction false} FromKeepsCurve(rows: seq<Pricing>, date: int, instruments: seq<Instrument>,
                                          random: (int, int) -> seq<real>)
    requires AllOnCurve(rows, instruments, random)
    ensures AllOnCurve(From(rows, date), instruments, random)
  {
    if rows != [] {
      FromKeepsCurve(rows[..|rows| - 1], date, instruments, random);
    }
  }

  /** The candles of one instrument, minute by minute. */
  ghost predicate IsSeries(rows: seq<Pricing>, id: int, first: nat, count: nat) {
    |rows| == count && forall k :: 0 <= k < count ==> rows[k].instrumentId == id && rows[k].timestamp == first + 60 * k
  }

  lemma {:induction false} CountSeries(rows: seq<Pricing>, id: int, first: nat, count: nat, x: int, timestamp: int)
    requires IsSeries(rows, id, first, count)
    ensures Count(rows, x, timestamp) == if x == id && InGrid(first, first + 60 * count - 60, timestamp) then 1 else 0
    decreases count
  {
    if count > 0 {
      CountSeries(rows[..count - 1], id, first, count - 1, x, timestamp);
    }
  }

  /** One series per instrument, all over the same minutes. */
  ghost predicate IsTable(rows: seq<Pricing>, instruments: seq<Instrument>, first: nat, count: nat) {
    forall id, timestamp ::
      Count(rows, id, timestamp)
        == if HasId(instruments, id) && InGrid(first, first + 60 * count - 60, timestamp) then 1 else 0
  }

  lemma OneMoreInstrument(rows: seq<Pricing>, more: seq<Pricing>, instruments: seq<Instrument>, n: nat, first: nat, count: nat)
    requires n < |instruments| && DistinctIds(instruments)
    requires IsTable(rows, instruments[..n], first, count) && IsSeries(more, instruments[n].id, first, count)
    ensures IsTable(rows + more, instruments[..n + 1], first, count)
  {
    forall id, timestamp
      ensures Count(rows + more, id, timestamp)
           == if HasId(instruments[..n + 1], id) && InGrid(first, first + 60 * count - 60, timestamp) then 1 else 0
    {
      CountConcat(rows, more, id, timestamp);
      CountSeries(more, instruments[n].id, first, count, id, timestamp);
      IdsOfPrefix(instruments, n, id);
    }
  }

  lemma IdsOfPrefix(instruments: seq<Instrument>, n: nat, id: int)
    requires n < |instruments| && DistinctIds(instruments)
    ensures HasId(instruments[..n + 1], id) <==> HasId(instruments[..n], id) || instruments[n].id == id
    ensures !(HasId(instruments[..n], id) && instruments[n].id == id)
  {
    if HasId(instruments[..n], id) {
      var k :| 0 <= k < n && instruments[..n][k].id == id;
      assert instruments[..n + 1][k].id == id;
    }
    if HasId(instruments[..n + 1], id) {
      var k :| 0 <= k < n + 1 && instruments[..n + 1][k].id == id;
      assert k < n ==> instruments[..n][k].id == id;
    }
    assert instruments[..n + 1][n] == instruments[n];
  }

  /** The series of every instrument, one after the other. */
  method GenerateForAll(date: nat, count: nat, instruments: seq<Instrument>, random: (int, int) -> seq<real>)
    returns (rows: seq<Pricing>)
    requires DistinctIds(instruments) && Draws(random)
    ensures IsTable(rows, instruments, date, count) && AllOnCurve(rows, instruments, random)
  {
    rows := [];
    for n := 0 to |instruments|
      invariant IsTable(rows, instruments[..n], date, count) && AllOnCurve(rows, instruments, random)
    {
      var i := instruments[n];
      var draws := seq(count, k requires 0 <= k < count => random(i.id, date + 60 * k));
      var more := GenerateMassivePricingData(date, count, i, draws);
      forall k | 0 <= k < count ensures more[k].instrumentId == i.id && more[k].timestamp == date + 60 * k {
        assert IsCandleAt(more[k], date + 60 * k, i, draws[k]);
      }
      OneMoreInstrument(rows, more, instruments, n, date, count);
      SeriesIsOnCurve(rows, more, instruments, n, date, random);
      rows := rows + more;
    }
    assert instruments[..|instruments|] == instruments;
  }

  // ----- Filling the table -----

  lemma FirstDayIsGapFree(rows: seq<Pricing>, instruments: seq<Instrument>, first: nat, count: nat)
    requires IsTable(rows, instruments, first, count)
    ensures GapFree(rows, instruments, first, first + 60 * count - 60)
  {
  }

  lemma OneMoreMinute(rows: seq<Pricing>, more: seq<Pricing>, instruments: seq<Instrument>, first: int, last: int, next: nat)
    requires GapFree(rows, instruments, first, last) && next == last + 60
    requires first <= next && (next - first) % 60 == 0
    requires IsTable(more, instruments, next, 1)
    ensures GapFree(rows + more, instruments, first, next)
  {
    forall id, timestamp
      ensures Count(rows + more, id, timestamp)
           == if HasId(instruments, id) && InGrid(first, next, timestamp) then 1 else 0
    {
      CountConcat(rows, more, id, timestamp);
      GridGrows(first, next, timestamp);
    }
  }

  lemma GridGrows(first: int, next: int, timestamp: int)
    requires first <= next && (next - first) % 60 == 0
    ensures InGrid(first, next, timestamp) <==> InGrid(first, next - 60, timestamp) || timestamp == next
    ensures InGrid(next, next, timestamp) <==> timestamp == next
  {
    if (timestamp - first) % 60 == 0 {
      SameMinutes(timestamp, next, first);
    }
  }

  /** The first minute of the series that is not before the date, or the minute after the last one. */
  function FirstFrom(first: int, last: int, date: int): (next: int)
    requires first <= last + 60 && (last - first) % 60 == 0
    ensures first <= next <= last + 60 && (next - first) % 60 == 0
  {
    if date <= first then first
    else if last < date then last + 60
    else first + MinutesUntil(first, date) * 60
  }

  /** The minutes to go from one instant until a later one is reached, rounded up. */
  function MinutesUntil(first: int, date: int): (n: int)
    ensures date <= first + n * 60 < date + 60
  {
    (date - first + 59) / 60
  }

  lemma FirstFromCovers(first: int, last: int, date: int, t: int)
    requires first <= last + 60 && (last - first) % 60 == 0
    ensures InGrid(first, last, t) && date <= t <==> InGrid(FirstFrom(first, last, date), last, t)
  {
    if first < date <= last {
      var next := first + MinutesUntil(first, date) * 60;
      if (t - first) % 60 == 0 && date <= t {
        SameMinutes(t, next, first);
      }
      if (t - next) % 60 == 0 {
        SameMinutes(t, first, next);
      }
    }
  }

  /** Two instants that are whole minutes away from a third are whole minutes apart. */
  lemma SameMinutes(a: int, b: int, c: int)
    requires (a - c) % 60 == 0 && ((b - c) % 60 == 0 || (c - b) % 60 == 0)
    ensures (a - b) % 60 == 0
    ensures a > b - 60 ==> a >= b
    ensures a < b + 60 ==> a <= b
  {
    var m, n := (a - c) / 60, (b - c) / 60;
    assert a - c == m * 60;
    assert b - c == n * 60;
    assert a - b == (m - n) * 60;
  }

  lemma FirstFromIsPastIff(first: int, last: int, date: int)
    requires first <= last && (last - first) % 60 == 0
    ensures last < FirstFrom(first, last, date) <==> last < date
  {
    FirstFromCovers(first, last, date, last);
  }

  lemma CleanupKeepsSeries(rows: seq<Pricing>, instruments: seq<Instrument>, first: int, last: int, date: int)
    requires GapFree(rows, instruments, first, last)
    requires first <= last + 60 && (last - first) % 60 == 0
    ensures GapFree(From(rows, date), instruments, FirstFrom(first, last, date), last)
  {
    forall id, timestamp
      ensures Count(From(rows, date), id, timestamp)
           == if HasId(instruments, id) && InGrid(FirstFrom(first, last, date), last, timestamp) then 1 else 0
    {
      CountFrom(rows, date, id, timestamp);
      FirstFromCovers(first, last, date, timestamp);
    }
  }

  /** Calendar.MINUTE: the minute of the hour. */
  function Minute(instant: int): int {
    instant / 60 % 60
  }

  /** How many minutes of the hour the calendar is behind. */
  function Behind(now: int, cal: int): nat {
    (Minute(now) - Minute(cal)) % 60
  }

  /** The calendar moves by whole minutes. */
  lemma MinutesLater(instant: int, n: int)
    ensures (instant + 60 * n) / 60 == instant / 60 + n
  {
  }

  lemma DifferenceOfMinutes(a: int, b: int)
    ensures (a % 60 - b % 60) % 60 == (a - b) % 60
  {
    var p, q := a / 60, b / 60;
    assert a % 60 - b % 60 == (a - b) - 60 * (p - q);
  }

  /** Behind, on the minutes since the epoch. */
  lemma BehindIs(now: int, cal: int)
    ensures Behind(now, cal) == (now / 60 - cal / 60) % 60
  {
    DifferenceOfMinutes(now / 60, cal / 60);
  }

  lemma OneLess(x: int)
    requires x % 60 != 0
    ensures (x - 1) % 60 == x % 60 - 1
  {
  }

  lemma CatchesUp(now: int, cal: int)
    requires Minute(now) != Minute(cal)
    ensures Behind(now, cal + 60) == Behind(now, cal) - 1
  {
    MinutesLater(cal, 1);
    BehindIs(now, cal);
    BehindIs(now, cal + 60);
    OneLess(now / 60 - cal / 60);
  }

  lemma SmallRemainderIff(x: nat)
    requires 0 < x
    ensures x % 60 == x <==> x < 60
  {
  }

  lemma WholeMinutes(started: int, n: int)
    ensures (started - 60 + 60 * n - started) % 60 == 0
  {
  }

  lemma NeverBefore(started: int, now: int)
    requires started <= now
    ensures started / 60 <= now / 60
  {
  }

  lemma CaughtUpIff(started: int, now: int, cal: int)
    requires 60 <= started <= now
    requires cal == started - 60 + 60 * Behind(now, started - 60)
    ensures (cal - started) % 60 == 0
    ensures cal < started - 60 + 3600
    ensures cal / 60 == now / 60 <==> now / 60 - started / 60 < 59
  {
    var behind, passed := Behind(now, started - 60), now / 60 - (started / 60 - 1);
    MinutesLater(started, -1);
    MinutesLater(started - 60, behind);
    BehindIs(now, started - 60);
    WholeMinutes(started, behind);
    NeverBefore(started, now);
    SmallRemainderIff(passed);
  }

  lemma OneMoreMinuteIsWhole(first: int, cal: int)
    requires (cal - first) % 60 == 0
    ensures (cal + 60 - first) % 60 == 0
  {
  }

  lemma WholeDay(first: int)
    ensures (first + 86400 - 60 - first) % 60 == 0
  {
  }

  /** When the start takes an hour, the minutes of the hour agree after one step, and the calendar stops an hour behind. */
  lemma StartOfAnHourFallsBehind(started: nat)
    requires 86400 <= started
    ensures var now := started + 3600;
      && started - 60 + 60 * Behind(now, started - 60) == started
      && Minute(now) == Minute(started) && now / 60 == started / 60 + 60
  {
    MinutesLater(started, 60);
    MinutesLater(started, -1);
    BehindIs(started + 3600, started - 60);
  }

  /** `started` is the clock when the table is cleared and `now` the clock after the first day was inserted. The catch-up
      loop compares minutes of the hour only: it adds at most 59 minutes, and reaches the current minute exactly when the
      start took fewer than 59 minutes. */
  method InitializePricingData(connector: SQLDatabaseConnector, instruments: seq<Instrument>, started: nat, now: nat,
                               random: (int, int) -> seq<real>)
    returns (cal: nat)
    requires DistinctIds(instruments) && Draws(random) && connector.batch == []
    requires 86400 <= started <= now
    modifies connector
    ensures connector.batch == [] && GapFree(connector.pricing, instruments, started - 86400, cal)
    ensures AllOnCurve(connector.pricing, instruments, random)
    ensures cal == started - 60 + 60 * Behind(now, started - 60)
    ensures started - 60 <= cal < started - 60 + 3600 && (cal - started) % 60 == 0
    ensures cal / 60 == now / 60 <==> now / 60 - started / 60 < 59
  {
    connector.DeleteFromTable();
    InsertFirstDay(connector, instruments, started - 86400, random);
    cal := started - 86400 + 86400 - 60;
    WholeDay(started - 86400);
    cal := CatchUp(connector, instruments, started - 86400, cal, now, random);
    CaughtUpIff(started, now, cal);
  }

  /** Minutes are added until the minute of the hour is the clock's. */
  method CatchUp(connector: SQLDatabaseConnector, instruments: seq<Instrument>, ghost first: int, start: nat, now: nat,
                 random: (int, int) -> seq<real>)
    returns (cal: nat)
    requires DistinctIds(instruments) && Draws(random) && connector.batch == []
    requires first <= start && (start - first) % 60 == 0
    requires GapFree(connector.pricing, instruments, first, start) && AllOnCurve(connector.pricing, instruments, random)
    modifies connector
    ensures connector.batch == [] && GapFree(connector.pricing, instruments, first, cal)
    ensures AllOnCurve(connector.pricing, instruments, random)
    ensures cal == start + 60 * Behind(now, start)
  {
    ghost var added := 0;
    cal := start;
    while Minute(now) != Minute(cal)
      invariant connector.batch == [] && GapFree(connector.pricing, instruments, first, cal)
      invariant first <= cal && (cal - first) % 60 == 0 && AllOnCurve(connector.pricing, instruments, random)
      invariant cal == start + 60 * added && added + Behind(now, cal) == Behind(now, start)
      decreases Behind(now, cal)
    {
      CatchesUp(now, cal);
      OneMoreMinuteIsWhole(first, cal);
      cal, added := cal + 60, added + 1;
      InsertMinute(connector, instruments, first, cal, random);
    }
  }

  /** A day of candles for an empty table. */
  method InsertFirstDay(connector: SQLDatabaseConnector, instruments: seq<Instrument>, cal: nat,
                        random: (int, int) -> seq<real>)
    requires DistinctIds(instruments) && Draws(random) && connector.batch == [] && connector.pricing == []
    modifies connector
    ensures connector.batch == [] && GapFree(connector.pricing, instruments, cal, cal + 86400 - 60)
    ensures AllOnCurve(connector.pricing, instruments, random)
  {
    var pricingList := GenerateForAll(cal, MINUTES_IN_DAY, instruments, random);
    FirstDayIsGapFree(pricingList, instruments, cal, MINUTES_IN_DAY);
    assert [] + pricingList == pricingList;
    connector.InsertBatchData(pricingList, BATCH_SIZE);
  }

  /** One candle per instrument for the calendar's minute. */
  method InsertMinute(connector: SQLDatabaseConnector, instruments: seq<Instrument>, ghost first: int, cal: nat,
                      random: (int, int) -> seq<real>)
    requires DistinctIds(instruments) && Draws(random) && connector.batch == []
    requires first <= cal && (cal - first) % 60 == 0
    requires GapFree(connector.pricing, instruments, first, cal - 60)
    modifies connector
    ensures connector.batch == [] && GapFree(connector.pricing, instruments, first, cal)
    ensures AllOnCurve(old(connector.pricing), instruments, random) ==> AllOnCurve(connector.pricing, instruments, random)
  {
    var pricingData := GenerateForAll(cal, 1, instruments, random);
    OneMoreMinute(connector.pricing, pricingData, instruments, first, cal - 60, cal);
    connector.InsertBatchData(pricingData, BATCH_SIZE);
  }

  /** A minute that no cleanup of the run finds older than a day. */
  ghost predicate Survives(clocks: seq<int>, t: int) {
    forall j :: 0 <= j < |clocks| ==> clocks[j] - 86400 <= t
  }

  lemma SurvivorStays(clocks: seq<int>, k: nat, t: int)
    requires k < |clocks| && Survives(clocks[..k + 1], t)
    ensures Survives(clocks[..k], t) && clocks[k] - 86400 <= t
  {
    assert clocks[..k + 1][k] == clocks[k];
    assert forall j :: 0 <= j < k ==> clocks[..k + 1][j] == clocks[..k][j];
  }

  /** Every minute from `oldest` to `last` that survives the clocks is still in a series that begins at `first`. */
  ghost predicate KeepsSurvivors(oldest: int, last: int, clocks: seq<int>, first: int) {
    forall t :: InGrid(oldest, last, t) && Survives(clocks, t) ==> first <= t
  }

  lemma RoundKeepsSurvivors(oldest: int, last: int, clocks: seq<int>, k: nat, first: int, next: int)
    requires k < |clocks| && KeepsSurvivors(oldest, last - 60, clocks[..k], first)
    requires oldest <= first <= last && (last - first) % 60 == 0 && (last - oldest) % 60 == 0
    requires next == first || next == FirstFrom(first, last, clocks[k] - 86400)
    ensures KeepsSurvivors(oldest, last, clocks[..k + 1], next)
  {
    forall t | InGrid(oldest, last, t) && Survives(clocks[..k + 1], t) ensures next <= t {
      SurvivorStays(clocks, k, t);
      SameMinutes(t, last, oldest);
      SameMinutes(t, first, last);
      assert t < last ==> InGrid(oldest, last - 60, t);
      FirstFromCovers(first, last, clocks[k] - 86400, t);
    }
  }

  lemma NextFirst(oldest: int, last: int, clocks: seq<int>, k: nat, first: int, cleanup: bool) returns (next: int)
    requires k < |clocks| && KeepsSurvivors(oldest, last - 60, clocks[..k], first)
    requires oldest <= first <= last && (last - 60 - first) % 60 == 0 && (last - 60 - oldest) % 60 == 0
    ensures (last - first) % 60 == 0 && (last - oldest) % 60 == 0 && (last - next) % 60 == 0
    ensures next == if cleanup then FirstFrom(first, last, clocks[k] - 86400) else first
    ensures first <= next <= last + 60 && KeepsSurvivors(oldest, last, clocks[..k + 1], next)
    ensures last < next <==> cleanup && last < clocks[k] - 86400
  {
    OneMoreMinuteIsWhole(first, last - 60);
    OneMoreMinuteIsWhole(oldest, last - 60);
    next := if cleanup then FirstFrom(first, last, clocks[k] - 86400) else first;
    RoundKeepsSurvivors(oldest, last, clocks, k, first, next);
    FirstFromIsPastIff(first, last, clocks[k] - 86400);
    SameMinutes(last, next, first);
  }

  /** One round of the endless loop; `date` is given when the daily cleanup is due. */
  method DoEachMinute(connector: SQLDatabaseConnector, instruments: seq<Instrument>, ghost first: int, cal: nat,
                      cleanup: bool, date: int, random: (int, int) -> seq<real>)
    requires DistinctIds(instruments) && Draws(random) && connector.batch == []
    requires first <= cal && (cal - first) % 60 == 0
    requires GapFree(connector.pricing, instruments, first, cal - 60)
    modifies connector
    ensures connector.batch == []
    ensures GapFree(connector.pricing, instruments, if cleanup then FirstFrom(first, cal, date) else first, cal)
    ensures AllOnCurve(old(connector.pricing), instruments, random) ==> AllOnCurve(connector.pricing, instruments, random)
  {
    InsertMinute(connector, instruments, first, cal, random);
    if cleanup {
      if AllOnCurve(connector.pricing, instruments, random) {
        FromKeepsCurve(connector.pricing, date, instruments, random);
      }
      CleanupKeepsSeries(connector.pricing, instruments, first, cal, date);
      connector.DeleteFromTableBeforeDate(date);
    }
  }

  /** Any number of rounds of the endless loop; `clocks` are the clock readings of its daily cleanups. After every insert the
      table is free of gaps up to the calendar's minute, whatever the cleanups removed before; they remove no minute that
      is still within a day of every clock reading, and leave no row at all only right after a cleanup that found even the
      last minute older than a day. */
  method GeneratePricingData(connector: SQLDatabaseConnector, instruments: seq<Instrument>, start: nat, ghost oldest: int,
                             rounds: nat, clocks: seq<int>, random: (int, int) -> seq<real>)
    returns (cal: nat, ghost first: int)
    requires DistinctIds(instruments) && Draws(random) && connector.batch == [] && |clocks| == rounds
    requires oldest <= start + 60 && (start - oldest) % 60 == 0 && GapFree(connector.pricing, instruments, oldest, start)
    modifies connector
    ensures cal == start + 60 * rounds && connector.batch == []
    ensures oldest <= first <= cal + 60 && (cal - first) % 60 == 0 && GapFree(connector.pricing, instruments, first, cal)
    ensures AllOnCurve(old(connector.pricing), instruments, random) ==> AllOnCurve(connector.pricing, instruments, random)
    ensures KeepsSurvivors(oldest, cal, clocks, first)
    ensures rounds > 0 ==> (cal < first <==> rounds % (MINUTES_IN_DAY + 1) == 0 && cal < clocks[rounds - 1] - 86400)
  {
    var i := 0;
    cal, first := start, oldest;
    for k := 0 to rounds
      invariant cal == start + 60 * k && connector.batch == []
      invariant oldest <= first <= cal + 60 && (cal - first) % 60 == 0 && (cal - oldest) % 60 == 0
      invariant GapFree(connector.pricing, instruments, first, cal)
      invariant AllOnCurve(old(connector.pricing), instruments, random) ==>
                  AllOnCurve(connector.pricing, instruments, random)
      invariant KeepsSurvivors(oldest, cal, clocks[..k], first)
      invariant i == k % (MINUTES_IN_DAY + 1)
      invariant k > 0 ==> (cal < first <==> i == 0 && cal < clocks[k - 1] - 86400)
    {
      OneMoreInBatch(k, MINUTES_IN_DAY + 1);
      ghost var next := NextFirst(oldest, cal + 60, clocks, k, first, i + 1 > MINUTES_IN_DAY);
      cal, i := cal + 60, i + 1;
      DoEachMinute(connector, instruments, first, cal, i > MINUTES_IN_DAY, clocks[k] - 86400, random);
      first, i := next, if i > MINUTES_IN_DAY then 0 else i;
    }
    assert clocks[..rounds] == clocks;
  }

  // ----- The latest prices -----

  function MaxTimestamp(rows: seq<Pricing>): (m: nat)
    requires rows != []
    ensures exists k :: 0 <= k < |rows| && rows[k].timestamp == m
    ensures forall k :: 0 <= k < |rows| ==> rows[k].timestamp <= m
  {
    if |rows| == 1 then rows[0].timestamp
    else
      var m := MaxTimestamp(rows[..|rows| - 1]);
      if m < rows[|rows| - 1].timestamp then rows[|rows| - 1].timestamp else m
  }

  /** The rows whose timestamp is the maximum of the table. */
  function CurrentPrices(rows: seq<Pricing>): seq<Pricing> {
    if rows == [] then [] else At(rows, MaxTimestamp(rows))
  }

  function At(rows: seq<Pricing>, timestamp: nat): seq<Pricing> {
    if rows == [] then []
    else
      At(rows[..|rows| - 1], timestamp)
        + if rows[|rows| - 1].timestamp == timestamp then [rows[|rows| - 1]] else []
  }

  lemma {:induction false} CountAt(rows: seq<Pricing>, timestamp: nat, id: int, at: int)
    ensures Count(At(rows, timestamp), id, at) == if at == timestamp then Count(rows, id, at) else 0
  {
    if rows != [] {
      var row := rows[|rows| - 1];
      CountAt(rows[..|rows| - 1], timestamp, id, at);
      CountConcat(At(rows[..|rows| - 1], timestamp), if row.timestamp == timestamp then [row] else [], id, at);
      assert [row][..0] == [];
    }
  }

  lemma {:induction false} AtAreRows(rows: seq<Pricing>, timestamp: nat)
    ensures forall row :: row in At(rows, timestamp) ==> row in rows
  {
    if rows != [] {
      AtAreRows(rows[..|rows| - 1], timestamp);
    }
  }

  lemma CurrentPricesAreRows(rows: seq<Pricing>)
    ensures forall row :: row in CurrentPrices(rows) ==> row in rows
  {
    if rows != [] {
      AtAreRows(rows, MaxTimestamp(rows));
    }
  }

  lemma {:induction false} AtIsAt(rows: seq<Pricing>, timestamp: nat)
    ensures forall k :: 0 <= k < |At(rows, timestamp)| ==> At(rows, timestamp)[k].timestamp == timestamp
  {
    if rows != [] {
      AtIsAt(rows[..|rows| - 1], timestamp);
    }
  }

  lemma {:induction false} RowIsCounted(rows: seq<Pricing>, k: nat)
    requires k < |rows|
    ensures Count(rows, rows[k].instrumentId, rows[k].timestamp) >= 1
  {
    if k < |rows| - 1 {
      RowIsCounted(rows[..|rows| - 1], k);
    }
  }

  lemma {:induction false} CountedRowExists(rows: seq<Pricing>, id: int, timestamp: int) returns (k: nat)
    requires Count(rows, id, timestamp) >= 1
    ensures k < |rows| && rows[k].instrumentId == id && rows[k].timestamp == timestamp
  {
    k := |rows| - 1;
    if rows[k].instrumentId != id || rows[k].timestamp != timestamp {
      k := CountedRowExists(rows[..|rows| - 1], id, timestamp);
    }
  }

  lemma {:induction false} TwoRowsCountTwice(rows: seq<Pricing>, j: nat, k: nat)
    requires j < k < |rows| && rows[j].instrumentId == rows[k].instrumentId && rows[j].timestamp == rows[k].timestamp
    ensures Count(rows, rows[k].instrumentId, rows[k].timestamp) >= 2
  {
    if k < |rows| - 1 {
      TwoRowsCountTwice(rows[..|rows| - 1], j, k);
    } else {
      RowIsCounted(rows[..|rows| - 1], j);
    }
  }

  ghost predicate HasRow(rows: seq<Pricing>, id: int) {
    exists k :: 0 <= k < |rows| && rows[k].instrumentId == id
  }

  ghost predicate OnePerInstrument(rows: seq<Pricing>, instruments: seq<Instrument>) {
    && (forall i :: 0 <= i < |instruments| ==> HasRow(rows, instruments[i].id))
    && (forall j, k :: 0 <= j < k < |rows| ==> rows[j].instrumentId != rows[k].instrumentId)
    && (forall k :: 0 <= k < |rows| ==> HasId(instruments, rows[k].instrumentId))
  }

  lemma LatestIsLastMinute(rows: seq<Pricing>, instruments: seq<Instrument>, first: int, last: nat)
    requires GapFree(rows, instruments, first, last) && first <= last && (last - first) % 60 == 0 && instruments != []
    ensures rows != [] && MaxTimestamp(rows) == last
  {
    assert HasId(instruments, instruments[0].id) && InGrid(first, last, last);
    var k := CountedRowExists(rows, instruments[0].id, last);
    var m := MaxTimestamp(rows);
    var j :| 0 <= j < |rows| && rows[j].timestamp == m;
    RowIsCounted(rows, j);
  }

  lemma CountOfLatest(rows: seq<Pricing>, instruments: seq<Instrument>, first: int, last: nat, id: int)
    requires GapFree(rows, instruments, first, last) && first <= last && (last - first) % 60 == 0
    ensures Count(At(rows, last), id, last) == if HasId(instruments, id) then 1 else 0
  {
    CountAt(rows, last, id, last);
    assert InGrid(first, last, last);
  }

  /** The rows of the last minute: one per instrument. */
  lemma LastMinuteIsOnePerInstrument(rows: seq<Pricing>, instruments: seq<Instrument>, first: int, last: nat)
    requires GapFree(rows, instruments, first, last) && first <= last && (last - first) % 60 == 0
    ensures OnePerInstrument(At(rows, last), instruments)
  {
    var latest := At(rows, last);
    AtIsAt(rows, last);
    forall i | 0 <= i < |instruments| ensures HasRow(latest, instruments[i].id) {
      CountOfLatest(rows, instruments, first, last, instruments[i].id);
      assert HasId(instruments, instruments[i].id);
      var k := CountedRowExists(latest, instruments[i].id, last);
      assert latest[k].instrumentId == instruments[i].id;
    }
    forall k | 0 <= k < |latest| ensures HasId(instruments, latest[k].instrumentId) {
      CountOfLatest(rows, instruments, first, last, latest[k].instrumentId);
      RowIsCounted(latest, k);
    }
    forall j, k | 0 <= j < k < |latest| ensures latest[j].instrumentId != latest[k].instrumentId {
      CountOfLatest(rows, instruments, first, last, latest[k].instrumentId);
      if latest[j].instrumentId == latest[k].instrumentId {
        TwoRowsCountTwice(latest, j, k);
      }
    }
  }

  /** In a table without gaps, the rows with the maximum timestamp are one row per instrument, all of the last minute: a
      dictionary by instrument has no key twice and misses none. */
  lemma LatestPricesAreOnePerInstrument(rows: seq<Pricing>, instruments: seq<Instrument>, first: int, last: nat)
    requires GapFree(rows, instruments, first, last) && first <= last && (last - first) % 60 == 0
    ensures OnePerInstrument(CurrentPrices(rows), instruments)
    ensures forall k :: 0 <= k < |CurrentPrices(rows)| ==> CurrentPrices(rows)[k].timestamp == last
  {
    if instruments == [] {
      NoRows(rows, instruments, first, last);
    } else {
      LatestIsLastMinute(rows, instruments, first, last);
      LastMinuteIsOnePerInstrument(rows, instruments, first, last);
      AtIsAt(rows, last);
    }
  }

  /** The latest price of an instrument opens and closes on that instrument's own curve, at the last minute. */
  lemma LatestPriceIsOnCurve(rows: seq<Pricing>, instruments: seq<Instrument>, first: int, last: nat,
                             random: (int, int) -> seq<real>, n: nat, k: nat)
    requires GapFree(rows, instruments, first, last) && first <= last && (last - first) % 60 == 0
    requires DistinctIds(instruments) && AllOnCurve(rows, instruments, random) && n < |instruments|
    requires k < |CurrentPrices(rows)| && CurrentPrices(rows)[k].instrumentId == instruments[n].id
    ensures var price := CurrentPrices(rows)[k];
      && price.timestamp == last
      && price.open == PrecisePrice(last % DAY, instruments[n]) && price.close == PrecisePrice(last % DAY + 60, instruments[n])
  {
    var price := CurrentPrices(rows)[k];
    LatestPricesAreOnePerInstrument(rows, instruments, first, last);
    CurrentPricesAreRows(rows);
    assert price in rows;
    var g :| 0 <= g < |instruments| && IsCandleFor(price, instruments[g], random);
    assert instruments[g].id == instruments[n].id;
    assert g == n;
  }

  lemma NoRows(rows: seq<Pricing>, instruments: seq<Instrument>, first: int, last: int)
    requires GapFree(rows, instruments, first, last) && instruments == []
    ensures rows == []
  {
    if rows != [] {
      RowIsCounted(rows, 0);
    }
  }
}
