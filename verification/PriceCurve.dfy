/** The daily price curve and the minute candles drawn around it, over exact reals. Time is in whole seconds. */
module PriceCurve {
  const H3 := 10800
  const DAY := 86400

  /** The price at each third hour, and the smallest spread of a candle. */
  datatype Instrument = Instrument(id: int, time0: real, time3: real, time6: real, time9: real, time12: real, time15: real,
                                   time18: real, time21: real, baseDifference: real)

  datatype Pricing = Pricing(timestamp: nat, instrumentId: int, open: real, high: real, low: real, close: real)

  function PrecisePrice(time: nat, i: Instrument): real {
    if time == 0 || time == DAY then i.time0
    else if time <= H3 then Along(i.time0, i.time3, time)
    else if time <= 2 * H3 then Along(i.time3, i.time6, time - H3)
    else if time <= 3 * H3 then Along(i.time6, i.time9, time - 2 * H3)
    else if time <= 4 * H3 then Along(i.time9, i.time12, time - 3 * H3)
    else if time <= 5 * H3 then Along(i.time12, i.time15, time - 4 * H3)
    else if time <= 6 * H3 then Along(i.time15, i.time18, time - 5 * H3)
    else if time <= 7 * H3 then Along(i.time18, i.time21, time - 6 * H3)
    else Along(i.time21, i.time0, time - 7 * H3)
  }

  function Along(startValue: real, endValue: real, sectionTime: int): real {
    startValue + Move(Step(startValue, endValue), sectionTime)
  }

  function Step(startValue: real, endValue: real): real {
    (endValue - startValue) / 10800.0
  }

  function Move(step: real, seconds: int): real {
    step * seconds as real
  }

  // ----- The shape of the curve -----

  /** The nine corners of a day; the last is the first of the next day. */
  function Knot(i: Instrument, k: nat): real
    requires k <= 8
  {
    match k
    case 0 => i.time0
    case 1 => i.time3
    case 2 => i.time6
    case 3 => i.time9
    case 4 => i.time12
    case 5 => i.time15
    case 6 => i.time18
    case 7 => i.time21
    case 8 => i.time0
  }

  /** On each closed section of three hours the curve is the line between its corners. Neighbouring sections share their
      corner, so the curve has no jump anywhere in the day. */
  lemma CurveIsLinearOnSections(i: Instrument, k: nat, time: nat)
    requires k < 8 && k * H3 <= time <= (k + 1) * H3
    ensures PrecisePrice(time, i) == Along(Knot(i, k), Knot(i, k + 1), time - k * H3)
  {
    LineEnds(Knot(i, k), Knot(i, k + 1));
    if k > 0 {
      LineEnds(Knot(i, k - 1), Knot(i, k));
    }
  }

  lemma LineEnds(a: real, b: real)
    ensures Along(a, b, 0) == a && Along(a, b, H3) == b
  {
    assert Step(a, b) * 10800.0 == b - a;
  }

  function Min(a: real, b: real): real {
    if a <= b then a else b
  }

  function Max(a: real, b: real): real {
    if a <= b then b else a
  }

  function Abs(a: real): real {
    if a < 0.0 then -a else a
  }

  lemma LineStaysBetween(a: real, b: real, t: int)
    requires 0 <= t <= H3
    ensures Min(a, b) <= Along(a, b, t) <= Max(a, b)
  {
    LineEnds(a, b);
    if a <= b {
      MoreIsFurther(Step(a, b), 0, t);
      MoreIsFurther(Step(a, b), t, H3);
    } else {
      MoreIsLower(Step(a, b), 0, t);
      MoreIsLower(Step(a, b), t, H3);
    }
  }

  lemma MoreIsFurther(step: real, s: int, t: int)
    requires 0.0 <= step && s <= t
    ensures Move(step, s) <= Move(step, t)
  {
    MovesAdd(step, s, t - s);
    assert 0.0 <= step * (t - s) as real;
  }

  lemma MoreIsLower(step: real, s: int, t: int)
    requires step <= 0.0 && s <= t
    ensures Move(step, t) <= Move(step, s)
  {
    MovesAdd(step, s, t - s);
    assert step * (t - s) as real <= 0.0;
  }

  lemma MovesAdd(step: real, s: int, t: int)
    ensures Move(step, s + t) == Move(step, s) + Move(step, t)
  {
    assert (s + t) as real == s as real + t as real;
  }

  /** The curve never leaves the range of the two corners around it. */
  lemma CurveStaysBetweenKnots(i: Instrument, k: nat, time: nat)
    requires k < 8 && k * H3 <= time <= (k + 1) * H3
    ensures Min(Knot(i, k), Knot(i, k + 1)) <= PrecisePrice(time, i) <= Max(Knot(i, k), Knot(i, k + 1))
  {
    CurveIsLinearOnSections(i, k, time);
    LineStaysBetween(Knot(i, k), Knot(i, k + 1), time - k * H3);
  }

  /** Within a section the price moves evenly: no second moves it by more than its share of the way between the corners. */
  lemma CurveMovesEvenly(i: Instrument, k: nat, time: nat)
    requires k < 8 && k * H3 <= time < (k + 1) * H3
    ensures PrecisePrice(time + 1, i) - PrecisePrice(time, i) == Step(Knot(i, k), Knot(i, k + 1))
  {
    CurveIsLinearOnSections(i, k, time);
    CurveIsLinearOnSections(i, k, time + 1);
    LineSteps(Knot(i, k), Knot(i, k + 1), time - k * H3);
  }

  lemma LineSteps(a: real, b: real, t: int)
    ensures Along(a, b, t + 1) - Along(a, b, t) == Step(a, b)
  {
    MovesAdd(Step(a, b), t, 1);
  }

  ghost predicate NoSteeperThan(i: Instrument, m: real) {
    forall k :: 0 <= k < 8 ==> Abs(Step(Knot(i, k), Knot(i, k + 1))) <= m
  }

  /** The curve is continuous over the whole day: two instants are never further apart in price than the steepest section
      allows. */
  lemma {:induction false} CurveIsContinuous(i: Instrument, m: real, s: nat, t: nat)
    requires s <= t <= DAY && NoSteeperThan(i, m)
    ensures Abs(PrecisePrice(t, i) - PrecisePrice(s, i)) <= Move(m, t - s)
  {
    if s < t {
      CurveIsContinuous(i, m, s, t - 1);
      var k := (t - 1) / H3;
      CurveMovesEvenly(i, k, t - 1);
      assert Abs(Step(Knot(i, k), Knot(i, k + 1))) <= m;
      MovesAdd(m, t - 1 - s, 1);
    }
  }

  // ----- Candles -----

  /** Random draws lie in 0..1. */
  ghost predicate AreDraws(draws: seq<real>) {
    |draws| == 60 && forall k :: 0 <= k < |draws| ==> 0.0 <= draws[k] < 1.0
  }

  function Spread(open: real, close: real, baseDifference: real): real {
    Max(close - open, baseDifference)
  }

  function Sample(open: real, difference: real, draw: real): real {
    open + (draw * 4.0 - 2.0) * difference
  }

  /** The largest value, as the collection's maximum. */
  function Largest(values: seq<real>): (m: real)
    requires values != []
    ensures m in values && forall k :: 0 <= k < |values| ==> values[k] <= m
  {
    if |values| == 1 then values[0] else Max(Largest(values[..|values| - 1]), values[|values| - 1])
  }

  function Smallest(values: seq<real>): (m: real)
    requires values != []
    ensures m in values && forall k :: 0 <= k < |values| ==> m <= values[k]
  {
    if |values| == 1 then values[0] else Min(Smallest(values[..|values| - 1]), values[|values| - 1])
  }

  function Samples(open: real, difference: real, draws: seq<real>): seq<real> {
    seq(|draws|, k requires 0 <= k < |draws| => Sample(open, difference, draws[k]))
  }

  /** What a candle promises: it opens and closes on the curve, its extremes are the extremes of the samples, the opening
      and the closing price. */
  ghost predicate IsCandle(c: Pricing, time: nat, i: Instrument, draws: seq<real>) {
    && c.instrumentId == i.id && c.open == PrecisePrice(time, i) && c.close == PrecisePrice(time + 60, i)
    && var values := Samples(c.open, Spread(c.open, c.close, i.baseDifference), draws) + [c.open, c.close];
       && c.high in values && c.low in values
       && forall k :: 0 <= k < |values| ==> c.low <= values[k] <= c.high
  }

  method GenerateCandleData(time: nat, instrument: Instrument, draws: seq<real>) returns (candle: Pricing)
    requires AreDraws(draws)
    ensures IsCandle(candle, time, instrument, draws)
  {
    var opening, closing := PrecisePrice(time, instrument), PrecisePrice(time + 60, instrument);
    var difference := closing - opening;
    if difference < instrument.baseDifference {
      difference := instrument.baseDifference;
    }
    var valueList: seq<real> := [];
    for k := 0 to 60
      invariant |valueList| == k && forall j :: 0 <= j < k ==> valueList[j] == Sample(opening, difference, draws[j])
    {
      valueList := valueList + [Sample(opening, difference, draws[k])];
    }
    candle := Pricing(13, instrument.id, opening, Max(Max(Largest(valueList), opening), closing),
                      Min(Min(Smallest(valueList), opening), closing), closing);
    assert difference == Spread(opening, closing, instrument.baseDifference);
    CandleOfSamples(candle, time, instrument, draws, valueList);
  }

  lemma CandleOfSamples(c: Pricing, time: nat, i: Instrument, draws: seq<real>, values: seq<real>)
    requires c.instrumentId == i.id && c.open == PrecisePrice(time, i) && c.close == PrecisePrice(time + 60, i)
    requires values == Samples(c.open, Spread(c.open, c.close, i.baseDifference), draws) && values != []
    requires c.high == Max(Max(Largest(values), c.open), c.close)
    requires c.low == Min(Min(Smallest(values), c.open), c.close)
    ensures IsCandle(c, time, i, draws)
  {
    ExtremesOfAll(values, c.open, c.close);
  }

  lemma ExtremesOfAll(values: seq<real>, a: real, b: real)
    requires values != []
    ensures var all := values + [a, b];
      var high, low := Max(Max(Largest(values), a), b), Min(Min(Smallest(values), a), b);
      && high in all && low in all && forall k :: 0 <= k < |all| ==> low <= all[k] <= high
  {
    var all := values + [a, b];
    assert all[|values|] == a && all[|values| + 1] == b;
    assert Largest(values) in all && Smallest(values) in all;
    forall k | 0 <= k < |all|
      ensures Min(Min(Smallest(values), a), b) <= all[k] <= Max(Max(Largest(values), a), b)
    {
      if k < |values| {
        assert all[k] == values[k];
      }
    }
  }

  /** A sample grows with its draw, from two spreads below the opening price up to, and short of, two spreads above it. */
  lemma SampleGrows(open: real, difference: real, draw: real, higher: real)
    requires 0.0 < difference && draw < higher
    ensures Sample(open, difference, draw) < Sample(open, difference, higher)
    ensures Sample(open, difference, 0.0) == open - 2.0 * difference
    ensures Sample(open, difference, 0.5) == open
    ensures Sample(open, difference, 1.0) == open + 2.0 * difference
  {
    assert (higher - draw) * difference > 0.0;
    assert Sample(open, difference, higher) - Sample(open, difference, draw) == 4.0 * ((higher - draw) * difference);
  }

  lemma SampleIsNear(open: real, difference: real, draw: real)
    requires 0.0 <= difference && 0.0 <= draw < 1.0
    ensures open - 2.0 * difference <= Sample(open, difference, draw) <= open + 2.0 * difference
  {
    var swing := draw * 4.0 - 2.0;
    assert -2.0 <= swing <= 2.0;
    SwingIsBounded(swing, difference);
  }

  lemma SwingIsBounded(swing: real, difference: real)
    requires 0.0 <= difference && -2.0 <= swing <= 2.0
    ensures -2.0 * difference <= swing * difference <= 2.0 * difference
  {
    assert (2.0 - swing) * difference >= 0.0;
    assert (swing + 2.0) * difference >= 0.0;
  }

  /** The shape of every candle: it holds its opening and closing price, and no price in it is further than twice the spread
      from the opening price, except for a close that falls by more. */
  lemma CandleShape(c: Pricing, time: nat, i: Instrument, draws: seq<real>)
    requires IsCandle(c, time, i, draws) && AreDraws(draws) && 0.0 <= i.baseDifference
    ensures c.low <= c.open <= c.high && c.low <= c.close <= c.high
    ensures var reach := 2.0 * Spread(c.open, c.close, i.baseDifference);
      c.high <= c.open + reach && Min(c.open - reach, c.close) <= c.low
  {
    var d := Spread(c.open, c.close, i.baseDifference);
    var samples := Samples(c.open, d, draws);
    var values := samples + [c.open, c.close];
    assert values[60] == c.open && values[61] == c.close;
    forall k | 0 <= k < |values|
      ensures Min(c.open - 2.0 * d, c.close) <= values[k] <= c.open + 2.0 * d
    {
      if k < 60 {
        assert values[k] == samples[k] == Sample(c.open, d, draws[k]);
        SampleIsNear(c.open, d, draws[k]);
      }
    }
  }

  /** The close of the candle that starts at this second of the day is the open of the next one, except when the candle
      runs past midnight and the curve has a corner there: beyond midnight the last section is prolonged. */
  lemma CandlesJoinIff(i: Instrument, time: nat)
    requires time < DAY
    ensures PrecisePrice(time + 60, i) == PrecisePrice((time + 60) % DAY, i)
       <==> time + 60 <= DAY || i.time0 - i.time21 == i.time3 - i.time0
  {
    if time + 60 > DAY {
      var x := time + 60 - DAY;
      assert (time + 60) % DAY == x && 0 < x < 60;
      assert PrecisePrice(time + 60, i) == Along(i.time21, i.time0, H3 + x);
      assert PrecisePrice(x, i) == Along(i.time0, i.time3, x);
      MidnightIff(i.time21, i.time0, i.time3, x);
    }
  }

  /** A candle that starts half a minute before midnight, where a flat evening meets a rising night, closes on no move at all
      while the next one opens thirty cents higher. */
  lemma CandleCanMissTheNext()
    ensures var i := Instrument(1, 5.0, 113.0, 5.0, 5.0, 5.0, 5.0, 5.0, 5.0, 0.0);
      PrecisePrice(86370 + 60, i) == 5.0 && PrecisePrice((86370 + 60) % DAY, i) == 5.3
  {
    assert Step(5.0, 5.0) == 0.0 && Step(5.0, 113.0) == 0.01;
  }

  lemma MidnightIff(a: real, b: real, c: real, x: nat)
    requires x > 0
    ensures Along(a, b, H3 + x) == Along(b, c, x) <==> b - a == c - b
  {
    var p, q := Step(a, b), Step(b, c);
    LineEnds(a, b);
    MovesAdd(p, H3, x);
    assert p == q <==> b - a == c - b;
    if p < q {
      SteeperIsAhead(p, q, x);
    } else if q < p {
      SteeperIsAhead(q, p, x);
    }
  }

  lemma {:induction false} SteeperIsAhead(p: real, q: real, x: nat)
    requires p < q && x > 0
    ensures Move(p, x) < Move(q, x)
  {
    assert Move(p, 1) == p && Move(q, 1) == q;
    if x > 1 {
      SteeperIsAhead(p, q, x - 1);
      MovesAdd(p, x - 1, 1);
      MovesAdd(q, x - 1, 1);
    }
  }

  lemma SameSecondOfDay(date: nat, passed: nat)
    ensures (date % DAY + passed) % DAY == (date + passed) % DAY
  {
    assert date + passed == DAY * (date / DAY) + (date % DAY + passed);
    var q, r := (date % DAY + passed) / DAY, (date % DAY + passed) % DAY;
    assert date + passed == DAY * (date / DAY + q) + r;
  }

  /** A candle whose timestamp was set afterwards is still that candle. */
  ghost predicate IsCandleAt(c: Pricing, timestamp: nat, i: Instrument, draws: seq<real>) {
    c.timestamp == timestamp && IsCandle(c, timestamp % DAY, i, draws)
  }

  lemma StampedCandle(c: Pricing, timestamp: nat, time: nat, i: Instrument, draws: seq<real>)
    requires IsCandle(c, time, i, draws) && time == timestamp % DAY
    ensures IsCandleAt(c.(timestamp := timestamp), timestamp, i, draws)
  {
  }

  /** `date` counts seconds; `draws` holds the sixty draws of each candle. */
  method GenerateMassivePricingData(date: nat, count: nat, instrument: Instrument, draws: seq<seq<real>>)
    returns (data: seq<Pricing>)
    requires |draws| == count && forall k :: 0 <= k < count ==> AreDraws(draws[k])
    ensures |data| == count
    ensures forall k :: 0 <= k < count ==> IsCandleAt(data[k], date + 60 * k, instrument, draws[k])
  {
    var time, now := date % DAY, date;
    data := [];
    for k := 0 to count
      invariant |data| == k && now == date + 60 * k && time == date % DAY + 60 * k
      invariant forall j :: 0 <= j < k ==> IsCandleAt(data[j], date + 60 * j, instrument, draws[j])
    {
      SameSecondOfDay(date, 60 * k);
      var candle := GenerateCandleData(time % DAY, instrument, draws[k]);
      StampedCandle(candle, now, time % DAY, instrument, draws[k]);
      data := data + [candle.(timestamp := now)];
      time, now := time + 60, now + 60;
    }
  }

  /** In a generated series, each close is the next open if and only if the candle does not run past midnight or the curve
      is straight there. A series that starts on a full minute always joins. */
  lemma SeriesJoinsIff(a: Pricing, b: Pricing, at: nat, i: Instrument, drawsA: seq<real>, drawsB: seq<real>)
    requires IsCandleAt(a, at, i, drawsA) && IsCandleAt(b, at + 60, i, drawsB)
    ensures a.close == b.open <==> at % DAY + 60 <= DAY || i.time0 - i.time21 == i.time3 - i.time0
    ensures at % 60 == 0 ==> a.close == b.open
  {
    EndsOf(a, at, i, drawsA);
    EndsOf(b, at + 60, i, drawsB);
    PricesJoinIff(a.close, b.open, at, i);
  }

  lemma EndsOf(c: Pricing, at: nat, i: Instrument, draws: seq<real>)
    requires IsCandleAt(c, at, i, draws)
    ensures c.open == PrecisePrice(at % DAY, i) && c.close == PrecisePrice(at % DAY + 60, i)
  {
  }

  lemma PricesJoinIff(close: real, open: real, at: nat, i: Instrument)
    requires close == PrecisePrice(at % DAY + 60, i) && open == PrecisePrice((at + 60) % DAY, i)
    ensures close == open <==> at % DAY + 60 <= DAY || i.time0 - i.time21 == i.time3 - i.time0
    ensures at % 60 == 0 ==> close == open
  {
    SameSecondOfDay(at, 60);
    CandlesJoinIff(i, at % DAY);
    FullMinuteHasRoom(at);
  }

  /** A full minute ends within its day. */
  lemma FullMinuteHasRoom(at: nat)
    ensures at % 60 == 0 ==> at % DAY + 60 <= DAY
  {
    var day := at / DAY;
    assert at % DAY == at - 60 * (1440 * day);
    assert (at - 60 * (1440 * day)) % 60 == at % 60;
  }
}
