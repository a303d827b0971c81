/** Periods cut into slices of whole microseconds, and the action timestamps drawn inside them. */
module Timeframe {

  datatype TimePeriod = TimePeriod(start: int, end: int)

  function Delta(p: TimePeriod): int {
    p.end - p.start
  }

  /** Division of a time span by a positive number: to the nearest microsecond, halves to the even one. */
  function DivideRounded(a: int, b: nat): int
    requires b > 0
  {
    var q, r := a / b, a % b;
    if 2 * r > b || (2 * r == b && q % 2 == 1) then q + 1 else q
  }

  function Boundary(p: TimePeriod, parts: nat, i: nat): int
    requires parts > 0 && i <= parts
  {
    if i == parts then p.end else p.start + i * DivideRounded(Delta(p), parts)
  }

  function Slice(p: TimePeriod, parts: int): seq<TimePeriod> {
    if parts <= 0 then []
    else seq(parts, i requires 0 <= i < parts => TimePeriod(Boundary(p, parts, i), Boundary(p, parts, i + 1)))
  }

  /** Whole intervals from the start; what is left at the end is dropped. */
  function SliceWithInterval(p: TimePeriod, interval: nat): seq<TimePeriod>
    requires interval > 0
  {
    var ratio := Delta(p) / interval;
    if ratio <= 0 then []
    else seq(ratio, i requires 0 <= i < ratio => TimePeriod(p.start + i * interval, p.start + (i + 1) * interval))
  }

  // ----- Slices -----

  /** Each period ends where the next one starts. */
  ghost predicate Contiguous(s: seq<TimePeriod>) {
    forall i :: 0 < i < |s| ==> s[i - 1].end == s[i].start
  }

  ghost predicate NoneNegative(s: seq<TimePeriod>) {
    forall i :: 0 <= i < |s| ==> s[i].start <= s[i].end
  }

  lemma Times(i: int, interval: int)
    ensures (i + 1) * interval == i * interval + interval
  {
  }

  lemma SliceLength(p: TimePeriod, parts: nat, i: nat)
    requires i + 1 < parts
    ensures Delta(Slice(p, parts)[i]) == DivideRounded(Delta(p), parts)
  {
    Times(i, DivideRounded(Delta(p), parts));
  }

  function LastLength(length: int, parts: nat): int
    requires parts > 0
  {
    length - (parts - 1) * DivideRounded(length, parts)
  }

  lemma LastSliceLength(p: TimePeriod, parts: nat)
    requires parts > 0
    ensures Delta(Slice(p, parts)[parts - 1]) == LastLength(Delta(p), parts)
  {
    var before := (parts - 1) * DivideRounded(Delta(p), parts);
    assert Slice(p, parts)[parts - 1] == TimePeriod(p.start + before, p.end);
  }

  lemma SlicesFollowEachOther(p: TimePeriod, parts: nat)
    requires parts > 0
    ensures var s := Slice(p, parts);
      |s| == parts && s[0].start == p.start && s[parts - 1].end == p.end && Contiguous(s)
  {
    assert 0 * DivideRounded(Delta(p), parts) == 0;
  }

  lemma LastLengthDiffers(length: int, parts: nat)
    requires parts > 0
    ensures -(parts as int) <= 2 * (LastLength(length, parts) - DivideRounded(length, parts)) <= parts
  {
    var q := DivideRounded(length, parts);
    RoundingError(length, parts);
    Times(parts - 1, q);
    assert parts * q == (parts - 1) * q + q;
  }

  /** Slices cover the period without gap or overlap, and no two of them differ by more than half their number. */
  lemma SlicesCoverThePeriod(p: TimePeriod, parts: nat)
    requires parts > 0
    ensures var s := Slice(p, parts);
      && |s| == parts && s[0].start == p.start && s[parts - 1].end == p.end && Contiguous(s)
      && (forall i :: 0 <= i < parts - 1 ==> Delta(s[i]) == DivideRounded(Delta(p), parts))
      && -(parts as int) <= 2 * (Delta(s[parts - 1]) - DivideRounded(Delta(p), parts)) <= parts
  {
    forall i | 0 <= i < parts - 1 ensures Delta(Slice(p, parts)[i]) == DivideRounded(Delta(p), parts) {
      SliceLength(p, parts, i);
    }
    SlicesFollowEachOther(p, parts);
    LastSliceLength(p, parts);
    LastLengthDiffers(Delta(p), parts);
  }

  /** The rounded quotient is the nearest integer, and the even one of two equally near: this pins it down. */
  lemma RoundsToNearestEven(a: int, b: nat, q: int)
    requires b > 0
    ensures q == DivideRounded(a, b) <==> IsNearestEven(a, b, q)
  {
    var p, r := a / b, a % b;
    assert a == b * p + r;
    assert b * (p + 1) == b * p + b;
    if IsNearestEven(a, b, q) {
      BetweenNeighbours(b, q - p, r);
      assert b * (q - p) == b * q - b * p;
    }
  }

  ghost predicate IsNearestEven(a: int, b: nat, q: int) {
    var error := 2 * (a - b * q);
    -(b as int) <= error <= b && (error == b || error == -(b as int) ==> q % 2 == 0)
  }

  lemma BetweenNeighbours(b: nat, d: int, r: nat)
    requires b > 0 && r < b && -(b as int) <= 2 * (r - b * d) <= b
    ensures d == 0 || d == 1
  {
    if d > 1 {
      TimesMonotone(b, 2, d);
    } else if d < 0 {
      TimesMonotone(b, d, -1);
    }
  }

  lemma RoundingError(a: int, b: nat)
    requires b > 0
    ensures -(b as int) <= 2 * (a - b * DivideRounded(a, b)) <= b
  {
    RoundsToNearestEven(a, b, DivideRounded(a, b));
  }

  predicate RoundsUp(length: int, parts: nat)
    requires parts > 0
  {
    DivideRounded(length, parts) != length / parts
  }

  lemma LastLengthIs(length: int, parts: nat)
    requires parts > 0
    ensures LastLength(length, parts)
         == length / parts + length % parts - if RoundsUp(length, parts) then parts - 1 else 0
  {
    var q, r := length / parts, length % parts;
    assert length == parts * q + r;
    assert (parts - 1) * q == parts * q - q;
    assert (parts - 1) * (q + 1) == (parts - 1) * q + (parts - 1);
  }

  lemma QuotientSign(length: int, parts: nat)
    requires parts > 0
    ensures 0 <= length ==> 0 <= length / parts
    ensures length < 0 ==> length / parts < 0
  {
  }

  /** No slice is negative exactly when the period is not, and the division rounds down or leaves enough for the last slice
      to give a microsecond to each of the others. */
  lemma NoSliceIsNegativeIff(p: TimePeriod, parts: nat)
    requires parts > 0
    ensures var length := Delta(p);
      var enough := !RoundsUp(length, parts) || parts - 1 <= length / parts + length % parts;
      NoneNegative(Slice(p, parts)) <==> 0 <= length && enough
  {
    var length, s := Delta(p), Slice(p, parts);
    SlicesCoverThePeriod(p, parts);
    LastSliceLength(p, parts);
    LastLengthIs(length, parts);
    QuotientSign(length, parts);
    if 0 <= length {
      assert NoneNegative(s) <==> 0 <= LastLength(length, parts);
    } else {
      NegativeHasNegativeSlice(length, parts);
      var k := if LastLength(length, parts) < 0 then parts - 1 else 0;
      assert Delta(s[k]) < 0;
    }
  }

  lemma NegativeHasNegativeSlice(length: int, parts: nat)
    requires parts > 0 && length < 0
    ensures LastLength(length, parts) < 0 || (parts > 1 && DivideRounded(length, parts) < 0)
  {
    var q := DivideRounded(length, parts);
    if parts > 1 && q >= 0 {
      assert (parts - 1) * q >= 0;
    }
  }

  /** A period of at least parts * (parts - 1) / 2 microseconds has no negative slice. */
  lemma LongEnough(p: TimePeriod, parts: nat)
    requires parts > 0 && parts * (parts - 1) <= 2 * (p.end - p.start)
    ensures NoneNegative(Slice(p, parts))
  {
    NoSliceIsNegativeIff(p, parts);
    RoomIsNotNegative(Delta(p), parts);
    RoomForTheLast(Delta(p), parts);
  }

  predicate HasRoom(length: int, parts: nat) {
    parts * (parts - 1) <= 2 * length
  }

  lemma RoomIsNotNegative(length: int, parts: nat)
    requires parts > 0 && HasRoom(length, parts)
    ensures 0 <= length
  {
    TimesMonotone(parts, 0, parts - 1);
  }

  lemma RoomForTheLast(length: int, parts: nat)
    requires parts > 0 && HasRoom(length, parts)
    ensures RoundsUp(length, parts) ==> parts - 1 <= length / parts + length % parts
  {
    if RoundsUp(length, parts) {
      EnoughForTheLast(length, parts, length / parts, length % parts);
    }
  }

  lemma EnoughForTheLast(length: int, parts: nat, q: int, r: nat)
    requires parts > 0 && length == parts * q + r && parts <= 2 * r && parts * (parts - 1) <= 2 * length
    ensures parts - 1 <= q + r
  {
    var d := parts - 1;
    var x := q + r - d;
    TimesMonotone(d, parts, 2 * r);
    assert parts * x == parts * q + parts * r - parts * d;
    assert parts * r == d * r + r;
    assert d * (2 * r) == 2 * (d * r) && d * parts == parts * d;
    assert 0 <= 2 * (parts * x);
    NegativeTimes(parts, x);
  }

  lemma TimesMonotone(k: nat, a: int, b: int)
    requires a <= b
    ensures k * a <= k * b
  {
    assert k * b == k * a + k * (b - a);
  }

  lemma NegativeTimes(k: nat, x: int)
    requires k > 0 && 0 <= k * x
    ensures 0 <= x
  {
  }

  /** Three microseconds cannot be cut into five: the first four slices take four. */
  lemma ShortPeriodHasNegativeSlice()
    ensures Slice(TimePeriod(0, 3), 5)[4] == TimePeriod(4, 3)
  {
  }

  // ----- Timestamps -----

  /** One timestamp per period, inside it. */
  ghost predicate DrawnFrom(stamps: seq<int>, periods: seq<TimePeriod>) {
    |stamps| == |periods| && forall i :: 0 <= i < |stamps| ==> periods[i].start <= stamps[i] <= periods[i].end
  }

  ghost predicate NonDecreasing(stamps: seq<int>) {
    forall i, j :: 0 <= i <= j < |stamps| ==> stamps[i] <= stamps[j]
  }

  lemma {:induction false} DrawsAreOrdered(stamps: seq<int>, periods: seq<TimePeriod>, i: nat, j: nat)
    requires DrawnFrom(stamps, periods) && Contiguous(periods) && NoneNegative(periods) && i <= j < |stamps|
    ensures stamps[i] <= stamps[j] && (i < j ==> periods[i].end <= periods[j].start)
  {
    if i < j {
      DrawsAreOrdered(stamps, periods, i, j - 1);
      assert periods[j - 1].end == periods[j].start;
    }
  }

  /** The slices of all the days, in order. */
  function AllSlices(days: seq<TimePeriod>, parts: int): seq<TimePeriod> {
    if days == [] then [] else AllSlices(days[..|days| - 1], parts) + Slice(days[|days| - 1], parts)
  }

  ghost predicate DaysHold(days: seq<TimePeriod>, parts: nat) {
    forall i :: 0 <= i < |days| ==> HasRoom(Delta(days[i]), parts)
  }

  /** A list of periods from `start` to `end` without gap, overlap or negative length. */
  ghost predicate Covers(s: seq<TimePeriod>, start: int, end: int) {
    s != [] && s[0].start == start && s[|s| - 1].end == end && Contiguous(s) && NoneNegative(s)
  }

  lemma CoversJoin(s: seq<TimePeriod>, t: seq<TimePeriod>, start: int, middle: int, end: int)
    requires Covers(s, start, middle) && Covers(t, middle, end)
    ensures Covers(s + t, start, end)
  {
  }

  lemma SliceCovers(p: TimePeriod, parts: nat)
    requires parts > 0 && HasRoom(Delta(p), parts)
    ensures Covers(Slice(p, parts), p.start, p.end) && |Slice(p, parts)| == parts
  {
    SlicesCoverThePeriod(p, parts);
    LongEnough(p, parts);
  }

  lemma {:induction false} AllSlicesCover(days: seq<TimePeriod>, parts: nat)
    requires parts > 0 && days != [] && Contiguous(days) && DaysHold(days, parts)
    ensures Covers(AllSlices(days, parts), days[0].start, days[|days| - 1].end)
    ensures |AllSlices(days, parts)| == parts * |days|
  {
    var n := |days| - 1;
    SliceCovers(days[n], parts);
    var s, t := AllSlices(days[..n], parts), Slice(days[n], parts);
    if n == 0 {
      assert s + t == t;
    } else {
      AllSlicesCover(days[..n], parts);
      assert days[n - 1].end == days[n].start;
      CoversJoin(s, t, days[0].start, days[n].start, days[n].end);
      Times(n, parts);
      assert parts * |days| == parts * n + parts;
    }
  }

  /** The whole intervals follow each other inside the period. */
  lemma IntervalsFit(p: TimePeriod, interval: nat)
    requires interval > 0
    ensures var days := SliceWithInterval(p, interval);
      && Contiguous(days)
      && (forall i :: 0 <= i < |days| ==> Delta(days[i]) == interval && p.start <= days[i].start && days[i].end <= p.end)
      && (0 <= Delta(p) ==> |days| * interval <= Delta(p) < (|days| + 1) * interval)
      && (Delta(p) < 0 ==> days == [])
  {
    var days, ratio := SliceWithInterval(p, interval), Delta(p) / interval;
    WholeIntervals(Delta(p), interval);
    forall i | 0 <= i < |days|
      ensures Delta(days[i]) == interval && p.start <= days[i].start && days[i].end <= p.end
    {
      Times(i, interval);
      TimesMonotone(interval, 0, i);
      TimesMonotone(interval, i + 1, ratio);
    }
  }

  lemma WholeIntervals(length: int, interval: nat)
    requires interval > 0
    ensures length / interval * interval <= length < (length / interval + 1) * interval
    ensures 0 <= length ==> 0 <= length / interval
  {
    Times(length / interval, interval);
  }

  /** Timestamps drawn in the slices of every whole day of a period never go back, stay inside the period, and are as many
      as there are days and actions, when a day has room for its actions. */
  lemma TimestampsNeverGoBack(p: TimePeriod, day: nat, actions: nat, stamps: seq<int>)
    requires day > 0 && actions > 0 && HasRoom(day, actions)
    requires DrawnFrom(stamps, AllSlices(SliceWithInterval(p, day), actions))
    ensures |stamps| == actions * |SliceWithInterval(p, day)|
    ensures NonDecreasing(stamps)
    ensures forall i :: 0 <= i < |stamps| ==> p.start <= stamps[i] <= p.end
  {
    var days := SliceWithInterval(p, day);
    IntervalsFit(p, day);
    if days != [] {
      var periods := AllSlices(days, actions);
      AllSlicesCover(days, actions);
      forall i, j | 0 <= i <= j < |stamps| ensures stamps[i] <= stamps[j] {
        DrawsAreOrdered(stamps, periods, i, j);
      }
      forall i | 0 <= i < |stamps| ensures p.start <= stamps[i] <= p.end {
        DrawsAreOrdered(stamps, periods, 0, i);
        DrawsAreOrdered(stamps, periods, i, |stamps| - 1);
      }
    }
  }
}
