/** The feed on timestamps as they are printed: a date, a time and a zone. Rows in universal time are all kept and read back;
    a row with a character the consumer does not know, such as the sign of an eastern zone, is discarded. */
module PriceFeedDates {
  import opened Wrappers
  import opened PriceFeed
  import opened PriceFeedRoundTrip

  // ----- Timestamps -----

  datatype Moment = Moment(year: nat, month: nat, day: nat, hour: nat, minute: nat, second: nat, fraction: string)

  /** 2024-01-31T10:15:00.25Z: the fraction is left out when it has no digits. */
  function DateText(m: Moment): string {
    Padded(m.year, 4) + "-" + Padded(m.month, 2) + "-" + Padded(m.day, 2) + "T"
      + Padded(m.hour, 2) + ":" + Padded(m.minute, 2) + ":" + Padded(m.second, 2)
      + (if m.fraction == "" then "" else "." + m.fraction) + "Z"
  }

  ghost predicate IsDateText(s: string) {
    exists m: Moment :: AllDigits(m.fraction) && s == DateText(m)
  }

  lemma PlainTogether(a: string, b: string)
    requires Plain(a) && Plain(b)
    ensures Plain(a + b)
  {
  }

  lemma PaddedIsPlain(n: nat, width: nat)
    ensures Plain(Padded(n, width))
  {
    PaddedReads(n, width);
    DigitsArePlain(Padded(n, width));
  }

  /** The characters between the numbers. */
  lemma SeparatorsArePlain()
    ensures Plain("-") && Plain(":") && Plain("T") && Plain("Z") && Plain(".") && Plain("")
  {
  }

  lemma ThreeArePlain(a: string, separator: string, b: string, c: string)
    requires Plain(a) && Plain(b) && Plain(c) && Plain(separator)
    ensures Plain(a + separator + b + separator + c)
  {
    PlainTogether(a, separator);
    PlainTogether(a + separator, b);
    PlainTogether(a + separator + b, separator);
    PlainTogether(a + separator + b + separator, c);
  }

  lemma FractionIsPlain(fraction: string)
    requires AllDigits(fraction)
    ensures Plain(if fraction == "" then "" else "." + fraction)
  {
    SeparatorsArePlain();
    DigitsArePlain(fraction);
    PlainTogether(".", fraction);
  }

  lemma Regrouped(a: string, b: string, c: string, d: string, e: string, f: string, fraction: string)
    ensures a + "-" + b + "-" + c + "T" + d + ":" + e + ":" + f + fraction + "Z"
         == (a + "-" + b + "-" + c) + "T" + (d + ":" + e + ":" + f) + fraction + "Z"
  {
  }

  lemma DateTextIsPlain(m: Moment)
    requires AllDigits(m.fraction)
    ensures Plain(DateText(m))
  {
    var a, b, c := Padded(m.year, 4), Padded(m.month, 2), Padded(m.day, 2);
    var d, e, f := Padded(m.hour, 2), Padded(m.minute, 2), Padded(m.second, 2);
    var tail := if m.fraction == "" then "" else "." + m.fraction;
    PaddedIsPlain(m.year, 4);
    PaddedIsPlain(m.month, 2);
    PaddedIsPlain(m.day, 2);
    PaddedIsPlain(m.hour, 2);
    PaddedIsPlain(m.minute, 2);
    PaddedIsPlain(m.second, 2);
    FractionIsPlain(m.fraction);
    SeparatorsArePlain();
    ThreeArePlain(a, "-", b, c);
    ThreeArePlain(d, ":", e, f);
    Regrouped(a, b, c, d, e, f, tail);
    DateIsPlain(a + "-" + b + "-" + c, d + ":" + e + ":" + f, tail);
  }

  lemma DateIsPlain(date: string, time: string, fraction: string)
    requires Plain(date) && Plain(time) && Plain(fraction)
    ensures Plain(date + "T" + time + fraction + "Z")
  {
    SeparatorsArePlain();
    PlainTogether(date, "T");
    PlainTogether(date + "T", time);
    PlainTogether(date + "T" + time, fraction);
    PlainTogether(date + "T" + time + fraction, "Z");
  }

  lemma DatesArePlain(s: string)
    requires IsDateText(s)
    ensures Plain(s)
  {
    var m: Moment :| AllDigits(m.fraction) && s == DateText(m);
    DateTextIsPlain(m);
  }

  // ----- Rows that are kept -----

  /** A row with such a timestamp is kept, and its closing price reads back. */
  lemma DatedRowIsKept(p: Price, volume: nat)
    requires IsDateText(p.timestamp)
    ensures IsKept(Joined(Fields(p, volume)))
    ensures Stod(ClosePart(Joined(Fields(p, volume)))) == Some(Millionths(p.close))
  {
    DatesArePlain(p.timestamp);
    LineReadsBack(p, volume);
  }

  /** The feed of a price table in universal time loses nothing: every row counts, and the average is the mean of the closing
      prices. */
  method DatedFeedIsExact(prices: seq<Price>, draws: seq<nat>) returns (parsedLines: nat, discardedLines: nat, average: real)
    requires |draws| == |prices| && forall i :: 0 <= i < |prices| ==> IsDateText(prices[i].timestamp)
    ensures parsedLines == |prices| && discardedLines == 0
    ensures average == if prices == [] then 0.0 else Millionths(Total(prices)) / |prices| as real
  {
    forall i | 0 <= i < |prices| ensures Plain(prices[i].timestamp) {
      DatesArePlain(prices[i].timestamp);
    }
    parsedLines, discardedLines, average := FeedIsExact(prices, draws);
  }

  // ----- Rows that are discarded -----

  predicate IsKnown(c: char) {
    '0' <= c <= '9' || 'a' <= c <= 'z' || 'A' <= c <= 'Z' || c in "-:.,"
  }

  /** A line is kept exactly when it consists of digits, letters and the four separators and its closing price is a number. */
  lemma KeptIff(line: string)
    ensures IsKept(line) <==> (forall c :: c in line ==> IsKnown(c)) && Stod(ClosePart(line)).Some?
  {
    forall c ensures IsAccepted(c) <==> IsKnown(c) {
    }
    if forall c :: c in line ==> IsKnown(c) {
      forall i | 0 <= i < |line| ensures IsAccepted(line[i]) {
        assert line[i] in line;
      }
    }
  }

  /** Whatever else the line holds: a character that is no digit, no letter and none of the four separators discards it. */
  lemma ForeignCharacterDiscards(line: string, c: char)
    requires c in line
    requires !('0' <= c <= '9') && !('a' <= c <= 'z') && !('A' <= c <= 'Z') && c != '-' && c != ':' && c != '.' && c != ','
    ensures !IsKept(line)
  {
    var i :| 0 <= i < |line| && line[i] == c;
  }

  /** A row whose timestamp has a positive offset from universal time, or a space, is discarded. */
  lemma OffsetRowIsDiscarded(p: Price, volume: nat)
    requires '+' in p.timestamp || ' ' in p.timestamp
    ensures !IsKept(Joined(Fields(p, volume)))
  {
    LineIsClean(p, volume);
    if '+' in p.timestamp {
      var i :| 0 <= i < |p.timestamp| && p.timestamp[i] == '+';
    } else {
      var i :| 0 <= i < |p.timestamp| && p.timestamp[i] == ' ';
    }
  }
}
