/** Reading back what was printed: the calculation service recovers every closing price of the pricing service's message,
    whatever the list, as long as no timestamp holds a comma or a line break. */
module PriceFeedRoundTrip {
  import opened Wrappers
  import opened PriceFeed

  // ----- Numbers -----

  lemma {:induction false} DigitsRead(n: nat)
    ensures Digits(n) != "" && AllDigits(Digits(n)) && Value(Digits(n)) == n
  {
    var d := Digits(n);
    if n < 10 {
      assert d[..0] == "";
    } else {
      DigitsRead(n / 10);
      assert d[..|d| - 1] == Digits(n / 10);
    }
  }

  lemma {:induction false} PaddedReads(n: nat, width: nat)
    ensures |Padded(n, width)| == width && AllDigits(Padded(n, width))
    ensures n < Pow10(width) ==> Value(Padded(n, width)) == n
  {
    if width > 0 {
      PaddedReads(n / 10, width - 1);
      var d := Padded(n, width);
      assert d[..|d| - 1] == Padded(n / 10, width - 1);
    }
  }

  lemma {:induction false} PrefixOfDigits(digits: string, tail: string)
    requires AllDigits(digits) && (tail == "" || !IsDigit(tail[0]))
    ensures DigitsPrefix(digits + tail) == |digits|
  {
    if digits == "" {
      assert digits + tail == tail;
    } else {
      assert (digits + tail)[0] == digits[0] && (digits + tail)[1..] == digits[1..] + tail;
      PrefixOfDigits(digits[1..], tail);
    }
  }

  lemma PowOfSix()
    ensures Pow10(6) == MILLION
  {
    assert Pow10(5) == 10 * Pow10(4) && Pow10(4) == 10 * Pow10(3) && Pow10(3) == 10 * Pow10(2) && Pow10(2) == 10 * Pow10(1);
  }

  lemma SixPlaces(x: real)
    ensures PointMoved(x, 6) == x / 1000000.0
  {
    assert PointMoved(x, 3) == PointMoved(x, 2) / 10.0 == PointMoved(x, 1) / 100.0 == x / 1000.0;
    assert PointMoved(x, 6) == PointMoved(x, 5) / 10.0 == PointMoved(x, 4) / 100.0 == PointMoved(x, 3) / 1000.0;
  }

  function Millionths(p: int): real {
    p as real / 1000000.0
  }

  ghost predicate IsNumber(s: string, whole: string, decimals: string) {
    AllDigits(whole) && AllDigits(decimals) && whole != "" && |decimals| == 6 && s == whole + ("." + decimals)
  }

  lemma NumberSplits(s: string, whole: string, decimals: string)
    requires IsNumber(s, whole, decimals)
    ensures DigitsPrefix(s) == |whole| && s[..|whole|] == whole && s[|whole|..] == "." + decimals && IsDigit(s[0])
  {
    PrefixOfDigits(whole, "." + decimals);
    assert s[0] == whole[0];
  }

  lemma DecimalsSplit(decimals: string)
    requires AllDigits(decimals)
    ensures ("." + decimals)[1..] == decimals && DigitsPrefix(decimals) == |decimals|
  {
    PrefixOfDigits(decimals, "");
    assert decimals + "" == decimals;
  }

  lemma DecimalReads(s: string, whole: string, decimals: string)
    requires IsNumber(s, whole, decimals)
    ensures s != "" && IsDigit(s[0]) && ReadDecimal(s) == Some(Decimal(Value(whole), Value(decimals), 6))
  {
    NumberSplits(s, whole, decimals);
    DecimalsSplit(decimals);
    assert decimals[..6] == decimals;
  }

  lemma PositiveReads(s: string, d: Decimal)
    requires s != "" && IsDigit(s[0]) && ReadDecimal(s) == Some(d)
    ensures Stod(s) == Some(ToReal(d))
  {
  }

  lemma NegativeReads(s: string, signed: string, d: Decimal)
    requires ReadDecimal(s) == Some(d) && signed == "-" + s
    ensures Stod(signed) == Some(-ToReal(d))
  {
    assert signed[0] == '-' && signed[1..] == s;
  }

  /** The whole part and the six decimals of a size in millionths. */
  function Parts(size: nat): Decimal {
    Decimal(size / MILLION, size % MILLION, 6)
  }

  lemma PartsAddUp(size: nat)
    ensures ToReal(Parts(size)) == Millionths(size)
  {
    SixPlaces((size % MILLION) as real);
    assert size == size / MILLION * MILLION + size % MILLION;
  }

  function Unsigned(size: nat): string {
    Digits(size / MILLION) + ("." + Padded(size % MILLION, 6))
  }

  lemma UnsignedReads(size: nat)
    ensures Unsigned(size) != "" && IsDigit(Unsigned(size)[0]) && ReadDecimal(Unsigned(size)) == Some(Parts(size))
  {
    PowOfSix();
    DigitsRead(size / MILLION);
    PaddedReads(size % MILLION, 6);
    DecimalReads(Unsigned(size), Digits(size / MILLION), Padded(size % MILLION, 6));
  }

  lemma PriceIsPrinted(p: int)
    ensures PrintPrice(p) == if p < 0 then "-" + Unsigned(-p) else Unsigned(p)
  {
    var size := if p < 0 then -p else p;
    var whole, decimals := Digits(size / MILLION), Padded(size % MILLION, 6);
    assert "" + whole == whole;
    assert ("-" + whole) + "." + decimals == "-" + (whole + ("." + decimals));
    assert whole + "." + decimals == whole + ("." + decimals);
  }

  lemma WithAndWithoutSign(s: string, d: Decimal)
    requires s != "" && IsDigit(s[0]) && ReadDecimal(s) == Some(d)
    ensures Stod(s) == Some(ToReal(d)) && Stod("-" + s) == Some(-ToReal(d))
  {
    PositiveReads(s, d);
    NegativeReads(s, "-" + s, d);
  }

  /** The digits of a price and what they read as. */
  lemma DigitsOfPrice(p: int) returns (s: string, d: Decimal)
    ensures PrintPrice(p) == if p < 0 then "-" + s else s
    ensures s != "" && IsDigit(s[0]) && ReadDecimal(s) == Some(d)
    ensures ToReal(d) == Millionths(if p < 0 then -p else p)
  {
    var size := if p < 0 then -p else p;
    PriceIsPrinted(p);
    UnsignedReads(size);
    PartsAddUp(size);
    s, d := Unsigned(size), Parts(size);
  }

  /** A printed price reads back exactly. */
  lemma PrintedPriceReads(p: int)
    ensures Stod(PrintPrice(p)) == Some(Millionths(p))
  {
    var s, d := DigitsOfPrice(p);
    WithAndWithoutSign(s, d);
    NegativeMillionths(p);
  }

  lemma NegativeMillionths(p: int)
    ensures -Millionths(-p) == Millionths(p)
  {
  }

  // ----- Characters -----

  ghost predicate Plain(s: string) {
    AllAccepted(s) && ',' !in s && '\n' !in s
  }

  lemma DigitsArePlain(s: string)
    requires AllDigits(s)
    ensures Plain(s)
  {
  }

  lemma PrintedPriceIsPlain(p: int)
    ensures Plain(PrintPrice(p))
  {
    var size := if p < 0 then -p else p;
    DigitsRead(size / MILLION);
    PaddedReads(size % MILLION, 6);
    DigitsArePlain(Digits(size / MILLION));
    DigitsArePlain(Padded(size % MILLION, 6));
  }

  // ----- Rows -----

  ghost predicate AllPlain(fields: seq<string>) {
    forall i :: 0 <= i < |fields| ==> Plain(fields[i])
  }

  lemma OtherFieldsArePlain(p: Price, volume: nat)
    ensures Fields(p, volume)[0] == p.timestamp && AllPlain(Fields(p, volume)[1..])
  {
    PrintedPriceIsPlain(p.open);
    PrintedPriceIsPlain(p.high);
    PrintedPriceIsPlain(p.low);
    PrintedPriceIsPlain(p.close);
    DigitsRead(volume);
    DigitsArePlain(Digits(volume));
  }

  lemma OneComma(a: string, b: string)
    ensures '\n' in a + "," + b <==> '\n' in a || '\n' in b
    ensures AllAccepted(a + "," + b) <==> AllAccepted(a) && AllAccepted(b)
  {
    var s := a + "," + b;
    assert forall i :: 0 <= i < |a| ==> s[i] == a[i];
    assert forall i :: 0 <= i < |b| ==> s[|a| + 1 + i] == b[i];
    assert s[|a|] == ',';
  }

  lemma {:induction false} JoinedPlain(fields: seq<string>)
    requires AllPlain(fields)
    ensures '\n' !in Joined(fields) && AllAccepted(Joined(fields))
  {
    if |fields| > 1 {
      JoinedPlain(fields[1..]);
      OneComma(fields[0], Joined(fields[1..]));
    }
  }

  /** A row is one line, and its characters are accepted exactly when its timestamp's are. */
  lemma LineIsClean(p: Price, volume: nat)
    ensures var line := Joined(Fields(p, volume));
      && ('\n' in line <==> '\n' in p.timestamp)
      && (AllAccepted(line) <==> AllAccepted(p.timestamp))
  {
    var fields := Fields(p, volume);
    OtherFieldsArePlain(p, volume);
    JoinedPlain(fields[1..]);
    OneComma(p.timestamp, Joined(fields[1..]));
  }

  lemma SkipField(field: string, tail: string, part: string, n: nat)
    requires ',' !in field && n > 0
    ensures NthPart(field + "," + tail, false, part, n) == NthPart(tail, false, field, n - 1)
  {
    var s := field + "," + tail;
    FindIs(s, ',', |field|);
    assert s[..|field|] == field && s[|field| + 1..] == tail;
  }

  /** The n-th read of a row of comma-free fields yields the n-th field. */
  lemma {:induction false} NthPartOfJoined(fields: seq<string>, part: string, n: nat)
    requires 0 < n < |fields| && NoCommas(fields)
    ensures NthPart(Joined(fields), false, part, n) == fields[n - 1]
    decreases n
  {
    SkipField(fields[0], Joined(fields[1..]), part, n);
    if n > 1 {
      NthPartOfJoined(fields[1..], fields[0], n - 1);
    }
  }

  ghost predicate NoCommas(fields: seq<string>) {
    forall i :: 0 <= i < |fields| ==> ',' !in fields[i]
  }

  /** The fifth field of a row is the closing price. */
  lemma ClosePartOfLine(p: Price, volume: nat)
    requires ',' !in p.timestamp
    ensures ClosePart(Joined(Fields(p, volume))) == PrintPrice(p.close)
  {
    var fields := Fields(p, volume);
    FieldsHaveNoCommas(p, volume);
    NthPartOfJoined(fields, "", 5);
  }

  lemma FieldsHaveNoCommas(p: Price, volume: nat)
    ensures NoCommas(Fields(p, volume)[1..])
    ensures ',' !in p.timestamp ==> NoCommas(Fields(p, volume))
  {
    var fields := Fields(p, volume);
    OtherFieldsArePlain(p, volume);
    forall i | 0 < i < |fields| ensures ',' !in fields[i] {
      assert fields[i] == fields[1..][i - 1] && Plain(fields[1..][i - 1]);
    }
  }

  lemma CommaSplitsField(head: string, tail: string, others: seq<string>)
    requires others != []
    ensures Joined([head + "," + tail] + others) == Joined([head, tail] + others)
  {
    assert ([head + "," + tail] + others)[1..] == others;
    assert ([head, tail] + others)[1..] == [tail] + others && ([tail] + others)[1..] == others;
    assert (head + "," + tail) + "," + Joined(others) == head + "," + (tail + "," + Joined(others));
  }

  /** The pieces of a text between its commas. */
  function Split(s: string): (parts: seq<string>)
    ensures parts != []
    decreases |s|
  {
    var k := Find(s, ',');
    if k == |s| then [s] else [s[..k]] + Split(s[k + 1..])
  }

  function Commas(s: string): nat {
    |Split(s)| - 1
  }

  lemma {:induction false} CommasCount(s: string)
    ensures Commas(s) == multiset(s)[',']
    decreases |s|
  {
    var k := Find(s, ',');
    FirstComma(s);
    if k < |s| {
      assert s == s[..k] + [','] + s[k + 1..];
      CommasCount(s[k + 1..]);
      assert ',' !in multiset(s[..k]);
    } else {
      assert s[..k] == s && ',' !in multiset(s);
    }
  }

  lemma {:induction false} FirstComma(s: string)
    ensures var k := Find(s, ','); ',' !in s[..k] && (k < |s| ==> s[k] == ',')
  {
    if s != "" && s[0] != ',' {
      FirstComma(s[1..]);
      var k := Find(s[1..], ',');
      assert s[..k + 1] == [s[0]] + s[1..][..k];
    }
  }

  lemma {:induction false} SplitHasNoCommas(s: string)
    ensures NoCommas(Split(s))
    decreases |s|
  {
    var k := Find(s, ',');
    FirstComma(s);
    if k < |s| {
      SplitHasNoCommas(s[k + 1..]);
      assert forall i :: 0 < i < |Split(s)| ==> Split(s)[i] == Split(s[k + 1..])[i - 1];
    } else {
      assert s[..k] == s;
    }
  }

  lemma HeadJoined(head: string, fields: seq<string>)
    requires fields != []
    ensures Joined([head] + fields) == head + "," + Joined(fields)
  {
    assert ([head] + fields)[1..] == fields;
  }

  /** Joining the pieces of a field gives the field back. */
  lemma {:induction false} SplitJoins(s: string, others: seq<string>)
    requires others != []
    ensures Joined(Split(s) + others) == Joined([s] + others)
    decreases |s|
  {
    var k := Find(s, ',');
    FirstComma(s);
    if k < |s| {
      var head, tail := s[..k], s[k + 1..];
      assert s == head + "," + tail;
      SplitJoins(tail, others);
      JoinsFromTail(head, tail, Split(tail), others);
    }
  }

  lemma JoinsFromTail(head: string, tail: string, parts: seq<string>, others: seq<string>)
    requires others != [] && Joined(parts + others) == Joined([tail] + others)
    ensures Joined([head] + parts + others) == Joined([head + "," + tail] + others)
  {
    CommaSplitsField(head, tail, others);
    assert [head] + parts + others == [head] + (parts + others);
    HeadJoined(head, parts + others);
    assert [head, tail] + others == [head] + ([tail] + others);
    HeadJoined(head, [tail] + others);
  }

  /** What the consumer takes for the closing price: every comma of the timestamp moves it one field back. */
  function ReadField(p: Price): string {
    match Commas(p.timestamp)
    case 0 => PrintPrice(p.close)
    case 1 => PrintPrice(p.low)
    case 2 => PrintPrice(p.high)
    case 3 => PrintPrice(p.open)
    case _ => Split(p.timestamp)[4]
  }

  lemma FifthOfFields(p: Price, volume: nat)
    ensures (Split(p.timestamp) + Fields(p, volume)[1..])[4] == ReadField(p)
  {
  }

  /** For every timestamp, by its number of commas: none gives the close, one the low, two the high, three the open, and more
      a piece of the timestamp itself. */
  lemma CommasShiftFields(p: Price, volume: nat)
    ensures ClosePart(Joined(Fields(p, volume))) == ReadField(p) && Commas(p.timestamp) == multiset(p.timestamp)[',']
  {
    CommasCount(p.timestamp);
    var others := Fields(p, volume)[1..];
    var fields := Split(p.timestamp) + others;
    FieldsHaveNoCommas(p, volume);
    SplitHasNoCommas(p.timestamp);
    assert Fields(p, volume) == [p.timestamp] + others;
    SplitJoins(p.timestamp, others);
    NoCommasInBoth(Split(p.timestamp), others);
    NthPartOfJoined(fields, "", 5);
    FifthOfFields(p, volume);
  }

  lemma NoCommasInBoth(a: seq<string>, b: seq<string>)
    requires NoCommas(a) && NoCommas(b)
    ensures NoCommas(a + b)
  {
  }

  lemma PricesAreEqualIff(a: int, b: int)
    ensures Stod(PrintPrice(a)) == Some(Millionths(b)) <==> a == b
  {
    PrintedPriceReads(a);
  }

  /** The timestamp has no comma, or the field that is read instead of the close holds the same number. */
  predicate CloseSurvives(p: Price) {
    var c := Commas(p.timestamp);
    || c == 0
    || (c == 1 && p.low == p.close) || (c == 2 && p.high == p.close) || (c == 3 && p.open == p.close)
    || (c > 3 && Stod(Split(p.timestamp)[4]) == Some(Millionths(p.close)))
  }

  lemma FieldReadsIff(p: Price)
    ensures Stod(ReadField(p)) == Some(Millionths(p.close)) <==> CloseSurvives(p)
  {
    var c := Commas(p.timestamp);
    if c == 0 {
      PricesAreEqualIff(p.close, p.close);
    } else if c == 1 {
      PricesAreEqualIff(p.low, p.close);
    } else if c == 2 {
      PricesAreEqualIff(p.high, p.close);
    } else if c == 3 {
      PricesAreEqualIff(p.open, p.close);
    }
  }

  /** Exactly when a row reads back its closing price. */
  lemma CloseReadsBackIff(p: Price, volume: nat)
    ensures Stod(ClosePart(Joined(Fields(p, volume)))) == Some(Millionths(p.close)) <==> CloseSurvives(p)
  {
    CommasShiftFields(p, volume);
    FieldReadsIff(p);
  }

  // ----- The message -----

  function RowLines(prices: seq<Price>, volumes: seq<nat>): seq<string>
    requires |volumes| == |prices|
  {
    seq(|prices|, i requires 0 <= i < |prices| => Joined(Fields(prices[i], volumes[i])))
  }

  lemma FirstLine(line: string, tail: string)
    requires '\n' !in line
    ensures Lines(line + "\n" + tail) == [line] + Lines(tail)
  {
    var s := line + "\n" + tail;
    FindIs(s, '\n', |line|);
    assert s[..|line|] == line && s[|line| + 1..] == tail;
  }

  ghost predicate NoBreaks(prices: seq<Price>) {
    forall i :: 0 <= i < |prices| ==> '\n' !in prices[i].timestamp
  }

  lemma Regrouped(rows: string, line: string, tail: string)
    ensures rows + (line + "\n") + tail == rows + (line + "\n" + tail)
  {
  }

  lemma LastLine(rows: string, lines: seq<string>, line: string, tail: string)
    requires '\n' !in line && Lines(rows + (line + "\n" + tail)) == lines + Lines(line + "\n" + tail)
    ensures Lines(rows + (line + "\n") + tail) == lines + [line] + Lines(tail)
  {
    Regrouped(rows, line, tail);
    FirstLine(line, tail);
    assert lines + ([line] + Lines(tail)) == lines + [line] + Lines(tail);
  }

  lemma LastRowLine(prices: seq<Price>, volumes: seq<nat>)
    requires |volumes| == |prices| && prices != []
    ensures var n := |prices| - 1;
      RowLines(prices, volumes) == RowLines(prices[..n], volumes[..n]) + [Joined(Fields(prices[n], volumes[n]))]
  {
  }

  lemma {:induction false} LinesOfRows(prices: seq<Price>, volumes: seq<nat>, tail: string)
    requires |volumes| == |prices| && NoBreaks(prices)
    ensures Lines(Rows(prices, volumes) + tail) == RowLines(prices, volumes) + Lines(tail)
    decreases |prices|
  {
    if prices == [] {
      assert "" + tail == tail && RowLines(prices, volumes) == [];
    } else {
      var n := |prices| - 1;
      var line := Joined(Fields(prices[n], volumes[n]));
      LineIsClean(prices[n], volumes[n]);
      LinesOfRows(prices[..n], volumes[..n], line + "\n" + tail);
      LastLine(Rows(prices[..n], volumes[..n]), RowLines(prices[..n], volumes[..n]), line, tail);
      LastRowLine(prices, volumes);
    }
  }

  lemma TitleIsOneLine()
    ensures '\n' !in TITLE
  {
  }

  lemma LinesOfMessage(prices: seq<Price>, volumes: seq<nat>)
    requires |volumes| == |prices| && NoBreaks(prices)
    ensures DataLines(TITLE + "\n" + Rows(prices, volumes)) == RowLines(prices, volumes)
  {
    var rows := Rows(prices, volumes);
    TitleIsOneLine();
    FirstLine(TITLE, rows);
    LinesOfRows(prices, volumes, "");
    assert rows + "" == rows && RowLines(prices, volumes) + [] == RowLines(prices, volumes);
  }

  /** No timestamp holds a separator. */
  ghost predicate NoSeparators(prices: seq<Price>) {
    forall i :: 0 <= i < |prices| ==> ',' !in prices[i].timestamp && '\n' !in prices[i].timestamp
  }

  ghost function Unaccepted(prices: seq<Price>): nat {
    if prices == [] then 0 else (if AllAccepted(prices[0].timestamp) then 0 else 1) + Unaccepted(prices[1..])
  }

  ghost function SumOfCloses(prices: seq<Price>): real {
    if prices == [] then 0.0
    else (if AllAccepted(prices[0].timestamp) then Millionths(prices[0].close) else 0.0) + SumOfCloses(prices[1..])
  }

  /** Every line reads back its row's closing price; it is kept exactly when the timestamp's characters are accepted. */
  lemma LineReadsBack(p: Price, volume: nat)
    requires ',' !in p.timestamp
    ensures Stod(ClosePart(Joined(Fields(p, volume)))) == Some(Millionths(p.close))
    ensures IsKept(Joined(Fields(p, volume))) <==> AllAccepted(p.timestamp)
  {
    ClosePartOfLine(p, volume);
    PrintedPriceReads(p.close);
    LineIsClean(p, volume);
  }

  lemma FirstRowLine(prices: seq<Price>, volumes: seq<nat>)
    requires |volumes| == |prices| && prices != []
    ensures RowLines(prices, volumes) == [Joined(Fields(prices[0], volumes[0]))] + RowLines(prices[1..], volumes[1..])
  {
  }

  lemma CountsOfLine(line: string, lines: seq<string>)
    ensures Discarded([line] + lines) == (if IsKept(line) then 0 else 1) + Discarded(lines)
    ensures SumOfKept([line] + lines) == (if IsKept(line) then Stod(ClosePart(line)).value else 0.0) + SumOfKept(lines)
  {
    assert ([line] + lines)[1..] == lines;
  }

  lemma {:induction false} CountsOfRows(prices: seq<Price>, volumes: seq<nat>)
    requires |volumes| == |prices| && NoSeparators(prices)
    ensures Discarded(RowLines(prices, volumes)) == Unaccepted(prices)
    ensures SumOfKept(RowLines(prices, volumes)) == SumOfCloses(prices)
    decreases |prices|
  {
    if prices != [] {
      CountsOfRows(prices[1..], volumes[1..]);
      LineReadsBack(prices[0], volumes[0]);
      FirstRowLine(prices, volumes);
      CountsOfNext(prices, Joined(Fields(prices[0], volumes[0])), RowLines(prices[1..], volumes[1..]));
    }
  }

  lemma CountsOfNext(prices: seq<Price>, line: string, lines: seq<string>)
    requires prices != [] && (IsKept(line) <==> AllAccepted(prices[0].timestamp))
    requires Stod(ClosePart(line)) == Some(Millionths(prices[0].close))
    requires Discarded(lines) == Unaccepted(prices[1..]) && SumOfKept(lines) == SumOfCloses(prices[1..])
    ensures Discarded([line] + lines) == Unaccepted(prices) && SumOfKept([line] + lines) == SumOfCloses(prices)
  {
    CountsOfLine(line, lines);
  }

  /** The round trip: the consumer sees one line per price, discards exactly those whose timestamp has an unexpected
      character, and reads back every printed closing price. */
  lemma MessageReadsBack(prices: seq<Price>, volumes: seq<nat>)
    requires |volumes| == |prices| && NoSeparators(prices)
    ensures var lines := DataLines(TITLE + "\n" + Rows(prices, volumes));
      && |lines| == |prices|
      && (forall i :: 0 <= i < |prices| ==>
            && Stod(ClosePart(lines[i])) == Some(Millionths(prices[i].close))
            && (IsKept(lines[i]) <==> AllAccepted(prices[i].timestamp)))
      && Discarded(lines) == Unaccepted(prices) && SumOfKept(lines) == SumOfCloses(prices)
  {
    LinesOfMessage(prices, volumes);
    CountsOfRows(prices, volumes);
    forall i | 0 <= i < |prices|
      ensures Stod(ClosePart(RowLines(prices, volumes)[i])) == Some(Millionths(prices[i].close))
      ensures IsKept(RowLines(prices, volumes)[i]) <==> AllAccepted(prices[i].timestamp)
    {
      LineReadsBack(prices[i], volumes[i]);
    }
  }

  /** Whatever the timestamps hold but line breaks: the consumer sees one line per price and takes from each the field that
      the commas of its timestamp move into place. */
  lemma MessageFields(prices: seq<Price>, volumes: seq<nat>)
    requires |volumes| == |prices| && NoBreaks(prices)
    ensures var lines := DataLines(TITLE + "\n" + Rows(prices, volumes));
      |lines| == |prices| && forall i :: 0 <= i < |prices| ==> ClosePart(lines[i]) == ReadField(prices[i])
  {
    LinesOfMessage(prices, volumes);
    forall i | 0 <= i < |prices| ensures ClosePart(RowLines(prices, volumes)[i]) == ReadField(prices[i]) {
      CommasShiftFields(prices[i], volumes[i]);
    }
  }

  function Total(prices: seq<Price>): int {
    if prices == [] then 0 else prices[0].close + Total(prices[1..])
  }

  lemma {:induction false} AllAcceptedSum(prices: seq<Price>)
    requires forall i :: 0 <= i < |prices| ==> AllAccepted(prices[i].timestamp)
    ensures Unaccepted(prices) == 0 && SumOfCloses(prices) == Millionths(Total(prices))
  {
    if prices != [] {
      AllAcceptedSum(prices[1..]);
    }
  }

  /** Printing and reading a whole list whose timestamps use the accepted characters: nothing is discarded and the average
      is the mean of the closing prices, or zero for the empty list. */
  method FeedIsExact(prices: seq<Price>, draws: seq<nat>) returns (parsedLines: nat, discardedLines: nat, average: real)
    requires |draws| == |prices| && NoSeparators(prices)
    requires forall i :: 0 <= i < |prices| ==> AllAccepted(prices[i].timestamp)
    ensures parsedLines == |prices| && discardedLines == 0
    ensures average == if prices == [] then 0.0 else Millionths(Total(prices)) / |prices| as real
  {
    var message := PrepareCSV(prices, draws);
    parsedLines, discardedLines, average := ReceiveMessage(message);
    MessageReadsBack(prices, Volumes(draws));
    AllAcceptedSum(prices);
  }
}
