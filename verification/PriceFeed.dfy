/** Prices printed to CSV by the pricing service and read back by the calculation service.

    Prices are whole numbers of millionths, which is what six printed decimals can carry. */
module PriceFeed {
  import opened Wrappers

  datatype Price = Price(timestamp: string, open: int, high: int, low: int, close: int)

  const MILLION := 1000000
  const TITLE := "date, open, high, low, close, volume"

  // ----- Printing -----

  function DigitChar(d: nat): char
    requires d < 10
  {
    (d + '0' as int) as char
  }

  /** The decimal digits of a number, without leading zeros. */
  function Digits(n: nat): string {
    if n < 10 then [DigitChar(n)] else Digits(n / 10) + [DigitChar(n % 10)]
  }

  /** The last `width` decimal digits of a number, with leading zeros. */
  function Padded(n: nat, width: nat): string {
    if width == 0 then "" else Padded(n / 10, width - 1) + [DigitChar(n % 10)]
  }

  /** The verb %f: a sign, the whole part, and six decimals. */
  function PrintPrice(p: int): string {
    var size := if p < 0 then -p else p;
    (if p < 0 then "-" else "") + Digits(size / MILLION) + "." + Padded(size % MILLION, 6)
  }

  function Fields(p: Price, volume: nat): seq<string> {
    [p.timestamp, PrintPrice(p.open), PrintPrice(p.high), PrintPrice(p.low), PrintPrice(p.close), Digits(volume)]
  }

  /** The fields with commas between them. */
  function Joined(fields: seq<string>): string {
    if fields == [] then "" else if |fields| == 1 then fields[0] else fields[0] + "," + Joined(fields[1..])
  }

  function ToCSV(p: Price, volume: nat): string {
    Joined(Fields(p, volume)) + "\n"
  }

  function Rows(prices: seq<Price>, volumes: seq<nat>): string
    requires |volumes| == |prices|
  {
    if prices == [] then ""
    else Rows(prices[..|prices| - 1], volumes[..|prices| - 1]) + ToCSV(prices[|prices| - 1], volumes[|prices| - 1])
  }

  /** `draws` are the random volumes below 100. */
  method PrepareCSV(prices: seq<Price>, draws: seq<nat>) returns (csv: string)
    requires |draws| == |prices|
    ensures csv == TITLE + "\n" + Rows(prices, Volumes(draws))
  {
    csv := TITLE + "\n";
    for i := 0 to |prices|
      invariant csv == TITLE + "\n" + Rows(prices[..i], Volumes(draws)[..i])
    {
      csv := csv + ToCSV(prices[i], draws[i] + 100);
      OneMoreRow(prices, Volumes(draws), i);
    }
    assert prices[..|prices|] == prices && Volumes(draws)[..|prices|] == Volumes(draws);
  }

  lemma OneMoreRow(prices: seq<Price>, volumes: seq<nat>, i: nat)
    requires i < |prices| == |volumes|
    ensures forall csv ::
              (csv + Rows(prices[..i], volumes[..i])) + ToCSV(prices[i], volumes[i])
              == csv + Rows(prices[..i + 1], volumes[..i + 1])
  {
    assert prices[..i + 1][..i] == prices[..i] && volumes[..i + 1][..i] == volumes[..i];
  }

  function Volumes(draws: seq<nat>): seq<nat> {
    seq(|draws|, i requires 0 <= i < |draws| => draws[i] + 100)
  }

  // ----- Reading -----

  /** An input string stream: what is left of its text, and whether a read ran into its end. */
  class InputStream {
    var rest: string
    var eof: bool

    constructor (text: string)
      ensures rest == text && !eof
    {
      rest, eof := text, false;
    }

    /** Reads up to the delimiter and drops it. A stream that already met its end leaves the target as it was; a read that
        takes nothing at all fails. */
    method Getline(target: string, delimiter: char) returns (ok: bool, part: string)
      modifies this
      ensures ok == (!old(eof) && old(rest) != "")
      ensures part == NextPart(old(rest), old(eof), target, delimiter)
      ensures rest == RestAfter(old(rest), old(eof), delimiter)
      ensures eof == (old(eof) || Find(old(rest), delimiter) == |old(rest)|)
    {
      if eof {
        return false, target;
      }
      var text, k := rest, 0;
      while k < |text| && text[k] != delimiter
        invariant k <= Find(text, delimiter)
      {
        FindSkips(text, delimiter, k);
        k := k + 1;
      }
      FindStops(text, delimiter, k);
      ok, part := text != "", text[..k];
      rest, eof := if k == |text| then "" else text[k + 1..], k == |text|;
    }
  }

  /** The position of the first delimiter, or the length. */
  function Find(s: string, delimiter: char): (k: nat)
    ensures k <= |s|
  {
    if s == "" || s[0] == delimiter then 0 else 1 + Find(s[1..], delimiter)
  }

  function NextPart(rest: string, eof: bool, target: string, delimiter: char): string {
    if eof then target else rest[..Find(rest, delimiter)]
  }

  function RestAfter(rest: string, eof: bool, delimiter: char): string {
    var k := Find(rest, delimiter);
    if eof then rest else if k == |rest| then "" else rest[k + 1..]
  }

  lemma {:induction false} FindIs(s: string, delimiter: char, k: nat)
    requires k <= |s| && delimiter !in s[..k] && (k < |s| ==> s[k] == delimiter)
    ensures Find(s, delimiter) == k
  {
    if k > 0 {
      assert s[0] == s[..k][0] && s[1..][..k - 1] == s[..k][1..];
      FindIs(s[1..], delimiter, k - 1);
    }
  }

  lemma {:induction false} FindSkips(s: string, delimiter: char, k: nat)
    requires k < |s| && k <= Find(s, delimiter) && s[k] != delimiter
    ensures k + 1 <= Find(s, delimiter)
  {
    if k > 0 {
      FindSkips(s[1..], delimiter, k - 1);
    }
  }

  lemma {:induction false} FindStops(s: string, delimiter: char, k: nat)
    requires k <= |s| && k <= Find(s, delimiter) && (k < |s| ==> s[k] == delimiter)
    ensures Find(s, delimiter) == k
  {
    if k > 0 {
      FindStops(s[1..], delimiter, k - 1);
    }
  }

  predicate IsDigit(c: char) {
    '0' <= c <= '9'
  }

  predicate IsAccepted(c: char) {
    IsDigit(c) || 'a' <= c <= 'z' || 'A' <= c <= 'Z' || c == '-' || c == ':' || c == '.' || c == ','
  }

  ghost predicate AllAccepted(s: string) {
    forall i :: 0 <= i < |s| ==> IsAccepted(s[i])
  }

  method ValidateString(s: string) returns (valid: bool)
    ensures valid <==> AllAccepted(s)
  {
    for i := 0 to |s|
      invariant forall j :: 0 <= j < i ==> IsAccepted(s[j])
    {
      if !IsAccepted(s[i]) {
        return false;
      }
    }
    return true;
  }

  function DigitsPrefix(s: string): (k: nat)
    ensures k <= |s|
    ensures forall i :: 0 <= i < k ==> IsDigit(s[i])
  {
    if s == "" || !IsDigit(s[0]) then 0
    else
      var k := DigitsPrefix(s[1..]);
      assert forall i :: 0 <= i < k + 1 ==> s[i] == if i == 0 then s[0] else s[1..][i - 1];
      1 + k
  }

  ghost predicate AllDigits(s: string) {
    forall i :: 0 <= i < |s| ==> IsDigit(s[i])
  }

  function Value(s: string): nat
    requires forall i :: 0 <= i < |s| ==> IsDigit(s[i])
  {
    if s == "" then 0
    else
      assert IsDigit(s[|s| - 1]);
      10 * Value(s[..|s| - 1]) + (s[|s| - 1] as int - '0' as int)
  }

  function Pow10(n: nat): (p: nat)
    ensures p >= 1
  {
    if n == 0 then 1 else 10 * Pow10(n - 1)
  }

  datatype Decimal = Decimal(whole: nat, fraction: nat, places: nat)

  function ToReal(d: Decimal): real {
    d.whole as real + PointMoved(d.fraction as real, d.places)
  }

  /** The decimal point moved to the left. */
  function PointMoved(x: real, places: nat): real {
    if places == 0 then x else PointMoved(x, places - 1) / 10.0
  }

  /** The longest prefix that is a decimal number without a sign, or None when there is none. */
  function ReadDecimal(s: string): Option<Decimal> {
    var whole := DigitsPrefix(s);
    var tail := s[whole..];
    var decimals := if tail != "" && tail[0] == '.' then tail[1..] else "";
    var places := DigitsPrefix(decimals);
    if whole == 0 && places == 0 then None else Some(Decimal(Value(s[..whole]), Value(decimals[..places]), places))
  }

  predicate IsSign(s: string) {
    s != "" && (s[0] == '-' || s[0] == '+')
  }

  /** std::stod on decimal numbers. */
  function Stod(s: string): Option<real> {
    var d := ReadDecimal(if IsSign(s) then s[1..] else s);
    if d.None? then None else Some(if s[0] == '-' then -ToReal(d.value) else ToReal(d.value))
  }

  /** What the fifth read of a fresh stream over the line leaves in `part`. */
  function ClosePart(line: string): string {
    NthPart(line, false, "", 5)
  }

  function NthPart(rest: string, eof: bool, part: string, n: nat): string
    decreases n
  {
    if n == 0 then part
    else NthPart(RestAfter(rest, eof, ','), eof || Find(rest, ',') == |rest|, NextPart(rest, eof, part, ','), n - 1)
  }

  /** The lines a getline loop yields: an unfinished last line counts, an empty rest does not. */
  function Lines(s: string): seq<string>
    decreases |s|
  {
    if s == "" then []
    else
      var k := Find(s, '\n');
      if k == |s| then [s] else [s[..k]] + Lines(s[k + 1..])
  }

  ghost predicate IsKept(line: string) {
    AllAccepted(line) && Stod(ClosePart(line)).Some?
  }

  ghost function Discarded(lines: seq<string>): nat {
    if lines == [] then 0 else (if IsKept(lines[0]) then 0 else 1) + Discarded(lines[1..])
  }

  ghost function SumOfKept(lines: seq<string>): real {
    if lines == [] then 0.0
    else (if IsKept(lines[0]) then Stod(ClosePart(lines[0])).value else 0.0) + SumOfKept(lines[1..])
  }

  ghost function DataLines(message: string): seq<string> {
    if message == "" then [] else Lines(message)[1..]
  }

  /** The value a line contributes, or None when it is discarded. */
  method ReadLine(line: string) returns (close: Option<real>)
    ensures close == if IsKept(line) then Stod(ClosePart(line)) else None
  {
    var valid := ValidateString(line);
    if !valid {
      return None;
    }
    var part := ReadClosePart(line);
    close := Stod(part);
  }

  /** Five reads up to a comma; the last one holds the closing price. */
  method ReadClosePart(line: string) returns (part: string)
    ensures part == ClosePart(line)
  {
    var lineStream := new InputStream(line);
    ghost var close := ClosePart(line);
    part := "";
    for i := 0 to 5
      invariant fresh(lineStream) && LeadsTo(lineStream.rest, lineStream.eof, part, 5 - i, close)
    {
      OnePartLess(lineStream.rest, lineStream.eof, part, 5 - i, close);
      var _, read := lineStream.Getline(part, ',');
      part := read;
    }
  }

  ghost predicate LeadsTo(rest: string, eof: bool, part: string, n: nat, close: string) {
    NthPart(rest, eof, part, n) == close
  }

  lemma OnePartLess(rest: string, eof: bool, part: string, n: nat, close: string)
    requires n > 0 && LeadsTo(rest, eof, part, n, close)
    ensures LeadsTo(RestAfter(rest, eof, ','), eof || Find(rest, ',') == |rest|, NextPart(rest, eof, part, ','), n - 1, close)
  {
  }

  function LinesOf(rest: string, eof: bool): seq<string> {
    if eof then [] else Lines(rest)
  }

  lemma GetlineTakesALine(rest: string, eof: bool)
    ensures var more := LinesOf(RestAfter(rest, eof, '\n'), eof || Find(rest, '\n') == |rest|);
      LinesOf(rest, eof) == if !eof && rest != "" then [NextPart(rest, eof, "", '\n')] + more else more
  {
    if !eof && Find(rest, '\n') == |rest| {
      assert rest[..|rest|] == rest;
    }
  }

  method NextLine(stream: InputStream, target: string) returns (ok: bool, line: string)
    modifies stream
    ensures old(StreamLines(stream)) == if ok then [line] + StreamLines(stream) else []
    ensures !ok ==> StreamLines(stream) == []
  {
    GetlineTakesALine(stream.rest, stream.eof);
    ok, line := stream.Getline(target, '\n');
  }

  function StreamLines(stream: InputStream): seq<string>
    reads stream
  {
    LinesOf(stream.rest, stream.eof)
  }

  function Mean(sum: real, n: int): real {
    if n > 0 then sum / n as real else 0.0
  }

  /** After n lines: how many were discarded, the sum of the others, and the lines still to come. */
  ghost predicate SoFar(lines: seq<string>, n: nat, discarded: nat, sum: real, rest: seq<string>) {
    && discarded <= n <= |lines| && rest == lines[n..]
    && discarded + Discarded(rest) == Discarded(lines) && sum + SumOfKept(rest) == SumOfKept(lines)
  }

  lemma OneMoreLine(lines: seq<string>, n: nat, discarded: nat, sum: real, line: string, rest: seq<string>)
    requires SoFar(lines, n, discarded, sum, [line] + rest)
    ensures IsKept(line) ==> SoFar(lines, n + 1, discarded, sum + Stod(ClosePart(line)).value, rest)
    ensures !IsKept(line) ==> SoFar(lines, n + 1, discarded + 1, sum, rest)
  {
    assert ([line] + rest)[1..] == rest && lines[n..][1..] == lines[n + 1..];
  }

  method ReceiveMessage(message: string) returns (parsedLines: nat, discardedLines: nat, average: real)
    ensures parsedLines == |DataLines(message)|
    ensures discardedLines == Discarded(DataLines(message)) <= parsedLines
    ensures average == Mean(SumOfKept(DataLines(message)), parsedLines - discardedLines)
  {
    var accumulator := 0.0;
    parsedLines, discardedLines := 0, 0;
    var messageStream := new InputStream(message);
    ghost var lines := DataLines(message);
    var ok, line := NextLine(messageStream, "");
    assert StreamLines(messageStream) == lines == lines[0..];
    ghost var rest := lines;
    ok, line := NextLine(messageStream, line);
    while ok
      invariant fresh(messageStream) && SoFar(lines, parsedLines, discardedLines, accumulator, rest)
      invariant rest == if ok then [line] + StreamLines(messageStream) else []
      decreases |rest|
    {
      rest := StreamLines(messageStream);
      OneMoreLine(lines, parsedLines, discardedLines, accumulator, line, rest);
      parsedLines := parsedLines + 1;
      var close := ReadLine(line);
      if close.Some? {
        accumulator := accumulator + close.value;
      } else {
        discardedLines := discardedLines + 1;
      }
      ok, line := NextLine(messageStream, line);
    }
    average := Mean(accumulator, parsedLines - discardedLines);
  }
}
