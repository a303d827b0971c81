/** The batched SQL file: rows packed into insert statements of at most a thousand. The create script, the insert header and
    a rendered row are tokens of the file. */
module SqlWriter {
  import opened Wrappers

  const SQL_INSERT_LIMIT := 1000

  datatype Token<T> = CreateScript | InsertHeader | Row(row: T) | Comma | Semicolon | Go

  method SaveSqlFile<T>(data: seq<T>) returns (file: seq<Token<T>>)
    ensures file == [CreateScript] + Statements(data) + [Go]
  {
    file := [CreateScript];
    for index := 0 to |data|
      invariant file + FromIndex(data, index) == [CreateScript] + FromIndex(data, 0)
    {
      Associative(file, AtIndex(data, index), FromIndex(data, index + 1));
      ghost var before := file;
      if index % SQL_INSERT_LIMIT == 0 {
        file := file + [InsertHeader];
      }
      file := file + [Row(data[index])];
      if index == |data| - 1 || index % SQL_INSERT_LIMIT == SQL_INSERT_LIMIT - 1 {
        file := file + [Semicolon];
      } else {
        file := file + [Comma];
      }
      assert file == before + AtIndex(data, index);
    }
    assert file + [] == file;
    FromStart(data);
    file := file + [Go];
  }

  // ----- What the file promises -----

  /** One row after the other, commas between them and a semicolon after the last. */
  function Values<T>(rows: seq<T>): seq<Token<T>> {
    if rows == [] then []
    else [Row(rows[0])] + [if |rows| == 1 then Semicolon else Comma] + Values(rows[1..])
  }

  function Chunk(n: nat): nat {
    if n < SQL_INSERT_LIMIT then n else SQL_INSERT_LIMIT
  }

  /** A statement for the first rows, at most a thousand, then the statements for the others. */
  function Statements<T>(data: seq<T>): seq<Token<T>> {
    if data == [] then []
    else [InsertHeader] + Values(data[..Chunk(|data|)]) + Statements(data[Chunk(|data|)..])
  }

  // ----- The loop writes the statements -----

  function Head<T>(index: nat): seq<Token<T>> {
    if index % SQL_INSERT_LIMIT == 0 then [InsertHeader] else []
  }

  /** What one turn of the loop writes. */
  function AtIndex<T>(data: seq<T>, index: nat): seq<Token<T>>
    requires index < |data|
  {
    Head(index)
      + [Row(data[index])]
      + [if index == |data| - 1 || index % SQL_INSERT_LIMIT == SQL_INSERT_LIMIT - 1 then Semicolon else Comma]
  }

  function FromIndex<T>(data: seq<T>, index: nat): seq<Token<T>>
    requires index <= |data|
    decreases |data| - index
  {
    if index == |data| then [] else AtIndex(data, index) + FromIndex(data, index + 1)
  }

  /** The end of the statement that the row at this index belongs to. */
  function End<T>(data: seq<T>, index: nat): nat
    requires index <= |data|
  {
    var next := (index / SQL_INSERT_LIMIT + 1) * SQL_INSERT_LIMIT;
    if next < |data| then next else |data|
  }

  lemma EndIsAhead<T>(data: seq<T>, index: nat)
    requires index < |data|
    ensures index < End(data, index) <= |data|
  {
  }

  /** What follows the header of the statement that the row at this index belongs to. */
  function RestOf<T>(data: seq<T>, index: nat): seq<Token<T>>
    requires index < |data|
  {
    EndIsAhead(data, index);
    Values(data[index..End(data, index)]) + Statements(data[End(data, index)..])
  }

  lemma LastOfChunk<T>(data: seq<T>, index: nat)
    requires index < |data| && (index + 1 == |data| || index % SQL_INSERT_LIMIT == SQL_INSERT_LIMIT - 1)
    ensures RestOf(data, index) == [Row(data[index])] + [Semicolon] + Statements(data[index + 1..])
  {
    assert End(data, index) == index + 1 && data[index..index + 1] == [data[index]];
    assert [data[index]][1..] == [];
    assert Values([data[index]]) == [Row(data[index])] + [Semicolon];
  }

  lemma InsideChunk<T>(data: seq<T>, index: nat)
    requires index + 1 < |data| && index % SQL_INSERT_LIMIT != SQL_INSERT_LIMIT - 1
    ensures RestOf(data, index) == [Row(data[index])] + [Comma] + RestOf(data, index + 1)
  {
    var end := End(data, index);
    EndIsAhead(data, index + 1);
    assert End(data, index + 1) == end;
    assert data[index..end][1..] == data[index + 1..end];
    var values := Values(data[index + 1..end]);
    assert Values(data[index..end]) == [Row(data[index])] + [Comma] + values;
    assert ([Row(data[index])] + [Comma] + values) + Statements(data[end..])
        == [Row(data[index])] + [Comma] + (values + Statements(data[end..]));
  }

  lemma NewChunk<T>(data: seq<T>, index: nat)
    requires index < |data| && index % SQL_INSERT_LIMIT == 0
    ensures Statements(data[index..]) == [InsertHeader] + RestOf(data, index)
  {
    var rest, end := data[index..], End(data, index);
    assert Chunk(|rest|) == end - index;
    assert rest[..Chunk(|rest|)] == data[index..end] && rest[Chunk(|rest|)..] == data[end..];
    assert [InsertHeader] + Values(data[index..end]) + Statements(data[end..])
        == [InsertHeader] + (Values(data[index..end]) + Statements(data[end..]));
  }

  lemma LastTurn<T>(data: seq<T>, index: nat)
    requires index < |data| && (index + 1 == |data| || index % SQL_INSERT_LIMIT == SQL_INSERT_LIMIT - 1)
    requires FromIndex(data, index + 1) == Statements(data[index + 1..])
    ensures FromIndex(data, index) == Head(index) + RestOf(data, index)
  {
    LastOfChunk(data, index);
    Regrouped(Head(index), [Row(data[index])], [Semicolon], FromIndex(data, index + 1));
  }

  lemma InnerTurn<T>(data: seq<T>, index: nat)
    requires index + 1 < |data| && index % SQL_INSERT_LIMIT != SQL_INSERT_LIMIT - 1
    requires FromIndex(data, index + 1) == RestOf(data, index + 1)
    ensures FromIndex(data, index) == Head(index) + RestOf(data, index)
  {
    InsideChunk(data, index);
    Regrouped(Head(index), [Row(data[index])], [Comma], FromIndex(data, index + 1));
  }

  lemma NextRemainder(index: nat)
    ensures (index + 1) % SQL_INSERT_LIMIT == 0 <==> index % SQL_INSERT_LIMIT == SQL_INSERT_LIMIT - 1
  {
  }

  lemma {:induction false} FromIndexIs<T>(data: seq<T>, index: nat)
    requires index < |data|
    ensures FromIndex(data, index) == Head(index) + RestOf(data, index)
    decreases |data| - index
  {
    if index + 1 == |data| {
      assert data[index + 1..] == [];
      LastTurn(data, index);
    } else {
      FromIndexIs(data, index + 1);
      NextRemainder(index);
      if index % SQL_INSERT_LIMIT == SQL_INSERT_LIMIT - 1 {
        NewChunk(data, index + 1);
        LastTurn(data, index);
      } else {
        assert [] + RestOf(data, index + 1) == RestOf(data, index + 1);
        InnerTurn(data, index);
      }
    }
  }

  lemma Associative<T>(a: seq<T>, b: seq<T>, c: seq<T>)
    ensures a + b + c == a + (b + c)
  {
  }

  lemma Regrouped<T>(a: seq<Token<T>>, b: seq<Token<T>>, c: seq<Token<T>>, d: seq<Token<T>>)
    ensures (a + b + c) + d == a + (b + c + d)
  {
  }

  lemma FromStart<T>(data: seq<T>)
    ensures FromIndex(data, 0) == Statements(data)
  {
    if data != [] {
      FromIndexIs(data, 0);
      NewChunk(data, 0);
      assert data[0..] == data;
    }
  }

  // ----- Reading the file -----

  /** The rows of a file, in order. */
  function RowsOf<T>(file: seq<Token<T>>): seq<T> {
    if file == [] then [] else (if file[0].Row? then [file[0].row] else []) + RowsOf(file[1..])
  }

  lemma {:induction false} RowsOfConcat<T>(a: seq<Token<T>>, b: seq<Token<T>>)
    ensures RowsOf(a + b) == RowsOf(a) + RowsOf(b)
    decreases |a|
  {
    if a == [] {
      assert a + b == b;
    } else {
      assert (a + b)[0] == a[0] && (a + b)[1..] == a[1..] + b;
      RowsOfConcat(a[1..], b);
      var first := if a[0].Row? then [a[0].row] else [];
      assert first + (RowsOf(a[1..]) + RowsOf(b)) == (first + RowsOf(a[1..])) + RowsOf(b);
    }
  }

  lemma {:induction false} RowsOfValues<T>(rows: seq<T>)
    ensures RowsOf(Values(rows)) == rows
  {
    if rows != [] {
      var separator := if |rows| == 1 then Semicolon else Comma;
      RowsOfValues(rows[1..]);
      RowsOfConcat([Row(rows[0])] + [separator], Values(rows[1..]));
      RowsOfConcat([Row(rows[0])], [separator]);
      OneToken(Row(rows[0]));
      OneToken(separator);
      assert [rows[0]] + [] + rows[1..] == rows;
    }
  }

  lemma OneToken<T>(token: Token<T>)
    ensures RowsOf([token]) == if token.Row? then [token.row] else []
  {
    assert [token][1..] == [];
  }

  /** Splits the statements of a file: each is the list of rows between a header and the next semicolon. */
  function ParseStatements<T>(file: seq<Token<T>>, open: Option<seq<T>>): Option<seq<seq<T>>>
    decreases |file|
  {
    if file == [] then (if open.None? then Some([]) else None)
    else match file[0]
      case InsertHeader => if open.None? then ParseStatements(file[1..], Some([])) else None
      case Row(r) =>
        if open.None? || |file| == 1 then None
        else if file[1].Comma? then ParseStatements(file[2..], Some(open.value + [r]))
        else if file[1].Semicolon? then
          var rest := ParseStatements(file[2..], None);
          if rest.Some? then Some([open.value + [r]] + rest.value) else None
        else None
      case _ => None
  }

  function Chunks<T>(data: seq<T>): seq<seq<T>> {
    if data == [] then [] else [data[..Chunk(|data|)]] + Chunks(data[Chunk(|data|)..])
  }

  lemma ValuesAhead<T>(rows: seq<T>, tail: seq<Token<T>>)
    requires rows != []
    ensures var file := Values(rows) + tail;
      && |file| > 1 && file[0] == Row(rows[0]) && file[1] == (if |rows| == 1 then Semicolon else Comma)
      && file[2..] == if |rows| == 1 then tail else Values(rows[1..]) + tail
  {
    var separator, values := if |rows| == 1 then Semicolon else Comma, Values(rows[1..]);
    TwoAhead(Row(rows[0]), separator, values, tail);
    if |rows| == 1 {
      assert rows[1..] == [] && values + tail == tail;
    }
  }

  lemma TwoAhead<T>(a: Token<T>, b: Token<T>, values: seq<Token<T>>, tail: seq<Token<T>>)
    ensures var file := [a] + [b] + values + tail;
      |file| > 1 && file[0] == a && file[1] == b && file[2..] == values + tail
  {
  }

  lemma {:induction false} ParseValues<T>(rows: seq<T>, open: seq<T>, tail: seq<Token<T>>)
    requires rows != [] && ParseStatements(tail, None).Some?
    ensures ParseStatements(Values(rows) + tail, Some(open)) == Some([open + rows] + ParseStatements(tail, None).value)
    decreases |rows|
  {
    ValuesAhead(rows, tail);
    if |rows| == 1 {
      assert open + [rows[0]] == open + rows;
    } else {
      ParseValues(rows[1..], open + [rows[0]], tail);
      assert open + [rows[0]] + rows[1..] == open + rows;
    }
  }

  lemma OneAhead<T>(a: Token<T>, values: seq<Token<T>>, tail: seq<Token<T>>)
    ensures var file := [a] + values + tail; |file| > 0 && file[0] == a && file[1..] == values + tail
  {
  }

  lemma ParseStatement<T>(rows: seq<T>, tail: seq<Token<T>>)
    requires rows != [] && ParseStatements(tail, None).Some?
    ensures ParseStatements([InsertHeader] + Values(rows) + tail, None) == Some([rows] + ParseStatements(tail, None).value)
  {
    OneAhead(InsertHeader, Values(rows), tail);
    ParseValues(rows, [], tail);
    assert [] + rows == rows;
  }

  /** Reading the statements back gives the chunks of the input, and nothing that is not well formed. */
  lemma {:induction false} StatementsParse<T>(data: seq<T>)
    ensures ParseStatements(Statements(data), None) == Some(Chunks(data))
    decreases |data|
  {
    if data != [] {
      var first, rest := data[..Chunk(|data|)], data[Chunk(|data|)..];
      StatementsParse(rest);
      ParseStatement(first, Statements(rest));
    }
  }

  function Flatten<T>(chunks: seq<seq<T>>): seq<T> {
    if chunks == [] then [] else chunks[0] + Flatten(chunks[1..])
  }

  /** The chunks are the input in order, ceil(n / 1000) of them, each with 1 to 1000 rows and all but the last full. */
  lemma {:induction false} ChunksPartition<T>(data: seq<T>)
    ensures Flatten(Chunks(data)) == data
    ensures |Chunks(data)| == (|data| + 999) / 1000
    ensures forall i :: 0 <= i < |Chunks(data)| ==> 1 <= |Chunks(data)[i]| <= 1000
    ensures forall i :: 0 <= i < |Chunks(data)| - 1 ==> |Chunks(data)[i]| == 1000
    decreases |data|
  {
    if data != [] {
      ChunksPartition(data[Chunk(|data|)..]);
      assert Chunks(data)[1..] == Chunks(data[Chunk(|data|)..]);
    }
  }

  /** The whole file: the create script, then statements that read back as the chunks of the input, then the batch end. */
  lemma FileReadsBack<T>(data: seq<T>, file: seq<Token<T>>)
    requires file == [CreateScript] + Statements(data) + [Go]
    ensures |file| >= 2 && file[0] == CreateScript && file[|file| - 1] == Go
    ensures ParseStatements(file[1..|file| - 1], None) == Some(Chunks(data))
    ensures RowsOf(file) == data
  {
    assert file[1..|file| - 1] == Statements(data);
    StatementsParse(data);
    RowsOfStatements(data);
    RowsOfConcat([CreateScript] + Statements(data), [Go]);
    RowsOfConcat([CreateScript], Statements(data));
  }

  lemma {:induction false} RowsOfStatements<T>(data: seq<T>)
    ensures RowsOf(Statements(data)) == data
    decreases |data|
  {
    if data != [] {
      var first, rest := data[..Chunk(|data|)], data[Chunk(|data|)..];
      RowsOfStatements(rest);
      RowsOfValues(first);
      RowsOfConcat([InsertHeader] + Values(first), Statements(rest));
      RowsOfConcat([InsertHeader], Values(first));
      assert first + rest == data;
    }
  }
}
