/**
 Well-formed delimited text (section 2 of RFC 4180, for either delimiter) is parsed back to the
 table it was printed from, and what the two scanners do on arbitrary text. */
module CsvRoundTrip {
  import opened Lists
  import opened Csv

  // ---------------------------------------------------------------- printer

  // A field as it is written: quoted or not. A row with its line ending.
  datatype Cell = Cell(text: string, quoted: bool)
  datatype Ending = LF | CRLF | EndOfText
  datatype Row = Row(cells: seq<Cell>, ending: Ending)

  predicate NeedsQuotes(text: string, d: char) {
    d in text || '"' in text || '\r' in text || '\n' in text
  }

  /** At least one field, quoted where it has to be; a lone empty field is quoted. */
  predicate WellFormedCells(cells: seq<Cell>, d: char) {
    && cells != []
    && (forall i :: 0 <= i < |cells| ==> NeedsQuotes(cells[i].text, d) ==> cells[i].quoted)
    && (|cells| == 1 && cells[0].text == [] ==> cells[0].quoted)
  }

  /** Every row ends its line, the last one may end with the text. */
  predicate WellFormed(table: seq<Row>, d: char) {
    forall i :: 0 <= i < |table| ==>
      WellFormedCells(table[i].cells, d) && (table[i].ending.EndOfText? ==> i == |table| - 1)
  }

  function Escaped(text: string): string {
    if text == [] then []
    else (if text[0] == '"' then ['"', '"'] else [text[0]]) + Escaped(text[1..])
  }

  function PrintCell(c: Cell): string {
    if c.quoted then ['"'] + Escaped(c.text) + ['"'] else c.text
  }

  function PrintCells(cells: seq<Cell>, d: char): string
    requires cells != []
  {
    if |cells| == 1 then PrintCell(cells[0]) else PrintCell(cells[0]) + [d] + PrintCells(cells[1..], d)
  }

  function PrintEnding(e: Ending): string {
    match e case LF => "\n" case CRLF => "\r\n" case EndOfText => ""
  }

  function Print(table: seq<Row>, d: char): string
    requires forall i :: 0 <= i < |table| ==> table[i].cells != []
  {
    if table == [] then [] else PrintCells(table[0].cells, d) + PrintEnding(table[0].ending) + Print(table[1..], d)
  }

  function Texts(cells: seq<Cell>): seq<string> {
    if cells == [] then [] else [cells[0].text] + Texts(cells[1..])
  }

  function Values(table: seq<Row>): seq<seq<string>> {
    if table == [] then [] else [Texts(table[0].cells)] + Values(table[1..])
  }

  // ---------------------------------------- the field splitter on one line

  /** A printed quoted field is read to its own closing quote. */
  lemma {:induction false} QuotedRoundTrip(text: string, rest: string)
    requires rest == [] || rest[0] != '"'
    ensures QuotedText(Escaped(text) + ['"'] + rest) == text
    ensures QuotedLength(Escaped(text) + ['"'] + rest) == |Escaped(text)| + 1
  {
    var s := Escaped(text) + ['"'] + rest;
    if text == [] {
      assert s == ['"'] + rest;
    } else {
      var tail := Escaped(text[1..]) + ['"'] + rest;
      assert text == [text[0]] + text[1..];
      if text[0] == '"' {
        assert s == ['"', '"'] + tail;
        assert s[2..] == tail;
      } else {
        assert s == [text[0]] + tail;
        assert s[1..] == tail;
      }
      assert QuotedLength(s) == |s| - |tail| + QuotedLength(tail) && QuotedText(s) == [text[0]] + QuotedText(tail);
      hide QuotedText, QuotedLength;
      QuotedRoundTrip(text[1..], rest);
    }
  }

  lemma {:induction false} PlainRoundTrip(text: string, rest: string, d: char)
    requires d !in text && (rest == [] || rest[0] == d)
    ensures PlainLength(text + rest, d) == |text|
  {
    if text == [] {
      assert text + rest == rest;
    } else {
      assert (text + rest)[1..] == text[1..] + rest;
      PlainRoundTrip(text[1..], rest, d);
    }
  }

  /** The first field of a printed line is its first cell. */
  lemma FirstField(c: Cell, rest: string, d: char)
    requires d != '"' && (rest == [] || rest[0] == d) && (NeedsQuotes(c.text, d) ==> c.quoted)
    ensures Fields(PrintCell(c) + rest, d) == if rest == [] then [c.text] else [c.text] + Fields(rest[1..], d)
  {
    var line := PrintCell(c) + rest;
    if c.quoted {
      QuotedRoundTrip(c.text, rest);
      assert line[1..] == Escaped(c.text) + ['"'] + rest;
      hide QuotedText, QuotedLength, Escaped;
      assert line[1..][QuotedLength(line[1..])..] == rest;
    } else {
      PlainRoundTrip(c.text, rest, d);
      assert line != [] ==> line[0] != '"';
      hide PlainLength;
      var n := PlainLength(line, d);
      assert line[..n] == c.text;
      if rest != [] {
        assert line[n + 1..] == rest[1..];
      } else {
        assert line == c.text;
      }
    }
  }

  /** The field splitter recovers a printed line. */
  lemma {:induction false} LineRoundTrip(cells: seq<Cell>, d: char)
    requires d != '"' && cells != []
    requires forall i :: 0 <= i < |cells| ==> NeedsQuotes(cells[i].text, d) ==> cells[i].quoted
    ensures Fields(PrintCells(cells, d), d) == Texts(cells)
  {
    var c := cells[0];
    CellsUnfold(cells, d);
    hide Fields, PrintCells, PrintCell, NeedsQuotes, Texts;
    if |cells| == 1 {
      FirstField(c, [], d);
      assert PrintCell(c) + [] == PrintCell(c);
    } else {
      var rest := [d] + PrintCells(cells[1..], d);
      FirstField(c, rest, d);
      assert rest[1..] == PrintCells(cells[1..], d);
      LineRoundTrip(cells[1..], d);
    }
  }

  lemma CellsUnfold(cells: seq<Cell>, d: char)
    requires cells != []
    ensures |cells| == 1 ==> PrintCells(cells, d) == PrintCell(cells[0]) && Texts(cells) == [cells[0].text]
    ensures |cells| > 1 ==> PrintCells(cells, d) == PrintCell(cells[0]) + ([d] + PrintCells(cells[1..], d))
                            && Texts(cells) == [cells[0].text] + Texts(cells[1..])
  {
  }

  // --------------------------------------- the record splitter on one line

  /** The splitter passes over `s` without ending the record: from one quote state to the other. */
  predicate Passes(s: string, quoted: bool, after: bool) {
    if s == [] then quoted == after
    else if s[0] == '"' then Passes(s[1..], !quoted, after)
    else (s[0] != '\n' || quoted) && Passes(s[1..], quoted, after)
  }

  lemma {:induction false} PassedOver(s: string, rest: string, quoted: bool, after: bool)
    requires Passes(s, quoted, after)
    ensures RawLength(s + rest, quoted) == |s| + RawLength(rest, after)
  {
    if s == [] {
      assert s + rest == rest;
    } else {
      assert (s + rest)[1..] == s[1..] + rest;
      PassedOver(s[1..], rest, if s[0] == '"' then !quoted else quoted, after);
    }
  }

  lemma {:induction false} PassesConcat(a: string, b: string, q: bool, q': bool, q'': bool)
    requires Passes(a, q, q') && Passes(b, q', q'')
    ensures Passes(a + b, q, q'')
  {
    if a == [] {
      assert a + b == b;
    } else {
      assert (a + b)[1..] == a[1..] + b;
      PassesConcat(a[1..], b, if a[0] == '"' then !q else q, q', q'');
    }
  }

  lemma {:induction false} PlainPasses(text: string)
    requires '"' !in text && '\n' !in text
    ensures Passes(text, false, false)
  {
    if text == [] {
    } else {
      PlainPasses(text[1..]);
    }
  }

  lemma {:induction false} EscapedPasses(text: string)
    ensures Passes(Escaped(text), true, true)
  {
    if text == [] {
    } else {
      EscapedPasses(text[1..]);
      var s := Escaped(text);
      if text[0] == '"' {
        assert s[1..][1..] == Escaped(text[1..]) && s[1..][0] == '"';
      } else {
        assert s[1..] == Escaped(text[1..]);
      }
    }
  }

  lemma CellPasses(c: Cell, d: char)
    requires NeedsQuotes(c.text, d) ==> c.quoted
    ensures Passes(PrintCell(c), false, false)
  {
    if c.quoted {
      EscapedPasses(c.text);
      var q: string := ['"'];
      assert Passes(q, false, true) && Passes(q, true, false) by {
        assert q[1..] == [];
      }
      PassesConcat(q, Escaped(c.text), false, true, true);
      PassesConcat(q + Escaped(c.text), q, false, true, false);
    } else {
      PlainPasses(c.text);
    }
  }

  lemma {:induction false} CellsPass(cells: seq<Cell>, d: char)
    requires d != '"' && d != '\n' && cells != []
    requires forall i :: 0 <= i < |cells| ==> NeedsQuotes(cells[i].text, d) ==> cells[i].quoted
    ensures Passes(PrintCells(cells, d), false, false)
  {
    CellPasses(cells[0], d);
    if |cells| == 1 {
    } else {
      CellsPass(cells[1..], d);
      assert Passes([d], false, false) by {
        assert [d][1..] == [];
      }
      PassesConcat(PrintCell(cells[0]), [d], false, false, false);
      PassesConcat(PrintCell(cells[0]) + [d], PrintCells(cells[1..], d), false, false, false);
    }
  }

  /** A printed line is not empty and ends neither in a line feed nor in a carriage return. */
  lemma {:induction false} CellsEnd(cells: seq<Cell>, d: char)
    requires d != '\r' && d != '\n' && cells != []
    requires forall i :: 0 <= i < |cells| ==> NeedsQuotes(cells[i].text, d) ==> cells[i].quoted
    ensures !EndsWith(PrintCells(cells, d), '\n') && !EndsWith(PrintCells(cells, d), '\r')
    ensures |cells| > 1 || cells[0].quoted || cells[0].text != [] ==> PrintCells(cells, d) != []
  {
    if |cells| == 1 {
      var text := cells[0].text;
      assert !cells[0].quoted && text != [] ==> text[|text| - 1] in text;
    } else {
      CellsEnd(cells[1..], d);
      var head, tail := PrintCell(cells[0]) + [d], PrintCells(cells[1..], d);
      assert tail == [] ==> (head + tail)[|head + tail| - 1] == d;
    }
  }

  /** The record splitter cuts a printed row exactly after its line ending. */
  lemma RowRoundTrip(r: Row, rest: string, d: char)
    requires d != '"' && d != '\r' && d != '\n' && WellFormedCells(r.cells, d)
    requires r.ending.EndOfText? ==> rest == []
    ensures var line := PrintCells(r.cells, d);
            var raw := line + PrintEnding(r.ending);
            RawLength(raw + rest, false) == |raw| && Strip(raw) == line && line != []
  {
    var line := PrintCells(r.cells, d);
    CellsPass(r.cells, d);
    CellsEnd(r.cells, d);
    var ending := PrintEnding(r.ending);
    hide PrintCells, Strip, RawLength, Passes, PrintEnding;
    assert line + ending + rest == line + (ending + rest);
    PassedOver(line, ending + rest, false, false);
    EndingEndsRecord(r.ending, rest);
    StripEnding(line, r.ending);
  }

  lemma EndingEndsRecord(e: Ending, rest: string)
    requires e.EndOfText? ==> rest == []
    ensures RawLength(PrintEnding(e) + rest, false) == |PrintEnding(e)|
  {
    var after := PrintEnding(e) + rest;
    match e
    case LF => assert after[0] == '\n';
    case CRLF => assert after[0] == '\r' && after[1..][0] == '\n';
    case EndOfText => assert after == [];
  }

  lemma StripEnding(line: string, e: Ending)
    requires !EndsWith(line, '\n') && !EndsWith(line, '\r')
    ensures Strip(line + PrintEnding(e)) == line
  {
    var raw := line + PrintEnding(e);
    match e
    case LF => assert raw[..|raw| - 1] == line;
    case CRLF => assert raw[..|raw| - 1] == line + "\r" && (line + "\r")[..|line|] == line;
    case EndOfText => assert raw == line;
  }

  /**
   The CSV round trip: whatever fields a table has, however its optional quotes and line endings are
   chosen, parsing its printed form returns the table. So the two scanners agree on where quoting
   begins and ends. */
  lemma {:induction false} TableRoundTrip(table: seq<Row>, d: char)
    requires d != '"' && d != '\r' && d != '\n' && WellFormed(table, d)
    ensures Rows(Print(table, d), d) == Values(table)
  {
    if table == [] {
    } else {
      var r := table[0];
      var raw, rest := PrintCells(r.cells, d) + PrintEnding(r.ending), Print(table[1..], d);
      RowRoundTrip(r, rest, d);
      LineRoundTrip(r.cells, d);
      TableRoundTrip(table[1..], d);
      hide PrintCells, Fields, RawLength, Strip, WellFormedCells;
      var text := raw + rest;
      assert text[..|raw|] == raw && text[|raw|..] == rest;
    }
  }

  /** What strip takes off a record: one line feed, and then one carriage return, either alone or both. */
  lemma StripLaws(line: string)
    requires !EndsWith(line, '\n') && !EndsWith(line, '\r')
    ensures Strip(line) == Strip(line + "\n") == Strip(line + "\r") == Strip(line + "\r\n") == line
    ensures Strip(line + "\n\r") == line + "\n" && Strip(line + "\r\r\n") == line + "\r"
  {
    StripEnding(line, LF);
    StripEnding(line, CRLF);
    assert (line + "\r")[..|line|] == line;
    assert (line + "\n\r")[..|line| + 1] == line + "\n";
    assert (line + "\r\r\n")[..|line| + 2] == line + "\r\r" && (line + "\r\r")[..|line| + 1] == line + "\r";
  }

  // ------------------------------------------------ arbitrary, malformed text

  function Quotes(s: string): nat {
    if s == [] then 0 else (if s[0] == '"' then 1 else 0) + Quotes(s[1..])
  }

  /** A line feed after an even number of quotes. */
  predicate Breaks(text: string, i: nat)
    requires i < |text|
  {
    text[i] == '\n' && Quotes(text[..i]) % 2 == 0
  }

  predicate BreaksFrom(text: string, quoted: bool, i: nat)
    requires i < |text|
  {
    text[i] == '\n' && (Quotes(text[..i]) + if quoted then 1 else 0) % 2 == 0
  }

  /** Looking one character on: its quote turns the state, and the break moves by one. */
  lemma BreaksStep(text: string, quoted: bool, i: nat)
    requires 0 < i < |text|
    ensures BreaksFrom(text, quoted, i) <==> BreaksFrom(text[1..], if text[0] == '"' then !quoted else quoted, i - 1)
  {
    assert text[..i][1..] == text[1..][..i - 1];
  }

  lemma {:induction false} FirstBreakFrom(text: string, quoted: bool)
    ensures var n := RawLength(text, quoted);
            && (forall i :: 0 <= i < n - 1 ==> !BreaksFrom(text, quoted, i))
            && (n < |text| ==> BreaksFrom(text, quoted, n - 1))
  {
    if text == [] {
    } else {
      var q' := if text[0] == '"' then !quoted else quoted;
      var n := RawLength(text, quoted);
      FirstBreakFrom(text[1..], q');
      assert BreaksFrom(text, quoted, 0) <==> text[0] == '\n' && !quoted by {
        assert text[..0] == [];
      }
      hide BreaksFrom, Quotes;
      forall i | 0 < i < |text|
        ensures BreaksFrom(text, quoted, i) <==> BreaksFrom(text[1..], q', i - 1)
      {
        BreaksStep(text, quoted, i);
      }
    }
  }

  /** On any text, the first record ends with the first line feed after an even number of quotes. */
  lemma FirstBreak(text: string)
    ensures var n := RawLength(text, false);
            && (forall i :: 0 <= i < n - 1 ==> !Breaks(text, i))
            && (n < |text| ==> Breaks(text, n - 1))
  {
    FirstBreakFrom(text, false);
    assert forall i :: 0 <= i < |text| ==> (BreaksFrom(text, false, i) <==> Breaks(text, i));
  }

  /** The raw records of a text. */
  function RawRecords(text: string): seq<string>
    decreases |text|
  {
    if text == [] then []
    else var n := RawLength(text, false); [text[..n]] + RawRecords(text[n..])
  }

  function Flatten(parts: seq<string>): string {
    if parts == [] then [] else parts[0] + Flatten(parts[1..])
  }

  function NonEmptyFields(records: seq<string>, d: char): seq<seq<string>> {
    if records == [] then []
    else (if Strip(records[0]) == [] then [] else [Fields(Strip(records[0]), d)]) + NonEmptyFields(records[1..], d)
  }

  /** On any text, the raw records add up to the text, and the rows are those of the non-empty ones. */
  lemma {:induction false} RecordsPartition(text: string, d: char)
    ensures Flatten(RawRecords(text)) == text
    ensures Rows(text, d) == NonEmptyFields(RawRecords(text), d)
    decreases |text|
  {
    if text == [] {
    } else {
      var n := RawLength(text, false);
      RecordsPartition(text[n..], d);
      hide RawLength, Strip, Fields;
      assert RawRecords(text)[1..] == RawRecords(text[n..]);
      assert text == text[..n] + text[n..];
    }
  }

  /** The text up to here ends with a line feed outside quotes. */
  predicate Closed(a: string, quoted: bool) {
    a != [] && a[|a| - 1] == '\n' && (Quotes(a) + if quoted then 1 else 0) % 2 == 0
  }

  lemma {:induction false} RawLengthInPrefix(a: string, b: string, quoted: bool)
    requires Closed(a, quoted)
    ensures var n := RawLength(a, quoted);
            RawLength(a + b, quoted) == n && (n == |a| || Closed(a[n..], false))
  {
    assert (a + b)[1..] == a[1..] + b;
    if a[0] == '"' {
      RawLengthInPrefix(a[1..], b, !quoted);
      assert a[1..][RawLength(a[1..], !quoted)..] == a[RawLength(a, quoted)..];
    } else if a[0] == '\n' && !quoted {
      assert a[1..] != [] ==> a[1..][|a[1..]| - 1] == a[|a| - 1];
    } else {
      RawLengthInPrefix(a[1..], b, quoted);
      assert a[1..][RawLength(a[1..], quoted)..] == a[RawLength(a, quoted)..];
    }
  }

  /** Parsing distributes over concatenation at any line feed outside quotes. */
  lemma {:induction false} ParseConcat(a: string, b: string, d: char)
    requires a == [] || Closed(a, false)
    ensures Rows(a + b, d) == Rows(a, d) + Rows(b, d)
    decreases |a|
  {
    hide Rows, Strip, Fields, RawLength, Closed;
    RowsUnfold(a, d);
    RowsUnfold(a + b, d);
    if a == [] {
      assert a + b == b;
    } else {
      var n := RawLength(a, false);
      RawLengthInPrefix(a, b, false);
      assert n == |a| ==> a[n..] == [];
      ParseConcat(a[n..], b, d);
      assert (a + b)[..n] == a[..n] && (a + b)[n..] == a[n..] + b;
      var x, y := Rows(a[n..], d), Rows(b, d);
      var head := if Strip(a[..n]) == [] then [] else [Fields(Strip(a[..n]), d)];
      assert head + (x + y) == head + x + y;
    }
  }

  lemma RowsUnfold(text: string, d: char)
    ensures text == [] ==> Rows(text, d) == []
    ensures text != [] ==>
            var n := RawLength(text, false);
            Rows(text, d) == (if Strip(text[..n]) == [] then [] else [Fields(Strip(text[..n]), d)]) + Rows(text[n..], d)
  {
  }

  /** On a line without quotes the fields are what lies between the delimiters: joining restores it. */
  lemma {:induction false} QuoteFreeLine(line: string, d: char)
    requires '"' !in line
    ensures Fields(line, d) == Split(line, d)
    ensures Join(Fields(line, d), d) == line
    decreases |line|
  {
    var n := PlainLength(line, d);
    NoDelimiterBefore(line, d);
    FieldsOfPlain(line, d);
    JoinOfSplit(line, d);
    hide Fields, PlainLength, Split, Join;
    if n < |line| {
      QuoteFreeLine(line[n + 1..], d);
      SplitHead(line[..n], line[n + 1..], d);
      assert line == line[..n] + [d] + line[n + 1..];
    } else {
      assert line[..n] == line;
      SplitHead(line, [], d);
    }
  }

  lemma FieldsOfPlain(line: string, d: char)
    requires '"' !in line
    ensures var n := PlainLength(line, d);
            Fields(line, d) == if n < |line| then [line[..n]] + Fields(line[n + 1..], d) else [line[..n]]
  {
    hide Fields;
    PlainTurn(line, 0, d);
    assert line[0..] == line;
  }

  lemma {:induction false} NoDelimiterBefore(line: string, d: char)
    ensures d !in line[..PlainLength(line, d)]
  {
    if line == [] || line[0] == d {
    } else {
      NoDelimiterBefore(line[1..], d);
      var n := PlainLength(line, d);
      assert line[..n] == [line[0]] + line[1..][..n - 1];
    }
  }

  /** A blank line is no row: a lone empty field has to be quoted to survive. */
  lemma BlankLineIsDropped(e: Ending, rest: string, d: char)
    requires !e.EndOfText?
    ensures Rows(PrintEnding(e) + rest, d) == Rows(rest, d)
    ensures Fields([], d) == [[]] && Fields("\"\"", d) == [[]]
  {
    var ending := PrintEnding(e);
    var text := ending + rest;
    EndingEndsRecord(e, rest);
    StripEnding([], e);
    assert [] + ending == ending;
    assert text[..|ending|] == ending && text[|ending|..] == rest;
    RowsUnfold(text, d);
    var quotes: string := ['"'] + Escaped([]) + ['"'];
    QuotedRoundTrip([], []);
    assert quotes[1..] == Escaped([]) + ['"'] + [];
    assert quotes == "\"\"";
  }

  /**
   Outside well-formed text the code makes its own choice: what follows a closing quote, up to the
   next delimiter, is not refused and not glued to the field but becomes further fields. */
  lemma TextAfterClosingQuote(text: string, rest: string, d: char)
    requires rest != [] && rest[0] != '"' && rest[0] != d
    ensures Fields(['"'] + Escaped(text) + ['"'] + rest, d) == [text] + Fields(rest, d)
  {
    var line := ['"'] + Escaped(text) + ['"'] + rest;
    QuotedRoundTrip(text, rest);
    assert line[1..] == Escaped(text) + ['"'] + rest;
    hide QuotedText, QuotedLength, Escaped, PlainLength;
    assert line[1..][QuotedLength(line[1..])..] == rest;
  }

  /** A quote that is never closed takes the rest of the line, and of the text, into its field. */
  lemma UnclosedQuote(text: string, d: char)
    ensures Fields(['"'] + Escaped(text), d) == [text]
    ensures RawLength(['"'] + Escaped(text), false) == |['"'] + Escaped(text)|
  {
    var line := ['"'] + Escaped(text);
    assert line[1..] == Escaped(text);
    UnclosedText(text);
    EscapedPasses(text);
    assert Escaped(text) + [] == Escaped(text);
    PassedOver(Escaped(text), [], true, true);
    hide QuotedText, QuotedLength, Escaped;
    assert line[1..][QuotedLength(line[1..])..] == [];
  }

  lemma {:induction false} UnclosedText(text: string)
    ensures QuotedText(Escaped(text)) == text && QuotedLength(Escaped(text)) == |Escaped(text)|
  {
    if text == [] {
    } else {
      UnclosedText(text[1..]);
      var s := Escaped(text);
      if text[0] == '"' {
        assert s[2..] == Escaped(text[1..]);
      } else {
        assert s[1..] == Escaped(text[1..]);
      }
      assert text == [text[0]] + text[1..];
    }
  }

  /** The header is the first row, unless the first line is blank. */
  lemma HeaderIsFirstRow(text: string, d: char)
    ensures var first := Strip(text[..RawLength(text, false)]);
            first != [] ==> Rows(text, d) != [] && Rows(text, d)[0] == Fields(first, d)
  {
    RowsUnfold(text, d);
    hide Rows, Fields;
  }
}
