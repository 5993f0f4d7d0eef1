/**
 The delimited-text parser (src/core/csv_parser.cpp): two scanners with quote rules of their own,
 one that cuts text into records and one that cuts a record into fields. */
module Csv {
  datatype Delimiter = Comma | Space

  function DelimiterChar(d: Delimiter): char {
    match d case Comma => ',' case Space => ' '
  }

  // --------------------------------------------------------- record splitter

  /** Length of the first raw record: up to and including the first line feed outside quotes. */
  function RawLength(text: string, quoted: bool): (n: nat)
    ensures n <= |text| && (text != [] ==> n > 0)
  {
    if text == [] then 0
    else if text[0] == '"' then 1 + RawLength(text[1..], !quoted)
    else if text[0] == '\n' && !quoted then 1
    else 1 + RawLength(text[1..], quoted)
  }

  predicate EndsWith(s: string, c: char) {
    s != [] && s[|s| - 1] == c
  }

  function DropEnd(s: string, c: char): string {
    if EndsWith(s, c) then s[..|s| - 1] else s
  }

  function Strip(raw: string): string {
    DropEnd(DropEnd(raw, '\n'), '\r')
  }

  /** `next_record`: its look-ahead on doubled quotes is the same as toggling at every quote. */
  method NextRecord(text: string, start: nat) returns (record: string, next: nat)
    requires start <= |text|
    ensures next == start + RawLength(text[start..], false) <= |text|
    ensures record == Strip(text[start..next])
  {
    next := start;
    var quoted := false;
    while next < |text|
      invariant start <= next <= |text|
      invariant next + RawLength(text[next..], quoted) == start + RawLength(text[start..], false)
      decreases |text| - next
    {
      Tail(text, next);
      var value := text[next];
      next := next + 1;
      if value == '"' {
        if quoted && next < |text| && text[next] == '"' {
          Tail(text, next);
          next := next + 1;
        } else {
          quoted := !quoted;
        }
      } else if value == '\n' && !quoted {
        break;
      }
    }
    record := text[start..next];
    if EndsWith(record, '\n') {
      record := record[..|record| - 1];
    }
    if EndsWith(record, '\r') {
      record := record[..|record| - 1];
    }
  }

  lemma Tail(text: string, i: nat)
    requires i < |text|
    ensures text[i..][0] == text[i] && text[i..][1..] == text[i + 1..]
  {
  }

  // ----------------------------------------------------------- field splitter

  /** Length up to and including the closing quote, and the text it closes, doubled quotes undone. */
  function QuotedLength(s: string): (n: nat)
    ensures n <= |s|
  {
    if s == [] then 0
    else if s[0] != '"' then 1 + QuotedLength(s[1..])
    else if |s| > 1 && s[1] == '"' then 2 + QuotedLength(s[2..])
    else 1
  }

  function QuotedText(s: string): string {
    if s == [] then []
    else if s[0] != '"' then [s[0]] + QuotedText(s[1..])
    else if |s| > 1 && s[1] == '"' then ['"'] + QuotedText(s[2..])
    else []
  }

  function PlainLength(s: string, d: char): (n: nat)
    ensures n <= |s| && (n < |s| ==> s[n] == d)
  {
    if s == [] || s[0] == d then 0 else 1 + PlainLength(s[1..], d)
  }

  /** The fields of a line. Text between a closing quote and the next delimiter is a field of its own. */
  function Fields(line: string, d: char): seq<string>
    decreases |line|
  {
    if line != [] && line[0] == '"' then
      var field, rest := QuotedText(line[1..]), line[1..][QuotedLength(line[1..])..];
      if rest == [] then [field]
      else if rest[0] == d then [field] + Fields(rest[1..], d)
      else [field] + Fields(rest, d)
    else
      var n := PlainLength(line, d);
      if n < |line| then [line[..n]] + Fields(line[n + 1..], d) else [line]
  }

  lemma QuotedUnfold(s: string, d: char)
    requires s != [] && s[0] == '"'
    ensures var field, rest := QuotedText(s[1..]), s[1..][QuotedLength(s[1..])..];
            Fields(s, d)
            == if rest == [] then [field]
               else if rest[0] == d then [field] + Fields(rest[1..], d)
               else [field] + Fields(rest, d)
  {
    hide QuotedText, QuotedLength, PlainLength;
  }

  lemma PlainUnfold(s: string, d: char)
    requires s == [] || s[0] != '"'
    ensures var n := PlainLength(s, d);
            Fields(s, d) == if n < |s| then [s[..n]] + Fields(s[n + 1..], d) else [s[..n]]
  {
    hide QuotedText, QuotedLength, PlainLength;
    assert s[..|s|] == s;
  }

  /** One turn of the field loop on a quoted field, in positions of the line. */
  lemma QuotedTurn(line: string, i: nat, d: char)
    requires i < |line| && line[i] == '"'
    ensures var field, j := QuotedText(line[i + 1..]), i + 1 + QuotedLength(line[i + 1..]);
            Fields(line[i..], d)
            == if j == |line| then [field]
               else if line[j] == d then [field] + Fields(line[j + 1..], d)
               else [field] + Fields(line[j..], d)
  {
    hide Fields, QuotedText, QuotedLength;
    Tail(line, i);
    QuotedUnfold(line[i..], d);
    var j := i + 1 + QuotedLength(line[i + 1..]);
    assert line[i + 1..][j - i - 1..] == line[j..];
    if j < |line| {
      Tail(line, j);
    }
  }

  /** One turn on an unquoted field. */
  lemma PlainTurn(line: string, i: nat, d: char)
    requires i <= |line| && !(i < |line| && line[i] == '"')
    ensures var j := i + PlainLength(line[i..], d);
            Fields(line[i..], d) == if j < |line| then [line[i..j]] + Fields(line[j + 1..], d) else [line[i..j]]
  {
    hide Fields, PlainLength;
    var s, n := line[i..], PlainLength(line[i..], d);
    PlainUnfold(s, d);
    assert s[..n] == line[i..i + n];
    assert n < |s| ==> s[n + 1..] == line[i + n + 1..];
  }

  lemma Append<T>(done: seq<T>, x: T, rest: seq<T>)
    ensures done + ([x] + rest) == done + [x] + rest
  {
  }

  method ParseLine(line: string, delimiter: Delimiter) returns (fields: seq<string>)
    ensures delimiter == Comma ==> fields == Fields(line, ',')
    ensures delimiter == Space ==> fields == Fields(line, ' ')
  {
    fields := FieldLoop(line, DelimiterChar(delimiter));
  }

  /** The loop of `parse_line`, once the delimiter is known. */
  method FieldLoop(line: string, delim: char) returns (fields: seq<string>)
    ensures fields == Fields(line, delim)
  {
    hide Fields, QuotedText, QuotedLength, PlainLength;
    fields := [];
    assert line[0..] == line;
    var i, len := 0, |line|;
    while i <= len
      invariant 0 <= i <= len && fields + Fields(line[i..], delim) == Fields(line, delim)
      decreases len - i
    {
      ghost var done, whole := fields, Fields(line, delim);
      assert done + Fields(line[i..], delim) == whole;
      if i < len && line[i] == '"' {
        QuotedTurn(line, i, delim);
        var field;
        field, i := ParseQuoted(line, i + 1);
        fields := fields + [field];
        if i < len && line[i] == delim {
          i := i + 1;
        } else if i == len {
          return;
        }
        Append(done, field, Fields(line[i..], delim));
      } else {
        PlainTurn(line, i, delim);
        var start := i;
        i := FindDelimiter(line, i, delim);
        fields := fields + [line[start..i]];
        if i < len {
          i := i + 1;
        } else {
          return;
        }
        Append(done, line[start..i - 1], Fields(line[i..], delim));
      }
    }
  }

  lemma QuotedStep(line: string, i: nat)
    requires i <= |line|
    ensures if i == |line| then QuotedLength(line[i..]) == 0 && QuotedText(line[i..]) == []
            else if line[i] != '"' then
              && QuotedLength(line[i..]) == 1 + QuotedLength(line[i + 1..])
              && QuotedText(line[i..]) == [line[i]] + QuotedText(line[i + 1..])
            else if i + 1 < |line| && line[i + 1] == '"' then
              && QuotedLength(line[i..]) == 2 + QuotedLength(line[i + 2..])
              && QuotedText(line[i..]) == ['"'] + QuotedText(line[i + 2..])
            else QuotedLength(line[i..]) == 1 && QuotedText(line[i..]) == []
  {
    if i < |line| {
      Tail(line, i);
      if i + 1 < |line| {
        assert line[i..][2..] == line[i + 2..];
      }
    }
  }

  /** The inner loop on a quoted field, after its opening quote. */
  method ParseQuoted(line: string, start: nat) returns (field: string, i: nat)
    requires start <= |line|
    ensures i == start + QuotedLength(line[start..]) <= |line|
    ensures field == QuotedText(line[start..])
  {
    hide QuotedLength, QuotedText;
    i, field := start, [];
    while i < |line|
      invariant start <= i <= |line|
      invariant i + QuotedLength(line[i..]) == start + QuotedLength(line[start..])
      invariant field + QuotedText(line[i..]) == QuotedText(line[start..])
      decreases |line| - i
    {
      QuotedStep(line, i);
      ghost var done := field;
      if line[i] == '"' {
        if i + 1 < |line| && line[i + 1] == '"' {
          Append(done, '"', QuotedText(line[i + 2..]));
          field := field + ['"'];
          i := i + 2;
        } else {
          i := i + 1;
          return;
        }
      } else {
        Append(done, line[i], QuotedText(line[i + 1..]));
        field := field + [line[i]];
        i := i + 1;
      }
    }
    QuotedStep(line, i);
  }

  /** The inner loop on an unquoted field. */
  method FindDelimiter(line: string, start: nat, delim: char) returns (i: nat)
    requires start <= |line|
    ensures i == start + PlainLength(line[start..], delim)
  {
    i := start;
    while i < |line| && line[i] != delim
      invariant start <= i <= |line|
      invariant i + PlainLength(line[i..], delim) == start + PlainLength(line[start..], delim)
    {
      Tail(line, i);
      i := i + 1;
    }
  }

  // -------------------------------------------------------------- whole text

  function Rows(text: string, d: char): seq<seq<string>>
    decreases |text|
  {
    if text == [] then []
    else
      var n := RawLength(text, false);
      var record := Strip(text[..n]);
      (if record == [] then [] else [Fields(record, d)]) + Rows(text[n..], d)
  }

  method ParseHeader(text: string, delimiter: Delimiter) returns (fields: seq<string>)
    ensures delimiter == Comma ==> fields == Fields(Strip(text[..RawLength(text, false)]), ',')
    ensures delimiter == Space ==> fields == Fields(Strip(text[..RawLength(text, false)]), ' ')
  {
    var record, next := NextRecord(text, 0);
    assert text[0..] == text;
    fields := ParseLine(record, delimiter);
  }

  lemma RowsStep(text: string, start: nat, d: char)
    requires start < |text|
    ensures var next := start + RawLength(text[start..], false);
            var record := Strip(text[start..next]);
            Rows(text[start..], d) == (if record == [] then [] else [Fields(record, d)]) + Rows(text[next..], d)
  {
    hide RawLength, Strip, Fields;
    var n := RawLength(text[start..], false);
    assert text[start..][..n] == text[start..start + n] && text[start..][n..] == text[start + n..];
  }

  method Parse(text: string, delimiter: Delimiter) returns (rows: seq<seq<string>>)
    ensures delimiter == Comma ==> rows == Rows(text, ',')
    ensures delimiter == Space ==> rows == Rows(text, ' ')
  {
    hide Rows, Fields, Strip;
    ghost var d := DelimiterChar(delimiter);
    rows := [];
    var start := 0;
    assert text[0..] == text;
    while start < |text|
      invariant 0 <= start <= |text| && rows + Rows(text[start..], d) == Rows(text, d)
      decreases |text| - start
    {
      RowsStep(text, start, d);
      var record, next := NextRecord(text, start);
      ghost var done, rest := rows, Rows(text[next..], d);
      if record != [] {
        var fields := ParseLine(record, delimiter);
        rows := rows + [fields];
        Append(done, fields, rest);
      } else {
        assert [] + rest == rest;
      }
      start := next;
    }
    NoRows(text[start..], d);
  }

  lemma NoRows(text: string, d: char)
    ensures text == [] ==> Rows(text, d) == []
  {
  }
}
