/** The CSV export of `src/server/analytics.ts`, read back by the grammar of RFC 4180, section 2. The export breaks
    rows with a line feed alone, so every reader here accepts that; they differ in what they make of a carriage
    return outside quotes, which the export does not quote. */
module Csv {
  import opened Text

  // ---- the printer -----------------------------------------------------------

  predicate Special(c: char) {
    c == '"' || c == ',' || c == '\n'
  }

  function DoubleQuotes(s: string): string {
    if s == "" then "" else (if s[0] == '"' then "\"\"" else [s[0]]) + DoubleQuotes(s[1..])
  }

  predicate NeedsQuotes(s: string) {
    exists i :: 0 <= i < |s| && Special(s[i])
  }

  function CsvField(s: string): string {
    if NeedsQuotes(s) then "\"" + DoubleQuotes(s) + "\"" else s
  }

  function PrintRow(row: seq<string>): string {
    if row == [] then ""
    else if |row| == 1 then CsvField(row[0])
    else CsvField(row[0]) + "," + PrintRow(row[1..])
  }

  function JoinRows(rows: seq<seq<string>>): string {
    if rows == [] then ""
    else if |rows| == 1 then PrintRow(rows[0])
    else PrintRow(rows[0]) + "\n" + JoinRows(rows[1..])
  }

  function Print(rows: seq<seq<string>>): string {
    JoinRows(rows) + "\n"
  }

  // ---- the grammar -----------------------------------------------------------

  datatype Parsed<+T> = Bad | Got(value: T, rest: string)

  /** `LinesOnly` takes a carriage return for text. `BothBreaks` also breaks rows at a carriage return and line feed.
      `Strict` does so too and, like the RFC's TEXTDATA, admits no other carriage return outside quotes. */
  datatype Reader = LinesOnly | BothBreaks | Strict

  /** The length of the row break at the start of `s`, 0 if there is none. */
  function BreakAt(rd: Reader, s: string): (n: nat)
    ensures n <= |s|
  {
    if s != "" && s[0] == '\n' then 1
    else if !rd.LinesOnly? && |s| > 1 && s[0] == '\r' && s[1] == '\n' then 2
    else 0
  }

  /** `non-escaped = *TEXTDATA`: up to a comma or a row break, without a quote. */
  function Plain(rd: Reader, s: string): (r: Parsed<string>)
    ensures r.Got? ==> |r.rest| <= |s|
    decreases |s|
  {
    if s == "" || s[0] == ',' || BreakAt(rd, s) > 0 then Got("", s)
    else if s[0] == '"' || (rd.Strict? && s[0] == '\r') then Bad
    else
      match Plain(rd, s[1..])
      case Bad => Bad
      case Got(v, rest) => Got([s[0]] + v, rest)
  }

  /** The inside of an escaped field: a doubled quote is a quote, a single one ends it. */
  function Escaped(s: string): (r: Parsed<string>)
    ensures r.Got? ==> |r.rest| < |s|
  {
    if s == "" then Bad
    else if s[0] != '"' then
      match Escaped(s[1..])
      case Bad => Bad
      case Got(v, rest) => Got([s[0]] + v, rest)
    else if |s| > 1 && s[1] == '"' then
      match Escaped(s[2..])
      case Bad => Bad
      case Got(v, rest) => Got("\"" + v, rest)
    else Got("", s[1..])
  }

  function Field(rd: Reader, s: string): (r: Parsed<string>)
    ensures r.Got? ==> |r.rest| <= |s|
  {
    if s != "" && s[0] == '"' then Escaped(s[1..]) else Plain(rd, s)
  }

  /** `record = field *(COMMA field)`, up to and with its row break. */
  function Record(rd: Reader, s: string): (r: Parsed<seq<string>>)
    ensures r.Got? ==> |r.rest| < |s| && r.value != []
    decreases |s|
  {
    match Field(rd, s)
    case Bad => Bad
    case Got(v, rest) =>
      if BreakAt(rd, rest) > 0 then Got([v], rest[BreakAt(rd, rest)..])
      else if rest != "" && rest[0] == ',' then
        match Record(rd, rest[1..])
        case Bad => Bad
        case Got(vs, end) => Got([v] + vs, end)
      else Bad
  }

  /** `file = *(record break)`. */
  function File(rd: Reader, s: string): (r: Option<seq<seq<string>>>)
    ensures r.Some? ==> forall i :: 0 <= i < |r.value| ==> r.value[i] != []
    decreases |s|
  {
    if s == "" then Some([])
    else
      match Record(rd, s)
      case Bad => None
      case Got(row, rest) =>
        match File(rd, rest)
        case None => None
        case Some(rows) => Some([row] + rows)
  }

  // ---- what each reader makes of a printed table -----------------------------

  /** The value read for a printed field, the last one of its row or not; `None` if it cannot be read. */
  function FieldAs(rd: Reader, s: string, last: bool): Option<string> {
    if NeedsQuotes(s) || '\r' !in s || rd.LinesOnly? then Some(s)
    else if last && s[|s| - 1] == '\r' && (rd.BothBreaks? || '\r' !in s[..|s| - 1]) then Some(s[..|s| - 1])
    else if rd.BothBreaks? then Some(s)
    else None
  }

  function RowAs(rd: Reader, row: seq<string>): Option<seq<string>>
    requires row != []
  {
    var v := FieldAs(rd, row[0], |row| == 1);
    if v == None then None
    else if |row| == 1 then Some([v.value])
    else
      match RowAs(rd, row[1..])
      case None => None
      case Some(vs) => Some([v.value] + vs)
  }

  /** A table with a row, every row with a field. */
  ghost predicate Proper(rows: seq<seq<string>>) {
    rows != [] && forall i :: 0 <= i < |rows| ==> rows[i] != []
  }

  function TableAs(rd: Reader, rows: seq<seq<string>>): Option<seq<seq<string>>>
    requires forall i :: 0 <= i < |rows| ==> rows[i] != []
  {
    if rows == [] then Some([])
    else
      match RowAs(rd, rows[0])
      case None => None
      case Some(row) =>
        match TableAs(rd, rows[1..])
        case None => None
        case Some(rest) => Some([row] + rest)
  }

  /** What may follow a printed field. */
  predicate Ends(rest: string) {
    rest != "" && (rest[0] == ',' || rest[0] == '\n')
  }

  /** Reading `v` for the printed `s` before `rest`: a carriage return cut off belongs to the row break. */
  function After(v: Option<string>, s: string, rest: string): Parsed<string> {
    match v
    case None => Bad
    case Some(t) => if t == s then Got(s, rest) else Got(t, "\r" + rest)
  }

  lemma {:induction false} PlainReads(rd: Reader, s: string, rest: string)
    requires Ends(rest) && !NeedsQuotes(s)
    ensures Plain(rd, s + rest) == After(FieldAs(rd, s, rest[0] == '\n'), s, rest)
  {
    if s == "" {
      assert s + rest == rest;
    } else {
      assert (s + rest)[0] == s[0] && (s + rest)[1..] == s[1..] + rest;
      assert !Special(s[0]) && forall i :: 0 <= i < |s[1..]| ==> s[1..][i] == s[i + 1] && !Special(s[i + 1]);
      PlainReads(rd, s[1..], rest);
      PlainStep(rd, s, rest);
    }
  }

  /** One character of a plain field. */
  lemma PlainStep(rd: Reader, s: string, rest: string)
    requires Ends(rest) && s != "" && !NeedsQuotes(s) && !NeedsQuotes(s[1..])
    requires Plain(rd, s[1..] + rest) == After(FieldAs(rd, s[1..], rest[0] == '\n'), s[1..], rest)
    ensures Plain(rd, s + rest) == After(FieldAs(rd, s, rest[0] == '\n'), s, rest)
  {
    var whole := s + rest;
    assert whole[0] == s[0] && whole[1..] == s[1..] + rest && s == [s[0]] + s[1..];
    assert !Special(s[0]);
    if |s| == 1 {
      OneCharacter(rd, s, rest);
    } else {
      assert whole[1] == s[1] && !Special(s[1]);
      assert BreakAt(rd, whole) == 0;
      MoreCharacters(rd, s, rest[0] == '\n');
    }
  }

  lemma OneCharacter(rd: Reader, s: string, rest: string)
    requires Ends(rest) && |s| == 1 && !NeedsQuotes(s) && !Special(s[0])
    ensures Plain(rd, s + rest) == After(FieldAs(rd, s, rest[0] == '\n'), s, rest)
  {
    var whole := s + rest;
    assert whole[0] == s[0] && whole[1] == rest[0] && whole[1..] == rest;
    assert s[..0] == "" && s == [s[0]];
    assert Plain(rd, rest) == Got("", rest);
    assert [s[0]] + "" == s;
    if s[0] == '\r' {
      assert s[0] in s;
      assert whole == "\r" + rest;
    } else {
      assert BreakAt(rd, whole) == 0 && '\r' !in s;
    }
  }

  /** Its first character does not decide what becomes of a longer field, except for `Strict`. */
  lemma MoreCharacters(rd: Reader, s: string, last: bool)
    requires |s| > 1 && !NeedsQuotes(s) && !NeedsQuotes(s[1..])
    ensures FieldAs(rd, s, last) ==
            if rd.Strict? && s[0] == '\r' then None
            else match FieldAs(rd, s[1..], last) { case None => None case Some(v) => Some([s[0]] + v) }
  {
    var tail, n := s[1..], |s| - 1;
    assert s == [s[0]] + tail && s[n] == tail[n - 1];
    assert s[..n] == [s[0]] + tail[..n - 1];
    if '\r' in s && s[0] != '\r' {
      assert '\r' in tail;
    }
    if s[0] == '\r' { assert s[0] in s && s[0] in s[..n]; }
  }

  lemma {:induction false} EscapedReadsBack(s: string, rest: string)
    requires Ends(rest)
    ensures Escaped(DoubleQuotes(s) + "\"" + rest) == Got(s, rest)
  {
    if s == "" {
      ClosingQuote(rest);
    } else {
      EscapedReadsBack(s[1..], rest);
      EscapedStep(s[0], DoubleQuotes(s[1..]) + "\"" + rest);
      Regroup(if s[0] == '"' then "\"\"" else [s[0]], DoubleQuotes(s[1..]), "\"", rest);
      assert s == [s[0]] + s[1..];
    }
  }

  lemma ClosingQuote(rest: string)
    requires Ends(rest)
    ensures Escaped(DoubleQuotes("") + "\"" + rest) == Got("", rest)
  {
    var whole := DoubleQuotes("") + "\"" + rest;
    assert whole[0] == '"' && whole[1..] == rest && whole[1] == rest[0];
  }

  lemma EscapedStep(c: char, tail: string)
    ensures var head := if c == '"' then "\"\"" else [c];
            Escaped(head + tail) == match Escaped(tail) { case Bad => Bad case Got(v, rest) => Got([c] + v, rest) }
  {
    if c == '"' {
      assert ("\"\"" + tail)[2..] == tail;
    } else {
      assert ([c] + tail)[1..] == tail;
    }
  }

  /** A reader stops right behind a printed field, or before the carriage return it takes for part of the break. */
  lemma FieldReads(rd: Reader, s: string, rest: string)
    requires Ends(rest)
    ensures Field(rd, CsvField(s) + rest) == After(FieldAs(rd, s, rest[0] == '\n'), s, rest)
  {
    if NeedsQuotes(s) {
      QuotedReadsBack(rd, s, rest);
    } else {
      PlainReads(rd, s, rest);
      NoLeadingQuote(rd, s, rest);
    }
  }

  lemma QuotedReadsBack(rd: Reader, s: string, rest: string)
    requires Ends(rest)
    ensures Field(rd, "\"" + DoubleQuotes(s) + "\"" + rest) == Got(s, rest)
  {
    var inside := DoubleQuotes(s) + "\"" + rest;
    Regroup("\"", DoubleQuotes(s), "\"", rest);
    assert ("\"" + inside)[0] == '"' && ("\"" + inside)[1..] == inside;
    EscapedReadsBack(s, rest);
  }

  lemma NoLeadingQuote(rd: Reader, s: string, rest: string)
    requires Ends(rest) && !NeedsQuotes(s)
    ensures Field(rd, s + rest) == Plain(rd, s + rest)
  {
    if s != "" { assert !Special(s[0]) && (s + rest)[0] == s[0]; } else { assert s + rest == rest; }
  }

  lemma LastFieldReads(rd: Reader, field: string, rest: string)
    ensures Record(rd, CsvField(field) + ("\n" + rest))
            == match FieldAs(rd, field, true) { case None => Bad case Some(v) => Got([v], rest) }
  {
    FieldReads(rd, field, "\n" + rest);
    assert ("\n" + rest)[1..] == rest;
    assert ("\r" + ("\n" + rest))[2..] == rest;
  }

  lemma NextFieldReads(rd: Reader, field: string, tail: string)
    ensures Record(rd, CsvField(field) + ("," + tail))
            == match FieldAs(rd, field, false)
               case None => Bad
               case Some(v) => match Record(rd, tail) { case Bad => Bad case Got(vs, end) => Got([v] + vs, end) }
  {
    FieldReads(rd, field, "," + tail);
    assert ("," + tail)[1..] == tail;
  }

  lemma RowCut(row: seq<string>, tail: string)
    requires |row| > 1
    ensures PrintRow(row) + tail == CsvField(row[0]) + ("," + (PrintRow(row[1..]) + tail))
  {
    Regroup(CsvField(row[0]), ",", PrintRow(row[1..]), tail);
  }

  lemma Regroup(a: string, b: string, c: string, d: string)
    ensures a + b + c + d == a + (b + (c + d)) == a + (b + c + d)
  {
  }

  lemma {:induction false} RowReads(rd: Reader, row: seq<string>, rest: string)
    requires row != []
    ensures Record(rd, PrintRow(row) + ("\n" + rest))
            == match RowAs(rd, row) { case None => Bad case Some(v) => Got(v, rest) }
    decreases row
  {
    if |row| == 1 {
      LastFieldReads(rd, row[0], rest);
    } else {
      RowReads(rd, row[1..], rest);
      RowCut(row, "\n" + rest);
      NextFieldReads(rd, row[0], PrintRow(row[1..]) + ("\n" + rest));
    }
  }

  /** The first row and its break are read, and the rest of the file from where they end. */
  lemma FileReadsRow(rd: Reader, row: seq<string>, rest: string)
    requires row != []
    ensures File(rd, PrintRow(row) + ("\n" + rest))
            == match RowAs(rd, row)
               case None => None
               case Some(v) => match File(rd, rest) { case None => None case Some(rows) => Some([v] + rows) }
  {
    RowReads(rd, row, rest);
  }

  /** What follows the first row's break. */
  function PrintRest(rows: seq<seq<string>>): string
    requires rows != []
  {
    if |rows| == 1 then "" else Print(rows[1..])
  }

  lemma PrintCut(rows: seq<seq<string>>)
    requires rows != []
    ensures Print(rows) == PrintRow(rows[0]) + ("\n" + PrintRest(rows))
  {
    if |rows| > 1 {
      Regroup(PrintRow(rows[0]), "\n", JoinRows(rows[1..]), "\n");
    }
  }

  /** What every reader makes of every export: the table up to the carriage returns that `FieldAs` names. */
  lemma {:induction false} TableReads(rd: Reader, rows: seq<seq<string>>)
    requires Proper(rows)
    ensures File(rd, Print(rows)) == TableAs(rd, rows)
    decreases rows
  {
    PrintCut(rows);
    FileReadsRow(rd, rows[0], PrintRest(rows));
    if |rows| > 1 {
      TableReads(rd, rows[1..]);
    } else {
      assert File(rd, PrintRest(rows)) == Some([]) == TableAs(rd, rows[1..]);
    }
  }

  // ---- reading back ----------------------------------------------------------

  /** What a caller can look for before exporting: a carriage return in a field that is not quoted for another
      reason - for `BothBreaks` only at the very end of a row. */
  ghost predicate FieldSafe(rd: Reader, s: string, last: bool) {
    match rd
    case LinesOnly => true
    case BothBreaks => last && s != "" && s[|s| - 1] == '\r' ==> NeedsQuotes(s)
    case Strict => '\r' in s ==> NeedsQuotes(s)
  }

  ghost predicate RowSafe(rd: Reader, row: seq<string>) {
    forall j :: 0 <= j < |row| ==> FieldSafe(rd, row[j], j == |row| - 1)
  }

  lemma FieldReadsBackIff(rd: Reader, s: string, last: bool)
    ensures FieldAs(rd, s, last) == Some(s) <==> FieldSafe(rd, s, last)
  {
    if s != "" { assert s[|s| - 1] in s; }
  }

  lemma {:induction false} RowReadsBackIff(rd: Reader, row: seq<string>)
    requires row != []
    ensures RowAs(rd, row) == Some(row) <==> RowSafe(rd, row)
    decreases row
  {
    FieldReadsBackIff(rd, row[0], |row| == 1);
    assert row == [row[0]] + row[1..];
    if |row| > 1 {
      RowReadsBackIff(rd, row[1..]);
      RowSafeCut(rd, row);
      if RowAs(rd, row) == Some(row) { assert row[1..] == RowAs(rd, row).value[1..]; }
    } else {
      assert row == [row[0]];
      assert RowSafe(rd, row) <==> FieldSafe(rd, row[0], true);
      assert RowAs(rd, row) == Some(row) ==> FieldAs(rd, row[0], true) == Some(row[0]);
    }
  }

  lemma RowSafeCut(rd: Reader, row: seq<string>)
    requires |row| > 1
    ensures RowSafe(rd, row) <==> FieldSafe(rd, row[0], false) && RowSafe(rd, row[1..])
  {
    var tail := row[1..];
    if FieldSafe(rd, row[0], false) && RowSafe(rd, tail) {
      forall j | 0 <= j < |row|
        ensures FieldSafe(rd, row[j], j == |row| - 1)
      {
        if j > 0 { assert FieldSafe(rd, tail[j - 1], j - 1 == |tail| - 1); }
      }
    }
    if RowSafe(rd, row) {
      forall j | 0 <= j < |tail|
        ensures FieldSafe(rd, tail[j], j == |tail| - 1)
      {
        assert FieldSafe(rd, row[j + 1], j + 1 == |row| - 1);
      }
    }
  }

  ghost predicate TableSafe(rd: Reader, rows: seq<seq<string>>) {
    forall i :: 0 <= i < |rows| ==> RowSafe(rd, rows[i])
  }

  lemma {:induction false} TableReadsBackIff(rd: Reader, rows: seq<seq<string>>)
    requires forall i :: 0 <= i < |rows| ==> rows[i] != []
    ensures TableAs(rd, rows) == Some(rows) <==> TableSafe(rd, rows)
    decreases rows
  {
    if rows != [] {
      RowReadsBackIff(rd, rows[0]);
      TableReadsBackIff(rd, rows[1..]);
      assert rows == [rows[0]] + rows[1..];
      assert TableSafe(rd, rows) <==> RowSafe(rd, rows[0]) && TableSafe(rd, rows[1..]) by { TableSafeCut(rd, rows); }
      if TableAs(rd, rows) == Some(rows) { assert rows[1..] == TableAs(rd, rows).value[1..]; }
    }
  }

  lemma TableSafeCut(rd: Reader, rows: seq<seq<string>>)
    requires rows != []
    ensures TableSafe(rd, rows) <==> RowSafe(rd, rows[0]) && TableSafe(rd, rows[1..])
  {
    var tail := rows[1..];
    assert forall i :: 0 <= i < |tail| ==> tail[i] == rows[i + 1];
    assert forall i :: 0 < i < |rows| ==> rows[i] == tail[i - 1];
  }

  /** The export reads back as the very table that was printed exactly when it has a row, every row has a field, and
      no field holds a carriage return that the reader would not take for text. */
  lemma CsvRoundTrip(rd: Reader, rows: seq<seq<string>>)
    ensures File(rd, Print(rows)) == Some(rows) <==> Proper(rows) && TableSafe(rd, rows)
  {
    if rows == [] {
      assert Print(rows) == "\n";
      assert "\n"[1..] == "";
    } else if Proper(rows) {
      TableReads(rd, rows);
      TableReadsBackIff(rd, rows);
    }
  }

  /** One field that ends in a carriage return: readers of both breaks lose it. One that starts with it: a strict reader
      cannot read the file. */
  lemma CarriageReturnsAreLost()
    ensures File(BothBreaks, Print([["a\r"]])) == File(Strict, Print([["a\r"]])) == Some([["a"]])
    ensures File(BothBreaks, Print([["\ra"]])) == Some([["\ra"]]) && File(Strict, Print([["\ra"]])) == None
  {
    var end, front := "a\r", "\ra";
    assert end[1] in end && end[..1] == "a" && front[0] in front && front[1] == 'a';
    OneCell(BothBreaks, end);
    OneCell(Strict, end);
    OneCell(BothBreaks, front);
    OneCell(Strict, front);
  }

  lemma OneCell(rd: Reader, s: string)
    ensures File(rd, Print([[s]])) ==
            match FieldAs(rd, s, true) { case None => None case Some(v) => Some([[v]]) }
  {
    TableReads(rd, [[s]]);
    assert [[s]][1..] == [] && [[s]][0] == [s];
    assert TableAs(rd, []) == Some([]);
    if RowAs(rd, [s]).Some? { assert [RowAs(rd, [s]).value] + [] == [RowAs(rd, [s]).value]; }
  }

  /** Two tables that print alike are the same table. */
  lemma PrintIsInjective(a: seq<seq<string>>, b: seq<seq<string>>)
    requires Proper(a) && Proper(b) && Print(a) == Print(b)
    ensures a == b
  {
    CsvRoundTrip(LinesOnly, a);
    CsvRoundTrip(LinesOnly, b);
  }
}
