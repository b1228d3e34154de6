/** The table download (frontend/app/answer-markdown.tsx, csvCell and tableToCsv), proved against
    a reader of the grammar in section 2 of RFC 4180, with other characters than ASCII as text.
  */
module TableCsv {
  import opened Common

  // ---------------------------------------------------------------- the printer

  /** Removes every "**", scanning from the left. */
  function WithoutBold(s: string): string {
    if |s| < 2 then s
    else if s[0] == '*' && s[1] == '*' then WithoutBold(s[2..])
    else [s[0]] + WithoutBold(s[1..])
  }

  function Clean(cell: string): string {
    Trim(WithoutBold(cell))
  }

  predicate StartsFormula(value: string) {
    value != [] && value[0] in "=+-@\t\r"
  }

  function Guarded(value: string): string {
    if StartsFormula(value) then "'" + value else value
  }

  function DoubleQuotes(s: string): string {
    if s == [] then [] else (if s[0] == '"' then "\"\"" else [s[0]]) + DoubleQuotes(s[1..])
  }

  predicate NeedsQuotes(s: string) {
    exists c :: c in s && c in "\",\n\r;"
  }

  function CsvCell(value: string): string {
    var safe := Guarded(value);
    if NeedsQuotes(safe) then "\"" + DoubleQuotes(safe) + "\"" else safe
  }

  function CleanRow(row: seq<string>): seq<string> {
    if row == [] then [] else [Clean(row[0])] + CleanRow(row[1..])
  }

  /** The cells of one row, joined by commas. */
  function CsvLine(values: seq<string>): string {
    if values == [] then []
    else if |values| == 1 then CsvCell(values[0])
    else CsvCell(values[0]) + ("," + CsvLine(values[1..]))
  }

  const CRLF := "\r\n"

  /** The lines of a table, joined by CRLF. */
  function CsvLines(table: seq<seq<string>>): string {
    if table == [] then []
    else if |table| == 1 then CsvLine(table[0])
    else CsvLine(table[0]) + (CRLF + CsvLines(table[1..]))
  }

  function CleanTable(table: seq<seq<string>>): seq<seq<string>> {
    if table == [] then [] else [CleanRow(table[0])] + CleanTable(table[1..])
  }

  function TableToCsv(header: seq<string>, rows: seq<seq<string>>): string {
    CsvLines(CleanTable([header] + rows))
  }

  // ---------------------------------------------------------------- the reader

  datatype Read<T> = Read(value: T, rest: string)

  /** TEXTDATA of the grammar, extended to every character that has no role in it. */
  predicate TextData(c: char) {
    c !in "\",\r\n"
  }

  /** The longest run of TEXTDATA. */
  function ReadPlain(s: string): (r: Read<string>)
    ensures |r.rest| <= |s|
  {
    if s == [] || !TextData(s[0]) then Read([], s)
    else
      var tail := ReadPlain(s[1..]);
      Read([s[0]] + tail.value, tail.rest)
  }

  /** After an opening DQUOTE: up to the closing one, 2DQUOTE standing for a quote. */
  function ReadQuoted(s: string): (r: Option<Read<string>>)
    ensures r.Some? ==> |r.value.rest| < |s|
  {
    if s == [] then None
    else if s[0] != '"' then AddChar(s[0], ReadQuoted(s[1..]))
    else if |s| > 1 && s[1] == '"' then AddChar('"', ReadQuoted(s[2..]))
    else Some(Read([], s[1..]))
  }

  function AddChar(c: char, r: Option<Read<string>>): (r': Option<Read<string>>)
    ensures r'.Some? == r.Some? && (r.Some? ==> r'.value.rest == r.value.rest)
  {
    match r
    case None => None
    case Some(Read(value, rest)) => Some(Read([c] + value, rest))
  }

  function ReadField(s: string): (r: Option<Read<string>>)
    ensures r.Some? ==> |r.value.rest| <= |s|
  {
    if s != [] && s[0] == '"' then ReadQuoted(s[1..]) else Some(ReadPlain(s))
  }

  /** record = field *(COMMA field) */
  function ReadRecord(s: string): (r: Option<Read<seq<string>>>)
    ensures r.Some? ==> |r.value.rest| <= |s|
    decreases |s|
  {
    match ReadField(s)
    case None => None
    case Some(Read(field, rest)) =>
      if rest == [] || rest[0] != ',' then Some(Read([field], rest))
      else
        match ReadRecord(rest[1..])
        case None => None
        case Some(Read(fields, rest')) => Some(Read([field] + fields, rest'))
  }

  /** file = record *(CRLF record), and a last CRLF that ends the file when `closing`. */
  function ReadFile(s: string, closing: bool): Option<seq<seq<string>>>
    decreases |s|
  {
    match ReadRecord(s)
    case None => None
    case Some(Read(record, rest)) =>
      if rest == [] || (closing && rest == CRLF) then Some([record])
      else if |rest| < 2 || rest[..2] != CRLF then None
      else
        Preceded(record, ReadFile(rest[2..], closing))
  }

  function Preceded(record: seq<string>, file: Option<seq<seq<string>>>): Option<seq<seq<string>>> {
    match file
    case None => None
    case Some(records) => Some([record] + records)
  }

  // ---------------------------------------------------------------- reading what was printed

  predicate EndsField(rest: string) {
    rest == [] || rest[0] == ',' || rest[0] == '\r'
  }

  lemma {:induction false} PlainReadsBack(s: string, rest: string)
    requires (forall c :: c in s ==> TextData(c)) && EndsField(rest)
    ensures ReadPlain(s + rest) == Read(s, rest)
    decreases |s|
  {
    if s == [] {
      assert s + rest == rest;
    } else {
      assert (s + rest)[1..] == s[1..] + rest;
      PlainReadsBack(s[1..], rest);
      assert [s[0]] + s[1..] == s;
    }
  }

  lemma {:induction false} QuotedReadsBack(s: string, rest: string)
    requires EndsField(rest)
    ensures ReadQuoted(DoubleQuotes(s) + "\"" + rest) == Some(Read(s, rest))
    decreases |s|
  {
    var text := DoubleQuotes(s) + "\"" + rest;
    if s == [] {
      assert text == "\"" + rest && text[1..] == rest;
    } else {
      assert [s[0]] + s[1..] == s;
      var tail := DoubleQuotes(s[1..]) + "\"" + rest;
      QuotedReadsBack(s[1..], rest);
      if s[0] == '"' {
        assert text == "\"\"" + tail && text[2..] == tail;
      } else {
        assert text == [s[0]] + tail && text[1..] == tail;
      }
    }
  }

  lemma CellReadsBack(value: string, rest: string)
    requires EndsField(rest)
    ensures ReadField(CsvCell(value) + rest) == Some(Read(Guarded(value), rest))
  {
    SafeReadsBack(Guarded(value), rest);
  }

  lemma SafeReadsBack(safe: string, rest: string)
    requires EndsField(rest)
    ensures ReadField((if NeedsQuotes(safe) then "\"" + DoubleQuotes(safe) + "\"" else safe) + rest)
            == Some(Read(safe, rest))
  {
    if NeedsQuotes(safe) {
      var text := "\"" + DoubleQuotes(safe) + "\"" + rest;
      assert text[0] == '"' && text[1..] == DoubleQuotes(safe) + "\"" + rest;
      QuotedReadsBack(safe, rest);
    } else {
      forall c | c in safe
        ensures TextData(c)
      {
        assert c in "\",\r\n" ==> c in "\",\n\r;";
      }
      PlainReadsBack(safe, rest);
      assert safe != [] ==> (safe + rest)[0] == safe[0] && safe[0] in safe;
    }
  }

  /** The cells meant by a row of cleaned values. */
  function GuardedRow(values: seq<string>): seq<string> {
    if values == [] then [] else [Guarded(values[0])] + GuardedRow(values[1..])
  }

  /** What a reader gets for a row: a row without cells cannot be told from one empty cell. */
  function Readable(values: seq<string>): seq<string> {
    if values == [] then [""] else GuardedRow(values)
  }

  lemma OneCell(values: seq<string>)
    requires |values| == 1
    ensures Readable(values) == [Guarded(values[0])]
  {
    assert GuardedRow(values[1..]) == [];
  }

  lemma RecordStep(s: string, field: string, s': string, fields: seq<string>, rest: string)
    requires ReadField(s) == Some(Read(field, "," + s')) && ReadRecord(s') == Some(Read(fields, rest))
    ensures ReadRecord(s) == Some(Read([field] + fields, rest))
  {
    assert ("," + s')[1..] == s';
  }

  lemma LastFieldStep(s: string, field: string, rest: string)
    requires ReadField(s) == Some(Read(field, rest)) && (rest == [] || rest[0] == '\r')
    ensures ReadRecord(s) == Some(Read([field], rest))
  {}

  lemma {:induction false} LineReadsBack(values: seq<string>, rest: string)
    requires rest == [] || rest[0] == '\r'
    ensures ReadRecord(CsvLine(values) + rest) == Some(Read(Readable(values), rest))
    decreases |values|
  {
    var text := CsvLine(values) + rest;
    if values == [] {
      assert text == rest;
      LastFieldStep(rest, [], rest);
    } else if |values| == 1 {
      CellReadsBack(values[0], rest);
      LastFieldStep(text, Guarded(values[0]), rest);
      OneCell(values);
    } else {
      var tail := CsvLine(values[1..]) + rest;
      assert text == CsvCell(values[0]) + ("," + tail);
      CellReadsBack(values[0], "," + tail);
      LineReadsBack(values[1..], rest);
      RecordStep(text, Guarded(values[0]), tail, Readable(values[1..]), rest);
    }
  }

  function ReadableTable(table: seq<seq<string>>): seq<seq<string>> {
    if table == [] then [] else [Readable(table[0])] + ReadableTable(table[1..])
  }

  /** The last line is empty, so that the file ends with a line break. */
  predicate EndsWithBreak(table: seq<seq<string>>) {
    |table| > 1 && CsvLine(table[|table| - 1]) == []
  }

  function WithoutLast<T>(s: seq<T>): seq<T>
    requires s != []
  {
    s[..|s| - 1]
  }

  lemma FileStep(s: string, record: seq<string>, s': string, closing: bool)
    requires ReadRecord(s) == Some(Read(record, CRLF + s'))
    ensures ReadFile(s, closing) ==
            if closing && s' == [] then Some([record]) else Preceded(record, ReadFile(s', closing))
  {
    assert (CRLF + s')[2..] == s' && (CRLF + s')[..2] == CRLF;
    assert s' == [] <==> CRLF + s' == CRLF;
  }

  lemma LastRecordStep(s: string, record: seq<string>, closing: bool)
    requires ReadRecord(s) == Some(Read(record, []))
    ensures ReadFile(s, closing) == Some([record])
  {}

  /** What a reader gets for a table; with `closing` it takes a final line break for the end of the file. */
  function Kept(table: seq<seq<string>>, closing: bool): seq<seq<string>> {
    ReadableTable(if closing && EndsWithBreak(table) then WithoutLast(table) else table)
  }

  lemma KeptStep(table: seq<seq<string>>, closing: bool)
    requires |table| > 1
    ensures Kept(table, closing) ==
            [Readable(table[0])] + (if closing && CsvLines(table[1..]) == [] then [] else Kept(table[1..], closing))
  {
    var rest := table[1..];
    assert CsvLines(rest) == [] <==> |table| == 2 && CsvLine(table[1]) == [];
    if closing && EndsWithBreak(table) {
      if |table| == 2 {
        assert WithoutLast(table) == [table[0]];
        assert ReadableTable([table[0]][1..]) == [];
      } else {
        assert WithoutLast(table)[1..] == WithoutLast(rest);
      }
    }
  }

  lemma {:induction false} LinesReadBack(table: seq<seq<string>>, closing: bool)
    requires table != []
    ensures ReadFile(CsvLines(table), closing) == Some(Kept(table, closing))
    decreases |table|
  {
    var line := CsvLine(table[0]);
    assert [Readable(table[0])] + [] == [Readable(table[0])];
    if |table| == 1 {
      LineReadsBack(table[0], []);
      assert line + [] == line == CsvLines(table);
      LastRecordStep(line, Readable(table[0]), closing);
      assert ReadableTable(table[1..]) == [];
      assert ReadableTable(table) == [Readable(table[0])] + [];
    } else {
      var text := CsvLines(table[1..]);
      LineReadsBack(table[0], CRLF + text);
      FileStep(CsvLines(table), Readable(table[0]), text, closing);
      LinesReadBack(table[1..], closing);
      KeptStep(table, closing);
    }
  }

  /** The cells meant by a table: stripped of bold marks and outer blanks, and guarded. */
  function Meant(table: seq<seq<string>>): seq<seq<string>> {
    if table == [] then [] else [GuardedRow(CleanRow(table[0]))] + Meant(table[1..])
  }

  lemma {:induction false} ReadableIsMeant(table: seq<seq<string>>)
    ensures |ReadableTable(CleanTable(table))| == |table| == |Meant(table)|
    ensures ReadableTable(CleanTable(table)) == Meant(table) <==> [] !in table
    decreases |table|
  {
    if table == [] {
    } else {
      var row, rest := table[0], table[1..];
      ReadableIsMeant(rest);
      ConsEqual(Readable(CleanRow(row)), ReadableTable(CleanTable(rest)), GuardedRow(CleanRow(row)), Meant(rest));
      assert table == [row] + rest;
    }
  }

  lemma ConsEqual<T>(x: T, xs: seq<T>, y: T, ys: seq<T>)
    ensures [x] + xs == [y] + ys <==> x == y && xs == ys
  {
    assert ([x] + xs)[0] == x && ([x] + xs)[1..] == xs;
    assert ([y] + ys)[0] == y && ([y] + ys)[1..] == ys;
  }

  /** A reader whose records are separated by CRLF gets exactly the cells meant, row by row,
      if and only if every row has a cell. */
  lemma TableReadsBack(header: seq<string>, rows: seq<seq<string>>)
    ensures ReadFile(TableToCsv(header, rows), false) == Some(Meant([header] + rows)) <==> [] !in [header] + rows
  {
    LinesReadBack(CleanTable([header] + rows), false);
    ReadableIsMeant([header] + rows);
  }

  lemma {:induction false} ReadableLength(table: seq<seq<string>>)
    ensures |ReadableTable(table)| == |table|
    decreases |table|
  {
    if table == [] {
    } else {
      ReadableLength(table[1..]);
    }
  }

  /** The grammar also lets a last CRLF end the file. A reader that takes it so differs exactly when
      the last row prints as nothing: it is one blank cell, or none. */
  lemma ClosingReaderReadsBack(header: seq<string>, rows: seq<seq<string>>)
    ensures ReadFile(TableToCsv(header, rows), true) == ReadFile(TableToCsv(header, rows), false) <==>
            rows == [] || Readable(CleanRow(rows[|rows| - 1])) != [""]
  {
    var table := CleanTable([header] + rows);
    LinesReadBack(table, false);
    LinesReadBack(table, true);
    CleanTableAt([header] + rows, |rows|);
    ReadableLength(table);
    ReadableLength(WithoutLast(table));
    EmptyLine(table[|rows|]);
  }

  lemma {:induction false} CleanTableAt(table: seq<seq<string>>, i: nat)
    requires i < |table|
    ensures |CleanTable(table)| == |table| && CleanTable(table)[i] == CleanRow(table[i])
    decreases |table|
  {
    if |table| > 1 {
      CleanTableAt(table[1..], if i == 0 then 0 else i - 1);
    }
  }

  lemma EmptyLine(values: seq<string>)
    ensures CsvLine(values) == [] <==> Readable(values) == [""]
  {
    if |values| == 1 {
      OneCell(values);
    } else if |values| > 1 {
      assert |GuardedRow(values)| == 1 + |GuardedRow(values[1..])| >= 2;
    }
  }

  /** No cell that is read back starts a formula, whatever the table held. */
  lemma NoCellStartsFormula(value: string)
    ensures !StartsFormula(Guarded(value))
    ensures Guarded(Clean(value)) != Clean(value) <==> Clean(value) != [] && Clean(value)[0] in "=+-@"
  {
    TrimMeaning(WithoutBold(value));
  }
}
