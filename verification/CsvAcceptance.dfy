/** Exact acceptance, round trips, and the import's column check. */
module CsvAcceptance {
  import opened Wrappers
  import opened Csv
  import opened CsvGrammar

  // ---- What makes a text malformed

  /** A quoted field without an end, a character other than a cell end behind a closing quote, or a quote
      behind unquoted text. */
  datatype Fault =
    | Endless(value: string)
    | Trailing(value: string, c: char, rest: string)
    | Misplaced(bare: string, rest: string)

  predicate IsFault(f: Fault) {
    match f
    case Endless(_) => true
    case Trailing(_, c, _) => c != '"' && !EndsCell(c)
    case Misplaced(bare, _) => bare != "" && IsField(Bare(bare))
  }

  function FaultText(f: Fault): string {
    match f
    case Endless(value) => "\"" + Escape(value)
    case Trailing(value, c, rest) => "\"" + (Escape(value) + ("\"" + ([c] + rest)))
    case Misplaced(bare, rest) => bare + ("\"" + rest)
  }

  function FaultError(f: Fault): Error {
    match f
    case Endless(_) => Unterminated
    case Trailing(_, _, _) => CharacterAfterQuote
    case Misplaced(_, _) => QuotePlacement
  }

  /** The well-formed records and fields before a fault. */
  datatype Prefix = Prefix(lines: seq<Line>, fields: seq<Field>)

  predicate IsPrefix(p: Prefix) {
    (forall l | l in p.lines :: IsRecord(l.fields)) && forall f | f in p.fields :: IsField(f)
  }

  function CommaText(fields: seq<Field>, tail: string): string {
    if fields == [] then tail else FieldText(fields[0]) + ("," + CommaText(fields[1..], tail))
  }

  function FaultyText(p: Prefix, f: Fault): string
    requires IsPrefix(p)
    decreases |p.lines|
  {
    if p.lines == [] then CommaText(p.fields, FaultText(f))
    else FieldsText(p.lines[0].fields) + (EolText(p.lines[0].eol) + FaultyText(AfterLine(p), f))
  }

  function AfterLine(p: Prefix): (rest: Prefix)
    requires IsPrefix(p) && p.lines != []
    ensures IsPrefix(rest) && |rest.lines| == |p.lines| - 1
  {
    Prefix(p.lines[1..], p.fields)
  }

  lemma ScanFault(f: Fault, m: Machine)
    requires IsFault(f) && AtCell(m)
    ensures Conclude(Scan(FaultText(f), m)) == Err(FaultError(f))
  {
    match f
    case Endless(value) =>
      assert Escape(value) + "" == Escape(value);
      ScanOpening(Escape(value), m);
      ScanEscaped(value, "", m.(quoted := true));
    case Trailing(value, c, rest) =>
      ScanOpening(Escape(value) + ("\"" + ([c] + rest)), m);
      ScanEscaped(value, "\"" + ([c] + rest), m.(quoted := true));
      ScanClosing([c] + rest, m.(quoted := true, cell := m.cell + value));
    case Misplaced(bare, rest) =>
      ScanBare(bare, "\"" + rest, m);
  }

  lemma {:induction false} ScanCommas(fields: seq<Field>, f: Fault, m: Machine)
    requires (forall g | g in fields :: IsField(g)) && IsFault(f) && AtCell(m)
    ensures Conclude(Scan(CommaText(fields, FaultText(f)), m)) == Err(FaultError(f))
  {
    hide Scan, FaultText, FaultError, FieldText;
    if fields == [] {
      ScanFault(f, m);
    } else {
      ScanFieldAndComma(fields[0], CommaText(fields[1..], FaultText(f)), m);
      ScanCommas(fields[1..], f, AfterComma(fields[0], m));
    }
  }

  lemma FaultStart(fields: seq<Field>, f: Fault)
    requires (forall g | g in fields :: IsField(g)) && IsFault(f)
    ensures var text := CommaText(fields, FaultText(f)); text != "" && text[0] != '\n'
  {
    if fields != [] && fields[0] != Bare("") {
      FieldStart(fields[0]);
    } else if fields == [] && f.Misplaced? {
      FieldStart(Bare(f.bare));
    }
  }

  lemma FaultyStartsWithLf(p: Prefix, f: Fault)
    requires IsPrefix(p) && IsFault(f) && FaultyText(p, f) != "" && FaultyText(p, f)[0] == '\n'
    ensures p.lines != [] && FaultyText(p, f)[1..] == FaultyText(AfterLine(p), f)
  {
    hide CommaText, FaultText;
    FaultStart(p.fields, f);
    if p.lines != [] {
      RecordStart(p.lines[0].fields, EolText(p.lines[0].eol) + FaultyText(AfterLine(p), f));
    }
  }

  lemma {:induction false} ScanFaulty(p: Prefix, f: Fault, m: Machine)
    requires IsPrefix(p) && IsFault(f) && AtRecord(m)
    ensures Conclude(Scan(FaultyText(p, f), m)) == Err(FaultError(f))
    decreases |p.lines|
  {
    hide Scan, Conclude, CommaText, FaultText, FieldsText;
    if p.lines == [] {
      ScanCommas(p.fields, f, m);
    } else {
      var Line(fields, eol) := p.lines[0];
      var rest := FaultyText(AfterLine(p), f);
      ScanFields(fields, EolText(eol) + rest, m);
      FinishedRecord(fields, m);
      ScanEol(eol, rest, AtEnd(fields, m));
      var after := FinishRow(AtEnd(fields, m));
      if eol == Cr && |rest| > 0 && rest[0] == '\n' {
        FaultyStartsWithLf(AfterLine(p), f);
        ScanFaulty(AfterLine(AfterLine(p)), f, after);
      } else {
        ScanFaulty(AfterLine(p), f, after);
      }
    }
  }

  // ---- Every text is a document or shows a fault

  /** The longest start without a quote or a cell end. */
  lemma {:induction false} SplitBare(text: string) returns (s: string, rest: string)
    ensures text == s + rest && IsField(Bare(s))
    ensures EndsField(rest) || rest[0] == '"'
  {
    if text == "" || text[0] == '"' || EndsCell(text[0]) {
      s, rest := "", text;
    } else {
      s, rest := SplitBare(text[1..]);
      s := [text[0]] + s;
    }
  }

  /** The text up to a closing quote, or all of it when there is none. */
  lemma {:induction false} SplitQuoted(text: string) returns (value: string, closed: bool, rest: string)
    ensures closed ==> text == Escape(value) + ("\"" + rest) && (rest == "" || rest[0] != '"')
    ensures !closed ==> text == Escape(value)
  {
    if text == "" {
      value, closed, rest := "", false, "";
    } else if text[0] == '"' && (|text| == 1 || text[1] != '"') {
      value, closed, rest := "", true, text[1..];
    } else {
      var used := |EscapedChar(text[0])|;
      var tail;
      tail, closed, rest := SplitQuoted(text[used..]);
      value := [text[0]] + tail;
      assert value[1..] == tail;
      assert text == EscapedChar(text[0]) + text[used..];
    }
  }

  lemma ReadQuoted(text: string) returns (good: bool, f: Field, rest: string, fault: Fault)
    requires text != "" && text[0] == '"'
    ensures good ==> IsField(f) && EndsField(rest) && text == FieldText(f) + rest
    ensures !good ==> IsFault(fault) && text == FaultText(fault)
  {
    assert text == "\"" + text[1..];
    var value, closed, more := SplitQuoted(text[1..]);
    hide Escape;
    good, f, rest, fault := closed, Quoted(value), more, Endless(value);
    if closed && !EndsField(more) {
      good, fault := false, Trailing(value, more[0], more[1..]);
      assert more == [more[0]] + more[1..];
    }
  }

  lemma ReadField(text: string) returns (good: bool, f: Field, rest: string, fault: Fault)
    ensures good ==> IsField(f) && EndsField(rest) && text == FieldText(f) + rest
    ensures !good ==> IsFault(fault) && text == FaultText(fault)
  {
    var s, tail := SplitBare(text);
    good, f, rest, fault := true, Bare(s), tail, Endless("");
    if tail != "" && tail[0] == '"' {
      if s != "" {
        assert tail == "\"" + tail[1..];
        good, fault := false, Misplaced(s, tail[1..]);
      } else {
        assert text == tail;
        good, f, rest, fault := ReadQuoted(text);
      }
    }
  }

  lemma {:induction false} ReadRecord(text: string) returns (good: bool, fields: seq<Field>, rest: string, fault: Fault)
    ensures good ==> IsRecord(fields) && EndsRecord(rest) && text == FieldsText(fields) + rest
    ensures !good ==>
              (forall f | f in fields :: IsField(f)) && IsFault(fault) && text == CommaText(fields, FaultText(fault))
    decreases |text|
  {
    hide IsField, FieldText, FaultText;
    var f, tail;
    good, f, tail, fault := ReadField(text);
    rest := tail;
    if !good {
      fields := [];
    } else if EndsRecord(tail) {
      fields := [f];
    } else {
      assert tail == "," + tail[1..];
      var more;
      good, more, rest, fault := ReadRecord(tail[1..]);
      fields := [f] + more;
      assert fields[1..] == more;
      if good {
        JoinFields(f, more, rest);
      }
    }
  }

  lemma EolOf(rest: string) returns (eol: Eol, tail: string)
    requires EndsRecord(rest) && rest != ""
    ensures rest == EolText(eol) + tail
  {
    eol := if rest[0] == '\n' then Lf else if |rest| > 1 && rest[1] == '\n' then CrLf else Cr;
    tail := rest[|EolText(eol)|..];
  }

  lemma {:induction false} ReadText(text: string) returns (good: bool, d: Document, p: Prefix, fault: Fault)
    ensures good ==> IsDocument(d) && Text(d) == text
    ensures !good ==> IsPrefix(p) && IsFault(fault) && FaultyText(p, fault) == text
    decreases |text|
  {
    hide FieldsText, CommaText, FaultText;
    d, p := Document([], [Bare("")]), Prefix([], []);
    var fields, rest;
    good, fields, rest, fault := ReadRecord(text);
    if !good {
      p := Prefix([], fields);
    } else if rest == "" {
      d := Document([], fields);
      assert text == FieldsText(fields);
    } else {
      var eol, tail := EolOf(rest);
      var d', p';
      good, d', p', fault := ReadText(tail);
      if good {
        d := Document([Line(fields, eol)] + d'.lines, d'.last);
        assert Rest(d) == d';
      } else {
        p := Prefix([Line(fields, eol)] + p'.lines, p'.fields);
        assert AfterLine(p) == p';
      }
    }
  }

  lemma FaultyIsRejected(p: Prefix, f: Fault)
    requires IsPrefix(p) && IsFault(f)
    ensures Parse(FaultyText(p, f)) == Err(FaultError(f))
  {
    ScanFaulty(p, f, START);
  }

  /** The parser accepts exactly the texts of the grammar, and however a text is read as a document,
      it returns that document's values without the all-empty rows. */
  lemma ExactAcceptance(text: string)
    ensures Parse(text).Ok? <==> exists d :: IsDocument(d) && Text(d) == text
    ensures forall d | IsDocument(d) && Text(d) == text :: Parse(text) == Ok(DropEmpty(Rows(d)))
  {
    hide Parse, Text, FaultyText;
    forall d | IsDocument(d) && Text(d) == text
      ensures Parse(text) == Ok(DropEmpty(Rows(d)))
    {
      GrammaticalIsAccepted(d);
    }
    var good, d, p, fault := ReadText(text);
    if !good {
      FaultyIsRejected(p, fault);
    }
  }

  /** Each error is raised for exactly the texts that show its fault behind well-formed records and fields. */
  lemma ExactErrors(text: string, e: Error)
    ensures Parse(text) == Err(e) <==>
            exists p, f :: IsPrefix(p) && IsFault(f) && FaultError(f) == e && FaultyText(p, f) == text
  {
    hide Parse, Text, FaultyText, FaultError;
    forall p, f | IsPrefix(p) && IsFault(f) && FaultyText(p, f) == text
      ensures Parse(text) == Err(FaultError(f))
    {
      FaultyIsRejected(p, f);
    }
    var good, d, p, fault := ReadText(text);
    if good {
      GrammaticalIsAccepted(d);
    }
  }

  // ---- Printing tables

  datatype Quoting = Always | WhenNeeded

  function CellField(value: string, quoting: Quoting): Field {
    if quoting == Always || exists c | c in value :: c == '"' || EndsCell(c) then Quoted(value) else Bare(value)
  }

  /** A row without cells prints as an empty line. */
  function RowFields(row: Row, quoting: Quoting): (fields: seq<Field>)
    ensures IsRecord(fields)
  {
    if row == [] then [Bare("")]
    else seq(|row|, i requires 0 <= i < |row| => CellField(row[i], quoting))
  }

  function TableDocument(table: seq<Row>, quoting: Quoting): (d: Document)
    ensures IsDocument(d)
  {
    Document(seq(|table|, i requires 0 <= i < |table| => Line(RowFields(table[i], quoting), CrLf)), [Bare("")])
  }

  function Print(table: seq<Row>, quoting: Quoting): string {
    Text(TableDocument(table, quoting))
  }

  lemma PrintedRow(row: Row, quoting: Quoting)
    ensures Values(RowFields(row, quoting)) == if row == [] then [""] else row
    ensures DropEmpty([Values(RowFields(row, quoting))]) == DropEmpty([row])
  {
  }

  lemma PrintedTail(table: seq<Row>, quoting: Quoting)
    requires table != []
    ensures var d := TableDocument(table, quoting);
            && d.lines != [] && d.lines[0].fields == RowFields(table[0], quoting)
            && Rest(d) == TableDocument(table[1..], quoting)
  {
  }

  lemma FirstRowApart(table: seq<Row>)
    requires table != []
    ensures DropEmpty(table) == DropEmpty([table[0]]) + DropEmpty(table[1..])
  {
    assert table == [table[0]] + table[1..];
    DropEmptyOfSum([table[0]], table[1..]);
  }

  lemma {:induction false} PrintedRows(table: seq<Row>, quoting: Quoting)
    ensures DropEmpty(Rows(TableDocument(table, quoting))) == DropEmpty(table)
  {
    var d := TableDocument(table, quoting);
    if table == [] {
      assert Rows(d) == [Values([Bare("")])];
      assert DropEmpty(table) == [];
      DropEmptyOfOne(Values([Bare("")]));
      assert !HasContent(Values([Bare("")]));
    } else {
      hide DropEmpty, Rows, Values, RowFields, TableDocument, Rest;
      PrintedTail(table, quoting);
      PrintedRow(table[0], quoting);
      PrintedRows(table[1..], quoting);
      RowsOfRest(d);
      DropEmptyOfSum([Values(RowFields(table[0], quoting))], Rows(Rest(d)));
      FirstRowApart(table);
    }
  }

  /** Every table, fully or minimally quoted, reads back as itself without its all-empty rows. */
  lemma RoundTrip(table: seq<Row>, quoting: Quoting)
    ensures Parse(Print(table, quoting)) == Ok(DropEmpty(table))
  {
    GrammaticalIsAccepted(TableDocument(table, quoting));
    PrintedRows(table, quoting);
  }

  lemma {:induction false} DropEmptyIsIdempotent(rows: seq<Row>)
    ensures DropEmpty(DropEmpty(rows)) == DropEmpty(rows)
  {
    if rows != [] {
      DropEmptyIsIdempotent(rows[1..]);
      DropEmptyOfSum(if HasContent(rows[0]) then [rows[0]] else [], DropEmpty(rows[1..]));
      DropEmptyOfOne(rows[0]);
    }
  }

  /** Printing what was parsed and parsing again changes nothing. */
  lemma ParsePrintParse(text: string, quoting: Quoting)
    requires Parse(text).Ok?
    ensures Parse(Print(Parse(text).value, quoting)) == Parse(text)
  {
    hide Parse;
    ExactAcceptance(text);
    var d :| IsDocument(d) && Text(d) == text;
    RoundTrip(Parse(text).value, quoting);
    DropEmptyIsIdempotent(Rows(d));
  }

  /** A row has content if some cell is not empty. */
  lemma ContentIff(row: Row)
    ensures HasContent(row) <==> exists c | 0 <= c < |row| :: row[c] != ""
  {
  }

  // ---- The import's check

  datatype Import = Import(columns: seq<string>, rows: seq<Row>)

  datatype ImportError = Malformed(error: Error) | NoData | WidthMismatch

  predicate IsSpace(c: char) {
    || c in {'\t', '\n', '\r', ' ', '\U{000B}', '\U{000C}', '\U{00A0}', '\U{1680}', '\U{2028}', '\U{2029}'}
    || '\U{2000}' <= c <= '\U{200A}'
    || c in {'\U{202F}', '\U{205F}', '\U{3000}', '\U{FEFF}'}
  }

  function TrimStart(s: string): string {
    if s != "" && IsSpace(s[0]) then TrimStart(s[1..]) else s
  }

  function TrimEnd(s: string): string {
    if s != "" && IsSpace(s[|s| - 1]) then TrimEnd(s[..|s| - 1]) else s
  }

  function Trim(s: string): string {
    TrimEnd(TrimStart(s))
  }

  /** Trimming takes off the white space around what is between its first and last other character. */
  lemma {:induction false} TrimStartSplits(s: string)
    ensures exists lead :: s == lead + TrimStart(s) && forall c | c in lead :: IsSpace(c)
    ensures TrimStart(s) == "" || !IsSpace(TrimStart(s)[0])
  {
    if s != "" && IsSpace(s[0]) {
      TrimStartSplits(s[1..]);
      var lead :| s[1..] == lead + TrimStart(s[1..]) && forall c | c in lead :: IsSpace(c);
      assert s == [s[0]] + lead + TrimStart(s);
    } else {
      assert s == "" + TrimStart(s);
    }
  }

  lemma {:induction false} TrimEndSplits(s: string)
    ensures exists trail :: s == TrimEnd(s) + trail && forall c | c in trail :: IsSpace(c)
    ensures TrimEnd(s) == "" || !IsSpace(TrimEnd(s)[|TrimEnd(s)| - 1])
    ensures TrimEnd(s) != "" ==> TrimEnd(s)[0] == s[0]
  {
    var n := |s| - 1;
    if s != "" && IsSpace(s[n]) {
      TrimEndSplits(s[..n]);
      var trail :| s[..n] == TrimEnd(s[..n]) + trail && forall c | c in trail :: IsSpace(c);
      assert s == TrimEnd(s) + (trail + [s[n]]);
    } else {
      assert s == TrimEnd(s) + "";
    }
  }

  /** A trimmed cell is the cell without white space around it, and has none at its ends. */
  lemma TrimSplits(s: string) returns (lead: string, trail: string)
    ensures s == lead + Trim(s) + trail
    ensures forall c | c in lead + trail :: IsSpace(c)
    ensures Trim(s) != "" ==> !IsSpace(Trim(s)[0]) && !IsSpace(Trim(s)[|Trim(s)| - 1])
  {
    TrimStartSplits(s);
    TrimEndSplits(TrimStart(s));
    lead :| s == lead + TrimStart(s) && forall c | c in lead :: IsSpace(c);
    trail :| TrimStart(s) == TrimEnd(TrimStart(s)) + trail && forall c | c in trail :: IsSpace(c);
    hide TrimStart, TrimEnd, IsSpace;
  }

  /** The trimmed header cells that are not blank. */
  function Columns(header: Row): seq<string> {
    if header == [] then []
    else (if Trim(header[0]) != "" then [Trim(header[0])] else []) + Columns(header[1..])
  }

  /** One header and at least one data row, every data row as wide as the named columns. */
  function CheckColumns(rows: seq<Row>): Result<Import, ImportError> {
    if |rows| < 2 then Err(NoData)
    else
      var columns := Columns(rows[0]);
      if columns == [] || exists row | row in rows[1..] :: |row| != |columns| then Err(WidthMismatch)
      else Ok(Import(columns, rows[1..]))
  }

  function Prepare(text: string): Result<Import, ImportError> {
    var body := if text != "" && text[0] == '\U{FEFF}' then text[1..] else text;
    match Parse(body)
    case Err(e) => Err(Malformed(e))
    case Ok(rows) => CheckColumns(rows)
  }

  /** One byte order mark ahead of the text changes nothing. */
  lemma MarkIsStripped(text: string)
    requires text == "" || text[0] != '\U{FEFF}'
    ensures Prepare("\U{FEFF}" + text) == Prepare(text)
  {
    hide Parse, CheckColumns;
    assert ("\U{FEFF}" + text)[1..] == text;
  }

  lemma {:induction false} ColumnsCount(header: Row)
    ensures |Columns(header)| <= |header|
    ensures |Columns(header)| == |header| <==> forall cell | cell in header :: Trim(cell) != ""
  {
    if header != [] {
      ColumnsCount(header[1..]);
      assert header == [header[0]] + header[1..];
    }
  }

  /** The named columns of a header are those of its parts; a cell that is not blank names one, trimmed. */
  lemma {:induction false} ColumnsAdd(a: Row, b: Row)
    ensures Columns(a + b) == Columns(a) + Columns(b)
    ensures forall cell :: Columns([cell]) == if Trim(cell) == "" then [] else [Trim(cell)]
  {
    forall cell
      ensures Columns([cell]) == if Trim(cell) == "" then [] else [Trim(cell)]
    {
      assert [cell][1..] == [] && Columns([]) == [];
    }
    hide Trim;
    if a == [] {
      assert a + b == b;
    } else {
      assert (a + b)[1..] == a[1..] + b;
      ColumnsAdd(a[1..], b);
    }
  }

  predicate IsNamed(header: Row) {
    forall cell | cell in header :: Trim(cell) != ""
  }

  predicate IsRectangular(rows: seq<Row>)
    requires rows != []
  {
    forall row | row in rows[1..] :: |row| == |rows[0]|
  }

  /** The check demands rows as wide as the header exactly for headers whose every cell is named; with a
      blank header cell it accepts no table that is rectangular, and those it accepts are not. */
  lemma WidthIsCheckedIffNamed(rows: seq<Row>)
    requires |rows| >= 2 && rows[0] != []
    ensures IsNamed(rows[0]) ==> (CheckColumns(rows).Ok? <==> IsRectangular(rows))
    ensures !IsNamed(rows[0]) ==> !(CheckColumns(rows).Ok? && IsRectangular(rows))
    ensures CheckColumns(rows).Ok? ==> (IsRectangular(rows) <==> IsNamed(rows[0]))
  {
    hide Trim;
    ColumnsCount(rows[0]);
    assert rows[1] in rows[1..];
  }

  lemma RectangleChecks(header: Row, rows: seq<Row>)
    requires header != [] && forall row | row in rows :: |row| == |header|
    ensures CheckColumns([header] + rows).Ok? <==> rows != [] && forall cell | cell in header :: Trim(cell) != ""
    ensures CheckColumns([header] + rows).Ok? ==> CheckColumns([header] + rows).value == Import(Columns(header), rows)
  {
    hide Trim;
    ColumnsCount(header);
    assert ([header] + rows)[1..] == rows;
    if rows != [] {
      assert rows[0] in rows;
    }
  }

  /** No byte order mark, which the import strips, opens the printed text. */
  predicate OpensUnmarked(header: Row, quoting: Quoting)
    requires header != []
  {
    quoting == Always || header[0] == "" || header[0][0] != '\U{FEFF}'
  }

  /** A rectangular table with content in every row imports exactly when it has a data row and every
      header cell is named: a blank header cell makes the header narrower than its rows. */
  lemma RectangleImports(header: Row, rows: seq<Row>, quoting: Quoting)
    requires header != [] && HasContent(header) && forall row | row in rows :: |row| == |header| && HasContent(row)
    requires OpensUnmarked(header, quoting)
    ensures Prepare(Print([header] + rows, quoting)).Ok?
       <==> rows != [] && forall cell | cell in header :: Trim(cell) != ""
    ensures Prepare(Print([header] + rows, quoting)).Ok?
       ==> Prepare(Print([header] + rows, quoting)).value == Import(Columns(header), rows)
  {
    hide Parse, Print, Trim, HasContent, DropEmpty, CheckColumns, Columns, OpensUnmarked;
    var table := [header] + rows;
    assert forall row | row in table :: HasContent(row);
    RoundTrip(table, quoting);
    FullRows(table);
    StartsUnmarked(table, quoting);
    RectangleChecks(header, rows);
  }

  lemma {:induction false} FullRows(table: seq<Row>)
    requires forall row | row in table :: HasContent(row)
    ensures DropEmpty(table) == table
  {
    if table != [] {
      assert table == [table[0]] + table[1..];
      FullRows(table[1..]);
    }
  }

  lemma StartsUnmarked(table: seq<Row>, quoting: Quoting)
    requires table != [] && table[0] != [] && OpensUnmarked(table[0], quoting)
    ensures Print(table, quoting) != "" && Print(table, quoting)[0] != '\U{FEFF}'
  {
    var first := CellField(table[0][0], quoting);
    assert FieldText(first) == "" || FieldText(first)[0] != '\U{FEFF}';
    PrintedTail(table, quoting);
    var fields := RowFields(table[0], quoting);
    assert fields[0] == first;
    hide CellField, RowFields, FieldText;
    assert FieldsText(fields) == "" || FieldsText(fields)[0] != '\U{FEFF}';
    hide FieldsText;
  }

  lemma TwoRowsPrepared(header: Row, row: Row, quoting: Quoting)
    requires header != [] && HasContent(header) && HasContent(row) && OpensUnmarked(header, quoting)
    ensures Prepare(Print([header, row], quoting)) == CheckColumns([header, row])
  {
    hide Print, Parse, DropEmpty, CheckColumns, OpensUnmarked, HasContent;
    var table := [header, row];
    assert forall r | r in table :: r == header || r == row;
    RoundTrip(table, quoting);
    FullRows(table);
    StartsUnmarked(table, quoting);
  }

  /** A table whose second header cell is blank prints to a text the import rejects, although each row
      has two cells. */
  lemma BlankHeaderIsRejected(quoting: Quoting)
    ensures Prepare(Print([["a", ""], ["1", "2"]], quoting)) == Err(WidthMismatch)
  {
    var header, row := ["a", ""], ["1", "2"];
    assert header[0] in header && row[0] in row;
    TwoRowsPrepared(header, row, quoting);
    hide Prepare, Print;
    assert header[1..][1..] == [];
    assert row in [header, row][1..];
  }

  /** A data row with one cell less than the header is imported, under the wrong names, if the header has a
      blank cell. */
  lemma RaggedTableIsImported(quoting: Quoting)
    ensures Prepare(Print([["a", "", "b"], ["1", "2"]], quoting)) == Ok(Import(["a", "b"], [["1", "2"]]))
  {
    var header, row := ["a", "", "b"], ["1", "2"];
    assert header[0] in header && row[0] in row;
    TwoRowsPrepared(header, row, quoting);
    hide Prepare, Print, CheckColumns;
    GapChecks(header, row);
  }

  lemma GapChecks(header: Row, row: Row)
    requires header == ["a", "", "b"] && |row| == 2
    ensures CheckColumns([header, row]) == Ok(Import(["a", "b"], [row]))
  {
    GapColumns(header);
    hide Columns;
    assert [header, row][1..] == [row];
  }

  lemma GapColumns(header: Row)
    requires header == ["a", "", "b"]
    ensures Columns(header) == ["a", "b"]
  {
    TrimOne('a');
    TrimOne('b');
    hide Trim;
    var second := header[1..];
    var third := second[1..];
    assert third == ["b"] && Columns(third[1..]) == [];
    assert Columns(third) == ["b"];
    assert Columns(second) == Columns(third);
  }

  lemma TrimOne(c: char)
    requires !IsSpace(c)
    ensures Trim([c]) == [c] && Trim("") == ""
  {
  }
}
