/** Section 2 of RFC 4180 as a grammar, with a bare CR or LF also ending a record, and the proof that
    the machine accepts exactly its texts. */
module CsvGrammar {
  import opened Wrappers
  import opened Csv

  datatype Field = Bare(value: string) | Quoted(value: string)

  datatype Eol = CrLf | Cr | Lf

  datatype Line = Line(fields: seq<Field>, eol: Eol)

  /** Ended records, then one last record without a line end; an ended text has an empty last record. */
  datatype Document = Document(lines: seq<Line>, last: seq<Field>)

  predicate IsField(f: Field) {
    f.Bare? ==> forall c | c in f.value :: c != '"' && !EndsCell(c)
  }

  predicate IsRecord(fields: seq<Field>) {
    fields != [] && forall f | f in fields :: IsField(f)
  }

  predicate IsDocument(d: Document) {
    IsRecord(d.last) && forall l | l in d.lines :: IsRecord(l.fields)
  }

  function EscapedChar(c: char): string {
    if c == '"' then "\"\"" else [c]
  }

  function Escape(s: string): string {
    if s == "" then "" else EscapedChar(s[0]) + Escape(s[1..])
  }

  function FieldText(f: Field): string {
    match f
    case Bare(value) => value
    case Quoted(value) => "\"" + (Escape(value) + "\"")
  }

  function FieldsText(fields: seq<Field>): string
    requires fields != []
  {
    if |fields| == 1 then FieldText(fields[0])
    else FieldText(fields[0]) + ("," + FieldsText(fields[1..]))
  }

  function EolText(eol: Eol): string {
    match eol
    case CrLf => "\r\n"
    case Cr => "\r"
    case Lf => "\n"
  }

  function Text(d: Document): string
    requires IsDocument(d)
    decreases |d.lines|
  {
    if d.lines == [] then FieldsText(d.last)
    else FieldsText(d.lines[0].fields) + (EolText(d.lines[0].eol) + Text(Rest(d)))
  }

  function Rest(d: Document): (rest: Document)
    requires d.lines != [] && IsDocument(d)
    ensures IsDocument(rest) && |rest.lines| == |d.lines| - 1
  {
    Document(d.lines[1..], d.last)
  }

  function Values(fields: seq<Field>): Row {
    seq(|fields|, i requires 0 <= i < |fields| => fields[i].value)
  }

  function Rows(d: Document): seq<Row> {
    seq(|d.lines| + 1, i requires 0 <= i <= |d.lines| => Values(if i < |d.lines| then d.lines[i].fields else d.last))
  }

  // ---- Scanning one field, one record

  ghost predicate EndsField(rest: string) {
    rest == "" || EndsCell(rest[0])
  }

  ghost predicate EndsRecord(rest: string) {
    rest == "" || rest[0] == '\r' || rest[0] == '\n'
  }

  ghost predicate AtCell(m: Machine) {
    m.cell == "" && !m.quoted && !m.quoteClosed
  }

  lemma {:induction false} ScanBare(s: string, rest: string, m: Machine)
    requires !m.quoted && !m.quoteClosed && forall c | c in s :: c != '"' && !EndsCell(c)
    ensures Scan(s + rest, m) == Scan(rest, m.(cell := m.cell + s))
  {
    if s == "" {
      assert s + rest == rest && m.cell + s == m.cell;
    } else {
      assert forall c | c in s[1..] :: c in s;
      assert s[0] in s && (s + rest)[0] == s[0] && (s + rest)[1..] == s[1..] + rest;
      ScanBare(s[1..], rest, m.(cell := m.cell + [s[0]]));
      assert m.cell + [s[0]] + s[1..] == m.cell + s;
    }
  }

  lemma ScanEscapedChar(c: char, rest: string, m: Machine)
    requires m.quoted
    ensures Scan(EscapedChar(c) + rest, m) == Scan(rest, m.(cell := m.cell + [c]))
  {
  }

  /** Inside quotes the escaped text adds its value, whatever follows. */
  lemma {:induction false} ScanEscaped(s: string, rest: string, m: Machine)
    requires m.quoted
    ensures Scan(Escape(s) + rest, m) == Scan(rest, m.(cell := m.cell + s))
  {
    hide Scan, EscapedChar;
    if s == "" {
      assert Escape(s) + rest == rest && m.cell + s == m.cell;
    } else {
      assert Escape(s) + rest == EscapedChar(s[0]) + (Escape(s[1..]) + rest);
      ScanEscapedChar(s[0], Escape(s[1..]) + rest, m);
      ScanEscaped(s[1..], rest, m.(cell := m.cell + [s[0]]));
      assert m.cell + [s[0]] + s[1..] == m.cell + s;
    }
  }

  lemma ScanOpening(text: string, m: Machine)
    requires AtCell(m)
    ensures Scan("\"" + text, m) == Scan(text, m.(quoted := true))
  {
  }

  lemma ScanClosing(rest: string, m: Machine)
    requires m.quoted && (rest == "" || rest[0] != '"')
    ensures Scan("\"" + rest, m) == Scan(rest, m.(quoted := false, quoteClosed := true))
  {
  }

  lemma ScanField(f: Field, rest: string, m: Machine)
    requires IsField(f) && EndsField(rest) && AtCell(m)
    ensures Scan(FieldText(f) + rest, m) == Scan(rest, m.(cell := f.value, quoteClosed := f.Quoted?))
  {
    hide Scan, Escape;
    var value := f.value;
    assert "" + value == value;
    if f.Bare? {
      ScanBare(value, rest, m);
    } else {
      assert FieldText(f) + rest == "\"" + (Escape(value) + ("\"" + rest));
      ScanOpening(Escape(value) + ("\"" + rest), m);
      ScanEscaped(value, "\"" + rest, m.(quoted := true));
      ScanClosing(rest, m.(quoted := true, cell := value));
    }
  }

  /** The machine at the end of a record, its last cell not yet finished. */
  function AtEnd(fields: seq<Field>, m: Machine): Machine
    requires fields != []
  {
    var n := |fields| - 1;
    m.(row := m.row + Values(fields[..n]), cell := fields[n].value, quoteClosed := fields[n].Quoted?)
  }

  /** The machine after a field and the comma behind it. */
  function AfterComma(f: Field, m: Machine): Machine {
    FinishCell(m.(cell := f.value, quoteClosed := f.Quoted?))
  }

  lemma ScanFieldAndComma(f: Field, tail: string, m: Machine)
    requires IsField(f) && AtCell(m)
    ensures Scan(FieldText(f) + ("," + tail), m) == Scan(tail, AfterComma(f, m))
  {
    ScanField(f, "," + tail, m);
    assert ("," + tail)[1..] == tail;
  }

  lemma JoinFields(f: Field, more: seq<Field>, rest: string)
    requires IsField(f) && IsRecord(more)
    ensures IsRecord([f] + more)
    ensures FieldText(f) + ("," + (FieldsText(more) + rest)) == FieldsText([f] + more) + rest
  {
    assert ([f] + more)[1..] == more;
    assert FieldsText([f] + more) == FieldText(f) + ("," + FieldsText(more));
    hide FieldsText, FieldText;
    JoinTexts(FieldText(f), FieldsText(more), rest);
  }

  lemma JoinTexts(a: string, b: string, c: string)
    ensures a + ("," + (b + c)) == a + ("," + b) + c
  {
  }

  lemma {:induction false} ScanFields(fields: seq<Field>, rest: string, m: Machine)
    requires IsRecord(fields) && EndsRecord(rest) && AtCell(m)
    ensures Scan(FieldsText(fields) + rest, m) == Scan(rest, AtEnd(fields, m))
  {
    hide Scan, FieldText;
    if |fields| == 1 {
      ScanField(fields[0], rest, m);
      assert m.row + Values(fields[..0]) == m.row;
    } else {
      var f, more := fields[0], fields[1..];
      assert fields == [f] + more;
      JoinFields(f, more, rest);
      ScanFieldAndComma(f, FieldsText(more) + rest, m);
      ScanFields(more, rest, AfterComma(f, m));
      AtEndAfterComma(f, more, m);
    }
  }

  lemma AtEndAfterComma(f: Field, more: seq<Field>, m: Machine)
    requires more != [] && AtCell(m)
    ensures AtEnd(more, AfterComma(f, m)) == AtEnd([f] + more, m)
  {
  }

  lemma FinishedRecord(fields: seq<Field>, m: Machine)
    requires fields != [] && m.row == []
    ensures FinishRow(AtEnd(fields, m)) == m.(rows := m.rows + [Values(fields)], cell := "", quoteClosed := false)
  {
    var n := |fields| - 1;
    assert [] + Values(fields[..n]) + [fields[n].value] == Values(fields);
  }

  lemma {:induction false} DropEmptyOfSum(a: seq<Row>, b: seq<Row>)
    ensures DropEmpty(a + b) == DropEmpty(a) + DropEmpty(b)
  {
    if a == [] {
      assert a + b == b;
    } else {
      assert (a + b)[0] == a[0] && (a + b)[1..] == a[1..] + b;
      DropEmptyOfSum(a[1..], b);
    }
  }

  lemma RowsOfRest(d: Document)
    requires IsDocument(d) && d.lines != []
    ensures Rows(d) == [Values(d.lines[0].fields)] + Rows(Rest(d))
  {
  }

  ghost predicate AtRecord(m: Machine) {
    AtCell(m) && m.row == []
  }

  // ---- Every text of the grammar is accepted, with its values

  lemma DropEmptyOfOne(row: Row)
    ensures DropEmpty([row]) == if HasContent(row) then [row] else []
  {
  }

  lemma ScanLast(fields: seq<Field>, m: Machine)
    requires IsRecord(fields) && AtRecord(m)
    ensures Conclude(Scan(FieldsText(fields), m)) == Ok(DropEmpty(m.rows) + DropEmpty([Values(fields)]))
  {
    assert FieldsText(fields) + "" == FieldsText(fields);
    ScanFields(fields, "", m);
    hide Scan, FieldsText;
    assert Scan("", AtEnd(fields, m)) == Ok(AtEnd(fields, m)) by {
      ScanNothing(AtEnd(fields, m));
    }
    ConcludeRecord(fields, m);
  }

  lemma ScanNothing(m: Machine)
    ensures Scan("", m) == Ok(m)
  {
  }

  lemma ConcludeRecord(fields: seq<Field>, m: Machine)
    requires IsRecord(fields) && AtRecord(m)
    ensures Conclude(Ok(AtEnd(fields, m))) == Ok(DropEmpty(m.rows) + DropEmpty([Values(fields)]))
  {
    FinishedRecord(fields, m);
    hide DropEmpty, FinishRow;
    DropEmptyOfSum(m.rows, [Values(fields)]);
    if fields == [Bare("")] {
      DropEmptyOfOne(Values(fields));
      assert !HasContent(Values(fields));
      assert AtEnd(fields, m).row == [];
      assert DropEmpty(m.rows) + [] == DropEmpty(m.rows);
    } else {
      assert |fields| == 1 ==> fields[0].Quoted? || |fields[0].value| > 0;
      assert |AtEnd(fields, m).row| == |fields| - 1;
    }
  }

  lemma FieldStart(f: Field)
    requires IsField(f) && f != Bare("")
    ensures |FieldText(f)| > 0 && !EndsCell(FieldText(f)[0])
  {
  }

  /** Only an empty record can show the LF after it as its first character. */
  lemma RecordStart(fields: seq<Field>, tail: string)
    requires IsRecord(fields) && |FieldsText(fields) + tail| > 0 && (FieldsText(fields) + tail)[0] == '\n'
    ensures fields == [Bare("")] && FieldsText(fields) + tail == tail
  {
    if fields[0] != Bare("") {
      FieldStart(fields[0]);
    }
  }

  lemma StartsWithLf(d: Document)
    requires IsDocument(d) && |Text(d)| > 0 && Text(d)[0] == '\n'
    ensures d.lines != [] && d.lines[0] == Line([Bare("")], Lf)
    ensures Text(d)[1..] == Text(Rest(d))
  {
    if d.lines == [] {
      assert FieldsText(d.last) + "" == FieldsText(d.last);
      RecordStart(d.last, "");
    } else {
      assert d.lines[0] in d.lines;
      RecordStart(d.lines[0].fields, EolText(d.lines[0].eol) + Text(Rest(d)));
    }
  }

  lemma ScanLineFeed(rest: string, m: Machine)
    requires !m.quoted
    ensures Scan("\n" + rest, m) == Scan(rest, FinishRow(m))
  {
    hide FinishRow;
    assert ("\n" + rest)[1..] == rest;
  }

  lemma ScanPair(rest: string, m: Machine)
    requires !m.quoted
    ensures Scan("\r\n" + rest, m) == Scan(rest, FinishRow(m))
  {
    hide FinishRow;
    assert ("\r\n" + rest)[2..] == rest;
  }

  lemma ScanReturn(rest: string, m: Machine)
    requires !m.quoted && (rest == "" || rest[0] != '\n')
    ensures Scan("\r" + rest, m) == Scan(rest, FinishRow(m))
  {
    hide FinishRow;
    assert ("\r" + rest)[1..] == rest;
  }

  /** A line end finishes the record; CR swallows an LF right after it. */
  lemma ScanEol(eol: Eol, rest: string, m: Machine)
    requires !m.quoted
    ensures Scan(EolText(eol) + rest, m)
         == Scan(if eol == Cr && |rest| > 0 && rest[0] == '\n' then rest[1..] else rest, FinishRow(m))
  {
    hide Scan, FinishRow;
    match eol
    case CrLf => ScanPair(rest, m);
    case Lf => ScanLineFeed(rest, m);
    case Cr =>
      if |rest| > 0 && rest[0] == '\n' {
        assert "\r" + rest == "\r\n" + rest[1..];
        ScanPair(rest[1..], m);
      } else {
        ScanReturn(rest, m);
      }
  }

  lemma ScanLine(d: Document, m: Machine)
    requires IsDocument(d) && AtRecord(m) && d.lines != []
    ensures var after := m.(rows := m.rows + [Values(d.lines[0].fields)]);
            Scan(Text(d), m)
            == Scan(if d.lines[0].eol == Cr && |Text(Rest(d))| > 0 && Text(Rest(d))[0] == '\n'
                    then Text(Rest(d))[1..] else Text(Rest(d)), after)
  {
    var Line(fields, eol) := d.lines[0];
    assert d.lines[0] in d.lines;
    ScanFields(fields, EolText(eol) + Text(Rest(d)), m);
    FinishedRecord(fields, m);
    ScanEol(eol, Text(Rest(d)), AtEnd(fields, m));
  }

  lemma FirstRowFirst(rows: seq<Row>, d: Document)
    requires IsDocument(d) && d.lines != []
    ensures DropEmpty(rows + [Values(d.lines[0].fields)]) + DropEmpty(Rows(Rest(d)))
         == DropEmpty(rows) + DropEmpty(Rows(d))
  {
    var first := [Values(d.lines[0].fields)];
    RowsOfRest(d);
    DropEmptyOfSum(rows, first);
    DropEmptyOfSum(first, Rows(Rest(d)));
    hide DropEmpty, Rows, Values, Rest;
    Regroup(DropEmpty(rows), DropEmpty(first), DropEmpty(Rows(Rest(d))));
  }

  lemma Regroup(a: seq<Row>, b: seq<Row>, c: seq<Row>)
    ensures a + b + c == a + (b + c)
  {
  }

  lemma EmptyRowLast(rows: seq<Row>)
    ensures DropEmpty(rows + [Values([Bare("")])]) == DropEmpty(rows)
  {
    DropEmptyOfSum(rows, [Values([Bare("")])]);
    DropEmptyOfOne(Values([Bare("")]));
    assert !HasContent(Values([Bare("")]));
  }

  lemma {:induction false} ScanDocument(d: Document, m: Machine)
    requires IsDocument(d) && AtRecord(m)
    ensures Conclude(Scan(Text(d), m)) == Ok(DropEmpty(m.rows) + DropEmpty(Rows(d)))
    decreases |d.lines|
  {
    if d.lines == [] {
      ScanLast(d.last, m);
      assert Rows(d) == [Values(d.last)];
    } else {
      hide Scan, Conclude, Text, Rows, DropEmpty, Values;
      var rest := Rest(d);
      var after := m.(rows := m.rows + [Values(d.lines[0].fields)]);
      ScanLine(d, m);
      FirstRowFirst(m.rows, d);
      if d.lines[0].eol == Cr && |Text(rest)| > 0 && Text(rest)[0] == '\n' {
        // CR and the LF of an empty record read as one line end: only an all-empty row differs.
        StartsWithLf(rest);
        FirstRowFirst(after.rows, rest);
        EmptyRowLast(after.rows);
        ScanDocument(Rest(rest), after);
      } else {
        ScanDocument(rest, after);
      }
    }
  }

  lemma GrammaticalIsAccepted(d: Document)
    requires IsDocument(d)
    ensures Parse(Text(d)) == Ok(DropEmpty(Rows(d)))
  {
    ScanDocument(d, START);
    assert DropEmpty(START.rows) + DropEmpty(Rows(d)) == DropEmpty(Rows(d));
  }
}
