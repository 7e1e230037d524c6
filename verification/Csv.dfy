/** The character machine of the CSV import, and the grammar it decides. */
module Csv {
  import opened Wrappers

  datatype Error = CharacterAfterQuote | QuotePlacement | Unterminated

  type Row = seq<string>

  /** What the scan carries from character to character. */
  datatype Machine = Machine(rows: seq<Row>, row: Row, cell: string, quoted: bool, quoteClosed: bool)

  function FinishCell(m: Machine): Machine {
    m.(row := m.row + [m.cell], cell := "", quoteClosed := false)
  }

  function FinishRow(m: Machine): Machine {
    var done := FinishCell(m);
    done.(rows := done.rows + [done.row], row := [])
  }

  predicate EndsCell(c: char) {
    c == ',' || c == '\r' || c == '\n'
  }

  function Scan(text: string, m: Machine): Result<Machine, Error> {
    if text == "" then Ok(m)
    else
      var c := text[0];
      var followedBy := (x: char) => |text| > 1 && text[1] == x;
      if m.quoted then
        if c == '"' && followedBy('"') then Scan(text[2..], m.(cell := m.cell + ['"']))
        else if c == '"' then Scan(text[1..], m.(quoted := false, quoteClosed := true))
        else Scan(text[1..], m.(cell := m.cell + [c]))
      else if m.quoteClosed && !EndsCell(c) then Err(CharacterAfterQuote)
      else if c == '"' then
        if |m.cell| > 0 || m.quoteClosed then Err(QuotePlacement)
        else Scan(text[1..], m.(quoted := true))
      else if c == ',' then Scan(text[1..], FinishCell(m))
      else if c == '\r' && followedBy('\n') then Scan(text[2..], FinishRow(m))
      else if c == '\r' || c == '\n' then Scan(text[1..], FinishRow(m))
      else Scan(text[1..], m.(cell := m.cell + [c]))
  }

  predicate HasContent(row: Row) {
    exists cell | cell in row :: |cell| > 0
  }

  function DropEmpty(rows: seq<Row>): seq<Row> {
    if rows == [] then []
    else (if HasContent(rows[0]) then [rows[0]] else []) + DropEmpty(rows[1..])
  }

  /** What the parser makes of a finished scan. */
  function Conclude(scanned: Result<Machine, Error>): Result<seq<Row>, Error> {
    match scanned
    case Err(e) => Err(e)
    case Ok(m) =>
      if m.quoted then Err(Unterminated)
      else
        var done := if |m.cell| > 0 || m.quoteClosed || |m.row| > 0 then FinishRow(m) else m;
        Ok(DropEmpty(done.rows))
  }

  const START := Machine([], [], "", false, false)

  function Parse(text: string): Result<seq<Row>, Error> {
    Conclude(Scan(text, START))
  }

  method ParseRfc4180(text: string) returns (result: Result<seq<Row>, Error>)
    ensures result == Parse(text)
  {
    var rows: seq<Row> := [];
    var row: Row := [];
    var cell := "";
    var quoted, quoteClosed := false, false;
    var index := 0;
    while index < |text|
      invariant 0 <= index <= |text|
      invariant Scan(text, START) == Scan(text[index..], Machine(rows, row, cell, quoted, quoteClosed))
    {
      var c := text[index];
      var last := index + 1 == |text|;
      assert text[index..][1..] == text[index + 1..];
      assert !last ==> text[index..][2..] == text[index + 2..];
      if quoted {
        if c == '"' && !last && text[index + 1] == '"' {
          cell := cell + ['"'];
          index := index + 1;
        } else if c == '"' {
          quoted, quoteClosed := false, true;
        } else {
          cell := cell + [c];
        }
        index := index + 1;
        continue;
      }
      if quoteClosed && c != ',' && c != '\r' && c != '\n' {
        return Err(CharacterAfterQuote);
      }
      if c == '"' {
        if |cell| > 0 || quoteClosed {
          return Err(QuotePlacement);
        }
        quoted := true;
      } else if c == ',' {
        row, cell, quoteClosed := row + [cell], "", false;
      } else if c == '\r' && !last && text[index + 1] == '\n' {
        rows, row, cell, quoteClosed := rows + [row + [cell]], [], "", false;
        index := index + 1;
      } else if c == '\r' || c == '\n' {
        rows, row, cell, quoteClosed := rows + [row + [cell]], [], "", false;
      } else {
        cell := cell + [c];
      }
      index := index + 1;
    }
    if quoted {
      return Err(Unterminated);
    }
    if |cell| > 0 || quoteClosed || |row| > 0 {
      rows := rows + [row + [cell]];
    }
    result := Ok(DropEmpty(rows));
  }
}
