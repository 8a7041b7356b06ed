/** Comma-separated rows: the writer, and the reader of section 2 of RFC 4180
    that recovers what was written. */
module Csv {
  import opened Words

  predicate Special(c: char) {
    c == ',' || c == '"' || c == '\r' || c == '\n'
  }

  predicate NeedsQuoting(s: string) {
    exists i :: 0 <= i < |s| && Special(s[i])
  }

  // Each quote twice.
  function Doubled(s: string): string {
    if s == "" then "" else Doubled(s[..|s| - 1]) + if s[|s| - 1] == '"' then "\"\"" else [s[|s| - 1]]
  }

  function Escaped(s: string): string {
    if NeedsQuoting(s) then "\"" + Doubled(s) + "\"" else s
  }

  /** A cell is changed exactly when it holds a comma, a quote or a line break. */
  lemma QuotedExactlyWhen(s: string)
    ensures Escaped(s) == s <==> ',' !in s && '"' !in s && '\r' !in s && '\n' !in s
    ensures Escaped(s) != s ==> |Escaped(s)| >= |s| + 2 && Escaped(s)[0] == '"' && Escaped(s)[|Escaped(s)| - 1] == '"'
  {
    DoubledLonger(s);
    if NeedsQuoting(s) {
      var i :| 0 <= i < |s| && Special(s[i]);
      assert s[i] in s;
    }
    forall c | c in s && Special(c) ensures NeedsQuoting(s) {
      var i :| 0 <= i < |s| && s[i] == c;
    }
  }

  lemma {:induction false} DoubledLonger(s: string)
    ensures |Doubled(s)| >= |s|
  {
    if s != "" {
      DoubledLonger(s[..|s| - 1]);
    }
  }

  // The cells with their separators.
  function Cells(row: seq<string>): string {
    if row == [] then ""
    else if |row| == 1 then Escaped(row[0])
    else Cells(row[..|row| - 1]) + "," + Escaped(row[|row| - 1])
  }

  function Rows(rows: seq<seq<string>>): string {
    if rows == [] then "" else Rows(rows[..|rows| - 1]) + Cells(rows[|rows| - 1]) + "\r\n"
  }

  // ---- The reader of RFC 4180, section 2 ----

  // The unescaped characters up to the first special one.
  function PlainField(s: string): (r: (string, string))
    ensures s == r.0 + r.1
  {
    if s == "" || Special(s[0]) then ("", s)
    else
      var (cell, rest) := PlainField(s[1..]);
      ([s[0]] + cell, rest)
  }

  // What follows an opening quote, up to the quote that closes it.
  function QuotedField(s: string): (r: Option<(string, string)>)
    ensures r.Some? ==> |r.value.1| < |s|
  {
    if s == "" then None
    else if s[0] != '"' then
      match QuotedField(s[1..])
      case None => None
      case Some((cell, rest)) => Some(([s[0]] + cell, rest))
    else if |s| > 1 && s[1] == '"' then
      match QuotedField(s[2..])
      case None => None
      case Some((cell, rest)) => Some((['"'] + cell, rest))
    else
      Some(("", s[1..]))
  }

  function ReadField(s: string): (r: Option<(string, string)>)
    ensures r.Some? ==> |r.value.1| <= |s|
  {
    if s != "" && s[0] == '"' then QuotedField(s[1..]) else Some(PlainField(s))
  }

  // The fields of one record, and what follows its line break.
  function ReadRecord(s: string): (r: Option<(seq<string>, string)>)
    ensures r.Some? ==> |r.value.1| < |s|
    decreases |s|
  {
    match ReadField(s)
    case None => None
    case Some((cell, rest)) =>
      if rest != "" && rest[0] == ',' then
        match ReadRecord(rest[1..])
        case None => None
        case Some((cells, left)) => Some(([cell] + cells, left))
      else if |rest| >= 2 && rest[0] == '\r' && rest[1] == '\n' then
        Some(([cell], rest[2..]))
      else
        None
  }

  function ReadFile(s: string): Option<seq<seq<string>>>
    decreases |s|
  {
    if s == "" then Some([])
    else
      match ReadRecord(s)
      case None => None
      case Some((cells, rest)) =>
        match ReadFile(rest)
        case None => None
        case Some(rows) => Some([cells] + rows)
  }

  // ---- Round trip ----

  // A separator or a line break.
  predicate EndsField(s: string) {
    s != "" && (s[0] == ',' || s[0] == '\r')
  }

  lemma {:induction false} PlainReads(cell: string, rest: string)
    requires !NeedsQuoting(cell) && EndsField(rest)
    ensures PlainField(cell + rest) == (cell, rest)
  {
    if cell == "" {
      assert cell + rest == rest;
    } else {
      assert !Special(cell[0]);
      forall i | 0 <= i < |cell[1..]| ensures !Special(cell[1..][i]) {
        assert cell[1..][i] == cell[i + 1];
      }
      PlainReads(cell[1..], rest);
      assert (cell + rest)[1..] == cell[1..] + rest && [cell[0]] + cell[1..] == cell;
    }
  }

  lemma {:induction false} DoubledCons(c: char, s: string)
    ensures Doubled([c] + s) == (if c == '"' then "\"\"" else [c]) + Doubled(s)
  {
    var t := [c] + s;
    if s == "" {
      assert t == [c] && t[..0] == "";
    } else {
      DoubledCons(c, s[..|s| - 1]);
      assert t[..|t| - 1] == [c] + s[..|s| - 1];
    }
  }

  lemma {:induction false} QuotedReads(cell: string, rest: string)
    requires EndsField(rest)
    ensures QuotedField(Doubled(cell) + "\"" + rest) == Some((cell, rest))
  {
    hide Doubled;
    if cell == "" {
      NothingDoubled();
      var s := Doubled(cell) + "\"" + rest;
      assert s == "\"" + rest && s[1..] == rest;
    } else {
      var c, tail := cell[0], cell[1..];
      assert cell == [c] + tail;
      DoubledCons(c, tail);
      QuotedReads(tail, rest);
      var s, t := Doubled(cell) + "\"" + rest, Doubled(tail) + "\"" + rest;
      if c == '"' {
        assert s == "\"\"" + t && s[2..] == t;
      } else {
        assert s == [c] + t && s[1..] == t;
      }
    }
  }

  lemma NothingDoubled()
    ensures Doubled("") == ""
  {
  }

  /** A written cell reads back, whatever its bytes. */
  lemma FieldReads(cell: string, rest: string)
    requires EndsField(rest)
    ensures ReadField(Escaped(cell) + rest) == Some((cell, rest))
  {
    hide Doubled, QuotedField, PlainField;
    var s := Escaped(cell) + rest;
    if NeedsQuoting(cell) {
      QuotedReads(cell, rest);
      assert s[1..] == Doubled(cell) + "\"" + rest;
    } else {
      PlainReads(cell, rest);
      assert s[0] == if cell == "" then rest[0] else cell[0];
    }
  }

  // The cells, first one first.
  function CellsFront(row: seq<string>): string
    requires row != []
  {
    if |row| == 1 then Escaped(row[0]) else Escaped(row[0]) + "," + CellsFront(row[1..])
  }

  lemma {:induction false} FrontSnoc(row: seq<string>, cell: string)
    requires row != []
    ensures CellsFront(row + [cell]) == CellsFront(row) + "," + Escaped(cell)
  {
    hide Escaped;
    var longer := row + [cell];
    if |row| == 1 {
      assert longer[1..] == [cell];
    } else {
      assert longer[1..] == row[1..] + [cell];
      FrontSnoc(row[1..], cell);
      AllAfter(Escaped(row[0]) + ",", CellsFront(row[1..]), ",", Escaped(cell));
    }
  }

  lemma {:induction false} SameCells(row: seq<string>)
    requires row != []
    ensures Cells(row) == CellsFront(row)
  {
    hide Escaped, CellsFront;
    OneCell(row[0]);
    if |row| == 1 {
      assert row == [row[0]];
    } else {
      var before, last := row[..|row| - 1], row[|row| - 1];
      assert row == before + [last];
      SameCells(before);
      FrontSnoc(before, last);
    }
  }

  lemma OneCell(cell: string)
    ensures CellsFront([cell]) == Escaped(cell)
  {
  }

  lemma {:induction false} RecordReads(row: seq<string>, rest: string)
    requires row != []
    ensures ReadRecord(CellsFront(row) + "\r\n" + rest) == Some((row, rest))
  {
    hide Escaped, ReadField;
    var s := CellsFront(row) + "\r\n" + rest;
    if |row| == 1 {
      var end := "\r\n" + rest;
      FieldReads(row[0], end);
      assert s == Escaped(row[0]) + end && end[0] == '\r' && end[1] == '\n' && end[2..] == rest && row == [row[0]];
    } else {
      var tail := "," + (CellsFront(row[1..]) + "\r\n" + rest);
      FieldReads(row[0], tail);
      RecordReads(row[1..], rest);
      assert [row[0]] + row[1..] == row;
      assert s == Escaped(row[0]) + tail && tail[1..] == CellsFront(row[1..]) + "\r\n" + rest;
    }
  }

  lemma {:induction false} RowsCons(row: seq<string>, rows: seq<seq<string>>)
    ensures Rows([row] + rows) == Cells(row) + "\r\n" + Rows(rows)
  {
    hide Cells;
    var all := [row] + rows;
    if rows == [] {
      assert all[..0] == [];
    } else {
      var before, last := rows[..|rows| - 1], rows[|rows| - 1];
      RowsCons(row, before);
      assert all[..|all| - 1] == [row] + before && all[|all| - 1] == last;
      AllAfter(Cells(row) + "\r\n", Rows(before), Cells(last), "\r\n");
    }
  }

  lemma AllAfter(a: string, b: string, c: string, d: string)
    ensures a + b + c + d == a + (b + c + d)
  {
  }

  predicate NoEmptyRow(rows: seq<seq<string>>) {
    forall i :: 0 <= i < |rows| ==> rows[i] != []
  }

  lemma {:induction false} NonEmptyRowsRead(rows: seq<seq<string>>)
    requires NoEmptyRow(rows)
    ensures ReadFile(Rows(rows)) == Some(rows)
  {
    hide Cells, CellsFront, ReadRecord;
    if rows != [] {
      assert rows == [rows[0]] + rows[1..];
      RowsCons(rows[0], rows[1..]);
      SameCells(rows[0]);
      RecordReads(rows[0], Rows(rows[1..]));
      NonEmptyRowsRead(rows[1..]);
    }
  }

  // A row without cells reads as a row of one empty cell.
  function Read(row: seq<string>): seq<string> {
    if row == [] then [""] else row
  }

  function ReadRows(rows: seq<seq<string>>): (r: seq<seq<string>>)
    ensures |r| == |rows| && forall i :: 0 <= i < |rows| ==> r[i] == Read(rows[i])
  {
    seq(|rows|, i requires 0 <= i < |rows| => Read(rows[i]))
  }

  lemma {:induction false} SameText(rows: seq<seq<string>>)
    ensures Rows(ReadRows(rows)) == Rows(rows)
  {
    if rows != [] {
      var m := |rows| - 1;
      SameText(rows[..m]);
      assert ReadRows(rows)[..m] == ReadRows(rows[..m]);
      assert Cells(ReadRows(rows)[m]) == Cells(rows[m]);
    }
  }

  /** The rows are recovered exactly when none of them is empty. */
  lemma RowsReadBack(rows: seq<seq<string>>)
    ensures ReadFile(Rows(rows)) == Some(rows) <==> NoEmptyRow(rows)
  {
    hide Rows, ReadFile;
    SameText(rows);
    NonEmptyRowsRead(ReadRows(rows));
    RowsKept(rows);
  }

  lemma RowsKept(rows: seq<seq<string>>)
    ensures ReadRows(rows) == rows <==> NoEmptyRow(rows)
  {
    if NoEmptyRow(rows) {
      assert forall i :: 0 <= i < |rows| ==> ReadRows(rows)[i] == rows[i];
    } else {
      var i :| 0 <= i < |rows| && rows[i] == [];
      assert ReadRows(rows)[i] != rows[i];
    }
  }

  // ---- The writer ----

  class Writer {
    var bytes: string
    var firstCell: bool
    ghost var rows: seq<seq<string>>
    ghost var row: seq<string>

    // What has been written is the finished rows and the cells of one more.
    ghost predicate Valid()
      reads this
    {
      bytes == Rows(rows) + Cells(row) && (firstCell <==> row == [])
    }

    constructor ()
      ensures Valid() && rows == [] && row == []
    {
      bytes, firstCell, rows, row := "", true, [], [];
    }

    method WriteSeparatorIfNeeded()
      modifies this`firstCell, this`bytes
      ensures !firstCell && bytes == old(bytes) + if old(firstCell) then "" else ","
    {
      if firstCell {
        firstCell := false;
      } else {
        bytes := bytes + ",";
      }
    }

    // The position of the next quote; the length when there is none.
    method FindQuote(s: string, from: nat) returns (next: nat)
      requires from <= |s|
      ensures from <= next <= |s| && (next < |s| ==> s[next] == '"')
      ensures forall i :: from <= i < next ==> s[i] != '"'
    {
      next := from;
      while next < |s| && s[next] != '"'
        invariant from <= next <= |s| && forall i :: from <= i < next ==> s[i] != '"'
      {
        next := next + 1;
      }
    }

    method WriteEscaped(s: string)
      modifies this`bytes
      ensures bytes == old(bytes) + Escaped(s)
    {
      hide Doubled;
      if !NeedsQuoting(s) {
        bytes := bytes + s;
        return;
      }
      bytes := bytes + "\"";
      WriteDoubled(s);
      bytes := bytes + "\"";
    }

    method WriteDoubled(s: string)
      modifies this`bytes
      ensures bytes == old(bytes) + Doubled(s)
    {
      hide Doubled;
      NothingDoubled();
      ghost var start := bytes;
      var pos := 0;
      while pos < |s|
        invariant pos <= |s| && bytes == start + Doubled(s[..pos])
      {
        var next := FindQuote(s, pos);
        DoubledPlain(s, pos, next);
        bytes := bytes + s[pos..next];
        assert bytes == start + Doubled(s[..next]);
        if next == |s| {
          pos := next;
          break;
        }
        DoubledQuote(s, next);
        bytes := bytes + "\"" + "\"";
        assert bytes == start + (Doubled(s[..next]) + "\"\"");
        pos := next + 1;
      }
      assert s[..|s|] == s;
    }

    method Cell(s: string)
      requires Valid()
      modifies this
      ensures Valid() && rows == old(rows) && row == old(row) + [s]
    {
      hide Escaped;
      WriteSeparatorIfNeeded();
      WriteEscaped(s);
      row := row + [s];
      assert row[..|row| - 1] == old(row);
    }

    method CellEmpty()
      requires Valid()
      modifies this
      ensures Valid() && rows == old(rows) && row == old(row) + [""]
    {
      WriteSeparatorIfNeeded();
      row := row + [""];
      assert row[..|row| - 1] == old(row);
    }

    method EndRow()
      requires Valid()
      modifies this
      ensures Valid() && rows == old(rows) + [old(row)] && row == []
    {
      hide Rows, Cells;
      RowsSnoc(rows, row);
      bytes := bytes + "\r" + "\n";
      firstCell := true;
      rows := rows + [row];
      row := [];
    }

    method WriteHeader(header: seq<string>)
      requires Valid() && row == []
      modifies this
      ensures Valid() && rows == old(rows) + [header] && row == []
    {
      for i := 0 to |header|
        invariant Valid() && rows == old(rows) && row == header[..i]
      {
        Cell(header[i]);
      }
      EndRow();
      assert header[..|header|] == header;
    }
  }

  lemma RowsSnoc(rows: seq<seq<string>>, row: seq<string>)
    ensures Rows(rows + [row]) == Rows(rows) + Cells(row) + "\r" + "\n" && Cells([]) == ""
  {
    hide Escaped;
    assert (rows + [row])[..|rows|] == rows;
  }

  // A stretch without quotes is written as it is.
  lemma {:induction false} DoubledPlain(s: string, pos: nat, next: nat)
    requires pos <= next <= |s| && forall i :: pos <= i < next ==> s[i] != '"'
    ensures Doubled(s[..next]) == Doubled(s[..pos]) + s[pos..next]
  {
    if pos < next {
      DoubledPlain(s, pos, next - 1);
      assert s[..next][..next - 1] == s[..next - 1];
    }
  }

  lemma DoubledQuote(s: string, at: nat)
    requires at < |s| && s[at] == '"'
    ensures Doubled(s[..at + 1]) == Doubled(s[..at]) + "\"\""
  {
    assert s[..at + 1][..at] == s[..at];
  }
}
