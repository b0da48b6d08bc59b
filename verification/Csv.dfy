/** The CSV rows of the codec. */
module Csv {
  // The canonical rows of codec/src/flow_codec.c, and a reader after section 2 of RFC 4180 (with LF as the line break) that
  // undoes them.

  import opened Wrappers

  datatype Dialect = Dialect(delimiter: char, quote: char)

  predicate ValidDialect(d: Dialect) {
    d.delimiter != d.quote && !IsBreak(d.delimiter) && !IsBreak(d.quote)
  }

  predicate IsBreak(c: char) {
    c == '\r' || c == '\n'
  }

  /** Characters that a bare cell cannot hold. */
  predicate Special(d: Dialect, c: char) {
    c == d.delimiter || c == d.quote || IsBreak(c)
  }

  // ----- the reader

  /** Before a cell, in a bare cell, in a quoted cell, after a quote in a quoted cell. */
  datatype Mode = Start | Bare | Quoted | Closed

  /** The cell, the cells of the record and the records read so far. */
  datatype Reader = Reader(mode: Mode, cell: string, cells: seq<string>, records: seq<seq<string>>)

  function ReadChar(d: Dialect, r: Reader, c: char): Option<Reader> {
    if r.mode == Quoted then
      Some(if c == d.quote then r.(mode := Closed) else r.(cell := r.cell + [c]))
    else if c == d.delimiter then
      Some(Reader(Start, "", r.cells + [r.cell], r.records))
    else if c == '\n' then
      Some(Reader(Start, "", [], r.records + [r.cells + [r.cell]]))
    else if c == d.quote then
      if r.mode == Start then Some(r.(mode := Quoted))
      else if r.mode == Closed then Some(r.(mode := Quoted, cell := r.cell + [c]))
      else None
    else if c == '\r' || r.mode == Closed then None
    else Some(r.(mode := Bare, cell := r.cell + [c]))
  }

  function ReadText(d: Dialect, r: Reader, text: string): Option<Reader>
    decreases |text|
  {
    if text == "" then Some(r)
    else
      var next := ReadChar(d, r, text[0]);
      if next.None? then None else ReadText(d, next.value, text[1..])
  }

  /** The records of a file; the last one may lack its line break. */
  function ReadFile(d: Dialect, text: string): Option<seq<seq<string>>> {
    var r := ReadText(d, Reader(Start, "", [], []), text);
    if r.None? || r.value.mode == Quoted then None
    else if r.value.mode == Start && r.value.cells == [] then Some(r.value.records)
    else Some(r.value.records + [r.value.cells + [r.value.cell]])
  }

  lemma {:induction false} ReadAppend(d: Dialect, r: Reader, a: string, b: string)
    ensures ReadText(d, r, a + b) ==
            (var m := ReadText(d, r, a); if m.None? then None else ReadText(d, m.value, b))
    decreases |a|
  {
    if a == "" {
      assert a + b == b;
    } else {
      assert (a + b)[0] == a[0] && (a + b)[1..] == a[1..] + b;
      var next := ReadChar(d, r, a[0]);
      if next.Some? {
        ReadAppend(d, next.value, a[1..], b);
      }
    }
  }

  lemma ReadOne(d: Dialect, r: Reader, c: char)
    ensures ReadText(d, r, [c]) == ReadChar(d, r, c)
  {
    assert [c][1..] == "";
  }

  // ----- the writer

  function Doubled(d: Dialect, value: string): string {
    if value == "" then ""
    else
      var n := |value| - 1;
      Doubled(d, value[..n]) + (if value[n] == d.quote then [d.quote] else []) + [value[n]]
  }

  ghost predicate NeedsQuotes(d: Dialect, value: string) {
    exists i :: 0 <= i < |value| && Special(d, value[i])
  }

  ghost function CellText(d: Dialect, value: string): string {
    if NeedsQuotes(d, value) then [d.quote] + Doubled(d, value) + [d.quote] else Doubled(d, value)
  }

  /** The cells with delimiters between them. */
  ghost function Cells(d: Dialect, cells: seq<string>): string {
    if cells == [] then ""
    else
      var n := |cells| - 1;
      Cells(d, cells[..n]) + (if n > 0 then [d.delimiter] else []) + CellText(d, cells[n])
  }

  ghost function RecordText(d: Dialect, cells: seq<string>): string {
    Cells(d, cells) + "\n"
  }

  method AppendCell(d: Dialect, row: string, value: string) returns (r: string)
    ensures r == row + CellText(d, value)
  {
    var quoted := false;
    for i := 0 to |value|
      invariant !quoted && forall k :: 0 <= k < i ==> !Special(d, value[k])
    {
      if value[i] == d.delimiter || value[i] == d.quote || value[i] == '\r' || value[i] == '\n' {
        quoted := true;
        break;
      }
    }
    assert quoted <==> NeedsQuotes(d, value);
    r := row + if quoted then [d.quote] else [];
    ghost var start := r;
    for i := 0 to |value|
      invariant r == start + Doubled(d, value[..i])
    {
      assert value[..i + 1][..i] == value[..i];
      r := r + (if value[i] == d.quote then [d.quote] else []) + [value[i]];
    }
    assert value[..|value|] == value;
    r := r + if quoted then [d.quote] else [];
  }

  /** The cell of a column; a missing one is empty. */
  function CellAt(row: seq<string>, column: nat): string {
    if column < |row| then row[column] else ""
  }

  function Padded(row: seq<string>, columns: nat): seq<string> {
    seq(columns, i requires 0 <= i => CellAt(row, i))
  }

  method AppendRecord(d: Dialect, payload: string, row: seq<string>, columns: nat) returns (r: string)
    ensures r == payload + RecordText(d, Padded(row, columns))
  {
    hide CellText;
    r := payload;
    ghost var cells := Padded(row, columns);
    for column := 0 to columns
      invariant r == payload + Cells(d, cells[..column])
    {
      hide Cells;
      CellsMore(d, cells, column);
      ghost var before := Cells(d, cells[..column]);
      if column > 0 {
        r := r + [d.delimiter];
      }
      assert r == payload + (before + if column > 0 then [d.delimiter] else []);
      assert cells[column] == CellAt(row, column);
      r := AppendCell(d, r, CellAt(row, column));
    }
    assert cells[..columns] == cells;
    r := r + "\n";
  }

  lemma CellsMore(d: Dialect, cells: seq<string>, n: nat)
    requires n < |cells|
    ensures Cells(d, cells[..n + 1]) ==
            Cells(d, cells[..n]) + (if n > 0 then [d.delimiter] else []) + CellText(d, cells[n])
  {
    assert cells[..n + 1][..n] == cells[..n];
  }

  /** The payload for one data row: the header and the row. */
  ghost function Payload(d: Dialect, header: seq<string>, row: seq<string>, columns: nat): string {
    RecordText(d, Padded(header, columns)) + RecordText(d, Padded(row, columns))
  }

  method EmitRow(d: Dialect, header: seq<string>, row: seq<string>, columns: nat) returns (payload: string)
    ensures payload == Payload(d, header, row, columns)
  {
    payload := AppendRecord(d, "", header, columns);
    payload := AppendRecord(d, payload, row, columns);
  }

  // ----- the reader undoes the writer

  lemma {:induction false} ReadBare(d: Dialect, r: Reader, value: string)
    requires ValidDialect(d) && (r.mode == Start || r.mode == Bare) && !NeedsQuotes(d, value)
    ensures Doubled(d, value) == value
    ensures ReadText(d, r, value) == Some(if value == "" then r else r.(mode := Bare, cell := r.cell + value))
    decreases |value|
  {
    if value != "" {
      var n := |value| - 1;
      var front := value[..n];
      forall i | 0 <= i < n ensures !Special(d, front[i]) {
        assert front[i] == value[i];
      }
      ReadBare(d, r, front);
      ReadAppend(d, r, front, [value[n]]);
      assert front + [value[n]] == value;
      assert !Special(d, value[n]);
      var r' := if front == "" then r else r.(mode := Bare, cell := r.cell + front);
      ReadOne(d, r', value[n]);
      assert r'.cell + [value[n]] == r.cell + value;
    }
  }

  lemma {:induction false} ReadQuoted(d: Dialect, r: Reader, value: string)
    requires ValidDialect(d) && r.mode == Quoted
    ensures ReadText(d, r, Doubled(d, value)) == Some(r.(cell := r.cell + value))
    decreases |value|
  {
    if value == "" {
      assert r.cell + value == r.cell;
    } else {
      var n := |value| - 1;
      ReadQuoted(d, r, value[..n]);
      var twice := value[n] == d.quote;
      var last := (if twice then [d.quote] else []) + [value[n]];
      var r' := r.(cell := r.cell + value[..n]);
      ReadAppend(d, r, Doubled(d, value[..n]), last);
      assert Doubled(d, value) == Doubled(d, value[..n]) + last;
      assert r'.cell + [value[n]] == r.cell + value;
      if twice {
        assert last[1..] == [d.quote];
        ReadOne(d, r'.(mode := Closed), d.quote);
      } else {
        assert last == [value[n]];
        ReadOne(d, r', value[n]);
      }
    }
  }

  /** A written cell is read up to its end. */
  lemma ReadCell(d: Dialect, cells: seq<string>, records: seq<seq<string>>, value: string)
    requires ValidDialect(d)
    ensures var r := ReadText(d, Reader(Start, "", cells, records), CellText(d, value));
            r.Some? && r.value.mode != Quoted && r.value == Reader(r.value.mode, value, cells, records)
  {
    var start := Reader(Start, "", cells, records);
    if NeedsQuotes(d, value) {
      var text := Doubled(d, value);
      ReadQuoted(d, start.(mode := Quoted), value);
      assert "" + value == value;
      ReadAppend(d, start.(mode := Quoted), text, [d.quote]);
      assert ([d.quote] + text + [d.quote])[1..] == text + [d.quote];
    } else {
      ReadBare(d, start, value);
      assert "" + value == value;
    }
  }

  lemma {:induction false} ReadCells(d: Dialect, records: seq<seq<string>>, cells: seq<string>)
    requires ValidDialect(d) && cells != []
    ensures var (r, n) := (ReadText(d, Reader(Start, "", [], records), Cells(d, cells)), |cells| - 1);
            r.Some? && r.value.mode != Quoted && r.value == Reader(r.value.mode, cells[n], cells[..n], records)
    decreases |cells|
  {
    hide CellText;
    var n := |cells| - 1;
    var start := Reader(Start, "", [], records);
    CellsMore(d, cells, n);
    assert cells[..n + 1] == cells;
    if n == 0 {
      assert Cells(d, cells) == CellText(d, cells[0]);
    } else {
      var front := Cells(d, cells[..n]);
      ReadCells(d, records, cells[..n]);
      ReadAppend(d, start, front, [d.delimiter]);
      assert cells[..n][..n - 1] + [cells[n - 1]] == cells[..n];
      ReadAppend(d, start, front + [d.delimiter], CellText(d, cells[n]));
    }
    ReadCell(d, cells[..n], records, cells[n]);
  }

  lemma ReadRecord(d: Dialect, records: seq<seq<string>>, cells: seq<string>)
    requires ValidDialect(d) && cells != []
    ensures ReadText(d, Reader(Start, "", [], records), RecordText(d, cells)) ==
            Some(Reader(Start, "", [], records + [cells]))
  {
    ReadCells(d, records, cells);
    ReadAppend(d, Reader(Start, "", [], records), Cells(d, cells), "\n");
    assert cells[..|cells| - 1] + [cells[|cells| - 1]] == cells;
  }

  /** A cell that needs quotes is not read back without them. */
  lemma {:induction false} BareFails(d: Dialect, r: Reader, value: string)
    requires ValidDialect(d) && (r.mode == Start || r.mode == Bare) && NeedsQuotes(d, value)
    ensures var m := ReadText(d, r, value);
            m.None? || m.value.mode == Quoted || m.value != Reader(m.value.mode, r.cell + value, r.cells, r.records)
    decreases |value|
  {
    var c := value[0];
    if Special(d, c) {
      if c == d.delimiter || c == '\n' || (c == d.quote && r.mode == Start) {
        var m := ReadChar(d, r, c).value;
        MoreRead(d, m, value[1..]);
      }
    } else {
      var rest := value[1..];
      var i :| 0 <= i < |value| && Special(d, value[i]);
      assert rest[i - 1] == value[i];
      var m := ReadChar(d, r, c).value;
      BareFails(d, m, rest);
      assert m.cell + rest == r.cell + value;
    }
  }

  /** Reading never takes back what was read, and never puts back more than it takes. */
  lemma {:induction false} MoreRead(d: Dialect, r: Reader, text: string)
    ensures var m := ReadText(d, r, text);
            m.Some? ==> |m.value.records| >= |r.records| && (|m.value.records| == |r.records| ==> |m.value.cells| >= |r.cells|)
                        && (|m.value.records| == |r.records| && |m.value.cells| == |r.cells| ==> |m.value.cell| <= |r.cell| + |text|)
    decreases |text|
  {
    if text != "" {
      var next := ReadChar(d, r, text[0]);
      if next.Some? {
        MoreRead(d, next.value, text[1..]);
      }
    }
  }

  /** A cell is written in quotes exactly if it would not be read back without. */
  lemma QuotedIfNeeded(d: Dialect, cells: seq<string>, records: seq<seq<string>>, value: string)
    requires ValidDialect(d)
    ensures var m := ReadText(d, Reader(Start, "", cells, records), value);
            CellText(d, value) == value <==> m.Some? && m.value.mode != Quoted && m.value == Reader(m.value.mode, value, cells, records)
  {
    var start := Reader(Start, "", cells, records);
    assert "" + value == value;
    if NeedsQuotes(d, value) {
      BareFails(d, start, value);
      LongerQuoted(d, value);
    } else {
      ReadBare(d, start, value);
    }
  }

  lemma {:induction false} LongerQuoted(d: Dialect, value: string)
    ensures |Doubled(d, value)| >= |value|
    decreases |value|
  {
    if value != "" {
      LongerQuoted(d, value[..|value| - 1]);
    }
  }

  /** The cells of a row, with empty ones for those missing. */
  ghost predicate IsRow(row: seq<string>, columns: nat, cells: seq<string>) {
    && |cells| == columns && (forall i :: 0 <= i < columns && i < |row| ==> cells[i] == row[i])
    && forall i :: |row| <= i < columns ==> cells[i] == ""
  }

  /** The reader recovers exactly the header and the row, whatever characters they hold. */
  lemma RoundTrip(d: Dialect, header: seq<string>, row: seq<string>, columns: nat)
    requires ValidDialect(d) && columns > 0
    ensures ReadFile(d, Payload(d, header, row, columns)) == Some([Padded(header, columns), Padded(row, columns)])
    ensures IsRow(header, columns, Padded(header, columns)) && IsRow(row, columns, Padded(row, columns))
  {
    var h, r := Padded(header, columns), Padded(row, columns);
    ReadRecord(d, [], h);
    ReadRecord(d, [h], r);
    ReadAppend(d, Reader(Start, "", [], []), RecordText(d, h), RecordText(d, r));
    assert [] + [h] == [h] && [h] + [r] == [h, r];
  }

  /** So payloads are equal exactly if they say the same. */
  lemma PayloadInjective(d: Dialect, header: seq<string>, row: seq<string>, columns: nat,
                         header': seq<string>, row': seq<string>, columns': nat)
    requires ValidDialect(d) && columns > 0 && columns' > 0
    ensures Payload(d, header, row, columns) == Payload(d, header', row', columns') <==>
            Padded(header, columns) == Padded(header', columns') && Padded(row, columns) == Padded(row', columns')
  {
    RoundTrip(d, header, row, columns);
    RoundTrip(d, header', row', columns');
    if Payload(d, header, row, columns) == Payload(d, header', row', columns') {
      assert [Padded(header, columns), Padded(row, columns)][1] == [Padded(header', columns'), Padded(row', columns')][1];
      assert [Padded(header, columns), Padded(row, columns)][0] == [Padded(header', columns'), Padded(row', columns')][0];
    }
  }

  /** Without columns the payload is that of one empty column, so a positive number of columns is needed. */
  lemma NoColumns(d: Dialect, header: seq<string>, row: seq<string>)
    ensures Payload(d, header, row, 0) == Payload(d, [""], [""], 1)
    ensures Padded(header, 0) != Padded([""], 1)
  {
    assert Padded([""], 1) == [""];
    assert Cells(d, [""]) == Cells(d, []) + CellText(d, "") by {
      assert [""][..0] == [];
    }
    assert Padded(header, 0) == [] && Padded(row, 0) == [];
  }
}
