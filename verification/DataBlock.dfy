/**
 `_table_rows`: one table's block of the `diff -data` screen and of its log.  A row's key and
 status are printed on its first line only, its differing values one per line.

 `Read` is an independent reader of the block: a line with a status starts a row, a line
 without one continues the row above.
 */
module DataBlock {
  import opened Prelude
  import opened Grouping

  datatype Status = Missing | Extra | Changed

  datatype Value = Value(column: string, source: Option<string>, target: Option<string>)

  /** A key column and what it prints. */
  datatype Cell = Cell(name: string, text: string)

  datatype Row = Row(key: string, cells: seq<Cell>, status: Status, values: seq<Value>)

  datatype Table = Table(keyed: bool, rows: seq<Row>)

  /** The value columns of a line. */
  datatype Cells = Cells(column: string, source: string, target: string)

  /** A printed line: the key columns, the status, and the value columns if the block has any. */
  datatype Line = Line(key: seq<Cell>, status: string, cells: Option<Cells>)

  const NULL_TEXT := "NULL"

  // ----- a row's cells

  function StatusText(status: Status): string {
    match status case Missing => "MISSING" case Extra => "EXTRA" case Changed => "CHANGED"
  }

  function KeyName(): Cell -> Cell {
    (cell: Cell) => Cell("key:" + cell.name, cell.text)
  }

  function KeyOf(table: Table, row: Row): seq<Cell> {
    if table.keyed then Mapped(row.cells, KeyName()) else [Cell("row", row.key)]
  }

  function BlankCell(): Cell -> Cell {
    (cell: Cell) => Cell(cell.name, "")
  }

  function HasSide(status: Status): Value -> bool {
    (v: Value) => if status == Missing then v.source.Some? else v.target.Some?
  }

  /** `_shown_values`; `full` is the log file. */
  function Shown(table: Table, full: bool): Row -> seq<Value> {
    (row: Row) =>
      if row.status == Changed then row.values
      else if !full || !table.keyed then []
      else Filter(row.values, HasSide(row.status))
  }

  /** What is shown of a row: all its values if it changed, on screen none otherwise, and in the
      log of a keyed table exactly those the row holds on the one side it is on. */
  lemma ShownIs(table: Table, full: bool, row: Row, v: Value)
    ensures v in Shown(table, full)(row) <==>
      v in row.values &&
      match row.status
      case Changed => true
      case Missing => full && table.keyed && v.source.Some?
      case Extra => full && table.keyed && v.target.Some?
  {
    FilterMember(row.values, HasSide(row.status), v);
  }

  function Or(text: Option<string>, default: string): string {
    match text case None => default case Some(t) => t
  }

  function CellsOf(row: Row): Value -> Cells {
    (v: Value) =>
      var blank := if row.status == Changed then NULL_TEXT else "";
      Cells(v.column, Or(v.source, blank), Or(v.target, blank))
  }

  // ----- the block

  predicate WithValues(table: Table, full: bool) {
    exists i :: 0 <= i < |table.rows| && Shown(table, full)(table.rows[i]) != []
  }

  /** The line for a row's `i`th value, `value` being None where the row has none to show. */
  function LineAt(table: Table, row: Row, i: nat, value: Option<Value>): Line {
    var cells := match value case None => Cells("", "", "") case Some(v) => CellsOf(row)(v);
    if i == 0 then Line(KeyOf(table, row), StatusText(row.status), Some(cells))
    else Line(Mapped(KeyOf(table, row), BlankCell()), "", Some(cells))
  }

  function Lines(table: Table, full: bool, withValues: bool): Row -> seq<Line> {
    (row: Row) =>
      var values := Shown(table, full)(row);
      if !withValues then [Line(KeyOf(table, row), StatusText(row.status), None)]
      else if values == [] then [LineAt(table, row, 0, None)]
      else seq(|values|, i requires 0 <= i < |values| => LineAt(table, row, i, Some(values[i])))
  }

  function Block(table: Table, full: bool): seq<Line> {
    Flat(table.rows, Lines(table, full, WithValues(table, full)))
  }

  /** `_table_rows`. */
  method TableRows(table: Table, full: bool) returns (lines: seq<Line>)
    ensures lines == Block(table, full)
  {
    var withValues := WithValues(table, full);
    ghost var made := Lines(table, full, withValues);
    lines := [];
    for i := 0 to |table.rows|
      invariant lines == Flat(table.rows[..i], made)
    {
      var row := table.rows[i];
      assert table.rows[..i + 1] == table.rows[..i] + [row];
      FlatSnoc(table.rows[..i], row, made);
      var part := RowLines(table, full, withValues, row);
      lines := lines + part;
    }
    assert table.rows[..|table.rows|] == table.rows;
  }

  method RowLines(table: Table, full: bool, withValues: bool, row: Row) returns (lines: seq<Line>)
    ensures lines == Lines(table, full, withValues)(row)
  {
    if !withValues {
      return [Line(KeyOf(table, row), StatusText(row.status), None)];
    }
    var values := Shown(table, full)(row);
    var listed := if values == [] then [None] else seq(|values|, i requires 0 <= i < |values| => Some(values[i]));
    lines := [];
    for index := 0 to |listed|
      invariant lines == seq(index, i requires 0 <= i < index => LineAt(table, row, i, listed[i]))
    {
      lines := lines + [LineAt(table, row, index, listed[index])];
    }
  }

  // ----- reading the block

  datatype Entry = Entry(key: seq<Cell>, status: string, values: seq<Cells>)

  function CellsIn(line: Line): seq<Cells> {
    if line.cells.Some? && line.cells.value.column != "" then [line.cells.value] else []
  }

  function ReadLine(entries: seq<Entry>, line: Line): seq<Entry> {
    if line.status != "" then entries + [Entry(line.key, line.status, CellsIn(line))]
    else if entries == [] then []
    else entries[..|entries| - 1] + [Last(entries).(values := Last(entries).values + CellsIn(line))]
  }

  function ReadFrom(entries: seq<Entry>, lines: seq<Line>): seq<Entry> {
    if lines == [] then entries else ReadLine(ReadFrom(entries, lines[..|lines| - 1]), Last(lines))
  }

  function EntryOf(table: Table, full: bool): Row -> Entry {
    (row: Row) => Entry(KeyOf(table, row), StatusText(row.status), Mapped(Shown(table, full)(row), CellsOf(row)))
  }

  lemma {:induction false} ReadOn(entries: seq<Entry>, a: seq<Line>, b: seq<Line>)
    ensures ReadFrom(entries, a + b) == ReadFrom(ReadFrom(entries, a), b)
  {
    if b == [] {
      assert a + b == a;
    } else {
      ReadOn(entries, a, b[..|b| - 1]);
      assert (a + b)[..|a + b| - 1] == a + b[..|b| - 1];
    }
  }

  ghost predicate Named(values: seq<Value>) {
    forall v :: v in values ==> v.column != ""
  }

  /** The lines of a row's values, read one after the other, become one entry. */
  lemma {:induction false} ReadValues(entries: seq<Entry>, table: Table, row: Row, values: seq<Value>)
    requires values != [] && Named(values)
    ensures ReadFrom(entries, seq(|values|, i requires 0 <= i < |values| => LineAt(table, row, i, Some(values[i]))))
         == entries + [Entry(KeyOf(table, row), StatusText(row.status), Mapped(values, CellsOf(row)))]
  {
    var lines := seq(|values|, i requires 0 <= i < |values| => LineAt(table, row, i, Some(values[i])));
    var front, last := values[..|values| - 1], Last(values);
    assert values == front + [last] && last in values;
    if front == [] {
      assert lines == [LineAt(table, row, 0, Some(last))] && lines[..0] == [];
      assert Mapped(values, CellsOf(row)) == [CellsOf(row)(last)];
    } else {
      ReadValues(entries, table, row, front);
      assert lines[..|lines| - 1] == seq(|front|, i requires 0 <= i < |front| => LineAt(table, row, i, Some(front[i])));
      MappedSnoc(front, last, CellsOf(row));
    }
  }

  lemma ReadRow(entries: seq<Entry>, table: Table, full: bool, withValues: bool, row: Row)
    requires Named(Shown(table, full)(row)) && (!withValues ==> Shown(table, full)(row) == [])
    ensures ReadFrom(entries, Lines(table, full, withValues)(row)) == entries + [EntryOf(table, full)(row)]
  {
    var values, lines := Shown(table, full)(row), Lines(table, full, withValues)(row);
    if withValues && values != [] {
      ReadValues(entries, table, row, values);
    } else {
      assert lines[..0] == [] && Mapped(values, CellsOf(row)) == [];
    }
  }

  lemma {:induction false} ReadRows(table: Table, full: bool, withValues: bool, rows: seq<Row>)
    requires forall row :: row in rows ==>
      Named(Shown(table, full)(row)) && (!withValues ==> Shown(table, full)(row) == [])
    ensures ReadFrom([], Flat(rows, Lines(table, full, withValues))) == Mapped(rows, EntryOf(table, full))
  {
    if rows != [] {
      var front, last := rows[..|rows| - 1], Last(rows);
      assert rows == front + [last] && last in rows;
      ReadRows(table, full, withValues, front);
      ReadOn([], Flat(front, Lines(table, full, withValues)), Lines(table, full, withValues)(last));
      ReadRow(Mapped(front, EntryOf(table, full)), table, full, withValues, last);
      MappedSnoc(front, last, EntryOf(table, full));
    }
  }

  lemma {:induction false} ShownNamed(values: seq<Value>, keep: Value -> bool)
    requires Named(values)
    ensures Named(Filter(values, keep))
  {
    forall v | v in Filter(values, keep) ensures v in values { FilterMember(values, keep, v); }
  }

  /** Reading the block gives every row's key and status, once each and in order, with exactly
      the values shown for it. */
  lemma BlockIsLossless(table: Table, full: bool)
    requires forall row :: row in table.rows ==> Named(row.values)
    ensures ReadFrom([], Block(table, full)) == Mapped(table.rows, EntryOf(table, full))
  {
    forall row | row in table.rows
      ensures Named(Shown(table, full)(row)) && (!WithValues(table, full) ==> Shown(table, full)(row) == [])
    {
      ShownNamed(row.values, HasSide(row.status));
      var i :| 0 <= i < |table.rows| && table.rows[i] == row;
    }
    ReadRows(table, full, WithValues(table, full), table.rows);
  }

  // ----- what the reader finds, without a word of how it was written

  /** The cells of a value: its column, and each side's text, or `blank` where that side has none. */
  ghost predicate Shows(cells: Cells, v: Value, blank: string) {
    && cells.column == v.column
    && (if v.source.Some? then cells.source == v.source.value else cells.source == blank)
    && (if v.target.Some? then cells.target == v.target.value else cells.target == blank)
  }

  ghost predicate ShowsAll(cells: seq<Cells>, values: seq<Value>, blank: string) {
    |cells| == |values| && forall j :: 0 <= j < |values| ==> Shows(cells[j], values[j], blank)
  }

  /** The key columns of a keyed table are the row's own under their own names; a table without a
      key has the one column `row`. */
  ghost predicate ShowsKey(key: seq<Cell>, keyed: bool, row: Row) {
    if !keyed then key == [Cell("row", row.key)]
    else
      && |key| == |row.cells|
      && forall j :: 0 <= j < |key| ==> key[j].name == "key:" + row.cells[j].name && key[j].text == row.cells[j].text
  }

  /** A changed row shows all its values, NULL standing for none; a one-sided row of a keyed table
      shows in the log those its one side holds, and nothing elsewhere. */
  ghost predicate ShowsRow(entry: Entry, table: Table, full: bool, row: Row) {
    && ShowsKey(entry.key, table.keyed, row)
    && match row.status
       case Changed => entry.status == "CHANGED" && ShowsAll(entry.values, row.values, "NULL")
       case Missing => entry.status == "MISSING" && ShowsAll(entry.values, Held(table, full, row), "")
       case Extra => entry.status == "EXTRA" && ShowsAll(entry.values, Held(table, full, row), "")
  }

  function Held(table: Table, full: bool, row: Row): seq<Value> {
    if full && table.keyed then Filter(row.values, HasSide(row.status)) else []
  }

  lemma EntryShows(table: Table, full: bool, row: Row)
    ensures ShowsRow(EntryOf(table, full)(row), table, full, row)
  {
    var shown := Shown(table, full)(row);
    assert shown == if row.status == Changed then row.values else Held(table, full, row);
    CellsShow(row, shown);
    assert table.keyed ==> forall j :: 0 <= j < |row.cells| ==> KeyOf(table, row)[j] == KeyName()(row.cells[j]);
  }

  lemma CellsShow(row: Row, shown: seq<Value>)
    ensures ShowsAll(Mapped(shown, CellsOf(row)), shown, if row.status == Changed then "NULL" else "")
  {
    forall j | 0 <= j < |shown|
      ensures Shows(Mapped(shown, CellsOf(row))[j], shown[j], if row.status == Changed then "NULL" else "")
    {
      assert Mapped(shown, CellsOf(row))[j] == CellsOf(row)(shown[j]);
    }
  }

  /** Reading the block off the screen or the log gives one entry per row, in order, with the row's
      own key, status and values. */
  lemma ReaderFinds(table: Table, full: bool, k: nat)
    requires k < |table.rows| && forall row :: row in table.rows ==> Named(row.values)
    ensures
      var entries := ReadFrom([], Block(table, full));
      |entries| == |table.rows| && ShowsRow(entries[k], table, full, table.rows[k])
  {
    BlockIsLossless(table, full);
    EntryShows(table, full, table.rows[k]);
  }

  /** A line that starts no row has blank key cells under the same names. */
  lemma ContinuationsAreBlank(table: Table, full: bool, line: Line)
    requires line in Block(table, full) && line.status == ""
    ensures forall cell :: cell in line.key ==> cell.text == ""
    ensures exists row :: row in table.rows && Mapped(line.key, NameIn()) == Mapped(KeyOf(table, row), NameIn())
  {
    var made := Lines(table, full, WithValues(table, full));
    FlatMember(table.rows, made, line);
    var row :| row in table.rows && line in made(row);
    BlankInRow(table, full, WithValues(table, full), row, line);
  }

  function NameIn(): Cell -> string {
    (cell: Cell) => cell.name
  }

  lemma BlankInRow(table: Table, full: bool, withValues: bool, row: Row, line: Line)
    requires line in Lines(table, full, withValues)(row) && line.status == ""
    ensures line.key == Mapped(KeyOf(table, row), BlankCell())
    ensures forall cell :: cell in line.key ==> cell.text == ""
    ensures Mapped(line.key, NameIn()) == Mapped(KeyOf(table, row), NameIn())
  {
    var lines := Lines(table, full, withValues)(row);
    var i :| 0 <= i < |lines| && lines[i] == line;
    assert |"MISSING"| == 7 && |"EXTRA"| == 5 && |"CHANGED"| == 7;
    assert StatusText(row.status) != "";
    var values := Shown(table, full)(row);
    assert withValues && values != [] ==> line == LineAt(table, row, i, Some(values[i]));
    assert line.key == Mapped(KeyOf(table, row), BlankCell());
    assert forall j :: 0 <= j < |line.key| ==> line.key[j] == BlankCell()(KeyOf(table, row)[j]);
  }

  /** A block has value columns on every line or on none: on every one just when some row shows a
      value. */
  lemma ValueColumnsShown(table: Table, full: bool, line: Line)
    requires line in Block(table, full)
    ensures line.cells.Some? <==> exists row :: row in table.rows && Shown(table, full)(row) != []
  {
    var withValues := WithValues(table, full);
    FlatMember(table.rows, Lines(table, full, withValues), line);
    var row :| row in table.rows && line in Lines(table, full, withValues)(row);
    LineHasCells(table, full, withValues, row, line);
    SomeShown(table, full);
  }

  lemma SomeShown(table: Table, full: bool)
    ensures WithValues(table, full) <==> exists row :: row in table.rows && Shown(table, full)(row) != []
  {
    if r :| r in table.rows && Shown(table, full)(r) != [] {
      var k :| 0 <= k < |table.rows| && table.rows[k] == r;
    }
  }

  lemma LineHasCells(table: Table, full: bool, withValues: bool, row: Row, line: Line)
    requires line in Lines(table, full, withValues)(row)
    ensures line.cells.Some? <==> withValues
  {
    var lines, values := Lines(table, full, withValues)(row), Shown(table, full)(row);
    var i :| 0 <= i < |lines| && lines[i] == line;
    assert withValues && values != [] ==> line == LineAt(table, row, i, Some(values[i]));
  }

  // ----- how long the block is

  function Height(table: Table, full: bool): Row -> nat {
    (row: Row) => if Shown(table, full)(row) == [] then 1 else |Shown(table, full)(row)|
  }

  lemma {:induction false} LinesAddUp(table: Table, full: bool, rows: seq<Row>)
    ensures |Flat(rows, Lines(table, full, true))| == SumOver(rows, Height(table, full))
    ensures |Flat(rows, Lines(table, full, false))| == |rows|
  {
    if rows != [] {
      LinesAddUp(table, full, rows[..|rows| - 1]);
    }
  }

  /** A line per shown value, at least one per row; without any values one per row. */
  lemma BlockHeight(table: Table, full: bool)
    ensures |Block(table, full)| ==
      if WithValues(table, full) then SumOver(table.rows, Height(table, full)) else |table.rows|
  {
    LinesAddUp(table, full, table.rows);
  }
}
