/**
 The `diff -data` screen: the blocks of `DataBlock` fitted and printed.  Its documentation promises
 that every line fits the screen whatever the names of the tables are.
 */
module DataScreen {
  import opened Prelude
  import opened ColumnFitter
  import opened DiffTables
  import opened PrintedTables
  import opened PrintedBlocks
  import DataBlock

  // ----- the blocks of real tables

  /** A cell of a printed line, the last of two under one name. */
  function TextUnder(cells: seq<DataBlock.Cell>, name: string): Option<string> {
    if cells == [] then None
    else if Last(cells).name == name then Some(Last(cells).text)
    else TextUnder(cells[..|cells| - 1], name)
  }

  function NameOf(): DataBlock.Cell -> string {
    (cell: DataBlock.Cell) => cell.name
  }

  /** A line of a block as the fitter gets it. */
  function RowOf(): DataBlock.Line -> Row {
    (line: DataBlock.Line) =>
      (map name | name in Mapped(line.key, NameOf()) :: TextUnder(line.key, name))
      + map["status" := Some(line.status)]
      + (match line.cells
         case None => map[]
         case Some(c) => map["column_name" := Some(c.column), "source" := Some(c.source), "target" := Some(c.target)])
  }

  function BlockRows(table: DataBlock.Table): seq<Row> {
    Mapped(DataBlock.Block(table, false), RowOf())
  }

  function KeysOf(table: DataBlock.Table): seq<string>
    requires table.rows != []
  {
    Mapped(DataBlock.KeyOf(table, table.rows[0]), NameOf())
  }

  /** `_labels`. */
  function LabelsOf(table: DataBlock.Table): map<string, string>
    requires table.rows != []
  {
    map k | k in KeysOf(table) && |k| >= 4 && k[..4] == "key:" :: k[4..]
  }

  /** A key column's label is its name in the database; a column of another kind has none. */
  lemma LabelsAre(table: DataBlock.Table)
    requires table.rows != []
    ensures table.keyed ==> forall cell :: cell in table.rows[0].cells ==>
      "key:" + cell.name in LabelsOf(table) && LabelsOf(table)["key:" + cell.name] == cell.name
    ensures !table.keyed ==> LabelsOf(table) == map[]
  {
    var keys := KeysOf(table);
    if table.keyed {
      forall cell | cell in table.rows[0].cells
        ensures "key:" + cell.name in LabelsOf(table) && LabelsOf(table)["key:" + cell.name] == cell.name
      {
        var i :| 0 <= i < |table.rows[0].cells| && table.rows[0].cells[i] == cell;
        var key := "key:" + cell.name;
        assert keys[i] == key && key[..4] == "key:" && key[4..] == cell.name;
      }
    } else {
      assert keys == ["row"] && |"row"| == 3;
    }
  }

  lemma TableIsBlock(table: DataBlock.Table)
    requires table.rows != [] && Distinct(KeysOf(table))
    ensures IsBlock(KeysOf(table), LabelsOf(table))
    ensures table.keyed ==> forall cell :: cell in table.rows[0].cells ==>
      "key:" + cell.name in LabelsOf(table) && LabelsOf(table)["key:" + cell.name] == cell.name
    ensures !table.keyed ==> LabelsOf(table) == map[]
  {
    LabelsAre(table);
    forall k | k in KeysOf(table) ensures IsKey(k) && (k in LabelsOf(table) || |k| <= LAST_FLOOR) {
      var i :| 0 <= i < |KeysOf(table)| && KeysOf(table)[i] == k;
      if table.keyed {
        assert k == "key:" + table.rows[0].cells[i].name && k[..4] == "key:";
        assert k[0] == 'k' && "status"[0] == 's' && "column_name"[0] == 'c' && "source"[0] == 's' && "target"[0] == 't';
      } else {
        assert k == "row" && |"row"| == 3;
      }
    }
  }

  /** The line the screen prints for a table's block. */
  ghost function TableLine(table: DataBlock.Table): nat
    requires table.rows != [] && Distinct(KeysOf(table))
  {
    TableIsBlock(table);
    BlockLine(KeysOf(table), DataBlock.WithValues(table, false), BlockRows(table), LabelsOf(table))
  }

  lemma StatusIsShort(table: DataBlock.Table, line: DataBlock.Line)
    requires line in DataBlock.Block(table, false)
    ensures |line.status| <= 7
  {
    var made := DataBlock.Lines(table, false, DataBlock.WithValues(table, false));
    FlatMember(table.rows, made, line);
    var row :| row in table.rows && line in made(row);
    StatusInRow(table, DataBlock.WithValues(table, false), row, line);
  }

  lemma StatusInRow(table: DataBlock.Table, withValues: bool, row: DataBlock.Row, line: DataBlock.Line)
    requires line in DataBlock.Lines(table, false, withValues)(row)
    ensures |line.status| <= 7
  {
    var lines, values := DataBlock.Lines(table, false, withValues)(row), DataBlock.Shown(table, false)(row);
    var i :| 0 <= i < |lines| && lines[i] == line;
    assert withValues && values != [] ==> line == DataBlock.LineAt(table, row, i, Some(values[i]));
    assert line.status == DataBlock.StatusText(row.status) || line.status == "";
    assert |"MISSING"| == 7 && |"CHANGED"| == 7 && |"EXTRA"| == 5;
  }

  lemma StatusOfRow(line: DataBlock.Line)
    ensures CellOf(RowOf()(line), "status") == Some(line.status)
  {
    assert "status"[0] == 's' && "column_name"[0] == 'c' && "source"[1] == 'o' && "target"[0] == 't'
      && "status"[1] == 't';
  }

  lemma StatusFits(table: DataBlock.Table)
    ensures NaturalWidth(6, BlockRows(table), "status") <= 7
  {
    forall row | row in BlockRows(table) ensures |Text(CellOf(row, "status"))| <= 7 {
      var i :| 0 <= i < |BlockRows(table)| && BlockRows(table)[i] == row;
      var line := DataBlock.Block(table, false)[i];
      StatusIsShort(table, line);
      StatusOfRow(line);
    }
    NaturalAtMost(6, BlockRows(table), "status", 7);
  }

  /** The block of a table with one key column or two keeps to the line, whatever it holds. */
  lemma SmallKeysPrint(table: DataBlock.Table)
    requires table.rows != [] && Distinct(KeysOf(table)) && |KeysOf(table)| <= 2
    ensures TableLine(table) <= MAX_LINE
  {
    var keys, rows, labels := KeysOf(table), BlockRows(table), LabelsOf(table);
    TableIsBlock(table);
    StatusFits(table);
    assert |"status"| == 6;
    if DataBlock.WithValues(table, false) {
      TwoKeysPrint(keys, rows, labels);
    } else {
      NineKeysPrint(keys, rows, labels);
    }
  }

  /** A table without values to show has room for nine key columns. */
  lemma KeysAlonePrint(table: DataBlock.Table)
    requires table.rows != [] && Distinct(KeysOf(table)) && |KeysOf(table)| <= 9
    requires !DataBlock.WithValues(table, false)
    ensures TableLine(table) <= MAX_LINE
  {
    TableIsBlock(table);
    StatusFits(table);
    assert |"status"| == 6;
    NineKeysPrint(KeysOf(table), BlockRows(table), LabelsOf(table));
  }

  /** A table of one changed row that differs in one value. */
  ghost predicate OneChange(table: DataBlock.Table, row: DataBlock.Row, source: string, target: string) {
    && table == DataBlock.Table(true, [row]) && row.status == DataBlock.Changed
    && |row.values| == 1 && row.values[0].source == Some(source) && row.values[0].target == Some(target)
  }

  lemma ChangeLine(table: DataBlock.Table, row: DataBlock.Row, source: string, target: string)
    requires OneChange(table, row, source, target)
    ensures DataBlock.WithValues(table, false)
    ensures DataBlock.Block(table, false) == [DataBlock.LineAt(table, row, 0, Some(row.values[0]))]
  {
    assert DataBlock.Shown(table, false)(table.rows[0]) != [];
    assert [row][..0] == [];
    var made := DataBlock.Lines(table, false, true);
    assert Flat([row], made) == Flat([row][..0], made) + made(row);
  }

  lemma {:induction false} TextAt(cells: seq<DataBlock.Cell>, i: nat)
    requires i < |cells| && Distinct(Mapped(cells, NameOf()))
    ensures TextUnder(cells, cells[i].name) == Some(cells[i].text)
  {
    var names := Mapped(cells, NameOf());
    if i < |cells| - 1 {
      assert names[i] != names[|cells| - 1];
      assert Mapped(cells[..|cells| - 1], NameOf()) == names[..|cells| - 1];
      TextAt(cells[..|cells| - 1], i);
    }
  }

  /** Three key columns are too many when the keys and the values are ten characters long, and
      four are so for a screen of eighty columns. */
  lemma LongKeysOverflow(table: DataBlock.Table, row: DataBlock.Row, source: string, target: string)
    requires OneChange(table, row, source, target) && |source| >= 10 && |target| >= 10
    requires Distinct(KeysOf(table)) && |row.cells| >= 3 && forall cell :: cell in row.cells ==> |cell.text| >= 10
    ensures TableLine(table) > MAX_LINE && (|row.cells| >= 4 ==> TableLine(table) > 80)
  {
    var keys, rows, labels := KeysOf(table), BlockRows(table), LabelsOf(table);
    TableIsBlock(table);
    ChangeLine(table, row, source, target);
    var line := DataBlock.LineAt(table, row, 0, Some(row.values[0]));
    assert rows == [RowOf()(line)] && rows[0] in rows;
    forall c | c in keys || c in VALUES ensures |Text(CellOf(rows[0], c))| >= 10 {
      CellIsLong(table, row, source, target, line, c);
    }
    LongRowOverflows(keys, rows, labels, rows[0]);
  }

  lemma LongRowOverflows(keys: seq<string>, rows: seq<Row>, labels: map<string, string>, row: Row)
    requires IsBlock(keys, labels) && |keys| >= 3 && row in rows
    requires forall c :: c in keys || c in VALUES ==> |Text(CellOf(row, c))| >= 10
    ensures BlockLine(keys, true, rows, labels) > MAX_LINE
    ensures |keys| >= 4 ==> BlockLine(keys, true, rows, labels) > 80
  {
    ThreeKeysTooMany(keys, rows, labels);
    if |keys| >= 4 { FourKeysTooMany(keys, rows, labels); }
  }

  lemma KeyCell(line: DataBlock.Line, c: string)
    requires IsKey(c) && c in Mapped(line.key, NameOf()) && TextUnder(line.key, c).Some?
    ensures CellOf(RowOf()(line), c) == TextUnder(line.key, c)
  {
  }

  lemma ValueCell(line: DataBlock.Line, c: string)
    requires line.cells.Some? && (c in VALUES || c == "column_name")
    ensures CellOf(RowOf()(line), c) ==
      Some(if c == "column_name" then line.cells.value.column
           else if c == "source" then line.cells.value.source else line.cells.value.target)
  {
    ValueColumns();
  }

  lemma CellIsLong(
    table: DataBlock.Table, row: DataBlock.Row, source: string, target: string, line: DataBlock.Line, c: string)
    requires OneChange(table, row, source, target) && |source| >= 10 && |target| >= 10
    requires line == DataBlock.LineAt(table, row, 0, Some(row.values[0]))
    requires Distinct(KeysOf(table)) && forall cell :: cell in row.cells ==> |cell.text| >= 10
    requires c in KeysOf(table) || c in VALUES
    ensures |Text(CellOf(RowOf()(line), c))| >= 10
  {
    if c in KeysOf(table) {
      TableIsBlock(table);
      var i :| 0 <= i < |KeysOf(table)| && KeysOf(table)[i] == c;
      TextAt(line.key, i);
      assert row.cells[i] in row.cells;
      KeyCell(line, c);
    } else {
      ValueCell(line, c);
    }
  }

  /** A block that does not fit the screen the documentation has it fit: one changed price, under
      a key of four columns. */
  lemma FourKeysOverflow()
    ensures exists table: DataBlock.Table ::
      table.rows != [] && Distinct(KeysOf(table)) && |KeysOf(table)| == 4 && TableLine(table) > 80
  {
    var cells := [DataBlock.Cell("TENANT", "SUBSIDIARY"), DataBlock.Cell("REGION", "WEST-COAST"),
                  DataBlock.Cell("CATALOG", "2026-SPRING"), DataBlock.Cell("ITEM", "PENCIL-CASE")];
    var row := DataBlock.Row("", cells, DataBlock.Changed,
      [DataBlock.Value("PRICE", Some("1234567.90"), Some("1234568.90"))]);
    var table := DataBlock.Table(true, [row]);
    assert |"1234567.90"| == |"1234568.90"| == 10;
    assert |"SUBSIDIARY"| == |"WEST-COAST"| == 10 && |"2026-SPRING"| == |"PENCIL-CASE"| == 11;
    KeysOfFour(table, row);
    LongKeysOverflow(table, row, "1234567.90", "1234568.90");
  }

  lemma KeysOfFour(table: DataBlock.Table, row: DataBlock.Row)
    requires table == DataBlock.Table(true, [row]) && |row.cells| == 4
    requires row.cells[0].name == "TENANT" && row.cells[1].name == "REGION"
    requires row.cells[2].name == "CATALOG" && row.cells[3].name == "ITEM"
    ensures Distinct(KeysOf(table)) && |KeysOf(table)| == 4
  {
    var keys := KeysOf(table);
    assert keys[0][4] == 'T' && keys[1][4] == 'R' && keys[2][4] == 'C' && keys[3][4] == 'I';
  }
}
