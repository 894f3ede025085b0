/**
 The line a data block prints.  A block has its key columns under labels, a status, and, when it
 lists values, the columns `column_name`, `source` and `target` under headers of their own.
 */
module PrintedBlocks {
  import opened Prelude
  import opened Grouping
  import opened ColumnFitter
  import opened DiffTables
  import opened PrintedTables

  // ----- measuring a line

  lemma {:induction false} SumOn(a: seq<string>, b: seq<string>, w: Widths)
    requires forall c :: c in a + b ==> c in w
    ensures (forall c :: c in a ==> c in w) && (forall c :: c in b ==> c in w)
    ensures Sum(a + b, w) == Sum(a, w) + Sum(b, w)
  {
    assert forall c :: c in a + b <==> c in a || c in b;
    if b == [] {
      assert a + b == a;
    } else {
      assert (a + b)[..|a + b| - 1] == a + b[..|b| - 1];
      SumOn(a, b[..|b| - 1], w);
    }
  }

  lemma {:induction false} SumOfTens(columns: seq<string>, w: Widths)
    requires forall c :: c in columns ==> c in w
    ensures (forall c :: c in columns ==> w[c] <= 10) ==> Sum(columns, w) <= 10 * |columns|
    ensures (forall c :: c in columns ==> w[c] >= 10) ==> Sum(columns, w) >= 10 * |columns|
  {
    if columns != [] {
      assert columns == columns[..|columns| - 1] + [Last(columns)];
      SumOfTens(columns[..|columns| - 1], w);
    }
  }

  lemma SumOne(c: string, w: Widths)
    requires c in w
    ensures Sum([c], w) == w[c]
  {
    assert [c][..0] == [];
  }

  // ----- the data block

  predicate IsKey(c: string) {
    c != "status" && c != "column_name" && c != "source" && c != "target"
  }

  const VALUE_COLUMNS := ["column_name", "source", "target"]

  /** The columns of a block and the labels of its keys; a table without a key names its rows in
      one column that has no label. */
  ghost predicate IsBlock(keys: seq<string>, labels: map<string, string>) {
    && Distinct(keys) && (forall k :: k in keys ==> IsKey(k))
    && (forall c :: c in labels ==> c in keys)
    && (forall k :: k in keys && k !in labels ==> |k| <= LAST_FLOOR)
  }

  function BlockColumns(keys: seq<string>, withValues: bool): seq<string> {
    keys + ["status"] + (if withValues then VALUE_COLUMNS else [])
  }

  lemma ValueColumns()
    ensures Distinct(VALUE_COLUMNS) && Distinct(VALUES)
    ensures forall c :: c in VALUE_COLUMNS <==> c == "column_name" || c == "source" || c == "target"
    ensures forall c :: c in VALUES <==> c == "source" || c == "target"
  {
    assert "source"[0] == 's' && "target"[0] == 't' && "column_name"[0] == 'c' && "status"[1] == 't';
    assert VALUE_COLUMNS == ["column_name", "source", "target"] && VALUES == ["source", "target"];
  }

  lemma ColumnsOfBlock(keys: seq<string>, withValues: bool)
    requires Distinct(keys) && forall k :: k in keys ==> IsKey(k)
    ensures Distinct(BlockColumns(keys, withValues))
    ensures forall c ::
      c in BlockColumns(keys, withValues) <==> c in keys || c == "status" || (withValues && c in VALUE_COLUMNS)
  {
    var values: seq<string> := if withValues then VALUE_COLUMNS else [];
    ValueColumns();
    DistinctOn(keys, ["status"]);
    assert "status"[1] == 't' && "source"[1] == 'o' && "target"[0] == 't' && "column_name"[0] == 'c';
    DistinctOn(keys + ["status"], values);
  }

  /** The phases of a block, its last one listing the column name after all else that can give. */
  function BlockPhases(keys: seq<string>, withValues: bool): seq<Phase> {
    var values, names := if withValues then VALUES else [], keys + (if withValues then ["column_name"] else []);
    [Phase(values, DATA_MIN_CELL), Phase(names, DATA_MIN_CELL), Phase(values + names, LAST_FLOOR)]
  }

  lemma PhasesOfBlock(keys: seq<string>, withValues: bool)
    requires Distinct(keys) && forall k :: k in keys ==> IsKey(k)
    ensures DataPhases(BlockColumns(keys, withValues)) == BlockPhases(keys, withValues)
  {
    var columns := BlockColumns(keys, withValues);
    var values: seq<string> := if withValues then VALUES else [];
    ColumnsOfBlock(keys, withValues);
    ValueColumns();
    if withValues {
      FilterAll(VALUES, c => c in columns);
    } else {
      FilterNone(VALUES, c => c in columns);
    }
    assert Filter(VALUES, c => c in columns) == values;
    var isName := (c: string) => c !in values && c != "status";
    NamesOfBlock(keys, withValues, values, isName);
    FilterSame(columns, isName, c => c !in values && c != "status");
  }

  lemma NamesOfBlock(keys: seq<string>, withValues: bool, values: seq<string>, isName: string -> bool)
    requires forall k :: k in keys ==> IsKey(k)
    requires values == if withValues then VALUES else []
    requires forall c :: isName(c) <==> c !in values && c != "status"
    ensures Filter(BlockColumns(keys, withValues), isName) == keys + (if withValues then ["column_name"] else [])
  {
    NamesBefore(keys, values, isName);
    if withValues {
      FilterOn(keys + ["status"], VALUE_COLUMNS, isName);
      NamesAfter(isName);
    } else {
      assert BlockColumns(keys, withValues) == keys + ["status"];
    }
  }

  lemma NamesBefore(keys: seq<string>, values: seq<string>, isName: string -> bool)
    requires (forall k :: k in keys ==> IsKey(k)) && (values == VALUES || values == [])
    requires forall c :: isName(c) <==> c !in values && c != "status"
    ensures Filter(keys + ["status"], isName) == keys
  {
    ValueColumns();
    FilterOn(keys, ["status"], isName);
    FilterAll(keys, isName);
    FilterNone(["status"], isName);
  }

  lemma NamesAfter(isName: string -> bool)
    requires forall c :: isName(c) <==> c !in VALUES && c != "status"
    ensures Filter(VALUE_COLUMNS, isName) == ["column_name"]
  {
    ValueColumns();
    assert VALUE_COLUMNS == ["column_name"] + ["source", "target"] && "column_name"[0] != 's';
    FilterOn(["column_name"], ["source", "target"], isName);
    FilterAll(["column_name"], isName);
    FilterNone(["source", "target"], isName);
  }

  /** Eleven characters for the column name, which is its header, and at most ten for everything
      else that can give. */
  function BlockBrim(natural: Widths): Widths {
    map c | c in natural ::
      if c == "status" then natural[c] else if c == "column_name" then Min(natural[c], 11) else Min(natural[c], 10)
  }

  lemma {:induction false} RankLast(front: seq<string>, x: string)
    requires x !in front
    ensures Rank(front + [x], x) == |front|
  {
    if front != [] {
      assert (front + [x])[1..] == front[1..] + [x];
      RankLast(front[1..], x);
    }
  }

  function LastCandidates(keys: seq<string>): seq<string> {
    VALUES + (keys + ["column_name"])
  }

  lemma BrimOfBlock(keys: seq<string>, natural: Widths)
    requires Distinct(keys) && (forall k :: k in keys ==> IsKey(k))
    requires forall c :: c in natural <==> c in BlockColumns(keys, true)
    ensures Brim(natural, LastCandidates(keys), "column_name", 11) == BlockBrim(natural)
  {
    var C := LastCandidates(keys);
    ValueColumns();
    ColumnsOfBlock(keys, true);
    assert C == VALUES + keys + ["column_name"];
    RankLast(VALUES + keys, "column_name");
    forall c | c in natural ensures Brim(natural, C, "column_name", 11)[c] == BlockBrim(natural)[c] {
      assert c in C <==> c != "status";
      if c in C && c != "column_name" {
        assert Rank(C, c) < |C| - 1;
      }
    }
  }

  /** Three phases as a block has them: the last candidate breaks first if its header is the
      one longest. */
  lemma LastBreaks(base: Widths, values: seq<string>, names: seq<string>, b: string, headers: Widths)
    requires b in base && b in headers && LAST_FLOOR < headers[b] <= DATA_MIN_CELL
    requires forall c :: c in headers && c in base ==> headers[c] <= base[c]
    requires forall c :: c in headers && c in base && (c in values || c in names) ==> c == b || headers[c] < headers[b]
    ensures
      var phases := [Phase(values, DATA_MIN_CELL), Phase(names + [b], DATA_MIN_CELL),
        Phase(values + (names + [b]), LAST_FLOOR)];
      FirstToBreak(base, phases, headers, b)
  {
    var phases := [Phase(values, DATA_MIN_CELL), Phase(names + [b], DATA_MIN_CELL),
      Phase(values + (names + [b]), LAST_FLOOR)];
    assert Front(phases) == [phases[0], phases[1]];
  }

  lemma HeaderLength(keys: seq<string>, labels: map<string, string>, c: string)
    requires IsBlock(keys, labels) && c !in labels && (c in VALUES || c in keys)
    ensures |c| < |"column_name"| == 11
  {
    ValueColumns();
  }

  lemma ColumnNameHeader(keys: seq<string>, rows: seq<Row>, labels: map<string, string>, base: Widths, headers: Widths)
    requires IsBlock(keys, labels)
    requires base == NaturalWidths(BlockColumns(keys, true), rows, labels)
    requires headers == Untrimmed(BlockColumns(keys, true), labels)
    ensures "column_name" in base && "column_name" in headers && headers["column_name"] == 11 <= base["column_name"]
  {
    ValueColumns();
    ColumnsOfBlock(keys, true);
    assert |"column_name"| == 11;
  }

  lemma BlockBreaks(keys: seq<string>, rows: seq<Row>, labels: map<string, string>, base: Widths, headers: Widths)
    requires IsBlock(keys, labels)
    requires base == NaturalWidths(BlockColumns(keys, true), rows, labels)
    requires headers == Untrimmed(BlockColumns(keys, true), labels)
    ensures FirstToBreak(base, BlockPhases(keys, true), headers, "column_name") && headers["column_name"] == 11
  {
    var name := "column_name";
    ColumnNameHeader(keys, rows, labels, base, headers);
    HeaderLengths(keys, rows, labels, base, headers);
    LastBreaks(base, VALUES, keys, name, headers);
  }

  lemma HeaderLengths(keys: seq<string>, rows: seq<Row>, labels: map<string, string>, base: Widths, headers: Widths)
    requires IsBlock(keys, labels)
    requires base == NaturalWidths(BlockColumns(keys, true), rows, labels)
    requires headers == Untrimmed(BlockColumns(keys, true), labels)
    ensures forall c :: c in headers && c in base ==> headers[c] <= base[c]
    ensures forall c :: c in headers && (c in VALUES || c in keys) ==> headers[c] < 11
  {
    forall c | c in headers && (c in VALUES || c in keys) ensures headers[c] < 11 {
      HeaderLength(keys, labels, c);
    }
  }

  /** The line a block prints, keys and all. */
  ghost function BlockLine(keys: seq<string>, withValues: bool, rows: seq<Row>, labels: map<string, string>): nat
    requires IsBlock(keys, labels)
  {
    ColumnsOfBlock(keys, withValues);
    var columns := BlockColumns(keys, withValues);
    var widths := DataWidths(columns, rows, labels);
    PrintedLine(columns, FitRows(columns, rows, widths), TrimLabels(labels, widths))
  }

  lemma BlockDrawn(keys: seq<string>, withValues: bool, rows: seq<Row>, labels: map<string, string>, r: Widths)
    requires IsBlock(keys, labels) && Distinct(BlockColumns(keys, withValues))
    requires r == DataWidths(BlockColumns(keys, withValues), rows, labels)
    requires Cut(BlockColumns(keys, withValues), NaturalWidths(BlockColumns(keys, withValues), rows, labels), r)
    ensures BlockLine(keys, withValues, rows, labels)
         == LineWidth(BlockColumns(keys, withValues), Printed(r, Untrimmed(BlockColumns(keys, withValues), labels)))
  {
    LineDrawn(BlockColumns(keys, withValues), rows, labels, r);
  }

  lemma DataCut(columns: seq<string>, rows: seq<Row>, labels: map<string, string>, natural: Widths, phases: seq<Phase>)
    requires Distinct(columns) && natural == NaturalWidths(columns, rows, labels) && phases == DataPhases(columns)
    ensures DataWidths(columns, rows, labels) == Outcome(columns, natural, phases)
    ensures Cut(columns, natural, DataWidths(columns, rows, labels))
  {
    assert phases == [phases[0], phases[1], phases[2]];
    OutcomeCut(columns, natural, phases);
  }

  lemma BlockWidths(
    keys: seq<string>, withValues: bool, rows: seq<Row>, labels: map<string, string>, columns: seq<string>,
    natural: Widths)
    requires IsBlock(keys, labels) && columns == BlockColumns(keys, withValues)
    requires natural == NaturalWidths(columns, rows, labels)
    ensures Distinct(columns) && Table(columns, natural)
    ensures DataWidths(columns, rows, labels) == Outcome(columns, natural, BlockPhases(keys, withValues))
    ensures Cut(columns, natural, DataWidths(columns, rows, labels))
  {
    ColumnsOfBlock(keys, withValues);
    PhasesOfBlock(keys, withValues);
    DataCut(columns, rows, labels, natural, BlockPhases(keys, withValues));
  }

  /** A block that lists values prints within the line exactly when it would with its status as
      it is, its column name at eleven and everything else at ten or less; and one that had to
      be trimmed and can be prints at exactly the line. */
  lemma BlockPrints(keys: seq<string>, rows: seq<Row>, labels: map<string, string>)
    requires IsBlock(keys, labels)
    ensures
      var columns := BlockColumns(keys, true);
      var natural := NaturalWidths(columns, rows, labels);
      var brim, printed := LineWidth(columns, BlockBrim(natural)), BlockLine(keys, true, rows, labels);
      && (printed <= MAX_LINE <==> brim <= MAX_LINE)
      && (LineWidth(columns, natural) > MAX_LINE >= brim ==> printed == MAX_LINE)
  {
    var columns := BlockColumns(keys, true);
    var natural, headers := NaturalWidths(columns, rows, labels), Untrimmed(columns, labels);
    BlockWidths(keys, true, rows, labels, columns, natural);
    var r := DataWidths(columns, rows, labels);
    BlockDrawn(keys, true, rows, labels, r);
    BlockBreaks(keys, rows, labels, natural, headers);
    BrimOfBlock(keys, natural);
    PrintsWithin(columns, natural, BlockPhases(keys, true), headers, "column_name", r);
  }

  lemma KeyHeaders(keys: seq<string>, rows: seq<Row>, labels: map<string, string>, columns: seq<string>, c: string)
    requires IsBlock(keys, labels) && columns == BlockColumns(keys, false)
    requires c in Untrimmed(columns, labels) && Flexible(BlockPhases(keys, false), c)
    ensures |c| <= LAST_FLOOR
  {
    assert c in keys;
  }

  lemma KeysAsFitted(
    keys: seq<string>, rows: seq<Row>, labels: map<string, string>, columns: seq<string>, natural: Widths,
    headers: Widths)
    requires IsBlock(keys, labels) && columns == BlockColumns(keys, false) && Table(columns, natural)
    requires natural == NaturalWidths(columns, rows, labels) && headers == Untrimmed(columns, labels)
    ensures
      var r := Outcome(columns, natural, BlockPhases(keys, false));
      Printed(r, headers) == r
  {
    var phases := BlockPhases(keys, false);
    forall c | c in headers && c in natural
      ensures headers[c] <= natural[c] && (Flexible(phases, c) ==> headers[c] <= LAST_FLOOR)
    {
      if Flexible(phases, c) { KeyHeaders(keys, rows, labels, columns, c); }
    }
    PrintsAsFitted(columns, natural, phases, headers);
  }

  /** A block of keys and statuses alone prints as it is fitted, so it keeps to the line exactly
      when it would with every key cut to four characters. */
  lemma KeysPrint(keys: seq<string>, rows: seq<Row>, labels: map<string, string>)
    requires IsBlock(keys, labels)
    ensures
      var columns := BlockColumns(keys, false);
      && Distinct(columns)
      && BlockLine(keys, false, rows, labels) == LineWidth(columns, DataWidths(columns, rows, labels))
      && (BlockLine(keys, false, rows, labels) <= MAX_LINE
          <==> LineWidth(columns, SqueezedData(columns, rows, labels)) <= MAX_LINE)
  {
    var columns := BlockColumns(keys, false);
    var natural := NaturalWidths(columns, rows, labels);
    BlockWidths(keys, false, rows, labels, columns, natural);
    BlockDrawn(keys, false, rows, labels, DataWidths(columns, rows, labels));
    KeysAsFitted(keys, rows, labels, columns, natural, Untrimmed(columns, labels));
    DataFits(columns, rows, labels);
  }

  // ----- how many keys a block can have

  lemma SumSnoc(front: seq<string>, c: string, w: Widths)
    requires c in w && forall d :: d in front ==> d in w
    ensures Sum(front + [c], w) == Sum(front, w) + w[c]
  {
    SumOn(front, [c], w);
    SumOne(c, w);
  }

  /** A line of some columns and four more. */
  lemma FourMore(front: seq<string>, c: string, d: string, e: string, f: string, w: Widths)
    requires c in w && d in w && e in w && f in w && forall k :: k in front ==> k in w
    ensures forall k :: k in front + [c] + [d, e, f] ==> k in w
    ensures LineWidth(front + [c] + [d, e, f], w) == 11 + 3 * |front| + Sum(front, w) + w[c] + w[d] + w[e] + w[f]
  {
    SumSnoc(front, c, w);
    SumSnoc(front + [c], d, w);
    SumSnoc(front + [c] + [d], e, w);
    SumSnoc(front + [c] + [d] + [e], f, w);
    assert front + [c] + [d, e, f] == front + [c] + [d] + [e] + [f];
  }

  /** What stands at the brim of a block. */
  lemma BlockAtBrim(keys: seq<string>, natural: Widths, brim: Widths)
    requires Distinct(keys) && (forall k :: k in keys ==> IsKey(k)) && brim == BlockBrim(natural)
    requires forall c :: c in natural <==> c in BlockColumns(keys, true)
    ensures (forall k :: k in keys ==> k in brim && k in natural && brim[k] == Min(natural[k], 10))
    ensures "status" in brim && "column_name" in brim && "source" in brim && "target" in brim
      && brim.Keys == natural.Keys
    ensures brim["status"] == natural["status"] && brim["column_name"] == Min(natural["column_name"], 11)
    ensures brim["source"] == Min(natural["source"], 10) && brim["target"] == Min(natural["target"], 10)
  {
    ColumnsOfBlock(keys, true);
    ValueColumns();
  }

  lemma BlockBrimLine(keys: seq<string>, natural: Widths, brim: Widths)
    requires Distinct(keys) && (forall k :: k in keys ==> IsKey(k)) && brim == BlockBrim(natural)
    requires forall c :: c in natural <==> c in BlockColumns(keys, true)
    ensures (forall c :: c in BlockColumns(keys, true) ==> c in brim) && (forall k :: k in keys ==> k in brim)
    ensures "status" in brim && "column_name" in brim && "source" in brim && "target" in brim
    ensures LineWidth(BlockColumns(keys, true), brim)
         == 11 + 3 * |keys| + Sum(keys, brim) + brim["status"] + brim["column_name"] + brim["source"] + brim["target"]
  {
    BlockAtBrim(keys, natural, brim);
    FourMore(keys, "status", "column_name", "source", "target", brim);
  }

  /** A block's brim by its number of keys. */
  lemma BrimByKeys(keys: seq<string>, natural: Widths, brim: Widths)
    requires Distinct(keys) && (forall k :: k in keys ==> IsKey(k)) && brim == BlockBrim(natural)
    requires (forall c :: c in natural <==> c in BlockColumns(keys, true))
      && (forall c :: c in natural && c !in keys ==> natural[c] >= |c|)
    ensures "status" in natural && "source" in natural && "target" in natural && forall k :: k in keys ==> k in natural
    ensures LineWidth(BlockColumns(keys, true), brim) <= 42 + 13 * |keys| + natural["status"]
    ensures natural["source"] >= 10 && natural["target"] >= 10 && (forall k :: k in keys ==> natural[k] >= 10) ==>
      LineWidth(BlockColumns(keys, true), brim) >= 42 + 13 * |keys| + natural["status"]
    ensures natural["status"] >= 6
  {
    BlockAtBrim(keys, natural, brim);
    BlockBrimLine(keys, natural, brim);
    SumOfTens(keys, brim);
    assert |"column_name"| == 11 && |"status"| == 6 && !IsKey("column_name") && !IsKey("status");
  }

  /** With one key column or two every block keeps to the line, whatever its names and values. */
  lemma TwoKeysPrint(keys: seq<string>, rows: seq<Row>, labels: map<string, string>)
    requires IsBlock(keys, labels) && |keys| <= 2
    requires var natural := NaturalWidths(BlockColumns(keys, true), rows, labels);
      "status" in natural ==> natural["status"] <= 7
    ensures BlockLine(keys, true, rows, labels) <= MAX_LINE
  {
    var natural := NaturalWidths(BlockColumns(keys, true), rows, labels);
    BrimByKeys(keys, natural, BlockBrim(natural));
    BlockPrints(keys, rows, labels);
  }

  /** With three or more, no block does whose keys and values all need ten characters. */
  lemma ThreeKeysTooMany(keys: seq<string>, rows: seq<Row>, labels: map<string, string>)
    requires IsBlock(keys, labels) && |keys| >= 3
    requires var natural := NaturalWidths(BlockColumns(keys, true), rows, labels);
      forall c :: c in natural && (c in keys || c in VALUES) ==> natural[c] >= 10
    ensures BlockLine(keys, true, rows, labels) > MAX_LINE
  {
    var natural := NaturalWidths(BlockColumns(keys, true), rows, labels);
    ValueColumns();
    BrimByKeys(keys, natural, BlockBrim(natural));
    BlockPrints(keys, rows, labels);
  }

  lemma {:induction false} SumAtLeast(columns: seq<string>, w: Widths, low: nat)
    requires forall c :: c in columns ==> c in w && w[c] >= low
    ensures Sum(columns, w) >= low * |columns|
  {
    if columns != [] {
      assert columns == columns[..|columns| - 1] + [Last(columns)];
      SumAtLeast(columns[..|columns| - 1], w, low);
    }
  }

  /** While the column name has nine characters nothing else is below eight. */
  lemma NothingBelow(base: Widths, r: Widths, last: Phase, d: string)
    requires Fitted(base, r, last, 11) && d in base && d in last.candidates && base[d] >= 10
    requires "column_name" in base && "column_name" in last.candidates && r["column_name"] >= 9
    ensures r[d] >= 8
  {
    assert r[d] < Min(base[d], 11) ==> r["column_name"] <= r[d] + 1;
  }

  lemma WideBlock(keys: seq<string>, base: Widths, r: Widths, last: Phase)
    requires Distinct(keys) && (forall k :: k in keys ==> IsKey(k)) && last.candidates == LastCandidates(keys)
    requires Fitted(base, r, last, 11) && Table(BlockColumns(keys, true), base)
    requires "source" in base && "target" in base && base["source"] >= 10 && base["target"] >= 10
    requires forall k :: k in keys ==> k in base && base[k] >= 10
    requires "status" in base && "column_name" in base && r["column_name"] >= 9
    ensures Table(BlockColumns(keys, true), r)
    ensures LineWidth(BlockColumns(keys, true), r) >= 36 + 11 * |keys| + r["status"]
  {
    ValueColumns();
    assert "source" in VALUES && "target" in VALUES;
    forall k | k in keys ensures r[k] >= 8 { NothingBelow(base, r, last, k); }
    NothingBelow(base, r, last, "source");
    NothingBelow(base, r, last, "target");
    SumAtLeast(keys, r, 8);
    FourMore(keys, "status", "column_name", "source", "target", r);
  }

  lemma {:induction false} SumGap(columns: seq<string>, a: Widths, b: Widths, c: string)
    requires Table(columns, a) && Table(columns, b) && c in columns && forall d :: d in columns ==> a[d] <= b[d]
    ensures Sum(columns, b) >= Sum(columns, a) + b[c] - a[c]
  {
    var raised := a[c := b[c]];
    SumMono(columns, raised, b);
    SumRaised(columns, a, c, b[c]);
  }

  lemma {:induction false} SumRaised(columns: seq<string>, a: Widths, c: string, x: nat)
    requires (forall d :: d in columns ==> d in a) && c in a && x >= a[c]
    ensures forall d :: d in columns ==> d in a[c := x]
    ensures Sum(columns, a[c := x]) >= Sum(columns, a) + if c in columns then x - a[c] else 0
  {
    if columns != [] {
      assert columns == columns[..|columns| - 1] + [Last(columns)];
      SumRaised(columns[..|columns| - 1], a, c, x);
    }
  }

  /** A block trimmed until its column name has eight characters prints three over the line. */
  lemma NarrowBlock(columns: seq<string>, r: Widths, headers: Widths)
    requires Table(columns, r) && "column_name" in columns && "column_name" in headers && headers["column_name"] == 11
    requires r["column_name"] <= 8 && LineWidth(columns, r) >= MAX_LINE
    ensures LineWidth(columns, Printed(r, headers)) >= MAX_LINE + 3
  {
    SumGap(columns, r, Printed(r, headers), "column_name");
  }

  lemma OutcomeFull(columns: seq<string>, base: Widths, phases: seq<Phase>)
    requires Table(columns, base) && LineWidth(columns, base) >= MAX_LINE
    ensures LineWidth(columns, Outcome(columns, base, phases)) >= MAX_LINE
  {
    PourAtTop(columns, base, phases);
    AllocateExact(columns, base, phases, Top(columns, base, phases), MAX_LINE);
  }

  lemma FourKeysBurst(keys: seq<string>, base: Widths, headers: Widths, last: Phase, r: Widths)
    requires Distinct(keys) && (forall k :: k in keys ==> IsKey(k)) && |keys| >= 4
    requires last.candidates == LastCandidates(keys)
    requires Table(BlockColumns(keys, true), base) && Table(BlockColumns(keys, true), r) && Fitted(base, r, last, 11)
    requires forall c :: c in base && (c in keys || c in VALUES) ==> base[c] >= 10
    requires "status" in base && base["status"] >= 6 && "column_name" in base && base["column_name"] >= 11
    requires "column_name" in headers && headers["column_name"] == 11
    requires LineWidth(BlockColumns(keys, true), base) < MAX_LINE ==> r == base
    requires LineWidth(BlockColumns(keys, true), base) >= MAX_LINE ==>
      LineWidth(BlockColumns(keys, true), r) >= MAX_LINE
    ensures LineWidth(BlockColumns(keys, true), Printed(r, headers)) > 80
  {
    var columns := BlockColumns(keys, true);
    ColumnsOfBlock(keys, true);
    ValueColumns();
    assert r["status"] == base["status"];
    if r["column_name"] >= 9 {
      WideBlock(keys, base, r, last);
      SumMono(columns, r, Printed(r, headers));
    } else {
      NarrowBlock(columns, r, headers);
    }
  }

  /** How a block is fitted: full if it had to be trimmed, and its columns in order. */
  lemma BlockFitted(keys: seq<string>, rows: seq<Row>, labels: map<string, string>, base: Widths, r: Widths)
    requires IsBlock(keys, labels) && base == NaturalWidths(BlockColumns(keys, true), rows, labels)
    requires r == Outcome(BlockColumns(keys, true), base, BlockPhases(keys, true))
    requires Table(BlockColumns(keys, true), base)
    ensures Fitted(base, r, Last(BlockPhases(keys, true)), 11)
    ensures LineWidth(BlockColumns(keys, true), base) >= MAX_LINE ==> LineWidth(BlockColumns(keys, true), r) >= MAX_LINE
    ensures LineWidth(BlockColumns(keys, true), base) < MAX_LINE ==> r == base
  {
    var columns, phases := BlockColumns(keys, true), BlockPhases(keys, true);
    var headers := Untrimmed(columns, labels);
    BlockBreaks(keys, rows, labels, base, headers);
    OutcomeFitted(columns, base, phases, headers, "column_name");
    OutcomeFits(columns, base, phases);
    if LineWidth(columns, base) >= MAX_LINE { OutcomeFull(columns, base, phases); }
  }

  lemma BlockHeaders(keys: seq<string>, rows: seq<Row>, labels: map<string, string>, base: Widths, headers: Widths)
    requires IsBlock(keys, labels)
    requires base == NaturalWidths(BlockColumns(keys, true), rows, labels)
    requires headers == Untrimmed(BlockColumns(keys, true), labels)
    ensures "status" in base && base["status"] >= 6 && "column_name" in base && base["column_name"] >= 11
    ensures "column_name" in headers && headers["column_name"] == 11
  {
    ColumnsOfBlock(keys, true);
    ColumnNameHeader(keys, rows, labels, base, headers);
    assert |"status"| == 6 && !IsKey("status");
  }

  /** With four or more not even a screen of eighty columns holds such a block. */
  lemma FourKeysTooMany(keys: seq<string>, rows: seq<Row>, labels: map<string, string>)
    requires IsBlock(keys, labels) && |keys| >= 4
    requires var natural := NaturalWidths(BlockColumns(keys, true), rows, labels);
      forall c :: c in natural && (c in keys || c in VALUES) ==> natural[c] >= 10
    ensures BlockLine(keys, true, rows, labels) > 80
  {
    var columns := BlockColumns(keys, true);
    var base, headers := NaturalWidths(columns, rows, labels), Untrimmed(columns, labels);
    BlockWidths(keys, true, rows, labels, columns, base);
    var r := DataWidths(columns, rows, labels);
    BlockDrawn(keys, true, rows, labels, r);
    BlockFitted(keys, rows, labels, base, r);
    BlockHeaders(keys, rows, labels, base, headers);
    FourKeysBurst(keys, base, headers, Last(BlockPhases(keys, true)), r);
  }

  lemma {:induction false} SumOfFours(columns: seq<string>, w: Widths)
    requires forall c :: c in columns ==> c in w && w[c] <= LAST_FLOOR
    ensures Sum(columns, w) <= 4 * |columns|
  {
    if columns != [] {
      assert columns == columns[..|columns| - 1] + [Last(columns)];
      SumOfFours(columns[..|columns| - 1], w);
    }
  }

  lemma SqueezedKeys(keys: seq<string>, rows: seq<Row>, labels: map<string, string>, squeezed: Widths)
    requires IsBlock(keys, labels) && squeezed == SqueezedData(BlockColumns(keys, false), rows, labels)
    ensures "status" in squeezed
    ensures squeezed["status"] == NaturalWidths(BlockColumns(keys, false), rows, labels)["status"]
    ensures forall k :: k in keys ==> k in squeezed && squeezed[k] <= LAST_FLOOR
  {
    ColumnsOfBlock(keys, false);
  }

  /** Without values nine key columns leave room. */
  lemma NineKeysPrint(keys: seq<string>, rows: seq<Row>, labels: map<string, string>)
    requires IsBlock(keys, labels) && |keys| <= 9
    requires var natural := NaturalWidths(BlockColumns(keys, false), rows, labels);
      "status" in natural ==> natural["status"] <= 7
    ensures BlockLine(keys, false, rows, labels) <= MAX_LINE
  {
    var squeezed := SqueezedData(BlockColumns(keys, false), rows, labels);
    SqueezedKeys(keys, rows, labels, squeezed);
    SumOfFours(keys, squeezed);
    SumSnoc(keys, "status", squeezed);
    assert BlockColumns(keys, false) == keys + ["status"];
    KeysPrint(keys, rows, labels);
  }
}
