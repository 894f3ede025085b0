/**
 The two table fitters of the `diff` screens, over the one allocator of ColumnFitter: the
 object listing with its tiers of flexible columns, and the data block whose values give
 way before its names and whose status never does.
 */
module DiffTables {
  import opened Prelude
  import opened ColumnFitter

  /** A cell prints its text; None prints nothing. */
  type Cell = Option<string>
  type Row = map<string, Cell>

  function Text(cell: Cell): string {
    match cell case None => "" case Some(text) => text
  }

  function CellOf(row: Row, column: string): Cell {
    if column in row then row[column] else Some("")
  }

  function Max(a: nat, b: nat): nat { if a >= b then a else b }

  /** The widest text of a column, its header included. */
  function NaturalWidth(header: nat, rows: seq<Row>, column: string): (w: nat)
    ensures w >= header
    ensures forall row :: row in rows ==> |Text(CellOf(row, column))| <= w
  {
    if rows == [] then header else
      Max(NaturalWidth(header, rows[..|rows| - 1], column), |Text(CellOf(Last(rows), column))|)
  }

  function NaturalWidths(columns: seq<string>, rows: seq<Row>, labels: map<string, string>): Widths {
    map c | c in columns :: NaturalWidth(if c in labels then |labels[c]| else |c|, rows, c)
  }

  function TrimCell(cell: Cell, width: nat): (r: Cell)
    ensures |Text(cell)| <= width ==> r == cell
    ensures width >= 3 ==> |Text(r)| == Min(|Text(cell)|, width)
    ensures |Text(cell)| > width >= 3 ==> Text(r) == Text(cell)[..width - 3] + "..."
  {
    if |Text(cell)| <= width then cell
    else Some(Text(cell)[..if width >= 3 then width - 3 else 0] + "...")
  }

  function FitRows(columns: seq<string>, rows: seq<Row>, widths: Widths): seq<Row>
    requires forall c :: c in columns ==> c in widths
  {
    seq(|rows|, i requires 0 <= i < |rows| => map c | c in columns :: TrimCell(CellOf(rows[i], c), widths[c]))
  }

  /** A fitted cell is the row's own if it is no longer than its column, and otherwise its start
      and an ellipsis. */
  lemma FitRowsIs(columns: seq<string>, rows: seq<Row>, widths: Widths, c: string, i: nat)
    requires (forall d :: d in columns ==> d in widths) && c in columns && i < |rows| && widths[c] >= 3
    ensures
      var text := if c in rows[i] then Text(rows[i][c]) else "";
      && |FitRows(columns, rows, widths)| == |rows| && c in FitRows(columns, rows, widths)[i]
      && Text(FitRows(columns, rows, widths)[i][c])
         == if |text| <= widths[c] then text else text[..widths[c] - 3] + "..."
  {
  }

  // ----- the object listing

  function Concat(tiers: seq<seq<string>>): seq<string> {
    if tiers == [] then [] else tiers[0] + Concat(tiers[1..])
  }

  function TierPhases(tiers: seq<seq<string>>): seq<Phase> {
    seq(|tiers|, i requires 0 <= i < |tiers| => Phase(tiers[i], MIN_CELL))
  }

  /** Each tier down to the comfortable floor, then everything that can give at all. */
  function ObjectPhases(tiers: seq<seq<string>>): seq<Phase> {
    TierPhases(tiers) + [Phase(Concat(tiers), LAST_FLOOR)]
  }

  ghost function ObjectWidths(columns: seq<string>, rows: seq<Row>, tiers: seq<seq<string>>): Widths
    requires Distinct(columns)
  {
    var natural := NaturalWidths(columns, rows, map[]);
    Allocate(columns, natural, ObjectPhases(tiers), Top(columns, natural, ObjectPhases(tiers)), MAX_LINE)
  }

  method FitObjects(columns: seq<string>, rows: seq<Row>, tiers: seq<seq<string>>) returns (fitted: seq<Row>)
    requires Distinct(columns)
    ensures fitted == FitRows(columns, rows, ObjectWidths(columns, rows, tiers))
  {
    if rows == [] {
      return [];
    }
    var widths := Shrink(columns, NaturalWidths(columns, rows, map[]), ObjectPhases(tiers));
    fitted := FitRows(columns, rows, widths);
  }

  // ----- the data block

  const VALUES := ["source", "target"]

  function DataPhases(columns: seq<string>): seq<Phase> {
    var values := Filter(VALUES, c => c in columns);
    var names := Filter(columns, c => c !in values && c != "status");
    [Phase(values, DATA_MIN_CELL), Phase(names, DATA_MIN_CELL), Phase(values + names, LAST_FLOOR)]
  }

  ghost function DataWidths(columns: seq<string>, rows: seq<Row>, labels: map<string, string>): Widths
    requires Distinct(columns)
  {
    var natural := NaturalWidths(columns, rows, labels);
    Allocate(columns, natural, DataPhases(columns), Top(columns, natural, DataPhases(columns)), MAX_LINE)
  }

  method FitData(columns: seq<string>, rows: seq<Row>, labels: map<string, string>)
    returns (fitted: seq<Row>, headers: map<string, string>)
    requires Distinct(columns) && labels.Keys <= set c | c in columns
    ensures fitted == FitRows(columns, rows, DataWidths(columns, rows, labels))
    ensures headers == map c | c in labels :: Text(TrimCell(Some(labels[c]), DataWidths(columns, rows, labels)[c]))
  {
    var widths := Shrink(columns, NaturalWidths(columns, rows, labels), DataPhases(columns));
    fitted := FitRows(columns, rows, widths);
    headers := map c | c in labels :: Text(TrimCell(Some(labels[c]), widths[c]));
  }

  // ----- what the fit guarantees, for any phases

  /** The table of `base` trimmed by `phases` to the line. */
  ghost function Outcome(columns: seq<string>, base: Widths, phases: seq<Phase>): Widths
    requires Table(columns, base)
  {
    Allocate(columns, base, phases, Top(columns, base, phases), MAX_LINE)
  }

  /** Exactly the tables that fit with every flexible column at its least are fitted; a table
      that had to be trimmed and fits ends at exactly the line; a table that fits already
      is left alone; and columns no phase names keep their width. */
  lemma OutcomeFits(columns: seq<string>, base: Widths, phases: seq<Phase>)
    requires Table(columns, base)
    ensures
      var r := Outcome(columns, base, phases);
      && Table(columns, AllAtLeast(phases, base))
      && (LineWidth(columns, r) <= MAX_LINE <==> LineWidth(columns, AllAtLeast(phases, base)) <= MAX_LINE)
      && (LineWidth(columns, base) > MAX_LINE >= LineWidth(columns, r) ==> LineWidth(columns, r) == MAX_LINE)
      && (LineWidth(columns, base) <= MAX_LINE ==> r == base)
      && (forall c :: c in base ==> r[c] <= base[c] && (!Flexible(phases, c) ==> r[c] == base[c]))
  {
    var top, r := Top(columns, base, phases), Outcome(columns, base, phases);
    PourAtTop(columns, base, phases);
    AllocateBounds(columns, base, phases, top, MAX_LINE);
    SumMono(columns, AllAtLeast(phases, base), r);
    if LineWidth(columns, base) > MAX_LINE {
      AllocateExact(columns, base, phases, top, MAX_LINE);
    }
    forall c | c in base ensures !Flexible(phases, c) ==> r[c] == base[c] {
      LeastBound(phases, c, base[c]);
      assert AllAtLeast(phases, base)[c] <= r[c];
    }
  }

  /** Max-min: a column that was narrowed can only be wider again if one that gives way
      with it, and stands at most one above it, becomes narrower. */
  lemma OutcomeIsMaxMin(columns: seq<string>, base: Widths, phases: seq<Phase>, c: string, other: Widths)
    requires Table(columns, base) && Table(columns, other) && c in base
    requires Outcome(columns, base, phases)[c] < base[c]
    requires LineWidth(columns, other) <= LineWidth(columns, Outcome(columns, base, phases))
    requires other[c] > Outcome(columns, base, phases)[c]
    requires forall d :: d in base && !Together(phases, c, d) ==> other[d] == Outcome(columns, base, phases)[d]
    ensures
      var r := Outcome(columns, base, phases);
      exists d :: d in base && Together(phases, c, d) && other[d] < r[d] <= r[c] + 1
  {
    var top, r := Top(columns, base, phases), Outcome(columns, base, phases);
    if forall d :: d in columns ==> r[d] <= other[d] {
      SumMono(columns, r, other);
    }
    var d :| d in columns && other[d] < r[d];
    AllocateFair(columns, base, phases, top, MAX_LINE, c, d);
  }

  // ----- the object listing's own promises

  ghost predicate Disjoint(tiers: seq<seq<string>>) {
    forall i, j, c :: 0 <= i < j < |tiers| && c in tiers[i] ==> c !in tiers[j]
  }

  lemma {:induction false} ConcatMember(tiers: seq<seq<string>>, c: string)
    ensures c in Concat(tiers) <==> exists i :: 0 <= i < |tiers| && c in tiers[i]
  {
    if tiers != [] {
      ConcatMember(tiers[1..], c);
      if c in Concat(tiers[1..]) {
        var i :| 0 <= i < |tiers[1..]| && c in tiers[1..][i];
        assert c in tiers[i + 1];
      }
      if i :| 0 <= i < |tiers| && c in tiers[i] {
        assert i > 0 ==> c in tiers[1..][i - 1];
      }
    }
  }

  /** A column of some tier can be left with four characters, any other with what it has. */
  lemma {:induction false} LeastOfTiers(tiers: seq<seq<string>>, rest: seq<Phase>, c: string, w: nat)
    requires forall p :: p in rest ==> p.floor == MIN_CELL || p == Phase(Concat(tiers), LAST_FLOOR)
    requires rest != [] && Last(rest) == Phase(Concat(tiers), LAST_FLOOR)
    requires forall p :: p in rest && c in p.candidates ==> c in Concat(tiers)
    ensures Least(rest, c, w) == if c in Concat(tiers) then Min(w, LAST_FLOOR) else w
  {
    var p := rest[0];
    var w' := if c in p.candidates then Min(w, p.floor) else w;
    if |rest| == 1 {
      assert Least(rest[1..], c, w') == w';
    } else {
      LeastOfTiers(tiers, rest[1..], c, w');
    }
  }

  /** Every phase of the listing is one tier at the comfortable floor, or all of them at the last. */
  lemma ObjectPhaseIs(tiers: seq<seq<string>>, p: Phase)
    requires p in ObjectPhases(tiers)
    ensures p == Phase(Concat(tiers), LAST_FLOOR) || exists i :: 0 <= i < |tiers| && p == Phase(tiers[i], MIN_CELL)
  {
    var k :| 0 <= k < |ObjectPhases(tiers)| && ObjectPhases(tiers)[k] == p;
    if k < |tiers| {
      assert p == TierPhases(tiers)[k];
    }
  }

  lemma LeastOfObjects(tiers: seq<seq<string>>, c: string, w: nat)
    ensures Least(ObjectPhases(tiers), c, w) == if c in Concat(tiers) then Min(w, LAST_FLOOR) else w
    ensures Flexible(ObjectPhases(tiers), c) ==> c in Concat(tiers)
  {
    forall p | p in ObjectPhases(tiers)
      ensures p.floor == MIN_CELL || p == Phase(Concat(tiers), LAST_FLOOR)
      ensures c in p.candidates ==> c in Concat(tiers)
    {
      ObjectPhaseIs(tiers, p);
      ConcatMember(tiers, c);
    }
    LeastOfTiers(tiers, ObjectPhases(tiers), c, w);
  }

  ghost function SqueezedObjects(columns: seq<string>, rows: seq<Row>, tiers: seq<seq<string>>): Widths {
    var natural := NaturalWidths(columns, rows, map[]);
    map c | c in natural :: if c in Concat(tiers) then Min(natural[c], LAST_FLOOR) else natural[c]
  }

  /** The listing's cap.  It is not absolute: the fitted columns fit the line exactly when
      they would with every flexible column cut to four characters; when trimming was
      needed and suffices the line is filled to the last character; and the columns of no
      tier, `status` among them, are never narrowed. */
  lemma ObjectsFit(columns: seq<string>, rows: seq<Row>, tiers: seq<seq<string>>)
    requires Distinct(columns)
    ensures
      var natural, r := NaturalWidths(columns, rows, map[]), ObjectWidths(columns, rows, tiers);
      && (LineWidth(columns, r) <= MAX_LINE <==> LineWidth(columns, SqueezedObjects(columns, rows, tiers)) <= MAX_LINE)
      && (LineWidth(columns, natural) > MAX_LINE >= LineWidth(columns, r) ==> LineWidth(columns, r) == MAX_LINE)
      && (LineWidth(columns, natural) <= MAX_LINE ==> r == natural)
      && (forall c :: c in columns ==> r[c] <= natural[c] && (c !in Concat(tiers) ==> r[c] == natural[c]))
  {
    var natural := NaturalWidths(columns, rows, map[]);
    forall c | c in natural
      ensures AllAtLeast(ObjectPhases(tiers), natural)[c] == SqueezedObjects(columns, rows, tiers)[c]
      ensures Flexible(ObjectPhases(tiers), c) ==> c in Concat(tiers)
    {
      LeastOfObjects(tiers, c, natural[c]);
    }
    assert AllAtLeast(ObjectPhases(tiers), natural) == SqueezedObjects(columns, rows, tiers);
    OutcomeFits(columns, natural, ObjectPhases(tiers));
  }

  /** A column of a later tier is narrowed only when every column of every earlier tier is
      at or under the comfortable floor. */
  lemma TiersGiveInOrder(
    columns: seq<string>, rows: seq<Row>, tiers: seq<seq<string>>, i: nat, j: nat, c: string, d: string)
    requires Distinct(columns) && Disjoint(tiers) && i < j < |tiers|
    requires c in columns && c in tiers[j] && d in columns && d in tiers[i]
    requires ObjectWidths(columns, rows, tiers)[c] < NaturalWidths(columns, rows, map[])[c]
    ensures ObjectWidths(columns, rows, tiers)[d] <= 16
  {
    var phases, natural := ObjectPhases(tiers), NaturalWidths(columns, rows, map[]);
    assert phases[i] == Phase(tiers[i], MIN_CELL);
    forall p | p in phases[..i + 1] ensures c !in p.candidates {
      var k :| 0 <= k < i + 1 && phases[k] == p;
      assert p.candidates == tiers[k];
    }
    AllocateDisciplined(columns, natural, phases, Top(columns, natural, phases), MAX_LINE, i, c);
  }

  /** Within a tier the loss is shared: once a column was narrowed, no column of its tier
      stands more than one above it. */
  lemma TierSharesTheLoss(columns: seq<string>, rows: seq<Row>, tiers: seq<seq<string>>, i: nat, c: string, d: string)
    requires Distinct(columns) && Disjoint(tiers) && i < |tiers|
    requires c in columns && c in tiers[i] && d in columns && d in tiers[i]
    requires ObjectWidths(columns, rows, tiers)[c] < NaturalWidths(columns, rows, map[])[c]
    ensures ObjectWidths(columns, rows, tiers)[d] <= ObjectWidths(columns, rows, tiers)[c] + 1
  {
    var phases, natural := ObjectPhases(tiers), NaturalWidths(columns, rows, map[]);
    forall p | p in phases && c in p.candidates ensures d in p.candidates {
      ObjectPhaseIs(tiers, p);
      if p == Phase(Concat(tiers), LAST_FLOOR) {
        ConcatMember(tiers, d);
      }
    }
    AllocateFair(columns, natural, phases, Top(columns, natural, phases), MAX_LINE, c, d);
  }

  // ----- the data block's own promises

  ghost function SqueezedData(columns: seq<string>, rows: seq<Row>, labels: map<string, string>): Widths {
    var natural := NaturalWidths(columns, rows, labels);
    map c | c in natural :: if c == "status" then natural[c] else Min(natural[c], LAST_FLOOR)
  }

  lemma DataCandidates(columns: seq<string>, c: string)
    ensures
      var p := DataPhases(columns);
      && (c in p[0].candidates <==> c in VALUES && c in columns)
      && (c in p[1].candidates <==> c !in VALUES && c in columns && c != "status")
      && (c in p[2].candidates <==> c in columns && c != "status")
  {
    var values := Filter(VALUES, c => c in columns);
    FilterMember(VALUES, c => c in columns, c);
    FilterMember(columns, c => c !in values && c != "status", c);
    assert c in values + Filter(columns, c => c !in values && c != "status") <==>
           c in values || c in Filter(columns, c => c !in values && c != "status");
  }

  lemma LeastOfData(columns: seq<string>, c: string, w: nat)
    requires c in columns
    ensures Least(DataPhases(columns), c, w) == if c == "status" then w else Min(w, LAST_FLOOR)
    ensures Flexible(DataPhases(columns), c) ==> c != "status"
  {
    var p := DataPhases(columns);
    DataCandidates(columns, c);
    var rest := [p[1], p[2]];
    assert p[1..] == rest && rest[1..] == [p[2]] && [p[2]][1..] == [];
    var w1 := if c in p[0].candidates then Min(w, DATA_MIN_CELL) else w;
    var w2 := if c in p[1].candidates then Min(w1, DATA_MIN_CELL) else w1;
    assert Least(p, c, w) == Least(rest, c, w1);
    assert Least(rest, c, w1) == Least([p[2]], c, w2);
    assert Least([p[2]], c, w2) == if c in p[2].candidates then Min(w2, LAST_FLOOR) else w2;
  }

  /** The data block: it fits exactly when it would with every column but `status` cut to
      four characters, a trimmed line that fits is full, and `status` is never narrowed. */
  lemma DataFits(columns: seq<string>, rows: seq<Row>, labels: map<string, string>)
    requires Distinct(columns)
    ensures
      var natural, r := NaturalWidths(columns, rows, labels), DataWidths(columns, rows, labels);
      && (LineWidth(columns, r) <= MAX_LINE <==> LineWidth(columns, SqueezedData(columns, rows, labels)) <= MAX_LINE)
      && (LineWidth(columns, natural) > MAX_LINE >= LineWidth(columns, r) ==> LineWidth(columns, r) == MAX_LINE)
      && (LineWidth(columns, natural) <= MAX_LINE ==> r == natural)
      && ("status" in columns ==> r["status"] == natural["status"])
  {
    var natural := NaturalWidths(columns, rows, labels);
    forall c | c in natural
      ensures AllAtLeast(DataPhases(columns), natural)[c] == SqueezedData(columns, rows, labels)[c]
      ensures Flexible(DataPhases(columns), c) ==> c != "status"
    {
      LeastOfData(columns, c, natural[c]);
    }
    assert AllAtLeast(DataPhases(columns), natural) == SqueezedData(columns, rows, labels);
    OutcomeFits(columns, natural, DataPhases(columns));
  }

  /** Once a column of no first-phase concern is trimmed, the first phase is at its floor. */
  lemma FirstPhaseSpent(
    columns: seq<string>, natural: Widths, phases: seq<Phase>, outcome: Widths, c: string, v: string)
    requires Table(columns, natural) && |phases| > 0 && c in columns && v in columns
    requires outcome == Allocate(columns, natural, phases, Top(columns, natural, phases), MAX_LINE)
    requires c !in phases[0].candidates && v in phases[0].candidates && outcome[c] < natural[c]
    ensures outcome[v] <= phases[0].floor
  {
    assert phases[..1] == [phases[0]];
    AllocateDisciplined(columns, natural, phases, Top(columns, natural, phases), MAX_LINE, 0, c);
  }

  /** A key or column name gives a character only once both values are at their floor. */
  lemma ValuesGiveFirst(columns: seq<string>, rows: seq<Row>, labels: map<string, string>, c: string, v: string)
    requires Distinct(columns) && c in columns && c !in VALUES && v in columns && v in VALUES
    requires DataWidths(columns, rows, labels)[c] < NaturalWidths(columns, rows, labels)[c]
    ensures DataWidths(columns, rows, labels)[v] <= 12
  {
    DataCandidates(columns, c);
    DataCandidates(columns, v);
    FirstPhaseSpent(columns, NaturalWidths(columns, rows, labels), DataPhases(columns),
      DataWidths(columns, rows, labels), c, v);
  }

  /** The two values share what they lose, and so do the keys and the column name. */
  lemma DataSharesTheLoss(columns: seq<string>, rows: seq<Row>, labels: map<string, string>, c: string, d: string)
    requires Distinct(columns) && c in columns && d in columns && c != "status" && d != "status"
    requires c in VALUES <==> d in VALUES
    requires DataWidths(columns, rows, labels)[c] < NaturalWidths(columns, rows, labels)[c]
    ensures DataWidths(columns, rows, labels)[d] <= DataWidths(columns, rows, labels)[c] + 1
  {
    var phases, natural := DataPhases(columns), NaturalWidths(columns, rows, labels);
    DataCandidates(columns, c);
    DataCandidates(columns, d);
    forall p | p in phases && c in p.candidates ensures d in p.candidates {
      var k :| 0 <= k < |phases| && phases[k] == p;
    }
    AllocateFair(columns, natural, phases, Top(columns, natural, phases), MAX_LINE, c, d);
  }

  /** And no other allocation of as short a line spares a trimmed value without cutting a value
      no more than one above it, or a name without a name. */
  lemma DataIsMaxMin(
    columns: seq<string>, rows: seq<Row>, labels: map<string, string>, c: string, other: Widths)
    requires Distinct(columns) && c in columns && c != "status" && Table(columns, other)
    requires DataWidths(columns, rows, labels)[c] < NaturalWidths(columns, rows, labels)[c]
    requires LineWidth(columns, other) <= LineWidth(columns, DataWidths(columns, rows, labels))
    requires other[c] > DataWidths(columns, rows, labels)[c]
    requires forall d :: d in columns && (d == "status" || (d in VALUES) != (c in VALUES)) ==>
      other[d] == DataWidths(columns, rows, labels)[d]
    ensures
      var r := DataWidths(columns, rows, labels);
      exists d :: d in columns && d != "status" && (d in VALUES <==> c in VALUES) && other[d] < r[d] <= r[c] + 1
  {
    var r := DataWidths(columns, rows, labels);
    if forall d :: d in columns ==> r[d] <= other[d] {
      SumMono(columns, r, other);
    }
    var d :| d in columns && other[d] < r[d];
    DataSharesTheLoss(columns, rows, labels, c, d);
  }
}
