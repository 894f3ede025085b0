/**
 What the renderer prints of a fitted table.  It draws every column at least as wide as its
 header, and the fitters do not trim those headers, so the printed line can be longer than the
 fitted one.  The exact condition for it to keep to the line is one line to measure: the widths
 at which the first column would fall under its header.
 */
module PrintedTables {
  import opened Prelude
  import opened ColumnFitter
  import opened DiffTables

  /** `headers` holds the length of every header that is not trimmed with its column. */
  function Printed(widths: Widths, headers: Widths): Widths {
    map c | c in widths :: if c in headers then Max(widths[c], headers[c]) else widths[c]
  }

  /** `b` is the first column to fall under its header: of the columns that can give way it has
      the longest header, and comes first among equals. */
  ghost predicate FirstToBreak(base: Widths, phases: seq<Phase>, headers: Widths, b: string) {
    && phases != [] && b in base && b in headers && b in Last(phases).candidates
    && (forall c :: c in headers && c in base ==> headers[c] <= base[c])
    && (forall q, c :: q in Front(phases) && c in q.candidates ==> c in Last(phases).candidates)
    && (forall q :: q in Front(phases) ==> q.floor >= headers[b])
    && Longest(Last(phases), base, headers, b)
  }

  ghost predicate Longest(last: Phase, base: Widths, headers: Widths, b: string)
    requires b in headers
  {
    && (last.floor < headers[b] || (last.floor == headers[b] && Rank(last.candidates, b) == 0))
    && (forall c :: c in headers && c in base && c in last.candidates ==>
          headers[c] <= headers[b]
          && (headers[c] == headers[b] ==> Rank(last.candidates, b) <= Rank(last.candidates, c)))
  }

  /** The widths when `b` stands at its header, whose next character would be the first to be
      taken from under one: the columns listed before `b` have just come down to one less. */
  function Brim(base: Widths, candidates: seq<string>, b: string, header: nat): Widths
    requires header > 0
  {
    Pour(base, candidates, Level(header - 1, |candidates| - Rank(candidates, b)))
  }

  /** While `b` keeps its header every column is at its brim or above, and keeps its own. */
  lemma AboveBrim(base: Widths, r: Widths, last: Phase, headers: Widths, b: string, c: string)
    requires b in base && b in headers && b in last.candidates && headers[b] > 0
    requires base.Keys == r.Keys && c in base && (c in headers ==> headers[c] <= base[c])
    requires Longest(last, base, headers, b) && Ordered(base, r, last.candidates, headers[b])
    requires c !in last.candidates ==> r[c] == base[c]
    requires r[b] >= headers[b]
    ensures Brim(base, last.candidates, b, headers[b])[c] <= r[c]
    ensures c in headers ==> headers[c] <= r[c]
  {
    var C, h := last.candidates, headers[b];
    if c in C && r[c] < Min(base[c], h) {
      assert r[b] <= r[c] + 1;
      if Rank(C, b) == Rank(C, c) { RanksDiffer(C, b, c); }
    }
  }

  lemma RanksDiffer(candidates: seq<string>, c: string, d: string)
    requires c in candidates && d in candidates && Rank(candidates, c) == Rank(candidates, d)
    ensures c == d
  {
  }

  /** Once `b` is under its header no column is above its brim. */
  lemma BelowBrim(base: Widths, r: Widths, last: Phase, headers: Widths, b: string)
    requires b in base && b in headers && b in last.candidates && headers[b] > 0 && headers[b] <= base[b]
    requires base.Keys == r.Keys && Ordered(base, r, last.candidates, headers[b])
    requires forall c :: c in base ==> r[c] <= base[c]
    requires r[b] < headers[b]
    ensures
      var brim := Brim(base, last.candidates, b, headers[b]);
      r[b] < brim[b] && forall c :: c in base ==> r[c] <= brim[c]
  {
    var C, h := last.candidates, headers[b];
    forall c | c in base && c in C
      ensures r[c] <= Min(base[c], Cap(Level(h - 1, |C| - Rank(C, b)), |C|, Rank(C, c)))
    {
      assert r[b] < Min(base[b], h);
    }
  }

  lemma OutcomeOrdered(columns: seq<string>, base: Widths, phases: seq<Phase>, floor: nat)
    requires Table(columns, base) && phases != []
    requires forall p :: p in Front(phases) ==> p.floor >= floor
    ensures Ordered(base, Outcome(columns, base, phases), Last(phases).candidates, floor)
  {
    var r, C := Outcome(columns, base, phases), Last(phases).candidates;
    forall c, d | c in base && c in C && d in base && d in C && r[c] < Min(base[c], floor)
      ensures r[d] <= r[c] + 1 && (Rank(C, d) < Rank(C, c) ==> r[d] <= r[c])
    {
      AllocateOrdered(columns, base, phases, Top(columns, base, phases), MAX_LINE, floor, c, d);
    }
  }

  /** The least a column can be left with is never above its brim. */
  lemma {:induction false} LeastUnderBrim(phases: seq<Phase>, base: Widths, headers: Widths, b: string)
    requires FirstToBreak(base, phases, headers, b) && headers[b] > 0
    ensures forall c :: c in base ==>
      AllAtLeast(phases, base)[c] <= Brim(base, Last(phases).candidates, b, headers[b])[c]
  {
    forall c | c in base
      ensures AllAtLeast(phases, base)[c] <= Brim(base, Last(phases).candidates, b, headers[b])[c]
    {
      LeastBound(phases, c, base[c]);
      if c in Last(phases).candidates { LastFloorBounds(phases, c, base[c]); }
    }
  }

  lemma {:induction false} LastFloorBounds(phases: seq<Phase>, c: string, width: nat)
    requires phases != [] && c in Last(phases).candidates
    ensures Least(phases, c, width) <= Last(phases).floor
  {
    if |phases| > 1 {
      assert Last(phases[1..]) == Last(phases);
      LastFloorBounds(phases[1..], c, if c in phases[0].candidates then Min(width, phases[0].floor) else width);
    } else {
      assert phases[1..] == [];
    }
  }

  lemma Inflexible(phases: seq<Phase>, c: string)
    requires phases != [] && c !in Last(phases).candidates
    requires forall q, d :: q in Front(phases) && d in q.candidates ==> d in Last(phases).candidates
    ensures !Flexible(phases, c)
  {
    assert phases == Front(phases) + [Last(phases)];
  }

  /** What fitting leaves of `base`: nothing wider, what cannot give untouched, the rest in order. */
  ghost predicate Fitted(base: Widths, r: Widths, last: Phase, floor: nat) {
    && base.Keys == r.Keys && Ordered(base, r, last.candidates, floor)
    && (forall c :: c in base ==> r[c] <= base[c])
    && (forall c :: c in base && c !in last.candidates ==> r[c] == base[c])
  }

  lemma OutcomeFitted(columns: seq<string>, base: Widths, phases: seq<Phase>, headers: Widths, b: string)
    requires Table(columns, base) && FirstToBreak(base, phases, headers, b)
    ensures Fitted(base, Outcome(columns, base, phases), Last(phases), headers[b])
  {
    OutcomeFits(columns, base, phases);
    OutcomeOrdered(columns, base, phases, headers[b]);
    forall c | c in base && c !in Last(phases).candidates ensures !Flexible(phases, c) { Inflexible(phases, c); }
  }

  lemma SameWidths(columns: seq<string>, a: Widths, b: Widths)
    requires Table(columns, a) && Table(columns, b) && forall c :: c in columns ==> a[c] == b[c]
    ensures a == b
  {
  }

  lemma KeptAtOrAbove(columns: seq<string>, brim: Widths, r: Widths, headers: Widths)
    requires Table(columns, brim) && Table(columns, r)
    requires forall c :: c in columns ==> brim[c] <= r[c] && (c in headers ==> headers[c] <= r[c])
    ensures Printed(r, headers) == r && LineWidth(columns, brim) <= LineWidth(columns, r)
  {
    SameWidths(columns, Printed(r, headers), r);
    SumMono(columns, brim, r);
  }

  /** The table prints at its fitted widths, which the brim does not exceed. */
  lemma HeadersKept(columns: seq<string>, base: Widths, last: Phase, headers: Widths, b: string, r: Widths)
    requires Table(columns, base) && Table(columns, r) && Fitted(base, r, last, if b in headers then headers[b] else 0)
    requires b in base && b in headers && b in last.candidates && headers[b] > 0 && Longest(last, base, headers, b)
    requires forall c :: c in headers && c in base ==> headers[c] <= base[c]
    requires r[b] >= headers[b]
    ensures Printed(r, headers) == r
    ensures LineWidth(columns, Brim(base, last.candidates, b, headers[b])) <= LineWidth(columns, r)
  {
    var brim := Brim(base, last.candidates, b, headers[b]);
    forall c | c in columns ensures brim[c] <= r[c] && (c in headers ==> headers[c] <= r[c]) {
      AboveBrim(base, r, last, headers, b, c);
    }
    KeptAtOrAbove(columns, brim, r, headers);
  }

  /** The table prints wider than it is fitted, and would not fit at the brim. */
  lemma HeaderBroken(columns: seq<string>, base: Widths, last: Phase, headers: Widths, b: string, r: Widths)
    requires Table(columns, base) && Table(columns, r) && Fitted(base, r, last, if b in headers then headers[b] else 0)
    requires b in base && b in headers && b in last.candidates && 0 < headers[b] <= base[b]
    requires r[b] < headers[b]
    ensures LineWidth(columns, r) < LineWidth(columns, Brim(base, last.candidates, b, headers[b]))
    ensures LineWidth(columns, r) < LineWidth(columns, Printed(r, headers))
  {
    BelowBrim(base, r, last, headers, b);
    SumMono(columns, r, Brim(base, last.candidates, b, headers[b]));
    SumMono(columns, r, Printed(r, headers));
  }

  lemma BrimBetween(columns: seq<string>, base: Widths, phases: seq<Phase>, headers: Widths, b: string)
    requires Table(columns, base) && FirstToBreak(base, phases, headers, b) && headers[b] > 0
    ensures
      var brim := Brim(base, Last(phases).candidates, b, headers[b]);
      LineWidth(columns, AllAtLeast(phases, base)) <= LineWidth(columns, brim) <= LineWidth(columns, base)
  {
    var brim := Brim(base, Last(phases).candidates, b, headers[b]);
    LeastUnderBrim(phases, base, headers, b);
    SumMono(columns, AllAtLeast(phases, base), brim);
    SumMono(columns, brim, base);
  }

  /** The printed cap, exactly: the table prints within the line just when it would at the
      brim, and a table that had to be trimmed then prints at exactly the line. */
  lemma PrintsWithin(columns: seq<string>, base: Widths, phases: seq<Phase>, headers: Widths, b: string, r: Widths)
    requires Table(columns, base) && FirstToBreak(base, phases, headers, b) && headers[b] > 0
    requires r == Outcome(columns, base, phases)
    ensures
      var printed := LineWidth(columns, Printed(r, headers));
      var brim := LineWidth(columns, Brim(base, Last(phases).candidates, b, headers[b]));
      && (printed <= MAX_LINE <==> brim <= MAX_LINE)
      && (LineWidth(columns, base) > MAX_LINE >= brim ==> printed == MAX_LINE)
  {
    OutcomeFits(columns, base, phases);
    OutcomeFitted(columns, base, phases, headers, b);
    BrimBetween(columns, base, phases, headers, b);
    if r[b] >= headers[b] {
      HeadersKept(columns, base, Last(phases), headers, b, r);
    } else {
      HeaderBroken(columns, base, Last(phases), headers, b, r);
    }
  }

  // ----- what the renderer draws of fitted rows

  /** The headers that are printed as they are, not through a label trimmed with its column. */
  function Untrimmed(columns: seq<string>, labels: map<string, string>): Widths {
    map c | c in columns && c !in labels :: |c|
  }

  function TrimLabels(labels: map<string, string>, widths: Widths): map<string, string>
    requires forall c :: c in labels ==> c in widths
  {
    map c | c in labels :: Text(TrimCell(Some(labels[c]), widths[c]))
  }

  /** Cells cut to `w` under a header of `after`, which is the header they had or that cut too. */
  lemma {:induction false} WidestAfter(
    header: nat, after: nat, rows: seq<Row>, fitted: seq<Row>, column: string, w: nat)
    requires |fitted| == |rows| && Min(header, w) <= after <= header
    requires forall i: nat :: i < |rows| ==>
      |Text(CellOf(fitted[i], column))| == Min(|Text(CellOf(rows[i], column))|, w)
    ensures NaturalWidth(after, fitted, column) == Max(after, Min(NaturalWidth(header, rows, column), w))
  {
    if rows != [] {
      WidestAfter(header, after, rows[..|rows| - 1], fitted[..|fitted| - 1], column, w);
    }
  }

  /** Widths that a fitter may leave: none above the natural, and room for an ellipsis where cut. */
  ghost predicate Cut(columns: seq<string>, natural: Widths, widths: Widths) {
    && Table(columns, widths) && Table(columns, natural)
    && forall c :: c in columns ==> widths[c] <= natural[c] && (widths[c] < natural[c] ==> widths[c] >= 3)
  }

  lemma FittedCell(columns: seq<string>, rows: seq<Row>, labels: map<string, string>, widths: Widths, c: string, i: nat)
    requires Cut(columns, NaturalWidths(columns, rows, labels), widths) && c in columns && i < |rows|
    ensures |Text(CellOf(FitRows(columns, rows, widths)[i], c))| == Min(|Text(CellOf(rows[i], c))|, widths[c])
  {
    assert rows[i] in rows;
    assert |Text(CellOf(rows[i], c))| <= NaturalWidths(columns, rows, labels)[c];
  }

  /** What is drawn of one column. */
  lemma PrintedWidth(columns: seq<string>, rows: seq<Row>, labels: map<string, string>, widths: Widths, c: string)
    requires Cut(columns, NaturalWidths(columns, rows, labels), widths) && c in columns
    requires forall d :: d in labels ==> d in columns
    ensures NaturalWidths(columns, FitRows(columns, rows, widths), TrimLabels(labels, widths))[c]
         == Printed(widths, Untrimmed(columns, labels))[c]
  {
    var fitted, headers := FitRows(columns, rows, widths), TrimLabels(labels, widths);
    forall i: nat | i < |rows| ensures |Text(CellOf(fitted[i], c))| == Min(|Text(CellOf(rows[i], c))|, widths[c]) {
      FittedCell(columns, rows, labels, widths, c, i);
    }
    if c in labels {
      WidestAfter(|labels[c]|, |headers[c]|, rows, fitted, c, widths[c]);
    } else {
      WidestAfter(|c|, |c|, rows, fitted, c, widths[c]);
    }
  }

  /** The length of the printed line, which the row of dashes under the headers fills. */
  function PrintedLine(columns: seq<string>, fitted: seq<Row>, headers: map<string, string>): nat {
    LineWidth(columns, NaturalWidths(columns, fitted, headers))
  }

  lemma LineDrawn(columns: seq<string>, rows: seq<Row>, labels: map<string, string>, widths: Widths)
    requires Cut(columns, NaturalWidths(columns, rows, labels), widths) && forall d :: d in labels ==> d in columns
    ensures PrintedLine(columns, FitRows(columns, rows, widths), TrimLabels(labels, widths))
         == LineWidth(columns, Printed(widths, Untrimmed(columns, labels)))
  {
    forall c | c in columns
      ensures NaturalWidths(columns, FitRows(columns, rows, widths), TrimLabels(labels, widths))[c]
           == Printed(widths, Untrimmed(columns, labels))[c]
    {
      PrintedWidth(columns, rows, labels, widths, c);
    }
    SameWidths(columns, NaturalWidths(columns, FitRows(columns, rows, widths), TrimLabels(labels, widths)),
               Printed(widths, Untrimmed(columns, labels)));
  }

  lemma {:induction false} NaturalAtMost(header: nat, rows: seq<Row>, column: string, bound: nat)
    requires header <= bound && forall row :: row in rows ==> |Text(CellOf(row, column))| <= bound
    ensures NaturalWidth(header, rows, column) <= bound
  {
    if rows != [] {
      assert rows == rows[..|rows| - 1] + [Last(rows)];
      NaturalAtMost(header, rows[..|rows| - 1], column, bound);
    }
  }

  // ----- fitted widths

  lemma {:induction false} LeastAbove(phases: seq<Phase>, c: string, width: nat, floor: nat)
    requires forall p :: p in phases ==> p.floor >= floor
    ensures Least(phases, c, width) >= Min(width, floor)
  {
    if phases != [] {
      assert phases[0] in phases && forall p :: p in phases[1..] ==> p in phases;
      LeastAbove(phases[1..], c, if c in phases[0].candidates then Min(width, phases[0].floor) else width, floor);
    }
  }

  /** A fitter whose floors hold an ellipsis and a character cuts as the renderer expects. */
  lemma OutcomeCut(columns: seq<string>, base: Widths, phases: seq<Phase>)
    requires Table(columns, base) && forall p :: p in phases ==> p.floor >= LAST_FLOOR
    ensures Cut(columns, base, Outcome(columns, base, phases))
    ensures forall c :: c in base ==> Outcome(columns, base, phases)[c] >= Min(base[c], LAST_FLOOR)
  {
    PourAtTop(columns, base, phases);
    AllocateBounds(columns, base, phases, Top(columns, base, phases), MAX_LINE);
    forall c | c in base ensures Least(phases, c, base[c]) >= Min(base[c], LAST_FLOOR) {
      LeastAbove(phases, c, base[c], LAST_FLOOR);
    }
  }

  /** Where no column that can give way has a header of more than four characters, the table
      prints as it is fitted. */
  lemma PrintsAsFitted(columns: seq<string>, base: Widths, phases: seq<Phase>, headers: Widths)
    requires Table(columns, base) && forall p :: p in phases ==> p.floor >= LAST_FLOOR
    requires forall c :: c in headers && c in base ==>
      headers[c] <= base[c] && (Flexible(phases, c) ==> headers[c] <= LAST_FLOOR)
    ensures Printed(Outcome(columns, base, phases), headers) == Outcome(columns, base, phases)
  {
    OutcomeCut(columns, base, phases);
    OutcomeFits(columns, base, phases);
  }
}
