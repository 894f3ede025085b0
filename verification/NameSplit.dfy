/**
 The text fitters of `search TERM`: `_fit_names`, which splits what the line leaves between two
 name columns so that as few values as possible are cut, and `_window`, which shows a long line
 around the matched term.
 */
module NameSplit {
  import opened Prelude
  import opened ColumnFitter
  import opened DiffTables

  // ----- cutting a value

  /** A path is cut from the left, anything else from the right. */
  function CutCell(column: string, cell: Cell, width: nat): (r: Cell)
    ensures |Text(cell)| <= width ==> r == cell
    ensures width >= 3 ==> |Text(r)| == Min(|Text(cell)|, width)
    ensures |Text(cell)| > width >= 3 && column == "file" ==>
      Text(r) == "..." + Text(cell)[|Text(cell)| - (width - 3)..]
    ensures |Text(cell)| > width >= 3 && column != "file" ==> Text(r) == Text(cell)[..width - 3] + "..."
  {
    if column != "file" || |Text(cell)| <= width then TrimCell(cell, width)
    else Some("..." + Text(cell)[|Text(cell)| - (if width >= 3 then width - 3 else 0)..])
  }

  /** `len(str(value))`, which takes four characters for a missing value. */
  function StrLen(cell: Cell): nat {
    match cell case None => 4 case Some(text) => |text|
  }

  /** The rows whose value `cuts` counts as longer than `width`. */
  function Counted(rows: seq<Row>, column: string, width: int): nat {
    if rows == [] then 0 else
      Counted(rows[..|rows| - 1], column, width) + (if StrLen(CellOf(Last(rows), column)) > width then 1 else 0)
  }

  /** The rows whose value a cut to `width` really changes. */
  function Cut(rows: seq<Row>, column: string, width: nat): nat {
    if rows == [] then 0 else
      Cut(rows[..|rows| - 1], column, width)
      + (if CutCell(column, CellOf(Last(rows), column), width) != CellOf(Last(rows), column) then 1 else 0)
  }

  lemma CutChanges(column: string, cell: Cell, width: nat)
    requires width >= 4
    ensures CutCell(column, cell, width) != cell <==> StrLen(cell) > width
  {
    if |Text(cell)| > width {
      assert |Text(CutCell(column, cell, width))| == width;
    }
  }

  /** From four characters on `cuts` counts exactly the values that change. */
  lemma {:induction false} CountedIsCut(rows: seq<Row>, column: string, width: nat)
    requires width >= 4
    ensures Counted(rows, column, width) == Cut(rows, column, width)
  {
    if rows != [] {
      CountedIsCut(rows[..|rows| - 1], column, width);
      CutChanges(column, CellOf(Last(rows), column), width);
    }
  }

  /** A wider column never cuts more, and one of the natural width cuts nothing. */
  lemma {:induction false} WiderCutsLess(rows: seq<Row>, column: string, narrow: nat, wide: nat)
    requires 4 <= narrow <= wide
    ensures Cut(rows, column, wide) <= Cut(rows, column, narrow)
  {
    if rows != [] {
      WiderCutsLess(rows[..|rows| - 1], column, narrow, wide);
      CutChanges(column, CellOf(Last(rows), column), narrow);
      CutChanges(column, CellOf(Last(rows), column), wide);
    }
  }

  lemma {:induction false} NaturalCutsNothing(rows: seq<Row>, column: string, width: nat, header: nat)
    requires width >= NaturalWidth(header, rows, column)
    ensures Cut(rows, column, width) == 0
  {
    if rows != [] {
      NaturalCutsNothing(rows[..|rows| - 1], column, width, header);
    }
  }

  // ----- the split

  /** The name columns of the hit tables, alone or in the two pairs that share a line. */
  predicate IsName(column: string) {
    column == "component" || column == "file" || column == "scope" || column == "object" || column == "type"
  }

  predicate AreNames(names: seq<string>) {
    names == [] || (|names| == 1 && IsName(names[0])) || names == ["file", "scope"] || names == ["object", "type"]
  }

  function Natural(columns: seq<string>, rows: seq<Row>): Widths {
    NaturalWidths(columns, rows, map[])
  }

  ghost function Overflow(columns: seq<string>, rows: seq<Row>): int {
    LineWidth(columns, Natural(columns, rows)) - MAX_LINE
  }

  /** What `cuts` sorts by when the second name gets `w`. */
  function CutsAt(rows: seq<Row>, first: string, second: string, budget: int): int -> nat {
    w => Counted(rows, first, budget - w) + Counted(rows, second, w)
  }

  /** `min(range(low, high), key=cuts)`: the fewest cuts, the least width on a tie. */
  method BestSplit(cuts: int -> nat, low: int, high: int) returns (best: int)
    requires low < high
    ensures low <= best < high
    ensures forall w :: low <= w < high ==> cuts(best) <= cuts(w) && (w < best ==> cuts(best) < cuts(w))
  {
    best := low;
    for w := low + 1 to high
      invariant low <= best < w
      invariant forall v :: low <= v < w ==> cuts(best) <= cuts(v) && (v < best ==> cuts(best) < cuts(v))
    {
      if cuts(w) < cuts(best) {
        best := w;
      }
    }
  }

  datatype Split = Unfit | Whole | One(width: nat) | Two(first: nat, second: nat)

  function SplitRow(row: Row, names: seq<string>, split: Split): Row
    requires split.One? ==> |names| >= 1
    requires split.Two? ==> |names| >= 2
  {
    match split
    case One(w) => row[names[0] := CutCell(names[0], CellOf(row, names[0]), w)]
    case Two(a, b) =>
      row[names[0] := CutCell(names[0], CellOf(row, names[0]), a)]
         [names[1] := CutCell(names[1], CellOf(row, names[1]), b)]
    case _ => row
  }

  function SplitRows(rows: seq<Row>, names: seq<string>, split: Split): seq<Row>
    requires split.One? ==> |names| >= 1
    requires split.Two? ==> |names| >= 2
  {
    seq(|rows|, i requires 0 <= i < |rows| => SplitRow(rows[i], names, split))
  }

  /** The line when the two names are given these widths. */
  function LineWith(columns: seq<string>, natural: Widths, first: string, second: string, a: nat, b: nat): nat
    requires forall c :: c in columns ==> c in natural
  {
    LineWidth(columns, natural[first := a][second := b])
  }

  lemma {:induction false} SumSet(columns: seq<string>, widths: Widths, c: string, w: nat)
    requires Distinct(columns) && (forall d :: d in columns ==> d in widths) && c in widths
    ensures Sum(columns, widths[c := w]) == Sum(columns, widths) + (if c in columns then w - widths[c] else 0)
  {
    if columns != [] {
      var front := columns[..|columns| - 1];
      assert columns == front + [Last(columns)];
      SumSet(front, widths, c, w);
    }
  }

  lemma LineWithIs(columns: seq<string>, natural: Widths, first: string, second: string, a: nat, b: nat)
    requires Distinct(columns) && (forall c :: c in columns ==> c in natural)
    requires first in columns && second in columns && first != second
    ensures LineWith(columns, natural, first, second, a, b)
         == LineWidth(columns, natural) - natural[first] - natural[second] + a + b
  {
    SumSet(columns, natural, first, a);
    SumSet(columns, natural[first := a], second, b);
  }

  /** A split that leaves both headers whole and fits the line. */
  ghost predicate Feasible(columns: seq<string>, natural: Widths, first: string, second: string, a: nat, b: nat)
    requires forall c :: c in columns ==> c in natural
  {
    |first| <= a && |second| <= b && LineWith(columns, natural, first, second, a, b) <= MAX_LINE
  }

  /** The values a split cuts. */
  function CutBy(rows: seq<Row>, first: string, second: string, a: nat, b: nat): nat {
    Cut(rows, first, a) + Cut(rows, second, b)
  }

  /** The split spends the line exactly, no feasible split leaves fewer values cut, and of the
      exact ones that leave as few it gives the first name the most. */
  ghost predicate IsBest(columns: seq<string>, rows: seq<Row>, first: string, second: string, a: nat, b: nat)
    requires first in columns && second in columns
  {
    var natural := Natural(columns, rows);
    && Feasible(columns, natural, first, second, a, b)
    && LineWith(columns, natural, first, second, a, b) == MAX_LINE
    && a <= natural[first] && b <= natural[second]
    && (forall x: nat, y: nat :: Feasible(columns, natural, first, second, x, y) ==>
          CutBy(rows, first, second, a, b) <= CutBy(rows, first, second, x, y))
    && (forall x: nat, y: nat ::
          Feasible(columns, natural, first, second, x, y) && x + y == a + b && x <= natural[first] ==>
            CutBy(rows, first, second, a, b) == CutBy(rows, first, second, x, y) ==> x <= a)
  }

  /** What is known when the loop over the range is done. */
  ghost predicate Chosen(cuts: int -> nat, budget: int, h1: nat, h2: nat, w1: nat, w2: nat, a: nat, b: nat) {
    && a + b == budget && h1 <= a <= w1 && h2 <= b <= w2
    && forall w: int :: h2 <= w <= w2 && h1 <= budget - w <= w1 ==> cuts(b) <= cuts(w) && (w < b ==> cuts(b) < cuts(w))
  }

  lemma CutsAtIs(rows: seq<Row>, first: string, second: string, budget: int, w: nat)
    requires w >= 4 && budget - w >= 4
    ensures CutsAt(rows, first, second, budget)(w) == CutsOf(rows, first)(budget - w) + CutsOf(rows, second)(w)
  {
    CountedIsCut(rows, first, budget - w);
    CountedIsCut(rows, second, w);
  }

  /** Counts that fall as a column widens, down to nothing at its natural width. */
  ghost predicate Falls(cuts: nat -> nat, natural: nat) {
    cuts(natural) == 0 && forall n: nat, w: nat :: 4 <= n <= w ==> cuts(w) <= cuts(n)
  }

  function CutsOf(rows: seq<Row>, column: string): nat -> nat {
    (w: nat) => Cut(rows, column, w)
  }

  lemma CutsFall(rows: seq<Row>, column: string)
    ensures Falls(CutsOf(rows, column), NaturalWidth(|column|, rows, column))
  {
    NaturalCutsNothing(rows, column, NaturalWidth(|column|, rows, column), |column|);
    forall n: nat, w: nat | 4 <= n <= w ensures CutsOf(rows, column)(w) <= CutsOf(rows, column)(n) {
      WiderCutsLess(rows, column, n, w);
    }
  }

  /** A choice that is least over the splits that spend the budget within the natural widths. */
  ghost predicate Least(c1: nat -> nat, c2: nat -> nat, h1: nat, h2: nat, w1: nat, w2: nat, a: nat, b: nat) {
    && h1 <= a <= w1 && h2 <= b <= w2
    && forall x: nat, y: nat :: h1 <= x <= w1 && h2 <= y <= w2 && x + y == a + b ==>
         c1(a) + c2(b) <= c1(x) + c2(y) && (y < b ==> c1(a) + c2(b) < c1(x) + c2(y))
  }

  /** It is then least over all splits within the budget. */
  lemma NoneBetter(c1: nat -> nat, c2: nat -> nat, h1: nat, h2: nat, w1: nat, w2: nat, a: nat, b: nat, x: nat, y: nat)
    requires Falls(c1, w1) && Falls(c2, w2) && Least(c1, c2, h1, h2, w1, w2, a, b) && h1 >= 4 && h2 >= 4
    requires h1 <= x && h2 <= y && x + y <= a + b
    ensures c1(a) + c2(b) <= c1(x) + c2(y)
    ensures x + y == a + b && x <= w1 && c1(a) + c2(b) == c1(x) + c2(y) ==> x <= a
  {
    var w: nat := if y > w2 then w2 else if a + b - y > w1 then a + b - w1 else y;
    var v: nat := a + b - w;
    assert c1(a) + c2(b) <= c1(v) + c2(w);
  }

  lemma ChosenIsLeast(
    cuts: int -> nat, c1: nat -> nat, c2: nat -> nat, h1: nat, h2: nat, w1: nat, w2: nat, a: nat, b: nat)
    requires Chosen(cuts, a + b, h1, h2, w1, w2, a, b)
    requires forall x: nat, y: nat :: h1 <= x && h2 <= y && x + y == a + b ==> cuts(y) == c1(x) + c2(y)
    ensures Least(c1, c2, h1, h2, w1, w2, a, b)
  {
    forall x: nat, y: nat | h1 <= x <= w1 && h2 <= y <= w2 && x + y == a + b
      ensures c1(a) + c2(b) <= c1(x) + c2(y)
      ensures y < b ==> c1(a) + c2(b) < c1(x) + c2(y)
    {
      assert cuts(b) <= cuts(y);
    }
  }

  lemma ChosenIsBest(columns: seq<string>, rows: seq<Row>, first: string, second: string, budget: int, a: nat, b: nat)
    requires Distinct(columns) && first in columns && second in columns && first != second && |first| >= 4
      && |second| >= 4
    requires Overflow(columns, rows) > 0
    requires var natural := Natural(columns, rows);
      && budget == natural[first] + natural[second] - Overflow(columns, rows)
      && Chosen(CutsAt(rows, first, second, budget), budget, |first|, |second|, natural[first], natural[second], a, b)
    ensures IsBest(columns, rows, first, second, a, b)
  {
    var natural := Natural(columns, rows);
    LineWithIs(columns, natural, first, second, a, b);
    CutsFall(rows, first);
    CutsFall(rows, second);
    forall x: nat, y: nat | |first| <= x && |second| <= y && x + y == a + b
      ensures CutsAt(rows, first, second, budget)(y) == CutsOf(rows, first)(x) + CutsOf(rows, second)(y)
    {
      CutsAtIs(rows, first, second, budget, y);
    }
    ChosenIsLeast(CutsAt(rows, first, second, budget), CutsOf(rows, first), CutsOf(rows, second), |first|, |second|,
                  natural[first], natural[second], a, b);
    forall x: nat, y: nat | Feasible(columns, natural, first, second, x, y)
      ensures CutBy(rows, first, second, a, b) <= CutBy(rows, first, second, x, y)
      ensures
        x + y == a + b && x <= natural[first] && CutBy(rows, first, second, a, b) == CutBy(rows, first, second, x, y)
        ==> x <= a
    {
      LineWithIs(columns, natural, first, second, x, y);
      NoneBetter(CutsOf(rows, first), CutsOf(rows, second), |first|, |second|, natural[first], natural[second], a, b,
        x, y);
    }
  }

  /** Not even the two headers leave the line whole. */
  ghost predicate TooNarrow(columns: seq<string>, rows: seq<Row>, first: string, second: string) {
    LineWith(columns, Natural(columns, rows), first, second, |first|, |second|) > MAX_LINE
  }

  /** One name takes what is left, but never less than its header. */
  ghost predicate OneFits(columns: seq<string>, rows: seq<Row>, name: string, width: nat)
    requires name in columns
  {
    var natural := Natural(columns, rows);
    && |name| <= width <= natural[name]
    && LineWidth(columns, natural[name := width]) >= MAX_LINE
    && (LineWidth(columns, natural[name := width]) == MAX_LINE || width == |name|)
  }

  /** The split of two names, `Unfit` being the ValueError of `min` over an empty range. */
  method SplitTwo(columns: seq<string>, rows: seq<Row>, first: string, second: string) returns (split: Split)
    requires Distinct(columns) && first in columns && second in columns && first != second && |first| >= 4
      && |second| >= 4
    requires Overflow(columns, rows) > 0
    ensures if TooNarrow(columns, rows, first, second) then split.Unfit?
            else split.Two? && IsBest(columns, rows, first, second, split.first, split.second)
  {
    var widths := Natural(columns, rows);
    var budget := widths[first] + widths[second] - (LineWidth(columns, widths) - MAX_LINE);
    var widest := if widths[second] <= budget - |first| then widths[second] else budget - |first|;
    var narrowest := if |second| >= budget - widths[first] then |second| else budget - widths[first];
    LineWithIs(columns, widths, first, second, |first|, |second|);
    if narrowest > widest {
      return Unfit;
    }
    var best := BestSplit(CutsAt(rows, first, second, budget), narrowest, widest + 1);
    split := Two(budget - best, best);
    ChosenIsBest(columns, rows, first, second, budget, budget - best, best);
  }

  /** `_fit_names`. */
  method FitNames(columns: seq<string>, rows: seq<Row>, names: seq<string>) returns (split: Split, fitted: seq<Row>)
    requires Distinct(columns) && AreNames(names) && forall c :: c in names ==> c in columns
    ensures split.One? ==> |names| == 1
    ensures split.Two? ==> |names| == 2
    ensures fitted == SplitRows(rows, names, split)
    ensures split.Whole? <==> Overflow(columns, rows) <= 0 || names == []
    ensures split.One? ==> OneFits(columns, rows, names[0], split.width)
    ensures split.Two? ==> IsBest(columns, rows, names[0], names[1], split.first, split.second)
    ensures split.Unfit?
      <==> Overflow(columns, rows) > 0 && |names| == 2 && TooNarrow(columns, rows, names[0], names[1])
  {
    var widths := Natural(columns, rows);
    var overflow := LineWidth(columns, widths) - MAX_LINE;
    if overflow <= 0 || names == [] {
      assert SplitRows(rows, names, Whole) == rows;
      return Whole, rows;
    }
    if |names| == 1 {
      var budget := widths[names[0]] - overflow;
      var width := if budget >= |names[0]| then budget else |names[0]|;
      SumSet(columns, widths, names[0], width);
      split := One(width);
    } else {
      split := SplitTwo(columns, rows, names[0], names[1]);
    }
    fitted := SplitRows(rows, names, split);
  }

  /** In a fitted row each name cell fits its column, is unchanged if it fitted before, and
      nothing else changed. */
  lemma SplitCells(row: Row, names: seq<string>, split: Split, column: string)
    requires AreNames(names) && (split.One? ==> |names| == 1) && (split.Two? ==> |names| == 2)
    requires split.One? ==> split.width >= |names[0]|
    requires split.Two? ==> split.first >= |names[0]| && split.second >= |names[1]|
    ensures
      var width := if split.One? && column == names[0] then Some(split.width)
                   else if split.Two? && column == names[0] then Some(split.first)
                   else if split.Two? && column == names[1] then Some(split.second) else None;
      var before, after := CellOf(row, column), CellOf(SplitRow(row, names, split), column);
      match width
      case None => after == before
      case Some(w) =>
        && |Text(after)| <= w && (|Text(before)| <= w ==> after == before)
        && (|Text(before)| > w && column == "file" ==> Text(after) == "..." + Text(before)[|Text(before)| - (w - 3)..])
        && (|Text(before)| > w && column != "file" ==> Text(after) == Text(before)[..w - 3] + "...")
  {
  }

  /** And every row is fitted like that, in place. */
  lemma SplitKeepsRows(rows: seq<Row>, names: seq<string>, split: Split, i: nat)
    requires AreNames(names) && (split.One? ==> |names| == 1) && (split.Two? ==> |names| == 2) && i < |rows|
    ensures |SplitRows(rows, names, split)| == |rows|
    ensures SplitRows(rows, names, split)[i] == SplitRow(rows[i], names, split)
  {
  }

  // ----- the window on a long line

  function Lower(text: string, fold: char -> char): string {
    seq(|text|, i requires 0 <= i < |text| => fold(text[i]))
  }

  predicate OccursAt(text: string, term: string, at: int) {
    0 <= at && at + |term| <= |text| && text[at..at + |term|] == term
  }

  /** Python's `find`, from position `from`. */
  function Find(text: string, term: string, from: nat): (at: int)
    requires from <= |text|
    ensures at >= 0 ==>
      from <= at && OccursAt(text, term, at) && forall i :: from <= i < at ==> !OccursAt(text, term, i)
    ensures at < 0 ==> at == -1 && forall i :: from <= i ==> !OccursAt(text, term, i)
    decreases |text| - from
  {
    if OccursAt(text, term, from) then from
    else if from == |text| then -1
    else Find(text, term, from + 1)
  }

  /** The term stands at position `at` of the line, letter by letter but for the case. */
  ghost predicate MatchesAt(text: string, term: string, fold: char -> char, at: int) {
    0 <= at && at + |term| <= |text| && forall j :: 0 <= j < |term| ==> fold(text[at + j]) == fold(term[j])
  }

  /** A Python slice bound: from the end if negative, then clamped. */
  function Bound(i: int, n: nat): (b: nat)
    ensures b <= n
  {
    if i < 0 then (if n + i < 0 then 0 else n + i) else if i > n then n else i
  }

  function Slice(text: string, low: int, high: int): string {
    var a, b := Bound(low, |text|), Bound(high, |text|);
    if a < b then text[a..b] else ""
  }

  /** What of a line is shown, as the bounds of a slice and the ellipses around it. */
  datatype Pane = Pane(lead: string, low: int, high: int, tail: string)

  function PaneAt(length: nat, at: int, term: nat, width: int): Pane {
    var cut := width - 3;
    if at < 0 || at + term <= cut then Pane("", 0, cut, "...")
    else if length - at <= cut then Pane("...", -cut, length, "")
    else
      var room := cut - 3;
      var spare := if room - term > 0 then room - term else 0;
      var start := at - spare / 2;
      Pane("...", start, start + room, "...")
  }

  function Through(text: string, p: Pane): string {
    p.lead + Slice(text, p.low, p.high) + p.tail
  }

  function MatchIn(text: string, term: string, fold: char -> char): int {
    Find(Lower(text, fold), Lower(term, fold), 0)
  }

  lemma OccursIs(text: string, term: string, fold: char -> char, at: int)
    ensures OccursAt(Lower(text, fold), Lower(term, fold), at) <==> MatchesAt(text, term, fold, at)
  {
    if 0 <= at && at + |term| <= |text| {
      var part := Lower(text, fold)[at..at + |term|];
      assert forall j :: 0 <= j < |term| ==> part[j] == fold(text[at + j]) && Lower(term, fold)[j] == fold(term[j]);
    }
  }

  /** The match is the first place of the line where the term stands, if there is one. */
  lemma MatchIs(text: string, term: string, fold: char -> char)
    ensures
      var at := MatchIn(text, term, fold);
      if at < 0 then forall i: int :: !MatchesAt(text, term, fold, i)
      else MatchesAt(text, term, fold, at) && forall i: int :: i < at ==> !MatchesAt(text, term, fold, i)
  {
    forall i: int ensures OccursAt(Lower(text, fold), Lower(term, fold), i) <==> MatchesAt(text, term, fold, i) {
      OccursIs(text, term, fold, i);
    }
  }

  function WindowAt(text: string, at: int, term: nat, width: int): string {
    if |text| <= width then text else Through(text, PaneAt(|text|, at, term, width))
  }

  function Window(text: string, term: string, width: int, fold: char -> char): string {
    WindowAt(text, MatchIn(text, term, fold), |term|, width)
  }

  /** The match lies neither in the head nor in the tail of the line. */
  predicate InTheMiddle(length: nat, at: int, term: nat, width: int) {
    at >= 0 && at + term > width - 3 && length - at > width - 3
  }

  lemma PaneWidth(length: nat, at: int, term: nat, width: int)
    requires length > width && (at < 0 || at + term <= length) && (term == 0 ==> at == 0)
    ensures
      var p := PaneAt(length, at, term, width);
      var low, high := Bound(p.low, length), Bound(p.high, length);
      var shown := |p.lead| + (if low < high then high - low else 0) + |p.tail|;
      && (shown <= width <==> width >= 6 || (width >= 3 && !InTheMiddle(length, at, term, width)))
      && (width >= 6 ==> shown == width)
  {
  }

  /** The exact condition for the window to stay within its width; a caller's label of more
      than 68 characters leaves fewer than 6. */
  lemma WindowFits(text: string, term: string, width: int, fold: char -> char)
    ensures |Window(text, term, width, fold)| <= width <==>
      |text| <= width || width >= 6 || (width >= 3 && !InTheMiddle(|text|, MatchIn(text, term, fold), |term|, width))
    ensures |text| > width >= 6 ==> |Window(text, term, width, fold)| == width
  {
    assert OccursAt(Lower(text, fold), Lower(term, fold), 0) <== term == "";
    if |text| > width {
      PaneWidth(|text|, MatchIn(text, term, fold), |term|, width);
    }
  }

  /** The first `n` characters, and the last `n`. */
  function Head(text: string, n: nat): string
    requires n <= |text|
  {
    text[..n]
  }

  function Tail(text: string, n: nat): string
    requires n <= |text|
  {
    text[|text| - n..]
  }

  /** What is shown of a line, from six characters on: all of it if it fits; its head if the match
      ends there or there is none; its tail if the match begins there; and otherwise what lies
      between two ellipses, with the match in the middle of it. */
  lemma WindowIs(text: string, term: string, width: int, fold: char -> char)
    requires width >= 6
    ensures
      var shown, at, n := Window(text, term, width, fold), MatchIn(text, term, fold), width - 3;
      if |text| <= width then shown == text
      else if at < 0 || at + |term| <= n then shown == Head(text, n) + "..."
      else if |text| - at <= n then shown == "..." + Tail(text, n)
      else InTheMiddleOf(shown, text, at, |term|, width - 6)
  {
    var at, n := MatchIn(text, term, fold), width - 3;
    MatchIs(text, term, fold);
    if |text| > width && at >= 0 && at + |term| > n {
      if |text| - at <= n {
        TailShown(text, n);
      } else {
        MiddleShown(text, at, |term|, width);
      }
    }
  }

  lemma TailShown(text: string, n: int)
    requires 0 < n <= |text|
    ensures Slice(text, -n, |text|) == Tail(text, n)
  {
  }

  lemma MiddleShown(text: string, at: nat, term: nat, width: int)
    requires width >= 6 && |text| > width && at + term <= |text| && InTheMiddle(|text|, at, term, width)
    ensures InTheMiddleOf(WindowAt(text, at, term, width), text, at, term, width - 6)
  {
    var p := PaneAt(|text|, at, term, width);
    assert 0 <= p.low <= p.high == p.low + (width - 6) <= |text|;
    assert Centred(WindowAt(text, at, term, width), text, p.low, at, term, width - 6);
  }

  ghost predicate InTheMiddleOf(shown: string, text: string, at: nat, term: nat, room: nat) {
    exists start :: 0 <= start && Centred(shown, text, start, at, term, room)
  }

  /** `room` characters from `start` on are shown and hold the match in their middle, or begin with it. */
  ghost predicate Centred(shown: string, text: string, start: nat, at: int, term: nat, room: nat) {
    && start + room <= |text| && start <= at && shown == "..." + text[start..start + room] + "..."
    && (if term <= room then (start + room) - (at + term) - (at - start) in {0, 1} else start == at)
  }

  /** From six characters on the match lies in the slice shown exactly when it fits between two
      ellipses or stands in the head or the tail. */
  lemma PaneHoldsMatch(length: nat, at: nat, term: nat, width: int)
    requires length > width && at + term <= length
    ensures
      var p := PaneAt(length, at, term, width);
      var holds := Bound(p.low, length) <= at && at + term <= Bound(p.high, length);
      && (term <= width - 6 || !InTheMiddle(length, at, term, width) ==> holds)
      && (width >= 6 && term > 0 && holds ==> term <= width - 6 || !InTheMiddle(length, at, term, width))
  {
  }

  lemma LowerPart(text: string, fold: char -> char, a: nat, b: nat)
    requires a <= b <= |text|
    ensures Lower(text[a..b], fold) == Lower(text, fold)[a..b]
  {
  }

  lemma SubSlice(text: string, low: nat, high: nat, a: nat, b: nat)
    requires low <= a <= b <= high <= |text|
    ensures text[low..high][a - low..b - low] == text[a..b]
  {
    var part := text[low..high];
    forall i | 0 <= i < b - a ensures part[a - low..b - low][i] == text[a..b][i] {
      assert part[a - low + i] == text[a + i];
    }
  }

  lemma Enclosed(lead: string, part: string, tail: string, a: nat, b: nat)
    requires a <= b <= |part|
    ensures (lead + part + tail)[|lead| + a..|lead| + b] == part[a..b]
  {
  }

  /** Where the match stands in what is shown. */
  lemma MatchAt(text: string, p: Pane, at: nat, term: nat)
    requires at + term <= |text|
    requires Bound(p.low, |text|) <= at && at + term <= Bound(p.high, |text|)
    ensures
      var k := |p.lead| + at - Bound(p.low, |text|);
      k + term <= |Through(text, p)| && Through(text, p)[k..k + term] == text[at..at + term]
  {
    var low, high := Bound(p.low, |text|), Bound(p.high, |text|);
    if low < high {
      SubSlice(text, low, high, at, at + term);
      Enclosed(p.lead, text[low..high], p.tail, at - low, at + term - low);
    }
  }

  lemma MatchShown(text: string, at: nat, term: nat, width: int) returns (k: nat)
    requires at + term <= |text|
    requires |text| <= width || term <= width - 6 || !InTheMiddle(|text|, at, term, width)
    ensures var shown := WindowAt(text, at, term, width);
      k + term <= |shown| && shown[k..k + term] == text[at..at + term]
  {
    if |text| <= width {
      k := at;
    } else {
      var p := PaneAt(|text|, at, term, width);
      PaneHoldsMatch(|text|, at, term, width);
      MatchAt(text, p, at, term);
      k := |p.lead| + at - Bound(p.low, |text|);
    }
  }

  lemma MatchFolds(text: string, term: string, fold: char -> char)
    requires MatchIn(text, term, fold) >= 0
    ensures var at := MatchIn(text, term, fold);
      at + |term| <= |text| && Lower(text[at..at + |term|], fold) == Lower(term, fold)
  {
    var at := MatchIn(text, term, fold);
    LowerPart(text, fold, at, at + |term|);
  }

  /** A matched line shows the whole match, in its own case, when the term fits in the width
      less two ellipses, or the match lies in the head or the tail. */
  lemma WindowShowsTheMatch(text: string, term: string, width: int, fold: char -> char, at: nat) returns (k: nat)
    requires at == MatchIn(text, term, fold)
    requires |text| <= width || |term| <= width - 6 || !InTheMiddle(|text|, at, |term|, width)
    ensures
      var shown := Window(text, term, width, fold);
      && at + |term| <= |text| && k + |term| <= |shown| && shown[k..k + |term|] == text[at..at + |term|]
      && Lower(shown[k..k + |term|], fold) == Lower(term, fold)
  {
    MatchFolds(text, term, fold);
    k := MatchShown(text, at, |term|, width);
  }

  /** Otherwise it shows as much of the start of the match as there is room for. */
  lemma WindowCutsTheMatch(text: string, term: string, width: int, fold: char -> char, at: nat)
    requires at == MatchIn(text, term, fold) && |text| > width >= 6
    requires |term| > width - 6 && InTheMiddle(|text|, at, |term|, width)
    ensures at + width - 6 < |text| && Window(text, term, width, fold) == "..." + text[at..at + width - 6] + "..."
  {
    MatchFolds(text, term, fold);
    assert PaneAt(|text|, at, |term|, width) == Pane("...", at, at + width - 6, "...");
    if width == 6 {
      assert text[at..at] == "";
    }
  }

  const LONG_LINE := "xxxxxxxxabcdexxxxxxxx"

  lemma LongLineMatches()
    ensures |LONG_LINE| == 21 && |"abcde"| == 5 && MatchIn(LONG_LINE, "abcde", c => c) == 8
  {
    assert Lower(LONG_LINE, c => c) == LONG_LINE && Lower("abcde", c => c) == "abcde";
    assert OccursAt(LONG_LINE, "abcde", 8);
    forall i: nat | i <= 16 && OccursAt(LONG_LINE, "abcde", i) ensures i == 8 {
      assert LONG_LINE[i..i + 5][0] == LONG_LINE[i];
      assert "abcde"[0] == 'a';
    }
  }

  lemma StartOfTerm()
    ensures LONG_LINE[8..12] == "abcd"
  {
    assert LONG_LINE == "xxxxxxxx" + "abcd" + "exxxxxxxx";
    Enclosed("xxxxxxxx", "abcd", "exxxxxxxx", 0, 4);
    assert "abcd"[0..4] == "abcd";
  }

  /** A term that the documentation has whole is shown cut. */
  lemma TermCanBeCut()
    ensures Window(LONG_LINE, "abcde", 10, c => c) == "...abcd..."
  {
    LongLineMatches();
    WindowCutsTheMatch(LONG_LINE, "abcde", 10, c => c, 8);
    StartOfTerm();
  }

  /** And a line of five characters is given six. */
  lemma WindowCanOverflow()
    ensures Window(LONG_LINE, "abcde", 5, c => c) == "......"
  {
    LongLineMatches();
    assert PaneAt(21, 8, 5, 5) == Pane("...", 8, 7, "...");
  }
}
