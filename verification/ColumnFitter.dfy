/**
 The greedy column allocator of the `diff` screens.  A table too wide for the line gives
 up one character at a time, always from the widest column of the first phase that still
 has one above its floor.  Both `_fit` functions are this loop over different phases.

 The specification is a water level: after a phase every candidate is as wide as it was,
 or as the level, whichever is less, the last few candidates standing one higher.
 */
module ColumnFitter {
  import opened Prelude

  const MAX_LINE := 78
  const MIN_CELL := 16       // the object listing's comfortable floor
  const DATA_MIN_CELL := 12  // the data block's
  const LAST_FLOOR := 4      // an ellipsis and one character

  type Widths = map<string, nat>

  /** The columns that give way together, and the width none of them goes below. */
  datatype Phase = Phase(candidates: seq<string>, floor: nat)

  // ----- the geometry of a line

  function Sum(columns: seq<string>, widths: Widths): nat
    requires forall c :: c in columns ==> c in widths
  {
    if columns == [] then 0 else Sum(columns[..|columns| - 1], widths) + widths[Last(columns)]
  }

  /** Two columns of indent and a gutter of three between cells. */
  function LineWidth(columns: seq<string>, widths: Widths): nat
    requires forall c :: c in columns ==> c in widths
  {
    if columns == [] then 0 else 2 + Sum(columns, widths) + 3 * (|columns| - 1)
  }

  // ----- the greedy choice

  /** The first widest of the candidates above the floor, as `max` over a list picks it. */
  function Widest(candidates: seq<string>, floor: nat, widths: Widths): Option<string> {
    if candidates == [] then None else
      var c := Last(candidates);
      var best := Widest(candidates[..|candidates| - 1], floor, widths);
      if c !in widths || widths[c] <= floor then best
      else if best.Some? && best.value in widths && widths[best.value] >= widths[c] then best
      else Some(c)
  }

  function NextToTrim(phases: seq<Phase>, widths: Widths): Option<string> {
    if phases == [] then None else
      var first := Widest(phases[0].candidates, phases[0].floor, widths);
      if first.Some? then first else NextToTrim(phases[1..], widths)
  }

  // ----- the water level

  function Rank(candidates: seq<string>, c: string): (r: nat)
    ensures c in candidates ==> r < |candidates| && candidates[r] == c
    ensures forall k :: 0 <= k < r && k < |candidates| ==> candidates[k] != c
    ensures c !in candidates ==> r == |candidates|
  {
    if candidates == [] || candidates[0] == c then 0 else 1 + Rank(candidates[1..], c)
  }

  /** The water stands at `whole`, and one higher at the last `extra` places. */
  datatype Level = Level(whole: nat, extra: nat)

  function Cap(level: Level, n: nat, rank: nat): nat {
    level.whole + (if rank + level.extra >= n then 1 else 0)
  }

  /** One character less over all the places. */
  function Lower(level: Level, n: nat): Level
    requires 0 < n && (level.extra > 0 || level.whole > 0)
  {
    if level.extra > 0 then level.(extra := level.extra - 1) else Level(level.whole - 1, n - 1)
  }

  /** The place that character would come from. */
  function Slot(level: Level, n: nat): nat
    requires 0 < n && level.extra < n
  {
    if level.extra > 0 then n - level.extra else 0
  }

  function Min(a: nat, b: nat): nat { if a <= b then a else b }

  function Pour(base: Widths, candidates: seq<string>, level: Level): Widths {
    map c | c in base ::
      if c in candidates then Min(base[c], Cap(level, |candidates|, Rank(candidates, c))) else base[c]
  }

  function Ceiling(columns: seq<string>, widths: Widths): (m: nat)
    requires forall c :: c in columns ==> c in widths
    ensures forall c :: c in columns ==> widths[c] <= m
  {
    if columns == [] then 0 else
      var m := Ceiling(columns[..|columns| - 1], widths);
      if widths[Last(columns)] > m then widths[Last(columns)] else m
  }

  /** A level above every column, and the level at which every candidate is at the floor. */
  function Top(columns: seq<string>, base: Widths, phases: seq<Phase>): Level
    requires forall c :: c in columns ==> c in base
  {
    Level(Ceiling(columns, base) + if phases == [] then 0 else phases[0].floor, 0)
  }

  predicate AboveFloor(level: Level, phase: Phase) {
    phase.candidates != [] && (level.whole > phase.floor || (level.whole == phase.floor && level.extra > 0))
  }

  ghost predicate Table(columns: seq<string>, widths: Widths) {
    Distinct(columns) && forall c :: c in widths <==> c in columns
  }

  /** What the phases leave: the water of each phase sinks until the line fits, and only a
      phase that reached its floor hands over to the next. */
  ghost function Allocate(
    columns: seq<string>, base: Widths, phases: seq<Phase>, level: Level, budget: nat): (r: Widths)
    requires Table(columns, base)
    ensures Table(columns, r)
    decreases |phases|, level.whole, level.extra
  {
    if phases == [] then base else
      var now := Pour(base, phases[0].candidates, level);
      if LineWidth(columns, now) <= budget then now
      else if AboveFloor(level, phases[0])
      then Allocate(columns, base, phases, Lower(level, |phases[0].candidates|), budget)
      else Allocate(columns, now, phases[1..], Top(columns, now, phases[1..]), budget)
  }

  // ----- one step of the loop is one step of the level

  /** The widths in hand, `level` being where the first phase stands. */
  function Now(base: Widths, phases: seq<Phase>, level: Level): Widths {
    if phases == [] then base else Pour(base, phases[0].candidates, level)
  }

  /** Lowering the level takes a character from a real column. */
  predicate Tight(base: Widths, candidates: seq<string>, level: Level)
    requires candidates != [] && level.extra < |candidates|
  {
    var r := Slot(level, |candidates|);
    var c := candidates[r];
    c in base && Rank(candidates, c) == r && base[c] >= Cap(level, |candidates|, r)
  }

  lemma Loosen(base: Widths, candidates: seq<string>, level: Level)
    requires candidates != [] && level.extra < |candidates| && (level.extra > 0 || level.whole > 0)
    requires !Tight(base, candidates, level)
    ensures Pour(base, candidates, Lower(level, |candidates|)) == Pour(base, candidates, level)
  {
    var n := |candidates|;
    forall c | c in base && c in candidates
      ensures Min(base[c], Cap(Lower(level, n), n, Rank(candidates, c)))
        == Min(base[c], Cap(level, n, Rank(candidates, c)))
    {
      if Rank(candidates, c) == Slot(level, n) {
        assert candidates[Slot(level, n)] == c;
      }
    }
  }

  lemma {:induction false} WidestIs(candidates: seq<string>, floor: nat, widths: Widths, r: nat)
    requires r < |candidates| && candidates[r] in widths && widths[candidates[r]] > floor
    requires forall k :: 0 <= k < r && candidates[k] in widths ==> widths[candidates[k]] < widths[candidates[r]]
    requires forall k :: r < k < |candidates| && candidates[k] in widths ==>
      widths[candidates[k]] <= widths[candidates[r]]
    ensures Widest(candidates, floor, widths) == Some(candidates[r])
  {
    var n := |candidates|;
    var before := candidates[..n - 1];
    if r < n - 1 {
      WidestIs(before, floor, widths, r);
    } else {
      WidestMember(before, floor, widths);
    }
  }

  lemma {:induction false} WidestMember(candidates: seq<string>, floor: nat, widths: Widths)
    ensures
      var w := Widest(candidates, floor, widths);
      if w.Some? then w.value in candidates && w.value in widths && widths[w.value] > floor
      else forall c :: c in candidates && c in widths ==> widths[c] <= floor
  {
    if candidates != [] {
      WidestMember(candidates[..|candidates| - 1], floor, widths);
      assert candidates == candidates[..|candidates| - 1] + [Last(candidates)];
    }
  }

  lemma TrimLowers(base: Widths, C: seq<string>, level: Level)
    requires C != [] && level.extra < |C| && (level.extra > 0 || level.whole > 0) && Tight(base, C, level)
    ensures
      var now := Pour(base, C, level);
      var c := C[Slot(level, |C|)];
      now[c] == Cap(level, |C|, Slot(level, |C|)) > 0 && Pour(base, C, Lower(level, |C|)) == now[c := now[c] - 1]
  {
    var now, low, c := Pour(base, C, level), Pour(base, C, Lower(level, |C|)), C[Slot(level, |C|)];
    forall d | d in base ensures low[d] == now[c := now[c] - 1][d] {
      if d in C && Rank(C, d) == Slot(level, |C|) { assert d == c; }
    }
  }

  lemma PourBound(base: Widths, C: seq<string>, level: Level, k: nat)
    requires k < |C| && C[k] in base
    ensures Rank(C, C[k]) <= k && Pour(base, C, level)[C[k]] <= Cap(level, |C|, Rank(C, C[k])) <= Cap(level, |C|, k)
  {
  }

  lemma Trim(base: Widths, phase: Phase, level: Level)
    requires phase.candidates != [] && level.extra < |phase.candidates| && AboveFloor(level, phase)
    requires Tight(base, phase.candidates, level)
    ensures
      var now := Pour(base, phase.candidates, level);
      var c := phase.candidates[Slot(level, |phase.candidates|)];
      && c in now && now[c] > 0
      && Widest(phase.candidates, phase.floor, now) == Some(c)
      && Pour(base, phase.candidates, Lower(level, |phase.candidates|)) == now[c := now[c] - 1]
  {
    var C, r := phase.candidates, Slot(level, |phase.candidates|);
    var now := Pour(base, C, level);
    TrimLowers(base, C, level);
    forall k | 0 <= k < |C| && C[k] in now
      ensures k < r ==> now[C[k]] < now[C[r]]
      ensures k > r ==> now[C[k]] <= now[C[r]]
    {
      PourBound(base, C, level, k);
    }
    WidestIs(C, phase.floor, now, r);
  }

  /** A phase that is drained has nothing left to take. */
  ghost predicate Drained(phase: Phase, widths: Widths) {
    forall c :: c in phase.candidates && c in widths ==> widths[c] <= phase.floor
  }

  lemma {:induction false} SkipDrained(phases: seq<Phase>, k: nat, widths: Widths)
    requires k <= |phases| && forall i :: 0 <= i < k ==> Drained(phases[i], widths)
    ensures NextToTrim(phases, widths) == NextToTrim(phases[k..], widths)
  {
    if k > 0 {
      WidestMember(phases[0].candidates, phases[0].floor, widths);
      assert phases[1..][k - 1..] == phases[k..];
      SkipDrained(phases[1..], k - 1, widths);
    }
  }

  lemma PourAtTop(columns: seq<string>, base: Widths, phases: seq<Phase>)
    requires Table(columns, base)
    ensures Now(base, phases, Top(columns, base, phases)) == base
  {
  }

  /** Where the first phase stands when its level may still sink. */
  predicate Standing(phases: seq<Phase>, level: Level) {
    phases == [] ||
    (level.whole >= phases[0].floor
      && (if phases[0].candidates == [] then level.extra == 0 else level.extra < |phases[0].candidates|))
  }

  /** A point of the run: `base` is what the phases before `k` left, `level` where phase `k` stands. */
  datatype Point = Point(base: Widths, k: nat, level: Level)

  /** The point of a run over `phases` that holds `widths` and will end on `outcome`. */
  ghost predicate OnCourse(
    columns: seq<string>, phases: seq<Phase>, widths: Widths, p: Point, budget: nat, outcome: Widths) {
    && p.k <= |phases| && Table(columns, p.base) && Standing(phases[p.k..], p.level)
    && widths == Now(p.base, phases[p.k..], p.level)
    && (forall i :: 0 <= i < p.k ==> Drained(phases[i], widths))
    && Allocate(columns, p.base, phases[p.k..], p.level, budget) == outcome
  }

  /** The phase the run stands in hands over to the next one. */
  lemma HandOver(columns: seq<string>, phases: seq<Phase>, widths: Widths, p: Point, budget: nat, outcome: Widths)
    returns (q: Point)
    requires OnCourse(columns, phases, widths, p, budget, outcome)
    requires LineWidth(columns, widths) > budget && p.k < |phases| && !AboveFloor(p.level, phases[p.k])
    ensures OnCourse(columns, phases, widths, q, budget, outcome) && q.k == p.k + 1
  {
    var rest := phases[p.k..];
    assert rest[1..] == phases[p.k + 1..] && rest[0] == phases[p.k];
    q := Point(widths, p.k + 1, Top(columns, widths, phases[p.k + 1..]));
    PourAtTop(columns, widths, phases[p.k + 1..]);
    assert Drained(phases[p.k], widths);
  }

  lemma SinkTrims(columns: seq<string>, phases: seq<Phase>, widths: Widths, p: Point, budget: nat, outcome: Widths)
    returns (c: string)
    requires OnCourse(columns, phases, widths, p, budget, outcome)
    requires LineWidth(columns, widths) > budget && p.k < |phases| && AboveFloor(p.level, phases[p.k])
    requires Tight(p.base, phases[p.k].candidates, p.level)
    ensures NextToTrim(phases, widths) == Some(c) && c in widths && widths[c] > 0
    ensures Pour(p.base, phases[p.k].candidates, Lower(p.level, |phases[p.k].candidates|)) == widths[c := widths[c] - 1]
  {
    var phase := phases[p.k];
    assert phases[p.k..][0] == phase;
    Trim(p.base, phase, p.level);
    SkipDrained(phases, p.k, widths);
    c := phase.candidates[Slot(p.level, |phase.candidates|)];
  }

  /** The level sinks by one; the widths stay, or lose the character `widest` names. */
  lemma Sink(columns: seq<string>, phases: seq<Phase>, widths: Widths, p: Point, budget: nat, outcome: Widths)
    returns (q: Point)
    requires OnCourse(columns, phases, widths, p, budget, outcome)
    requires LineWidth(columns, widths) > budget && p.k < |phases| && AboveFloor(p.level, phases[p.k])
    ensures q == p.(level := Lower(p.level, |phases[p.k].candidates|))
    ensures
      if Tight(p.base, phases[p.k].candidates, p.level) then
        var c := NextToTrim(phases, widths);
        && c.Some? && c.value in widths && widths[c.value] > 0
        && OnCourse(columns, phases, widths[c.value := widths[c.value] - 1], q, budget, outcome)
      else OnCourse(columns, phases, widths, q, budget, outcome)
  {
    var phase := phases[p.k];
    assert phases[p.k..][0] == phase;
    q := p.(level := Lower(p.level, |phase.candidates|));
    if Tight(p.base, phase.candidates, p.level) {
      var c := SinkTrims(columns, phases, widths, p, budget, outcome);
    } else {
      Loosen(p.base, phase.candidates, p.level);
    }
  }

  /** From a line that is too wide to the next character the loop takes: either there is
      none left and the widths are the outcome, or the loop stays on course. */
  lemma {:induction false} Advance(
    columns: seq<string>, phases: seq<Phase>, widths: Widths, p: Point, budget: nat, outcome: Widths)
    returns (q: Point)
    requires OnCourse(columns, phases, widths, p, budget, outcome) && LineWidth(columns, widths) > budget
    ensures
      var c := NextToTrim(phases, widths);
      if c.None? then widths == outcome
      else c.value in widths && widths[c.value] > 0
           && OnCourse(columns, phases, widths[c.value := widths[c.value] - 1], q, budget, outcome)
    decreases |phases| - p.k, p.level.whole, p.level.extra
  {
    if p.k == |phases| {
      SkipDrained(phases, p.k, widths);
      q := p;
    } else if !AboveFloor(p.level, phases[p.k]) {
      q := HandOver(columns, phases, widths, p, budget, outcome);
      q := Advance(columns, phases, widths, q, budget, outcome);
    } else {
      q := Sink(columns, phases, widths, p, budget, outcome);
      if !Tight(p.base, phases[p.k].candidates, p.level) {
        q := Advance(columns, phases, widths, q, budget, outcome);
      }
    }
  }

  // ----- sums over the columns

  lemma {:induction false} SumTrim(columns: seq<string>, widths: Widths, c: string)
    requires Distinct(columns) && (forall d :: d in columns ==> d in widths) && c in widths && widths[c] > 0
    ensures Sum(columns, widths[c := widths[c] - 1]) + (if c in columns then 1 else 0) == Sum(columns, widths)
  {
    if columns != [] {
      var before := columns[..|columns| - 1];
      assert columns == before + [Last(columns)];
      SumTrim(before, widths, c);
    }
  }

  lemma {:induction false} SumMono(columns: seq<string>, low: Widths, high: Widths)
    requires forall c :: c in columns ==> c in low && c in high && low[c] <= high[c]
    ensures Sum(columns, low) <= Sum(columns, high)
    ensures (exists c :: c in columns && low[c] < high[c]) ==> Sum(columns, low) < Sum(columns, high)
  {
    if columns != [] {
      var before := columns[..|columns| - 1];
      assert columns == before + [Last(columns)];
      SumMono(before, low, high);
    }
  }

  /** One level lower is at most one character less on the line. */
  lemma LowerLine(columns: seq<string>, base: Widths, C: seq<string>, level: Level)
    requires Table(columns, base) && C != [] && level.extra < |C| && (level.extra > 0 || level.whole > 0)
    ensures LineWidth(columns, Pour(base, C, Lower(level, |C|))) + 1 >= LineWidth(columns, Pour(base, C, level))
  {
    if Tight(base, C, level) {
      TrimLowers(base, C, level);
      SumTrim(columns, Pour(base, C, level), C[Slot(level, |C|)]);
    } else {
      Loosen(base, C, level);
    }
  }

  // ----- the loop

  lemma Depart(columns: seq<string>, natural: Widths, phases: seq<Phase>, budget: nat)
    returns (p: Point, outcome: Widths)
    requires Table(columns, natural)
    ensures outcome == Allocate(columns, natural, phases, Top(columns, natural, phases), budget)
    ensures OnCourse(columns, phases, natural, p, budget, outcome)
  {
    p := Point(natural, 0, Top(columns, natural, phases));
    outcome := Allocate(columns, natural, phases, Top(columns, natural, phases), budget);
    PourAtTop(columns, natural, phases);
    assert phases[0..] == phases;
  }

  lemma Arrive(columns: seq<string>, phases: seq<Phase>, widths: Widths, p: Point, budget: nat, outcome: Widths)
    requires OnCourse(columns, phases, widths, p, budget, outcome) && LineWidth(columns, widths) <= budget
    ensures widths == outcome
  {
  }

  lemma OneLess(columns: seq<string>, widths: Widths, c: string)
    requires Table(columns, widths) && c in widths && widths[c] > 0
    ensures Table(columns, widths[c := widths[c] - 1])
    ensures Sum(columns, widths[c := widths[c] - 1]) < Sum(columns, widths)
  {
    SumTrim(columns, widths, c);
  }

  /** The `while` loop of both `_fit` functions. */
  method Shrink(columns: seq<string>, natural: Widths, phases: seq<Phase>) returns (widths: Widths)
    requires Table(columns, natural)
    ensures widths == Allocate(columns, natural, phases, Top(columns, natural, phases), MAX_LINE)
  {
    ghost var p, outcome := Depart(columns, natural, phases, MAX_LINE);
    widths := natural;
    while LineWidth(columns, widths) > MAX_LINE
      invariant Table(columns, widths)
      invariant OnCourse(columns, phases, widths, p, MAX_LINE, outcome)
      decreases Sum(columns, widths)
    {
      p := Advance(columns, phases, widths, p, MAX_LINE, outcome);
      var widest := NextToTrim(phases, widths);
      if widest == None {
        return;
      }
      OneLess(columns, widths, widest.value);
      widths := widths[widest.value := widths[widest.value] - 1];
    }
    Arrive(columns, phases, widths, p, MAX_LINE, outcome);
  }

  // ----- what the outcome is

  /** The least a column can be left with. */
  function Least(phases: seq<Phase>, c: string, width: nat): nat {
    if phases == [] then width else
      Least(phases[1..], c, if c in phases[0].candidates then Min(width, phases[0].floor) else width)
  }

  function AllAtLeast(phases: seq<Phase>, base: Widths): Widths {
    map c | c in base :: Least(phases, c, base[c])
  }

  predicate Flexible(phases: seq<Phase>, c: string) {
    exists p :: p in phases && c in p.candidates
  }

  lemma {:induction false} LeastBound(phases: seq<Phase>, c: string, width: nat)
    ensures Least(phases, c, width) <= width
    ensures !Flexible(phases, c) ==> Least(phases, c, width) == width
  {
    if phases != [] {
      LeastBound(phases[1..], c, if c in phases[0].candidates then Min(width, phases[0].floor) else width);
      assert phases[0] in phases;
      assert forall p :: p in phases[1..] ==> p in phases;
    }
  }

  lemma LeastOfPoured(phases: seq<Phase>, base: Widths, level: Level)
    requires phases != [] && Standing(phases, level)
    ensures AllAtLeast(phases, Now(base, phases, level)) == AllAtLeast(phases, base)
    ensures !AboveFloor(level, phases[0]) ==>
      AllAtLeast(phases[1..], Now(base, phases, level)) == AllAtLeast(phases, base)
  {
  }

  ghost predicate Within(low: Widths, r: Widths, high: Widths) {
    && low.Keys == r.Keys == high.Keys
    && forall c :: c in r ==> low[c] <= r[c] <= high[c]
  }

  /** No column grows, none goes below its last floor; and a line that still does not fit
      has every column at its least. */
  lemma {:induction false} AllocateBounds(
    columns: seq<string>, base: Widths, phases: seq<Phase>, level: Level, budget: nat)
    requires Table(columns, base) && Standing(phases, level)
    ensures
      var r := Allocate(columns, base, phases, level, budget);
      && Within(AllAtLeast(phases, base), r, base)
      && (LineWidth(columns, r) > budget ==> r == AllAtLeast(phases, base))
    decreases |phases|, level.whole, level.extra
  {
    if phases == [] {
      assert AllAtLeast(phases, base) == base;
      return;
    }
    var now := Now(base, phases, level);
    LeastOfPoured(phases, base, level);
    if LineWidth(columns, now) <= budget {
      forall c | c in base ensures Least(phases, c, now[c]) <= now[c] { LeastBound(phases, c, now[c]); }
      assert forall c :: c in base ==> AllAtLeast(phases, now)[c] == Least(phases, c, now[c]);
    } else if AboveFloor(level, phases[0]) {
      AllocateBounds(columns, base, phases, Lower(level, |phases[0].candidates|), budget);
    } else {
      AllocateBounds(columns, now, phases[1..], Top(columns, now, phases[1..]), budget);
    }
  }

  /** Trimming stops at the first line that fits, so nothing is given away. */
  lemma {:induction false} AllocateExact(
    columns: seq<string>, base: Widths, phases: seq<Phase>, level: Level, budget: nat)
    requires Table(columns, base) && Standing(phases, level)
    requires LineWidth(columns, Now(base, phases, level)) >= budget
    ensures LineWidth(columns, Allocate(columns, base, phases, level, budget)) >= budget
    decreases |phases|, level.whole, level.extra
  {
    if phases != [] {
      var now := Now(base, phases, level);
      if LineWidth(columns, now) <= budget {
      } else if AboveFloor(level, phases[0]) {
        LowerLine(columns, base, phases[0].candidates, level);
        AllocateExact(columns, base, phases, Lower(level, |phases[0].candidates|), budget);
      } else {
        PourAtTop(columns, now, phases[1..]);
        AllocateExact(columns, now, phases[1..], Top(columns, now, phases[1..]), budget);
      }
    }
  }

  /** A column that no phase up to `i` names is narrowed only once phase `i` is drained. */
  lemma {:induction false} AllocateDisciplined(
    columns: seq<string>, base: Widths, phases: seq<Phase>, level: Level, budget: nat, i: nat, c: string)
    requires Table(columns, base) && Standing(phases, level) && i < |phases| && c in base
    requires !Flexible(phases[..i + 1], c)
    requires Allocate(columns, base, phases, level, budget)[c] < base[c]
    ensures Drained(phases[i], Allocate(columns, base, phases, level, budget))
    decreases |phases|, level.whole, level.extra
  {
    var now := Now(base, phases, level);
    assert phases[..i + 1][0] == phases[0] && phases[0] in phases[..i + 1];
    assert now[c] == base[c];
    if LineWidth(columns, now) <= budget {
    } else if AboveFloor(level, phases[0]) {
      AllocateDisciplined(columns, base, phases, Lower(level, |phases[0].candidates|), budget, i, c);
    } else {
      var rest, top := phases[1..], Top(columns, now, phases[1..]);
      AllocateBounds(columns, now, rest, top, budget);
      if i > 0 {
        assert forall p :: p in rest[..i] ==> p in phases[..i + 1] by {
          forall p | p in rest[..i] ensures p in phases[..i + 1] {
            var k :| 0 <= k < i && rest[k] == p;
            assert phases[..i + 1][k + 1] == p;
          }
        }
        AllocateDisciplined(columns, now, rest, top, budget, i - 1, c);
      }
    }
  }

  /** `d` gives way wherever `c` does. */
  ghost predicate Together(phases: seq<Phase>, c: string, d: string) {
    forall p :: p in phases && c in p.candidates ==> d in p.candidates
  }

  /** Once a column was narrowed, none that gives way with it stands more than one above it. */
  lemma {:induction false} AllocateFair(
    columns: seq<string>, base: Widths, phases: seq<Phase>, level: Level, budget: nat, c: string, d: string)
    requires Table(columns, base) && Standing(phases, level) && c in base && d in base && Together(phases, c, d)
    requires Allocate(columns, base, phases, level, budget)[c] < base[c]
    ensures
      var r := Allocate(columns, base, phases, level, budget);
      d in r && r[d] <= r[c] + 1
    decreases |phases|, level.whole, level.extra
  {
    var now := Now(base, phases, level);
    assert phases[0] in phases;
    if LineWidth(columns, now) <= budget {
    } else if AboveFloor(level, phases[0]) {
      AllocateFair(columns, base, phases, Lower(level, |phases[0].candidates|), budget, c, d);
    } else {
      var rest, top := phases[1..], Top(columns, now, phases[1..]);
      AllocateBounds(columns, now, rest, top, budget);
      if Allocate(columns, now, rest, top, budget)[c] < now[c] {
        AllocateFair(columns, now, rest, top, budget, c, d);
      }
    }
  }

  /** Below `floor` columns stand in candidate order: none is more than one above another that
      was cut, and none listed before it is above it at all. */
  ghost predicate Ordered(base: Widths, r: Widths, candidates: seq<string>, floor: nat) {
    forall c, d ::
      c in base && c in candidates && d in base && d in candidates && c in r && d in r && r[c] < Min(base[c], floor) ==>
        r[d] <= r[c] + 1 && (Rank(candidates, d) < Rank(candidates, c) ==> r[d] <= r[c])
  }

  /** What stands under the floors of all but the last phase was cut by that phase alone. */
  lemma {:induction false} AllocateOrdered(
    columns: seq<string>, base: Widths, phases: seq<Phase>, level: Level, budget: nat, floor: nat, c: string, d: string)
    requires Table(columns, base) && phases != [] && Standing(phases, level)
    requires forall p :: p in Front(phases) ==> p.floor >= floor
    requires c in base && d in base && d in Last(phases).candidates
    requires Allocate(columns, base, phases, level, budget)[c] < Min(base[c], floor)
    ensures
      var r := Allocate(columns, base, phases, level, budget);
      && d in r && r[d] <= r[c] + 1
      && (Rank(Last(phases).candidates, d) < Rank(Last(phases).candidates, c) ==> r[d] <= r[c])
    decreases |phases|, level.whole, level.extra
  {
    var now := Now(base, phases, level);
    assert |phases| > 1 ==> phases[0] in Front(phases);
    if LineWidth(columns, now) <= budget {
    } else if AboveFloor(level, phases[0]) {
      AllocateOrdered(columns, base, phases, Lower(level, |phases[0].candidates|), budget, floor, c, d);
    } else if |phases| > 1 {
      var rest := phases[1..];
      assert Last(rest) == Last(phases);
      assert forall p :: p in Front(rest) ==> p in Front(phases) by {
        forall p | p in Front(rest) ensures p in Front(phases) {
          var k :| 0 <= k < |rest| - 1 && rest[k] == p;
          assert Front(phases)[k + 1] == p;
        }
      }
      AllocateOrdered(columns, now, rest, Top(columns, now, rest), budget, floor, c, d);
    }
  }
}
