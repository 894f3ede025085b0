/**
 `render_calendar_grid`: the month as rows of Monday to Friday, found by stepping from the
 Monday on or before the first, week by week, until a week lies wholly past the month.

 The loop is written against the few facts about the calendar it relies on (`Sound`), which
 `GregorianIsSound` then proves of the Gregorian calendar.  The screen is read back by `Read`,
 which knows nothing of weeks: it collects the cells under the column header naming a date.
 */
module CalendarGrid {
  import opened Prelude
  import opened Dates

  datatype Entry = Entry(text: string, count: nat)

  type Days = map<Date, seq<Entry>>

  datatype Line =
    | Header(dates: seq<Option<Date>>)   // a week's dates, blank outside the month
    | Cells(row: seq<Option<Entry>>)     // one entry per weekday, blank where a day has none left
    | Blank

  function EntriesOf(days: Days, d: Date): seq<Entry> {
    if d in days then days[d] else []
  }

  /** A month: the calendar's date of each day number, the month's first day and its length. */
  datatype Month = Month(date: nat -> Date, first: nat, length: nat)

  predicate InMonth(m: Month, n: nat) {
    m.date(n).year == m.date(m.first).year && m.date(n).month == m.date(m.first).month
  }

  /** The days of the month and the four weeks after it. */
  predicate Within(m: Month, n: nat) {
    m.first <= n < m.first + m.length
  }

  predicate After(m: Month, n: nat) {
    m.first + m.length <= n < m.first + m.length + 28
  }

  /** The day after the month's last is past the last representable year. */
  predicate Final(m: Month) {
    m.date(m.first + m.length).year > MAX_YEAR
  }

  /** What the loop relies on: the month is the days `Within`, each its own date, and the days
      `After` it have another month number and all lie in one year. */
  ghost predicate Sound(m: Month) {
    && m.first >= 1 && 28 <= m.length <= 31
    && (forall n: nat :: 1 <= n && m.first < n + 7 && Within(m, n) ==> InMonth(m, n) && m.date(n).year <= MAX_YEAR)
    && (forall n: nat :: 1 <= n && m.first < n + 7 && n < m.first ==> !InMonth(m, n))
    && (forall n: nat :: After(m, n) ==>
          m.date(n).month != m.date(m.first).month && (m.date(n).year > MAX_YEAR <==> Final(m)))
    && (forall n: nat, k: nat :: Within(m, n) && Within(m, k) && m.date(n) == m.date(k) ==> n == k)
  }

  // ----- one printed week

  function HeaderCell(m: Month, n: nat): Option<Date> {
    if InMonth(m, n) then Some(m.date(n)) else None
  }

  function WeekHeader(m: Month, week: seq<nat>): Line {
    Header(seq(|week|, i requires 0 <= i < |week| => HeaderCell(m, week[i])))
  }

  function EntryAt(entries: seq<Entry>, j: nat): Option<Entry> {
    if j < |entries| then Some(entries[j]) else None
  }

  function CellRow(m: Month, week: seq<nat>, days: Days, j: nat): Line {
    Cells(seq(|week|, i requires 0 <= i < |week| => EntryAt(EntriesOf(days, m.date(week[i])), j)))
  }

  function CellRows(m: Month, week: seq<nat>, days: Days, n: nat): seq<Line> {
    seq(n, j requires 0 <= j => CellRow(m, week, days, j))
  }

  function Height(m: Month, week: seq<nat>, days: Days): (h: nat)
    ensures forall n :: n in week ==> |EntriesOf(days, m.date(n))| <= h
  {
    if week == [] then 0 else
      var h, last := Height(m, week[..|week| - 1], days), |EntriesOf(days, m.date(Last(week)))|;
      if last > h then last else h
  }

  function WeekLines(m: Month, week: seq<nat>, days: Days): seq<Line> {
    [WeekHeader(m, week)] + CellRows(m, week, days, Height(m, week, days)) + [Blank]
  }

  // ----- the whole grid, by week number

  /** The Monday of week `k`, week 0 holding the first or ending just before it. */
  function Monday(m: Month, k: nat): (n: nat)
    requires m.first >= 1
    ensures n >= 1
  {
    m.first - Weekday(m.first) + 7 * k
  }

  /** Monday to Friday from `monday` on. */
  function WorkWeek(monday: nat): (week: seq<nat>)
    ensures |week| == 5 && forall i :: 0 <= i < 5 ==> week[i] == monday + i
  {
    seq(5, i requires 0 <= i => monday + i)
  }

  predicate Touches(m: Month, week: seq<nat>) {
    exists i :: 0 <= i < |week| && InMonth(m, week[i])
  }

  function OutputAt(m: Month, days: Days, curr: nat): seq<Line> {
    if Touches(m, WorkWeek(curr)) then WeekLines(m, WorkWeek(curr), days) else []
  }

  /** What week `k` prints. */
  function WeekOutput(m: Month, days: Days, k: nat): seq<Line>
    requires m.first >= 1
  {
    OutputAt(m, days, Monday(m, k))
  }

  function Weeks(m: Month, days: Days): nat -> seq<Line>
    requires m.first >= 1
  {
    (k: nat) => WeekOutput(m, days, k)
  }

  function Grid(m: Month, days: Days): seq<Line>
    requires m.first >= 1
  {
    Joined(Weeks(m, days), 7)
  }

  // ----- where the loop stands

  /** Week `k` begins after the month's last day. */
  predicate Past(m: Month, k: nat)
    requires m.first >= 1
  {
    Monday(m, k) >= m.first + m.length
  }

  /** Week `k` is one the loop may still have to print. */
  predicate Reached(m: Month, k: nat)
    requires m.first >= 1
  {
    k <= 6 && (k == 0 || !Past(m, k - 1)) && (Final(m) ==> !Past(m, k))
  }

  /** Week `k` touches the month unless it is past it, or its Friday is before the first. */
  lemma TouchesWhen(m: Month, k: nat)
    requires Sound(m) && k <= 6
    ensures Touches(m, WorkWeek(Monday(m, k))) <==> !Past(m, k) && Monday(m, k) + 4 >= m.first
  {
    var monday, week := Monday(m, k), WorkWeek(Monday(m, k));
    forall i | 0 <= i < |week| ensures InMonth(m, week[i]) <==> Within(m, week[i]) {
      assert After(m, week[i]) || week[i] < m.first + m.length;
    }
    if !Past(m, k) && monday + 4 >= m.first {
      var i := if monday >= m.first then 0 else m.first - monday;
      assert InMonth(m, week[i]);
    }
  }

  /** The Monday after week `k`. */
  lemma MondayAfter(m: Month, k: nat)
    requires Sound(m) && Reached(m, k)
    ensures
      var next := Monday(m, k + 1);
      && next > m.first
      && (if Past(m, k + 1) then m.date(next).month != m.date(m.first).month
           && (m.date(next).year > MAX_YEAR <==> Final(m))
          else InMonth(m, next) && m.date(next).year <= MAX_YEAR)
  {
    var next := Monday(m, k + 1);
    assert Within(m, next) || After(m, next);
  }

  /** The weeks from the one the loop stopped at on touch the month no more. */
  lemma NothingBeyond(m: Month, days: Days, k: nat)
    requires Sound(m) && k <= 6 && Past(m, k)
    ensures Joined(Weeks(m, days), k) == Grid(m, days)
  {
    forall i: nat | k <= i < 7 ensures Weeks(m, days)(i) == [] {
      TouchesWhen(m, i);
    }
    JoinedEmpty(Weeks(m, days), k, 7);
  }

  /** How a turn of the loop can end. */
  datatype Exit = Overflow | Break | NextWeek

  function ExitOf(m: Month, curr: nat): Exit {
    if m.date(curr + 7).year > MAX_YEAR then Overflow
    else if
      !Touches(m, WorkWeek(curr)) && m.date(curr + 7).month != m.date(m.first).month && curr + 7 > m.first
    then Break
    else NextWeek
  }

  /** The loop stands before week `k`. */
  ghost predicate At(m: Month, days: Days, k: nat, curr: nat, lines: seq<Line>)
    requires m.first >= 1
  {
    Reached(m, k) && curr == Monday(m, k) && lines == Joined(Weeks(m, days), k)
  }

  /** Where a turn from week `k` leads. */
  lemma TurnExits(m: Month, k: nat)
    requires Sound(m) && Reached(m, k)
    ensures
      match ExitOf(m, Monday(m, k))
      case Overflow => Final(m)
      case Break => !Final(m) && Past(m, k)
      case NextWeek => k < 6 && Reached(m, k + 1)
  {
    MondayAfter(m, k);
    TouchesWhen(m, k);
  }

  /** One turn of the loop. */
  lemma Turn(m: Month, days: Days, k: nat, curr: nat, lines: seq<Line>)
    requires Sound(m) && At(m, days, k, curr, lines)
    ensures
      match ExitOf(m, curr)
      case Overflow => Final(m)
      case Break => !Final(m) && lines == Grid(m, days)
      case NextWeek => k < 6 && At(m, days, k + 1, curr + 7, lines + OutputAt(m, days, curr))
  {
    TurnExits(m, k);
    if Past(m, k) {
      NothingBeyond(m, days, k);
    }
  }

  // ----- the loop

  /** The height of a week is that of its fullest day. */
  lemma {:induction false} HeightIs(m: Month, week: seq<nat>, days: Days) returns (n: nat)
    requires week != []
    ensures n in week && Height(m, week, days) == |EntriesOf(days, m.date(n))|
  {
    var front := week[..|week| - 1];
    n := Last(week);
    assert week == front + [n];
    if Height(m, front, days) >= |EntriesOf(days, m.date(n))| && front != [] {
      n := HeightIs(m, front, days);
    }
  }

  /** The dates of a week, then as many cell rows as its fullest day needs, then a blank line. */
  method PrintWeek(m: Month, week: seq<nat>, days: Days) returns (lines: seq<Line>)
    ensures lines == WeekLines(m, week, days)
    ensures forall n :: n in week ==> |lines| >= |EntriesOf(days, m.date(n))| + 2
    ensures week != [] ==> exists n :: n in week && |lines| == |EntriesOf(days, m.date(n))| + 2
  {
    if week != [] {
      ghost var n := HeightIs(m, week, days);
    }
    lines := [WeekHeader(m, week)];
    var rows := Height(m, week, days);
    for j := 0 to rows
      invariant lines == [WeekHeader(m, week)] + CellRows(m, week, days, j)
    {
      lines := lines + [CellRow(m, week, days, j)];
    }
    lines := lines + [Blank];
  }

  /** The `while True` loop.  `overflow` is Python's OverflowError on stepping past the last
      representable day, `lines` then what was printed before it. */
  method Render(m: Month, days: Days) returns (lines: seq<Line>, overflow: bool)
    requires Sound(m)
    ensures overflow <==> Final(m)
    ensures !overflow ==> lines == Grid(m, days)
  {
    lines := [];
    var curr: nat := m.first - Weekday(m.first);
    ghost var k := 0;
    while true
      invariant At(m, days, k, curr, lines)
      decreases 7 - k
    {
      Turn(m, days, k, curr, lines);
      k := k + 1;
      var week := WorkWeek(curr);
      curr := curr + 7;
      if m.date(curr).year > MAX_YEAR {
        return lines, true;
      }
      if !Touches(m, week) {
        if m.date(curr).month != m.date(m.first).month && curr > m.first {
          return lines, false;
        }
        assert lines + [] == lines;
        continue;
      }
      var printed := PrintWeek(m, week, days);
      lines := lines + printed;
    }
  }

  // ----- reading the screen back

  /** The column whose header is `d`. */
  function ColumnOf(header: seq<Option<Date>>, d: Date): Option<nat> {
    if header == [] then None
    else if Last(header) == Some(d) then Some(|header| - 1)
    else ColumnOf(header[..|header| - 1], d)
  }

  function Under(header: seq<Option<Date>>, row: seq<Option<Entry>>, d: Date): seq<Entry> {
    match ColumnOf(header, d)
    case None => []
    case Some(c) => if c < |row| && row[c].Some? then [row[c].value] else []
  }

  /** What a reader who looks for `d` knows: the header last printed, the entries found
      under `d` from top to bottom, and how many headers named it. */
  datatype Reading = Reading(header: seq<Option<Date>>, entries: seq<Entry>, headers: nat)

  function ReadLine(r: Reading, line: Line, d: Date): Reading {
    match line
    case Header(dates) => Reading(dates, r.entries, r.headers + (if ColumnOf(dates, d).Some? then 1 else 0))
    case Cells(row) => r.(entries := r.entries + Under(r.header, row, d))
    case Blank => r
  }

  function ReadFrom(r: Reading, lines: seq<Line>, d: Date): Reading {
    if lines == [] then r else ReadLine(ReadFrom(r, lines[..|lines| - 1], d), Last(lines), d)
  }

  function Read(lines: seq<Line>, d: Date): Reading {
    ReadFrom(Reading([], [], 0), lines, d)
  }

  lemma {:induction false} ColumnOfIs(header: seq<Option<Date>>, d: Date)
    ensures
      match ColumnOf(header, d)
      case None => Some(d) !in header
      case Some(c) => c < |header| && header[c] == Some(d)
  {
    if header != [] {
      ColumnOfIs(header[..|header| - 1], d);
      assert header == header[..|header| - 1] + [Last(header)];
    }
  }

  lemma {:induction false} ReadOn(r: Reading, lines: seq<Line>, more: seq<Line>, d: Date)
    ensures ReadFrom(r, lines + more, d) == ReadFrom(ReadFrom(r, lines, d), more, d)
  {
    if more == [] {
      assert lines + more == lines;
    } else {
      ReadOn(r, lines, more[..|more| - 1], d);
      assert (lines + more)[..|lines + more| - 1] == lines + more[..|more| - 1];
    }
  }

  lemma ReadOne(r: Reading, line: Line, d: Date)
    ensures ReadFrom(r, [line], d) == ReadLine(r, line, d)
  {
    assert [line][..0] == [];
  }

  // ----- what one week shows

  /** The column of a day of the month in a week's own header. */
  lemma ColumnInWeek(m: Month, week: seq<nat>, n: nat)
    requires Sound(m) && Within(m, n)
    requires forall i :: 0 <= i < |week| && InMonth(m, week[i]) ==> Within(m, week[i])
    ensures
      match ColumnOf(WeekHeader(m, week).dates, m.date(n))
      case None => n !in week
      case Some(c) => c < |week| && week[c] == n
  {
    var dates := WeekHeader(m, week).dates;
    ColumnOfIs(dates, m.date(n));
    if n in week {
      var i :| 0 <= i < |week| && week[i] == n;
      assert dates[i] == Some(m.date(n));
    }
  }

  /** The first `j` entries of a day, as many as there are, if it is shown at all. */
  function Top(shown: bool, entries: seq<Entry>, j: nat): seq<Entry> {
    if !shown then [] else if j <= |entries| then entries[..j] else entries
  }

  /** The rows carry the day's entries one each, top to bottom, under `header`. */
  ghost predicate RowsCarry(header: seq<Option<Date>>, rows: seq<Line>, d: Date, shown: bool, entries: seq<Entry>) {
    forall j :: 0 <= j < |rows| ==>
      rows[j].Cells? && Under(header, rows[j].row, d) == if shown && j < |entries| then [entries[j]] else []
  }

  lemma {:induction false} RowsShow(r: Reading, rows: seq<Line>, d: Date, shown: bool, entries: seq<Entry>)
    requires RowsCarry(r.header, rows, d, shown, entries)
    ensures ReadFrom(r, rows, d) == r.(entries := r.entries + Top(shown, entries, |rows|))
  {
    if rows != [] {
      var above, row := rows[..|rows| - 1], Last(rows);
      RowsShow(r, above, d, shown, entries);
      assert Top(shown, entries, |above|) + Under(r.header, row.row, d) == Top(shown, entries, |rows|);
    }
  }

  /** Reading a block of a header, rows that carry a day's entries, and a blank line. */
  lemma BlockShows(r: Reading, header: seq<Option<Date>>, rows: seq<Line>, d: Date, shown: bool, entries: seq<Entry>)
    requires shown <==> ColumnOf(header, d).Some?
    requires shown ==> |entries| <= |rows|
    requires RowsCarry(header, rows, d, shown, entries)
    ensures
      var after := ReadFrom(r, [Header(header)] + rows + [Blank], d);
      && after.entries == r.entries + (if shown then entries else [])
      && after.headers == r.headers + (if shown then 1 else 0)
  {
    var r1 := ReadLine(r, Header(header), d);
    ReadOn(r, [Header(header)] + rows, [Blank], d);
    ReadOn(r, [Header(header)], rows, d);
    ReadOne(r, Header(header), d);
    RowsShow(r1, rows, d, shown, entries);
    ReadOne(ReadFrom(r1, rows, d), Blank, d);
  }

  lemma WeekCarries(m: Month, week: seq<nat>, days: Days, h: nat, n: nat)
    requires Sound(m) && Within(m, n)
    requires forall i :: 0 <= i < |week| && InMonth(m, week[i]) ==> Within(m, week[i])
    ensures n in week <==> ColumnOf(WeekHeader(m, week).dates, m.date(n)).Some?
    ensures RowsCarry(WeekHeader(m, week).dates, CellRows(m, week, days, h), m.date(n), n in week,
      EntriesOf(days, m.date(n)))
  {
    ColumnInWeek(m, week, n);
  }

  lemma WeekShows(r: Reading, m: Month, week: seq<nat>, days: Days, n: nat)
    requires Sound(m) && Within(m, n)
    requires forall i :: 0 <= i < |week| && InMonth(m, week[i]) ==> Within(m, week[i])
    ensures
      var d := m.date(n);
      var after := ReadFrom(r, WeekLines(m, week, days), d);
      && after.entries == r.entries + (if n in week then EntriesOf(days, d) else [])
      && after.headers == r.headers + (if n in week then 1 else 0)
  {
    var h := Height(m, week, days);
    WeekCarries(m, week, days, h, n);
    BlockShows(r, WeekHeader(m, week).dates, CellRows(m, week, days, h), m.date(n), n in week,
      EntriesOf(days, m.date(n)));
  }

  // ----- which week a day is in

  lemma {:induction false} WeekdayOf(monday: nat, k: nat, i: nat)
    requires monday >= 1 && Weekday(monday) == 0 && i < 7
    ensures Weekday(monday + 7 * k + i) == i
  {
    if k > 0 {
      WeekdayOf(monday, k - 1, i);
    } else {
      WeekWraps(monday, i);
    }
  }

  /** The day is a weekday before week `k`. */
  predicate Printed(m: Month, k: nat, n: nat)
    requires m.first >= 1 && n >= 1
  {
    Weekday(n) < 5 && n < Monday(m, k)
  }

  /** Week `k` prints exactly the weekdays from its Monday up to the next. */
  lemma PrintedNext(m: Month, k: nat, n: nat)
    requires m.first >= 1 && n >= 1
    ensures Printed(m, k + 1, n) <==> Printed(m, k, n) || n in WorkWeek(Monday(m, k))
    ensures Printed(m, k, n) ==> n !in WorkWeek(Monday(m, k))
  {
    var monday, week := Monday(m, k), WorkWeek(Monday(m, k));
    assert n in week <==> monday <= n < monday + 5 by {
      if monday <= n < monday + 5 { assert week[n - monday] == n; }
    }
    if monday <= n < monday + 7 {
      WeekWraps(m.first, Weekday(m.first));
      WeekdayOf(m.first - Weekday(m.first), k, n - monday);
    }
  }

  /** A week's days that are in the month are `Within` it. */
  lemma WeekWithin(m: Month, k: nat)
    requires Sound(m) && k <= 6
    ensures
      var week := WorkWeek(Monday(m, k));
      forall i :: 0 <= i < |week| && InMonth(m, week[i]) ==> Within(m, week[i])
  {
    var week := WorkWeek(Monday(m, k));
    forall i | 0 <= i < |week| && InMonth(m, week[i]) ensures Within(m, week[i]) {
      assert week[i] < m.first + m.length || After(m, week[i]);
    }
  }

  /** `block` adds `entries` under one more header to any reading of `d`, or nothing. */
  ghost predicate Adds(block: seq<Line>, d: Date, shown: bool, entries: seq<Entry>) {
    forall r :: ReadFrom(r, block, d).entries == r.entries + (if shown then entries else [])
             && ReadFrom(r, block, d).headers == r.headers + (if shown then 1 else 0)
  }

  lemma WeekAdds(m: Month, days: Days, k: nat, n: nat)
    requires Sound(m) && k <= 6 && Within(m, n)
    ensures Adds(WeekOutput(m, days, k), m.date(n), n in WorkWeek(Monday(m, k)), EntriesOf(days, m.date(n)))
  {
    var week := WorkWeek(Monday(m, k));
    if Touches(m, week) {
      WeekWithin(m, k);
      forall r { WeekShows(r, m, week, days, n); }
    } else {
      assert forall i :: 0 <= i < |week| ==> !InMonth(m, week[i]) && week[i] != n;
    }
  }

  /** A reading that found all of `entries` under one header, or nothing. */
  predicate Finds(r: Reading, found: bool, entries: seq<Entry>) {
    r.entries == (if found then entries else []) && r.headers == (if found then 1 else 0)
  }

  /** Reading pieces of which just those that turn `printed` on show the entries. */
  lemma {:induction false} ReadJoined(
    piece: nat -> seq<Line>, k: nat, d: Date, printed: nat -> bool, entries: seq<Entry>)
    requires forall i: nat :: i < k ==> Adds(piece(i), d, Starts(printed, i), entries)
    requires !printed(0) && forall i: nat :: i < k && !Starts(printed, i) ==> printed(i) == printed(i + 1)
    ensures Finds(Read(Joined(piece, k), d), printed(k), entries)
  {
    if k > 0 {
      ReadJoined(piece, k - 1, d, printed, entries);
      ReadOn(Reading([], [], 0), Joined(piece, k - 1), piece(k - 1), d);
      assert Adds(piece(k - 1), d, Starts(printed, k - 1), entries);
    }
  }

  predicate Starts(printed: nat -> bool, i: nat) {
    !printed(i) && printed(i + 1)
  }

  function PrintedBefore(m: Month, n: nat): nat -> bool
    requires m.first >= 1 && n >= 1
  {
    (k: nat) => Printed(m, k, n)
  }

  lemma WeekStep(m: Month, days: Days, i: nat, n: nat)
    requires Sound(m) && Within(m, n) && i < 7
    ensures Adds(Weeks(m, days)(i), m.date(n), Starts(PrintedBefore(m, n), i), EntriesOf(days, m.date(n)))
    ensures PrintedBefore(m, n)(i) ==> PrintedBefore(m, n)(i + 1)
  {
    PrintedNext(m, i, n);
    WeekAdds(m, days, i, n);
  }

  /** The finished grid: every weekday of the month heads exactly one column and the cells
      under it are exactly its entries; a weekend heads none. */
  lemma GridIsComplete(m: Month, days: Days, n: nat)
    requires Sound(m) && Within(m, n)
    ensures Read(Grid(m, days), m.date(n)).headers == if Weekday(n) < 5 then 1 else 0
    ensures Read(Grid(m, days), m.date(n)).entries == if Weekday(n) < 5 then EntriesOf(days, m.date(n)) else []
  {
    forall i: nat | i < 7
      ensures Adds(Weeks(m, days)(i), m.date(n), Starts(PrintedBefore(m, n), i), EntriesOf(days, m.date(n)))
      ensures PrintedBefore(m, n)(i) ==> PrintedBefore(m, n)(i + 1)
    {
      WeekStep(m, days, i, n);
    }
    ReadJoined(Weeks(m, days), 7, m.date(n), PrintedBefore(m, n), EntriesOf(days, m.date(n)));
  }

  /** A printed header has five columns, Monday to Friday, and a date only where the month has one. */
  ghost predicate HeadsColumns(m: Month, line: Line) {
    line.Header? ==>
      && |line.dates| == 5
      && forall i :: 0 <= i < 5 && line.dates[i].Some? ==> HeadsDay(m, line.dates[i].value, i)
  }

  ghost predicate HeadsDay(m: Month, d: Date, column: int) {
    exists n: nat :: n >= 1 && Within(m, n) && Weekday(n) == column && d == m.date(n)
  }

  lemma HeaderHeads(m: Month, k: nat)
    requires Sound(m) && k <= 6
    ensures HeadsColumns(m, WeekHeader(m, WorkWeek(Monday(m, k))))
  {
    var week := WorkWeek(Monday(m, k));
    var dates := WeekHeader(m, week).dates;
    WeekWithin(m, k);
    WeekWraps(m.first, Weekday(m.first));
    forall i | 0 <= i < 5 && dates[i].Some? ensures HeadsDay(m, dates[i].value, i) {
      WeekdayOf(m.first - Weekday(m.first), k, i);
      assert Within(m, week[i]);
    }
  }

  lemma OneHeader(m: Month, days: Days, curr: nat, line: Line)
    requires line in OutputAt(m, days, curr) && line.Header?
    ensures line == WeekHeader(m, WorkWeek(curr))
  {
    var week := WorkWeek(curr);
    assert line !in CellRows(m, week, days, Height(m, week, days));
  }

  /** All the headers of the grid do. */
  lemma GridHeads(m: Month, days: Days, line: Line)
    requires Sound(m) && line in Grid(m, days)
    ensures HeadsColumns(m, line)
  {
    var i := JoinedMember(Weeks(m, days), 7, line);
    if line.Header? {
      OneHeader(m, days, Monday(m, i), line);
      HeaderHeads(m, i);
    }
  }

  // ----- the Gregorian calendar

  /** The month that `first`, a first of a month, begins. */
  function Gregorian(first: nat): Month
    requires first >= 1
  {
    Month(n => if n >= 1 then DateOf(n) else Date(0, 0, 0), first, DaysIn(DateOf(first).year, DateOf(first).month))
  }

  ghost predicate OpensMonth(first: nat) {
    first >= 1 && DateOf(first).day == 1 && DateOf(first).year <= MAX_YEAR
  }

  lemma DayAt(first: nat, n: nat)
    requires OpensMonth(first) && n >= 1
    ensures
      var m := Gregorian(first);
      && (Within(m, n) ==> m.date(n) == Date(DateOf(first).year, DateOf(first).month, n - first + 1))
      && (n < first < n + 7 ==> !InMonth(m, n))
      && (After(m, n) ==> m.date(n).month != DateOf(first).month && m.date(n).year == NextMonth(DateOf(first)).year)
  {
    if first < n + 7 && n < first + Gregorian(first).length + 28 {
      Nearby(first, n - first);
    }
  }

  /** The loop's assumptions hold of every month there is, and it overflows in just one. */
  lemma GregorianIsSound(first: nat)
    requires OpensMonth(first)
    ensures Sound(Gregorian(first))
    ensures Final(Gregorian(first)) <==> DateOf(first).year == MAX_YEAR && DateOf(first).month == 12
  {
    var m := Gregorian(first);
    DayAt(first, first + m.length);
    forall n: nat | n >= 1
      ensures Within(m, n) ==> m.date(n) == Date(DateOf(first).year, DateOf(first).month, n - first + 1)
      ensures n < first < n + 7 ==> !InMonth(m, n)
      ensures After(m, n) ==> m.date(n).month != DateOf(first).month && m.date(n).year == NextMonth(DateOf(first)).year
    {
      DayAt(first, n);
    }
  }
}
