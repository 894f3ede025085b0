/**
 The aggregation loop of `CalendarRunner.run`, and the end-to-end claim: no counted commit
 vanishes between the commit store and the printed grid.

 The text scans of subjects, authors and branch names are parameters (`Rules`).
 */
module CalendarReport {
  import opened Prelude
  import opened Dates
  import opened CalendarCache
  import opened CalendarGrid

  datatype Rules = Rules(
    canonical: string -> string,                 // `canonical_author`
    wanted: string -> bool,                      // `_contains_any` over name and email
    ticket: string -> Option<string>,            // `extract_ticket`
    pr: string -> Option<nat>,                   // `extract_pr`
    hasPrefix: bool,                             // a prefix is configured
    prefixed: string -> bool,                    // `_branch_has_prefix`
    branchText: set<string> -> Option<string>,   // `_branch_prefix_label` of the sorted branches
    decimal: nat -> string)

  datatype Item = Item(id: string, commit: Commit)

  function AuthorOf(rules: Rules, it: Item): string {
    rules.canonical(it.commit.email)
  }

  predicate Counted(rules: Rules, it: Item) {
    && rules.wanted(" " + AuthorOf(rules, it))
    && (rules.hasPrefix ==>
          rules.ticket(it.commit.summary).Some? || rules.pr(it.commit.summary).Some?
          || exists b :: b in it.commit.branches && rules.prefixed(b))
  }

  function LabelOf(rules: Rules, it: Item): string {
    match rules.pr(it.commit.summary)
    case Some(pr) =>
      "PR#" + rules.decimal(pr)
      + (match rules.ticket(it.commit.summary) case Some(ticket) => " " + ticket case None => "")
    case None =>
      match rules.ticket(it.commit.summary)
      case Some(ticket) => ticket
      case None =>
        match rules.branchText(it.commit.branches)
        case Some(text) => text
        case None => if |it.id| > 7 then it.id[..7] else it.id
  }

  // ----- what the loop makes of a commit

  datatype Row = Row(author: string, date: Date, text: string, ticket: Option<string>, pr: Option<nat>)

  function RowOf(rules: Rules): Item -> Option<Row> {
    (it: Item) =>
      if Counted(rules, it) then
        Some(Row(AuthorOf(rules, it), DateOf(Fold(it.commit.day)), LabelOf(rules, it),
                 rules.ticket(it.commit.summary), rules.pr(it.commit.summary)))
      else None
  }

  // ----- one author's tally

  /** What `by_author`, `commit_counts`, `ticket_sets` and `pr_sets` hold for one author. */
  datatype Author = Author(count: nat, tickets: set<string>, prs: set<nat>, days: Days)

  const NOBODY := Author(0, {}, {}, map[])

  /** `labels[text] += 1` on an insertion-ordered dictionary. */
  function Bump(entries: seq<Entry>, text: string): seq<Entry> {
    if entries == [] then [Entry(text, 1)]
    else if Last(entries).text == text then entries[..|entries| - 1] + [Entry(text, Last(entries).count + 1)]
    else if HasText(entries, text) then Bump(entries[..|entries| - 1], text) + [Last(entries)]
    else entries + [Entry(text, 1)]
  }

  predicate HasText(entries: seq<Entry>, text: string) {
    exists e :: e in entries && e.text == text
  }

  function AddRow(a: Author, r: Row): Author {
    Author(a.count + 1,
           a.tickets + (if r.ticket.Some? then {r.ticket.value} else {}),
           a.prs + (if r.pr.Some? then {r.pr.value} else {}),
           a.days[r.date := Bump(EntriesOf(a.days, r.date), r.text)])
  }

  predicate Mine(row: Item -> Option<Row>, author: string, it: Item) {
    row(it).Some? && row(it).value.author == author
  }

  function MineOf(row: Item -> Option<Row>, author: string): Item -> bool {
    it => Mine(row, author, it)
  }

  function Tally(row: Item -> Option<Row>, author: string, items: seq<Item>): Author {
    if items == [] then NOBODY else
      var t := Tally(row, author, items[..|items| - 1]);
      if Mine(row, author, Last(items)) then AddRow(t, row(Last(items)).value) else t
  }

  // ----- what a tally counts

  function Count(items: seq<Item>, keep: Item -> bool): nat {
    if items == [] then 0 else Count(items[..|items| - 1], keep) + (if keep(Last(items)) then 1 else 0)
  }

  /** The commits of an author reported under date `d` with a label of the kind `keep`. */
  function On(row: Item -> Option<Row>, author: string, d: Date, keep: string -> bool): Item -> bool {
    it => Mine(row, author, it) && row(it).value.date == d && keep(row(it).value.text)
  }

  /** The commits a cell's lines stand for. */
  function Weigh(entries: seq<Entry>, keep: string -> bool): nat {
    if entries == [] then 0 else
      Weigh(entries[..|entries| - 1], keep) + (if keep(Last(entries).text) then Last(entries).count else 0)
  }

  lemma WeighSnoc(entries: seq<Entry>, e: Entry, keep: string -> bool)
    ensures Weigh(entries + [e], keep) == Weigh(entries, keep) + (if keep(e.text) then e.count else 0)
  {
    assert (entries + [e])[..|entries|] == entries;
  }

  lemma {:induction false} WeighBump(entries: seq<Entry>, text: string, keep: string -> bool)
    ensures Weigh(Bump(entries, text), keep) == Weigh(entries, keep) + (if keep(text) then 1 else 0)
  {
    WeighSnoc(entries, Entry(text, 1), keep);
    if entries == [] {
      WeighSnoc([], Entry(text, 1), keep);
      assert [] + [Entry(text, 1)] == [Entry(text, 1)];
    } else {
      var front, last := entries[..|entries| - 1], Last(entries);
      if last.text == text {
        WeighSnoc(front, Entry(text, last.count + 1), keep);
      } else if HasText(entries, text) {
        WeighBump(front, text, keep);
        WeighSnoc(Bump(front, text), last, keep);
      }
    }
  }

  lemma {:induction false} TallyDays(
    row: Item -> Option<Row>, author: string, items: seq<Item>, d: Date, keep: string -> bool)
    ensures Weigh(EntriesOf(Tally(row, author, items).days, d), keep) == Count(items, On(row, author, d, keep))
  {
    if items != [] {
      var front, last := items[..|items| - 1], Last(items);
      TallyDays(row, author, front, d, keep);
      if Mine(row, author, last) {
        WeighBump(EntriesOf(Tally(row, author, front).days, d), row(last).value.text, keep);
      }
    }
  }

  lemma {:induction false} TallyCount(row: Item -> Option<Row>, author: string, items: seq<Item>)
    ensures Tally(row, author, items).count == Count(items, MineOf(row, author))
  {
    if items != [] {
      TallyCount(row, author, items[..|items| - 1]);
    }
  }

  ghost predicate SomeMine(row: Item -> Option<Row>, author: string, items: seq<Item>, has: Row -> bool) {
    exists it :: it in items && Mine(row, author, it) && has(row(it).value)
  }

  lemma SomeMineNext(row: Item -> Option<Row>, author: string, items: seq<Item>, has: Row -> bool)
    requires items != []
    ensures SomeMine(row, author, items, has) <==>
      SomeMine(row, author, items[..|items| - 1], has)
        || (Mine(row, author, Last(items)) && has(row(Last(items)).value))
  {
    var front, last := items[..|items| - 1], Last(items);
    assert items == front + [last];
    assert forall it :: it in items <==> it in front || it == last;
  }

  /** The tickets and pull requests counted are those of the author's commits. */
  lemma {:induction false} TallySets(
    row: Item -> Option<Row>, author: string, items: seq<Item>, ticket: string, pr: nat)
    ensures ticket in Tally(row, author, items).tickets
      <==> SomeMine(row, author, items, (r: Row) => r.ticket == Some(ticket))
    ensures pr in Tally(row, author, items).prs <==> SomeMine(row, author, items, (r: Row) => r.pr == Some(pr))
  {
    if items != [] {
      TallySets(row, author, items[..|items| - 1], ticket, pr);
      SomeMineNext(row, author, items, (r: Row) => r.ticket == Some(ticket));
      SomeMineNext(row, author, items, (r: Row) => r.pr == Some(pr));
    }
  }

  // ----- cells: one line per label, in the order of the labels

  function Is(text: string): string -> bool {
    t => t == text
  }

  function Any(): string -> bool {
    t => true
  }

  /** One line per label, each with a positive count. */
  ghost predicate Clean(entries: seq<Entry>) {
    && (forall i, j :: 0 <= i < j < |entries| ==> entries[i].text != entries[j].text)
    && (forall e :: e in entries ==> e.count > 0)
  }

  lemma {:induction false} BumpClean(entries: seq<Entry>, text: string)
    requires Clean(entries)
    ensures Clean(Bump(entries, text))
    ensures forall e :: e in Bump(entries, text) ==> e.text == text || e in entries
  {
    if entries != [] {
      var front, last := entries[..|entries| - 1], Last(entries);
      assert entries == front + [last];
      assert forall e :: e in front ==> e.text != last.text;
      if last.text != text && HasText(entries, text) {
        BumpClean(front, text);
      }
    }
  }

  lemma {:induction false} TallyClean(row: Item -> Option<Row>, author: string, items: seq<Item>, d: Date)
    ensures Clean(EntriesOf(Tally(row, author, items).days, d))
  {
    if items != [] {
      var front, last := items[..|items| - 1], Last(items);
      TallyClean(row, author, front, d);
      if Mine(row, author, last) {
        BumpClean(EntriesOf(Tally(row, author, front).days, d), row(last).value.text);
      }
    }
  }

  lemma {:induction false} WeighNone(entries: seq<Entry>, text: string)
    requires forall e :: e in entries ==> e.text != text
    ensures Weigh(entries, Is(text)) == 0
  {
    if entries != [] {
      assert entries == entries[..|entries| - 1] + [Last(entries)];
      WeighNone(entries[..|entries| - 1], text);
    }
  }

  /** In a clean cell the weight of a label is the count on its line. */
  lemma {:induction false} WeighOne(entries: seq<Entry>, e: Entry)
    requires Clean(entries)
    ensures e in entries <==> e.count > 0 && e.count == Weigh(entries, Is(e.text))
  {
    if entries != [] {
      var front, last := entries[..|entries| - 1], Last(entries);
      assert entries == front + [last];
      assert forall x :: x in front ==> x.text != last.text;
      if last.text == e.text {
        WeighNone(front, e.text);
      } else {
        WeighOne(front, e);
      }
    }
  }

  predicate EntryLe(a: Entry, b: Entry) {
    TextLe(a.text, b.text)
  }

  function SortDays(days: Days): Days {
    map d | d in days :: Sort(days[d], EntryLe)
  }

  lemma {:induction false} WeighInsert(entries: seq<Entry>, e: Entry, keep: string -> bool)
    ensures Weigh(Insert(entries, e, EntryLe), keep) == Weigh(entries, keep) + (if keep(e.text) then e.count else 0)
  {
    WeighSnoc(entries, e, keep);
    if entries != [] && !EntryLe(Last(entries), e) {
      WeighInsert(entries[..|entries| - 1], e, keep);
      WeighSnoc(Insert(entries[..|entries| - 1], e, EntryLe), Last(entries), keep);
    }
  }

  lemma {:induction false} WeighSort(entries: seq<Entry>, keep: string -> bool)
    ensures Weigh(Sort(entries, EntryLe), keep) == Weigh(entries, keep)
  {
    if entries != [] {
      WeighSort(entries[..|entries| - 1], keep);
      WeighInsert(Sort(entries[..|entries| - 1], EntryLe), Last(entries), keep);
    }
  }

  lemma EntryOrder()
    ensures TotalOrder(EntryLe)
  {
    TextOrder();
  }

  /** A reported cell: its lines are exactly the labels the author's commits of that date carry,
      each with the number of commits that carry it, in the order of the labels. */
  lemma CellIs(row: Item -> Option<Row>, author: string, items: seq<Item>, d: Date, e: Entry)
    ensures
      var cell := EntriesOf(SortDays(Tally(row, author, items).days), d);
      && (e in cell <==> e.count > 0 && e.count == Count(items, On(row, author, d, Is(e.text))))
      && Weigh(cell, Any()) == Count(items, On(row, author, d, Any()))
      && Sorted(cell, EntryLe)
  {
    var cell := EntriesOf(Tally(row, author, items).days, d);
    TallyDays(row, author, items, d, Is(e.text));
    TallyDays(row, author, items, d, Any());
    TallyClean(row, author, items, d);
    WeighOne(cell, e);
    WeighSort(cell, Any());
    SortPermutes(cell, EntryLe);
    EntryOrder();
    SortOrders(cell, EntryLe);
  }

  // ----- the aggregation loop

  function Shown(a: Author): Author {
    a.(days := SortDays(a.days))
  }

  function TallyOf(row: Item -> Option<Row>, items: seq<Item>): string -> Author {
    a => Tally(row, a, items)
  }

  /** The dictionaries hold the tally of every author met so far. */
  ghost predicate Keeping(names: seq<string>, tallies: map<string, Author>, of: string -> Author) {
    && Distinct(names) && (forall a :: a in names <==> a in tallies)
    && (forall a :: a in tallies ==> of(a).count > 0 && tallies[a] == of(a))
    && (forall a :: a !in tallies ==> of(a) == NOBODY)
  }

  lemma KeepingAs(names: seq<string>, tallies: map<string, Author>, of: string -> Author, of': string -> Author)
    requires Keeping(names, tallies, of) && forall a :: of'(a) == of(a)
    ensures Keeping(names, tallies, of')
  {
  }

  function Adding(row: Option<Row>, of: string -> Author): string -> Author {
    a => if row.Some? && row.value.author == a then AddRow(of(a), row.value) else of(a)
  }

  lemma TallyNext(row: Item -> Option<Row>, items: seq<Item>, i: nat)
    requires i < |items|
    ensures forall a :: TallyOf(row, items[..i + 1])(a) == Adding(row(items[i]), TallyOf(row, items[..i]))(a)
  {
    assert items[..i + 1][..i] == items[..i] && Last(items[..i + 1]) == items[i];
  }

  /** Storing one author's new tally, under a new key if need be. */
  method Store(
    author: string, value: Author, names: seq<string>, tallies: map<string, Author>, ghost of: string -> Author)
    returns (names': seq<string>, tallies': map<string, Author>)
    requires Keeping(names, tallies, of) && value.count > 0
    ensures Keeping(names', tallies', a => if a == author then value else of(a))
  {
    names', tallies' := names, tallies[author := value];
    if author !in tallies {
      names' := names' + [author];
    }
  }

  method AggregateRow(row: Option<Row>, names: seq<string>, tallies: map<string, Author>, ghost of: string -> Author)
    returns (names': seq<string>, tallies': map<string, Author>)
    requires Keeping(names, tallies, of)
    ensures Keeping(names', tallies', Adding(row, of))
  {
    if row.None? {
      names', tallies' := names, tallies;
      KeepingAs(names', tallies', of, Adding(row, of));
      return;
    }
    var author := row.value.author;
    var added := AddRow(if author in tallies then tallies[author] else NOBODY, row.value);
    names', tallies' := Store(author, added, names, tallies, of);
    KeepingAs(names', tallies', a => if a == author then added else of(a), Adding(row, of));
  }

  method Aggregate(rules: Rules, items: seq<Item>) returns (names: seq<string>, authors: map<string, Author>)
    ensures Sorted(names, TextLe) && Distinct(names) && (forall a :: a in names <==> a in authors)
    ensures forall a :: a in authors <==> Count(items, MineOf(RowOf(rules), a)) > 0
    ensures forall a :: a in authors ==> authors[a] == Shown(Tally(RowOf(rules), a, items))
  {
    var row := RowOf(rules);
    names := [];
    authors := map[];
    for i := 0 to |items|
      invariant Keeping(names, authors, TallyOf(row, items[..i]))
    {
      ghost var of := TallyOf(row, items[..i]);
      names, authors := AggregateRow(row(items[i]), names, authors, of);
      TallyNext(row, items, i);
      KeepingAs(names, authors, Adding(row(items[i]), of), TallyOf(row, items[..i + 1]));
    }
    assert items[..|items|] == items;
    forall a ensures a in authors <==> Count(items, MineOf(row, a)) > 0 {
      TallyCount(row, a, items);
    }
    names := SortNames(names);
    authors := map a | a in authors :: Shown(authors[a]);
  }

  method SortNames(names: seq<string>) returns (sorted: seq<string>)
    requires Distinct(names)
    ensures Sorted(sorted, TextLe) && Distinct(sorted) && forall a :: a in sorted <==> a in names
  {
    sorted := Sort(names, TextLe);
    SortPermutes(names, TextLe);
    SortDistinct(names, TextLe);
    TextOrder();
    SortOrders(names, TextLe);
  }

  // ----- end to end

  lemma FoldWithin(first: nat, day: Day)
    requires OpensMonth(first) && Within(Gregorian(first), day)
    ensures Within(Gregorian(first), Fold(day)) && Weekday(Fold(day)) < 5
  {
    DayAt(first, day);
    FoldStaysInMonth(day);
  }

  function Sum(f: nat -> nat, k: nat): nat {
    if k == 0 then 0 else Sum(f, k - 1) + f(k - 1)
  }

  lemma {:induction false} SumBump(f: nat -> nat, g: nat -> nat, j: nat, k: nat)
    requires forall i: nat :: i < k ==> g(i) == f(i) + (if i == j then 1 else 0)
    ensures Sum(g, k) == Sum(f, k) + (if j < k then 1 else 0)
  {
    if k > 0 {
      SumBump(f, g, j, k - 1);
    }
  }

  lemma {:induction false} SumSame(f: nat -> nat, g: nat -> nat, k: nat)
    requires forall i: nat :: i < k ==> g(i) == f(i)
    ensures Sum(g, k) == Sum(f, k)
  {
    if k > 0 {
      SumSame(f, g, k - 1);
    }
  }

  function PerDay(m: Month, row: Item -> Option<Row>, author: string, items: seq<Item>): nat -> nat {
    (i: nat) => Count(items, On(row, author, m.date(m.first + i), Any()))
  }

  /** The day each commit is reported on. */
  ghost predicate FoldsOf(m: Month, row: Item -> Option<Row>, items: seq<Item>, folds: seq<nat>) {
    |folds| == |items| && forall k :: 0 <= k < |items| ==> FoldsTo(m, row, items[k], folds[k])
  }

  ghost predicate FoldsTo(m: Month, row: Item -> Option<Row>, it: Item, f: nat) {
    Within(m, f) && f >= 1 && Weekday(f) < 5 && (row(it).Some? ==> row(it).value.date == m.date(f))
  }

  /** A commit reported on day `f` counts on that day and no other. */
  lemma PerDayNext(m: Month, row: Item -> Option<Row>, author: string, items: seq<Item>, f: nat, i: nat)
    requires Sound(m) && i < m.length && items != [] && FoldsTo(m, row, Last(items), f)
    ensures PerDay(m, row, author, items)(i) == PerDay(m, row, author, items[..|items| - 1])(i)
              + (if Mine(row, author, Last(items)) && m.first + i == f then 1 else 0)
  {
    assert Within(m, m.first + i);
    var keep := On(row, author, m.date(m.first + i), Any());
    assert PerDay(m, row, author, items)(i) == Count(items, keep);
    assert PerDay(m, row, author, items[..|items| - 1])(i) == Count(items[..|items| - 1], keep);
    assert keep(Last(items)) <==> Mine(row, author, Last(items)) && m.first + i == f;
  }

  /** Every commit is reported on exactly one day of the month. */
  lemma {:induction false} OneDayEach(
    m: Month, row: Item -> Option<Row>, author: string, items: seq<Item>, folds: seq<nat>)
    requires Sound(m) && FoldsOf(m, row, items, folds)
    ensures Sum(PerDay(m, row, author, items), m.length) == Count(items, MineOf(row, author))
  {
    if items == [] {
      forall i: nat | i < m.length ensures PerDay(m, row, author, items)(i) == 0 {
        var keep := On(row, author, m.date(m.first + i), Any());
        assert PerDay(m, row, author, items)(i) == Count(items, keep) == 0;
      }
      SumZero(PerDay(m, row, author, items), m.length);
    } else {
      var front, f := items[..|items| - 1], Last(folds);
      OneDayEach(m, row, author, front, folds[..|folds| - 1]);
      var j := if Mine(row, author, Last(items)) then f - m.first else m.length;
      forall i: nat | i < m.length
        ensures PerDay(m, row, author, items)(i) == PerDay(m, row, author, front)(i) + (if i == j then 1 else 0)
      {
        PerDayNext(m, row, author, items, f, i);
      }
      SumBump(PerDay(m, row, author, front), PerDay(m, row, author, items), j, m.length);
    }
  }

  lemma {:induction false} SumZero(f: nat -> nat, k: nat)
    requires forall i: nat :: i < k ==> f(i) == 0
    ensures Sum(f, k) == 0
  {
    if k > 0 {
      SumZero(f, k - 1);
    }
  }

  /** Nothing is reported on a weekend. */
  lemma {:induction false} NoneOnWeekends(
    m: Month, row: Item -> Option<Row>, author: string, items: seq<Item>, folds: seq<nat>,
    n: nat, keep: string -> bool)
    requires Sound(m) && FoldsOf(m, row, items, folds) && Within(m, n) && Weekday(n) >= 5
    ensures Count(items, On(row, author, m.date(n), keep)) == 0
  {
    if items != [] {
      NoneOnWeekends(m, row, author, items[..|items| - 1], folds[..|folds| - 1], n, keep);
      assert FoldsTo(m, row, Last(items), Last(folds));
    }
  }

  /** What a reader counts on screen under each day of the month. */
  function OnScreen(m: Month, lines: seq<Line>): nat -> nat {
    (i: nat) => Weigh(Read(lines, m.date(m.first + i)).entries, Any())
  }

  /** Day `n` heads one column if it is a weekday, and `e` stands under it just when commits
      of that date carry its label, and then with their number, the labels in order. */
  ghost predicate CellShows(
    m: Month, row: Item -> Option<Row>, author: string, items: seq<Item>, lines: seq<Line>, n: nat, e: Entry) {
    var r, d := Read(lines, m.date(n)), m.date(n);
    && r.headers == (if n >= 1 && Weekday(n) < 5 then 1 else 0)
    && Sorted(r.entries, EntryLe)
    && (e in r.entries <==> e.count > 0 && e.count == Count(items, On(row, author, d, Is(e.text))))
  }

  /** The screen shows all of an author's commits, and the counts on it add up to their number. */
  ghost predicate ShowsAll(m: Month, row: Item -> Option<Row>, author: string, items: seq<Item>, lines: seq<Line>) {
    && (forall n: nat, e :: Within(m, n) ==> CellShows(m, row, author, items, lines, n, e))
    && Sum(OnScreen(m, lines), m.length) == Count(items, MineOf(row, author))
    && (forall line :: line in lines ==> HeadsColumns(m, line))
  }

  /** What the end-to-end claim is about: an author's sorted tally, rendered. */
  ghost predicate Rendered(
    m: Month, row: Item -> Option<Row>, author: string, items: seq<Item>, lines: seq<Line>, folds: seq<nat>) {
    && Sound(m) && FoldsOf(m, row, items, folds)
    && lines == Grid(m, SortDays(Tally(row, author, items).days))
  }

  lemma CellOnScreen(
    m: Month, row: Item -> Option<Row>, author: string, items: seq<Item>, lines: seq<Line>,
    folds: seq<nat>, n: nat, e: Entry)
    requires Rendered(m, row, author, items, lines, folds) && Within(m, n)
    ensures CellShows(m, row, author, items, lines, n, e)
    ensures Weigh(Read(lines, m.date(n)).entries, Any()) == Count(items, On(row, author, m.date(n), Any()))
  {
    GridIsComplete(m, SortDays(Tally(row, author, items).days), n);
    if Weekday(n) < 5 {
      CellIs(row, author, items, m.date(n), e);
    } else {
      NoneOnWeekends(m, row, author, items, folds, n, Is(e.text));
      NoneOnWeekends(m, row, author, items, folds, n, Any());
    }
  }

  lemma ScreenDay(
    m: Month, row: Item -> Option<Row>, author: string, items: seq<Item>, lines: seq<Line>, folds: seq<nat>, i: nat)
    requires Rendered(m, row, author, items, lines, folds) && i < m.length
    ensures OnScreen(m, lines)(i) == PerDay(m, row, author, items)(i)
  {
    CellOnScreen(m, row, author, items, lines, folds, m.first + i, Entry("", 0));
  }

  /** No commit vanishes between the tally and the screen. */
  lemma NothingVanishes(
    m: Month, row: Item -> Option<Row>, author: string, items: seq<Item>, lines: seq<Line>, folds: seq<nat>)
    requires Rendered(m, row, author, items, lines, folds)
    ensures ShowsAll(m, row, author, items, lines)
  {
    forall n: nat, e | Within(m, n) ensures CellShows(m, row, author, items, lines, n, e) {
      CellOnScreen(m, row, author, items, lines, folds, n, e);
    }
    forall i: nat | i < m.length ensures OnScreen(m, lines)(i) == PerDay(m, row, author, items)(i) {
      ScreenDay(m, row, author, items, lines, folds, i);
    }
    SumSame(PerDay(m, row, author, items), OnScreen(m, lines), m.length);
    forall line | line in lines ensures HeadsColumns(m, line) {
      GridHeads(m, SortDays(Tally(row, author, items).days), line);
    }
    OneDayEach(m, row, author, items, folds);
  }
}
