/**
 `history -calendar`, end to end: from the commit stores to one printed month per author.  What a page
 shows is told from the commits themselves: whose they are, the day they were made, their label.
 */
module CalendarPages {
  import opened Prelude
  import opened Dates
  import opened CalendarCache
  import opened CalendarGrid
  import opened CalendarReport

  datatype Page = Page(author: string, commits: nat, tickets: nat, prs: nat, lines: seq<Line>)

  /** What the store is relied on for: a month read returns records dated in that month. */
  ghost predicate MonthReads(repo: Repo, first: nat)
    requires first >= 1
  {
    forall ref, r :: r in repo.month(ref) ==> Within(Gregorian(first), r.day)
  }

  ghost predicate Dated(first: nat, items: seq<Item>)
    requires first >= 1
  {
    forall i :: 0 <= i < |items| ==> Within(Gregorian(first), items[i].commit.day)
  }

  lemma Folds(first: nat, rules: Rules, items: seq<Item>) returns (folds: seq<nat>)
    requires OpensMonth(first) && Dated(first, items)
    ensures FoldsOf(Gregorian(first), RowOf(rules), items, folds)
  {
    folds := seq(|items|, k requires 0 <= k < |items| => Fold(items[k].commit.day));
    forall k | 0 <= k < |items| ensures FoldsTo(Gregorian(first), RowOf(rules), items[k], folds[k]) {
      FoldWithin(first, items[k].commit.day);
    }
  }

  /** The commits of the cache, in the order the loop meets them. */
  ghost predicate FromCache(repo: Repo, selected: seq<Branch>, items: seq<Item>) {
    && (forall i, j :: 0 <= i < j < |items| ==> items[i].id != items[j].id)
    && (forall i :: 0 <= i < |items| ==>
          && items[i].commit.branches == Holders(repo, selected, items[i].id) != {}
          && CopiesStored(repo, selected, items[i].commit, items[i].id))
    && (forall id :: Holders(repo, selected, id) != {} ==> exists i :: 0 <= i < |items| && items[i].id == id)
  }

  method Items(repo: Repo, selected: seq<Branch>) returns (items: seq<Item>)
    ensures FromCache(repo, selected, items)
  {
    var commits, order := CommitsFromCache(repo, selected);
    items := [];
    for i := 0 to |order|
      invariant |items| == i && forall j :: 0 <= j < i ==> items[j] == Item(order[j], commits[order[j]])
    {
      items := items + [Item(order[i], commits[order[i]])];
    }
    ItemsAreAll(repo, selected, commits, order, items);
  }

  lemma ItemsAreAll(
    repo: Repo, selected: seq<Branch>, commits: map<string, Commit>, order: seq<string>, items: seq<Item>)
    requires Holds(commits, order, HoldersOf(repo, selected))
    requires forall id :: id in commits ==> CopiesStored(repo, selected, commits[id], id)
    requires |items| == |order| && forall j :: 0 <= j < |items| ==> items[j] == Item(order[j], commits[order[j]])
    ensures FromCache(repo, selected, items)
  {
    forall i | 0 <= i < |items|
      ensures items[i].commit.branches == Holders(repo, selected, items[i].id) != {}
      ensures CopiesStored(repo, selected, items[i].commit, items[i].id)
    {
      assert order[i] in order && HoldersOf(repo, selected)(order[i]) == Holders(repo, selected, order[i]);
    }
    forall id | Holders(repo, selected, id) != {} ensures exists i :: 0 <= i < |items| && items[i].id == id {
      assert HoldersOf(repo, selected)(id) != {};
      assert id in order;
      var i :| 0 <= i < |order| && order[i] == id;
      assert items[i].id == id;
    }
  }

  lemma CacheIsDated(repo: Repo, selected: seq<Branch>, first: nat, items: seq<Item>)
    requires first >= 1 && MonthReads(repo, first) && FromCache(repo, selected, items)
    ensures Dated(first, items)
  {
  }

  // ----- what is counted, on which day and under which label

  /** The commit is this author's and counts: of a ticket, a pull request or a branch of the prefix,
      if there is one. */
  ghost predicate Belongs(rules: Rules, author: string, it: Item) {
    var ticket, pr := rules.ticket(it.commit.summary), rules.pr(it.commit.summary);
    && rules.canonical(it.commit.email) == author && rules.wanted(" " + author)
    && (!rules.hasPrefix || ticket != None || pr != None || exists b :: b in it.commit.branches && rules.prefixed(b))
  }

  /** A weekday's commit is reported on that day, a weekend's on the Friday before, or on the Monday
      after if that Friday is in the month before. */
  ghost predicate ReportedOn(day: Day, n: nat) {
    n >= 1 &&
    if Weekday(day) < 5 then n == day
    else if DateOf(day).day > Weekday(day) - 4 then Weekday(n) == 4 && n < day <= n + 2
    else Weekday(n) == 0 && day < n <= day + 2
  }

  /** The pull request leads, with the ticket behind it; else the ticket, else the branch, else the
      first seven characters of the commit's id. */
  ghost predicate Labelled(rules: Rules, it: Item, text: string) {
    var ticket, pr := rules.ticket(it.commit.summary), rules.pr(it.commit.summary);
    var branch := rules.branchText(it.commit.branches);
    if pr.Some? && ticket.Some? then text == "PR#" + rules.decimal(pr.value) + " " + ticket.value
    else if pr.Some? then text == "PR#" + rules.decimal(pr.value)
    else if ticket.Some? then text == ticket.value
    else if branch.Some? then text == branch.value
    else text <= it.id && (|text| == 7 || (|text| < 7 && text == it.id))
  }

  ghost function BelongsTo(rules: Rules, author: string): Item -> bool {
    it => Belongs(rules, author, it)
  }

  ghost function Counting(rules: Rules, author: string, n: nat, text: string): Item -> bool {
    it => Belongs(rules, author, it) && ReportedOn(it.commit.day, n) && Labelled(rules, it, text)
  }

  lemma FoldIs(day: Day, n: nat)
    ensures Fold(day) == n <==> ReportedOn(day, n)
  {
    var w := Weekday(day);
    if w >= 5 {
      if DateOf(day).day > w - 4 { FoldBack(day, w); } else { FoldOn(day, w); }
      if n >= 1 && n < day <= n + 2 { WeekWraps(n, day - n); }
      if day < n <= day + 2 { WeekWraps(day, n - day); }
    }
  }

  lemma LabelIs(rules: Rules, it: Item, text: string)
    ensures LabelOf(rules, it) == text <==> Labelled(rules, it, text)
  {
    var ticket, pr := rules.ticket(it.commit.summary), rules.pr(it.commit.summary);
    if pr.Some? {
      var lead := "PR#" + rules.decimal(pr.value);
      assert lead + "" == lead;
      assert ticket.Some? ==> lead + (" " + ticket.value) == lead + " " + ticket.value;
    }
  }

  lemma MineIs(rules: Rules, author: string, it: Item)
    ensures Mine(RowOf(rules), author, it) <==> Belongs(rules, author, it)
  {
  }

  /** The loop counts a commit under a day and a label just when that is where it belongs. */
  lemma CountedAs(first: nat, rules: Rules, author: string, it: Item, n: nat, text: string)
    requires OpensMonth(first) && Within(Gregorian(first), it.commit.day) && Within(Gregorian(first), n)
    ensures On(RowOf(rules), author, DateOf(n), Is(text))(it) <==> Counting(rules, author, n, text)(it)
  {
    MineIs(rules, author, it);
    if Belongs(rules, author, it) {
      FoldWithin(first, it.commit.day);
      GregorianIsSound(first);
      FoldIs(it.commit.day, n);
      LabelIs(rules, it, text);
      assert Gregorian(first).date(n) == DateOf(n);
      assert Gregorian(first).date(Fold(it.commit.day)) == DateOf(Fold(it.commit.day));
    }
  }

  lemma {:induction false} CountSame(items: seq<Item>, a: Item -> bool, b: Item -> bool)
    requires forall i :: 0 <= i < |items| ==> a(items[i]) == b(items[i])
    ensures Count(items, a) == Count(items, b)
  {
    if items != [] {
      CountSame(items[..|items| - 1], a, b);
    }
  }

  ghost function Places(items: seq<Item>, keep: Item -> bool): set<int> {
    set i | 0 <= i < |items| && keep(items[i])
  }

  /** `Count` is the number of items of that kind. */
  lemma {:induction false} CountIs(items: seq<Item>, keep: Item -> bool)
    ensures Count(items, keep) == |Places(items, keep)|
  {
    if items == [] {
      assert Places(items, keep) == {};
    } else {
      var front := items[..|items| - 1];
      CountIs(front, keep);
      assert Places(items, keep) == Places(front, keep) + (if keep(Last(items)) then {|items| - 1} else {});
    }
  }

  // ----- a page

  ghost function TicketsOf(rules: Rules, author: string, items: seq<Item>): set<string> {
    set it | it in items && Belongs(rules, author, it) && rules.ticket(it.commit.summary).Some?
      :: rules.ticket(it.commit.summary).value
  }

  ghost function PrsOf(rules: Rules, author: string, items: seq<Item>): set<nat> {
    set it | it in items && Belongs(rules, author, it) && rules.pr(it.commit.summary).Some?
      :: rules.pr(it.commit.summary).value
  }

  /** Under day `n`, which heads one column if it is a weekday, `e` stands just when commits
      reported on that day carry its label, and then with their number, the labels in order. */
  ghost predicate DayTells(rules: Rules, items: seq<Item>, page: Page, n: nat, e: Entry)
    requires n >= 1
  {
    var r := Read(page.lines, DateOf(n));
    && r.headers == (if Weekday(n) < 5 then 1 else 0)
    && (forall i, j :: 0 <= i < j < |r.entries| ==> TextLe(r.entries[i].text, r.entries[j].text))
    && (e in r.entries <==> e.count > 0 && e.count == Count(items, Counting(rules, page.author, n, e.text)))
  }

  /** The page of an author tells all of the author's commits, day by day and label by label, in
      columns from Monday to Friday, and heads no day of another month. */
  ghost predicate Tells(first: nat, rules: Rules, items: seq<Item>, page: Page)
    requires first >= 1
  {
    && page.commits == Count(items, BelongsTo(rules, page.author)) > 0
    && page.tickets == |TicketsOf(rules, page.author, items)| && page.prs == |PrsOf(rules, page.author, items)|
    && (forall n: nat, e :: Within(Gregorian(first), n) && n >= 1 ==> DayTells(rules, items, page, n, e))
    && Sum(OnScreen(Gregorian(first), page.lines), Gregorian(first).length) == page.commits
    && (forall line :: line in page.lines ==> HeadsColumns(Gregorian(first), line))
  }

  lemma SetsTell(rules: Rules, author: string, items: seq<Item>)
    ensures Tally(RowOf(rules), author, items).tickets == TicketsOf(rules, author, items)
    ensures Tally(RowOf(rules), author, items).prs == PrsOf(rules, author, items)
  {
    var row := RowOf(rules);
    forall ticket ensures ticket in Tally(row, author, items).tickets <==> ticket in TicketsOf(rules, author, items) {
      TallySets(row, author, items, ticket, 0);
      forall it ensures Mine(row, author, it) <==> Belongs(rules, author, it) { MineIs(rules, author, it); }
    }
    forall pr ensures pr in Tally(row, author, items).prs <==> pr in PrsOf(rules, author, items) {
      TallySets(row, author, items, "", pr);
      forall it ensures Mine(row, author, it) <==> Belongs(rules, author, it) { MineIs(rules, author, it); }
    }
  }

  lemma BelongsCount(rules: Rules, author: string, items: seq<Item>)
    ensures Count(items, MineOf(RowOf(rules), author)) == Count(items, BelongsTo(rules, author))
  {
    forall i | 0 <= i < |items| ensures MineOf(RowOf(rules), author)(items[i]) == BelongsTo(rules, author)(items[i]) {
      MineIs(rules, author, items[i]);
    }
    CountSame(items, MineOf(RowOf(rules), author), BelongsTo(rules, author));
  }

  lemma DayIsTold(first: nat, rules: Rules, items: seq<Item>, page: Page, n: nat, e: Entry)
    requires OpensMonth(first) && Dated(first, items) && Within(Gregorian(first), n)
    requires CellShows(Gregorian(first), RowOf(rules), page.author, items, page.lines, n, e)
    ensures DayTells(rules, items, page, n, e)
  {
    var on, counting := On(RowOf(rules), page.author, DateOf(n), Is(e.text)), Counting(rules, page.author, n, e.text);
    forall i | 0 <= i < |items| ensures on(items[i]) == counting(items[i]) {
      CountedAs(first, rules, page.author, items[i], n, e.text);
    }
    CountSame(items, on, counting);
    assert Gregorian(first).date(n) == DateOf(n);
  }

  /** What the screen shows of the tallies is what the commits themselves say. */
  lemma PageTells(first: nat, rules: Rules, items: seq<Item>, page: Page)
    requires OpensMonth(first) && Dated(first, items) && IsPage(Gregorian(first), RowOf(rules), items, page)
    ensures Tells(first, rules, items, page)
  {
    SetsTell(rules, page.author, items);
    BelongsCount(rules, page.author, items);
    forall n: nat, e | Within(Gregorian(first), n) && n >= 1 ensures DayTells(rules, items, page, n, e) {
      DayIsTold(first, rules, items, page, n, e);
    }
  }

  ghost predicate IsPage(m: Month, row: Item -> Option<Row>, items: seq<Item>, page: Page) {
    && page.commits == Count(items, MineOf(row, page.author)) > 0
    && page.tickets == |Tally(row, page.author, items).tickets|
    && page.prs == |Tally(row, page.author, items).prs|
    && ShowsAll(m, row, page.author, items, page.lines)
  }

  method PrintAuthor(
    m: Month, row: Item -> Option<Row>, items: seq<Item>, name: string, a: Author, ghost folds: seq<nat>)
    returns (page: Page, overflow: bool)
    requires Sound(m) && FoldsOf(m, row, items, folds)
    requires a == Shown(Tally(row, name, items)) && Count(items, MineOf(row, name)) > 0
    ensures overflow <==> Final(m)
    ensures !overflow ==> page.author == name && IsPage(m, row, items, page)
  {
    var lines;
    lines, overflow := Render(m, a.days);
    page := Page(name, a.count, |a.tickets|, |a.prs|, lines);
    if !overflow {
      NothingVanishes(m, row, name, items, lines, folds);
      TallyCount(row, name, items);
    }
  }

  method PrintAll(
    m: Month, row: Item -> Option<Row>, items: seq<Item>, names: seq<string>, authors: map<string, Author>,
    ghost folds: seq<nat>)
    returns (pages: seq<Page>, overflow: bool)
    requires Sound(m) && FoldsOf(m, row, items, folds)
    requires forall a :: a in names ==>
      a in authors && authors[a] == Shown(Tally(row, a, items)) && Count(items, MineOf(row, a)) > 0
    ensures overflow <==> Final(m) && names != []
    ensures overflow ==> pages == []
    ensures !overflow ==> |pages| == |names|
    ensures forall i :: 0 <= i < |pages| ==> pages[i].author == names[i] && IsPage(m, row, items, pages[i])
  {
    pages, overflow := [], false;
    for i := 0 to |names|
      invariant |pages| == i && !overflow && (i > 0 ==> !Final(m))
      invariant forall j :: 0 <= j < i ==> pages[j].author == names[j] && IsPage(m, row, items, pages[j])
    {
      var page;
      page, overflow := PrintAuthor(m, row, items, names[i], authors[names[i]], folds);
      if overflow {
        return;
      }
      pages := pages + [page];
    }
  }

  /** Every author with a counted commit has one page, in the order of their names, and it tells
      all of the author's commits. */
  ghost predicate Complete(first: nat, rules: Rules, items: seq<Item>, pages: seq<Page>)
    requires first >= 1
  {
    && (forall i :: 0 <= i < |pages| ==> Tells(first, rules, items, pages[i]))
    && (forall i, j :: 0 <= i < j < |pages| ==>
          pages[i].author != pages[j].author && TextLe(pages[i].author, pages[j].author))
    && (forall a :: Count(items, BelongsTo(rules, a)) > 0 ==> exists i :: 0 <= i < |pages| && pages[i].author == a)
  }

  lemma PagesTell(first: nat, rules: Rules, items: seq<Item>, names: seq<string>, pages: seq<Page>)
    requires OpensMonth(first) && Dated(first, items) && |pages| == |names|
    requires Sorted(names, TextLe) && Distinct(names)
    requires forall a :: a in names <==> Count(items, MineOf(RowOf(rules), a)) > 0
    requires forall i :: 0 <= i < |pages| ==>
      pages[i].author == names[i] && IsPage(Gregorian(first), RowOf(rules), items, pages[i])
    ensures Complete(first, rules, items, pages)
  {
    forall i | 0 <= i < |pages| ensures Tells(first, rules, items, pages[i]) {
      PageTells(first, rules, items, pages[i]);
    }
    forall a | Count(items, BelongsTo(rules, a)) > 0 ensures exists i :: 0 <= i < |pages| && pages[i].author == a {
      BelongsCount(rules, a, items);
      var i :| 0 <= i < |names| && names[i] == a;
      assert pages[i].author == a;
    }
  }

  /** The month is built from the store and printed author by author.  Unless the month is the
      last one representable, every author with a counted commit gets exactly one page, and the
      page tells all of their commits. */
  method Calendar(repo: Repo, selected: seq<Branch>, rules: Rules, first: nat)
    returns (items: seq<Item>, pages: seq<Page>, overflow: bool)
    requires OpensMonth(first) && MonthReads(repo, first)
    ensures FromCache(repo, selected, items)
    ensures !overflow ==> Complete(first, rules, items, pages)
    ensures overflow <==> Final(Gregorian(first)) && exists a :: Count(items, BelongsTo(rules, a)) > 0
  {
    items := Items(repo, selected);
    CacheIsDated(repo, selected, first, items);
    ghost var folds := Folds(first, rules, items);
    GregorianIsSound(first);
    var names, authors := Aggregate(rules, items);
    pages, overflow := PrintAll(Gregorian(first), RowOf(rules), items, names, authors, folds);
    assert names != [] ==> names[0] in names;
    forall a ensures Count(items, BelongsTo(rules, a)) > 0 <==> a in names { BelongsCount(rules, a, items); }
    if !overflow {
      forall a ensures a in names <==> Count(items, MineOf(RowOf(rules), a)) > 0 { BelongsCount(rules, a, items); }
      PagesTell(first, rules, items, names, pages);
    }
  }
}
