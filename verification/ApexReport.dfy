/**
 The `diff -apex` screen: the lines of a component, the summary that counts them by status, the
 page groups that list them property by property, and the short property names.
 */
module ApexReport {
  import opened Prelude
  import opened Grouping

  datatype Status = Missing | Extra | Changed

  /** A changed property: its sub-component, "" for the component's own, its path below it, and
      whether each side has it. */
  datatype Property = Property(owner: string, path: string, inSource: bool, inTarget: bool)

  datatype Component = Component(kind: string, name: string, status: Status, properties: seq<Property>)

  datatype Application = Application(title: string, status: Status, components: seq<Component>, files: seq<Status>)

  /** A component as the screen lists it. */
  datatype Line = Line(kind: string, name: string, status: Status, properties: seq<string>)

  /** One summary row; a count of zero prints blank. */
  datatype Counts = Counts(kind: string, name: string, missing: nat, extra: nat, changed: nat)

  const PAGE := "PAGE"
  const APP_FILE := "APP FILE"
  const APPLICATION := "APPLICATION"

  /** `sub_component`: the kind and the name of an owner path. */
  type Naming = string -> (string, string)

  // ----- short property names

  /** `rsplit(".", 1)[-1]`. */
  function Leaf(path: string): string {
    if path == "" || Last(path) == '.' then "" else Leaf(path[..|path| - 1]) + [Last(path)]
  }

  lemma {:induction false} LeafHasNoDot(path: string)
    ensures '.' !in Leaf(path)
    ensures '.' !in path ==> Leaf(path) == path
  {
    if path != "" && Last(path) != '.' {
      assert path == path[..|path| - 1] + [Last(path)];
      LeafHasNoDot(path[..|path| - 1]);
    }
  }

  function CountOf<T(==)>(s: seq<T>, x: T): nat {
    if s == [] then 0 else CountOf(s[..|s| - 1], x) + (if Last(s) == x then 1 else 0)
  }

  function Leaves(paths: seq<string>): seq<string> {
    seq(|paths|, i requires 0 <= i < |paths| => Leaf(paths[i]))
  }

  function ShortName(paths: seq<string>, path: string): string {
    if CountOf(Leaves(paths), Leaf(path)) == 1 then Leaf(path) else path
  }

  lemma {:induction false} CountAtLeast<T>(s: seq<T>, x: T, i: nat, j: nat)
    requires i < |s| && s[i] == x
    ensures CountOf(s, x) >= 1
    ensures i < j < |s| && s[j] == x ==> CountOf(s, x) >= 2
  {
    var front := s[..|s| - 1];
    if i < j < |s| && s[j] == x {
      if j == |s| - 1 { CountAtLeast(front, x, i, i); } else { CountAtLeast(front, x, i, j); }
    } else if i < |s| - 1 {
      CountAtLeast(front, x, i, i);
    }
  }

  /** No short name reads as another property's short name or path. */
  lemma ShortNamesDiffer(paths: seq<string>, i: nat, j: nat)
    requires i < |paths| && j < |paths| && paths[i] != paths[j]
    ensures ShortName(paths, paths[i]) != ShortName(paths, paths[j])
    ensures ShortName(paths, paths[i]) in {Leaf(paths[i]), paths[i]}
  {
    var leaves := Leaves(paths);
    LeafHasNoDot(paths[i]);
    LeafHasNoDot(paths[j]);
    if leaves[i] == leaves[j] {
      if i < j { CountAtLeast(leaves, leaves[i], i, j); } else { CountAtLeast(leaves, leaves[j], j, i); }
    }
  }

  // ----- the lines of a component

  function NamesOf(changes: seq<Property>): seq<string> {
    var paths := seq(|changes|, i requires 0 <= i < |changes| => changes[i].path);
    seq(|changes|, i requires 0 <= i < |changes| => ShortName(paths, changes[i].path))
  }

  /** What follows the last dot. */
  lemma {:induction false} LeafIs(path: string)
    ensures '.' !in Leaf(path) && (Leaf(path) == path || exists lead :: path == lead + "." + Leaf(path))
  {
    if path != "" {
      var front, last := path[..|path| - 1], Last(path);
      assert path == front + [last];
      LeafIs(front);
      if last == '.' {
        assert path == front + "." + "";
      } else if Leaf(front) == front {
        assert Leaf(path) == path;
      } else {
        var lead :| front == lead + "." + Leaf(front);
        assert path == lead + "." + Leaf(path);
      }
    }
  }

  lemma {:induction false} CountedTwice<T>(s: seq<T>, x: T)
    ensures CountOf(s, x) >= 1 ==> exists i :: 0 <= i < |s| && s[i] == x
    ensures CountOf(s, x) >= 2 ==> exists i, j :: 0 <= i < j < |s| && s[i] == x && s[j] == x
  {
    if s != [] {
      var front := s[..|s| - 1];
      CountedTwice(front, x);
      if CountOf(front, x) >= 2 {
        var i, j :| 0 <= i < j < |front| && front[i] == x && front[j] == x;
        assert s[i] == x && s[j] == x;
      } else if CountOf(front, x) == 1 {
        var i :| 0 <= i < |front| && front[i] == x;
        assert s[i] == x;
      }
    }
  }

  /** A line names each of its properties, in order: by what follows the last dot, or by the whole
      path when another property of the line ends alike. */
  lemma NamesAre(changes: seq<Property>, k: nat)
    requires k < |changes|
    ensures |NamesOf(changes)| == |changes|
    ensures NamesOf(changes)[k] ==
      if exists j :: 0 <= j < |changes| && j != k && Leaf(changes[j].path) == Leaf(changes[k].path)
      then changes[k].path else Leaf(changes[k].path)
  {
    var paths := seq(|changes|, i requires 0 <= i < |changes| => changes[i].path);
    var leaves, leaf := Leaves(paths), Leaf(changes[k].path);
    assert leaves[k] == leaf && forall j :: 0 <= j < |changes| ==> leaves[j] == Leaf(changes[j].path);
    CountAtLeast(leaves, leaf, k, k);
    if j :| 0 <= j < |changes| && j != k && leaves[j] == leaf {
      if j < k { CountAtLeast(leaves, leaf, j, k); } else { CountAtLeast(leaves, leaf, k, j); }
    }
    CountedTwice(leaves, leaf);
  }

  function SubStatus(changes: seq<Property>): Status {
    if forall c :: c in changes ==> !c.inTarget then Missing
    else if forall c :: c in changes ==> !c.inSource then Extra
    else Changed
  }

  function MakeLine(kind: string, name: string, status: Status, changes: seq<Property>): Line {
    Line(kind, name, status, if status == Changed then NamesOf(changes) else [])
  }

  function OwnerOf(): Property -> string {
    (p: Property) => p.owner
  }

  function IsSub(): string -> bool {
    (owner: string) => owner != ""
  }

  function MakeSub(naming: Naming, indent: string): (string, seq<Property>) -> Line {
    (owner, changes) => MakeLine(naming(owner).0, indent + naming(owner).1, SubStatus(changes), changes)
  }

  function SubLine(naming: Naming, indent: string, properties: seq<Property>): string -> Line {
    MadeFrom(properties, OwnerOf(), MakeSub(naming, indent))
  }

  function ComponentLines(naming: Naming, c: Component, indent: string): seq<Line> {
    [MakeLine(c.kind, c.name, c.status, Group(c.properties, OwnerOf(), ""))]
    + Mapped(Filter(KeysOf(c.properties, OwnerOf()), IsSub()), SubLine(naming, indent, c.properties))
  }

  /** `_component_lines`. */
  method ListComponent(naming: Naming, c: Component, indent: string) returns (lines: seq<Line>)
    ensures lines == ComponentLines(naming, c, indent)
  {
    var d := GroupBy(c.properties, OwnerOf());
    var own := At(d, "");
    var owners := Filter(d.order, IsSub());
    forall owner | owner in owners ensures owner in d.order {
      FilterMember(d.order, IsSub(), owner);
    }
    var subs := EachGroup(d, owners, MakeSub(naming, indent), c.properties, OwnerOf());
    lines := [MakeLine(c.kind, c.name, c.status, own)] + subs;
  }

  /** The component's own line comes first and names its own properties if it changed; then one
      line for each owner of a property below it, in the order they are first met. */
  lemma ComponentLinesAre(naming: Naming, c: Component, indent: string)
    ensures
      var lines := ComponentLines(naming, c, indent);
      var own, owners := Group(c.properties, OwnerOf(), ""), Filter(KeysOf(c.properties, OwnerOf()), IsSub());
      && lines == [Line(c.kind, c.name, c.status, if c.status == Changed then NamesOf(own) else [])] + lines[1..]
      && |lines| == 1 + |owners| && Distinct(owners)
      && (forall owner :: owner in owners <==> owner != "" && exists p :: p in c.properties && p.owner == owner)
      && forall k :: 0 <= k < |owners| ==> lines[k + 1] == SubLine(naming, indent, c.properties)(owners[k])
  {
    var keys := KeysOf(c.properties, OwnerOf());
    KeysOfIs(c.properties, OwnerOf());
    FilterDistinct(keys, IsSub());
    forall owner
      ensures owner in Filter(keys, IsSub()) <==> owner != "" && exists p :: p in c.properties && p.owner == owner
    {
      FilterMember(keys, IsSub(), owner);
      if owner in keys { GroupHasOne(c.properties, owner); }
    }
  }

  lemma GroupHasOne(properties: seq<Property>, owner: string)
    requires Group(properties, OwnerOf(), owner) != []
    ensures exists p :: p in properties && p.owner == owner
  {
    FilterMember(properties, Keyed(OwnerOf(), owner), Group(properties, OwnerOf(), owner)[0]);
  }

  /** Every changed property stands behind exactly one line of its component. */
  lemma EveryPropertyListed(c: Component)
    ensures
      var size := SizeIn(c.properties, OwnerOf(), (p: Property) => true);
      size("") + SumOver(Filter(KeysOf(c.properties, OwnerOf()), IsSub()), size) == |c.properties|
  {
    var size := SizeIn(c.properties, OwnerOf(), (p: Property) => true);
    var subs := Filter(KeysOf(c.properties, OwnerOf()), IsSub());
    KeysOfIs(c.properties, OwnerOf());
    FilterDistinct(KeysOf(c.properties, OwnerOf()), IsSub());
    forall owner ensures owner in subs <==> owner in KeysOf(c.properties, OwnerOf()) && owner != "" {
      FilterMember(KeysOf(c.properties, OwnerOf()), IsSub(), owner);
    }
    var keys := subs + [""];
    assert keys[..|keys| - 1] == subs && Last(keys) == "";
    GroupsAddUp(c.properties, OwnerOf(), (p: Property) => true, keys);
    FilterAll(c.properties, (p: Property) => true);
  }

  /** The page itself only when it changed itself, then its sub-components. */
  function PageLines(naming: Naming, page: Component): seq<Line> {
    var lines := ComponentLines(naming, page, "");
    if page.status == Changed && lines[0].properties == [] then lines[1..] else lines
  }

  /** A page lists itself unless it changed only below, and its sub-components always. */
  lemma PageListsItself(naming: Naming, page: Component)
    ensures
      var own := [MakeLine(page.kind, page.name, page.status, Group(page.properties, OwnerOf(), ""))];
      var subs := Mapped(Filter(KeysOf(page.properties, OwnerOf()), IsSub()), SubLine(naming, "", page.properties));
      PageLines(naming, page) ==
        (if page.status != Changed || (exists p :: p in page.properties && p.owner == "") then own else []) + subs
  {
    var own := Group(page.properties, OwnerOf(), "");
    if own != [] {
      FilterMember(page.properties, Keyed(OwnerOf(), ""), own[0]);
    }
    forall p | p in page.properties && p.owner == "" ensures own != [] {
      FilterMember(page.properties, Keyed(OwnerOf(), ""), p);
    }
  }

  /** A sub-component is one-sided exactly when one side has none of its properties, and only a
      two-sided one names them. */
  lemma SubLineIs(naming: Naming, indent: string, properties: seq<Property>, owner: string)
    requires forall p :: p in properties ==> p.inSource || p.inTarget
    ensures
      var changes, line := Group(properties, OwnerOf(), owner), SubLine(naming, indent, properties)(owner);
      && (changes != [] ==>
            (line.status == Extra <==> forall p :: p in changes ==> !p.inSource)
            && (line.status == Missing <==> forall p :: p in changes ==> !p.inTarget))
      && line.kind == naming(owner).0 && line.name == indent + naming(owner).1
      && line.properties == if line.status == Changed then NamesOf(changes) else []
  {
    var changes := Group(properties, OwnerOf(), owner);
    var line := MakeLine(naming(owner).0, indent + naming(owner).1, SubStatus(changes), changes);
    assert SubLine(naming, indent, properties)(owner) == line && |NamesOf(changes)| == |changes|;
    if changes != [] {
      FilterMember(properties, Keyed(OwnerOf(), owner), changes[0]);
    }
  }

  // ----- the summary

  datatype Entry = Entry(kind: string, status: Status)

  function HasStatus(status: Status): Entry -> bool {
    (e: Entry) => e.status == status
  }

  function KindOf(): Entry -> string {
    (e: Entry) => e.kind
  }

  function CountRow(kind: string, name: string, entries: seq<Entry>): Counts {
    Counts(kind, name, |Filter(entries, HasStatus(Missing))|, |Filter(entries, HasStatus(Extra))|,
      |Filter(entries, HasStatus(Changed))|)
  }

  function CountIn(status: Status): Counts -> nat {
    (r: Counts) => match status case Missing => r.missing case Extra => r.extra case Changed => r.changed
  }

  function EntryOf(): Line -> Entry {
    (l: Line) => Entry(l.kind, l.status)
  }

  function PageEntries(naming: Naming): Component -> seq<Entry> {
    (page: Component) => Mapped(PageLines(naming, page), EntryOf())
  }

  function PartEntries(naming: Naming): Component -> seq<Entry> {
    (c: Component) => Mapped(ComponentLines(naming, c, "  "), EntryOf())
  }

  function IsPage(): Component -> bool {
    (c: Component) => c.kind == PAGE
  }

  function NotPage(): Component -> bool {
    (c: Component) => c.kind != PAGE
  }

  function FileEntry(): Status -> Entry {
    (status: Status) => Entry(APP_FILE, status)
  }

  /** What the type rows count: the lines outside a page, and the files. */
  function TypeEntries(naming: Naming, app: Application): seq<Entry> {
    Flat(Filter(app.components, NotPage()), PartEntries(naming)) + Mapped(app.files, FileEntry())
  }

  function PageRow(naming: Naming): Component -> Counts {
    (page: Component) => CountRow(PAGE, page.name, PageEntries(naming)(page))
  }

  function MakeTypeRow(): (string, seq<Entry>) -> Counts {
    (kind, entries) => CountRow(kind, "", entries)
  }

  function TypeRow(entries: seq<Entry>): string -> Counts {
    MadeFrom(entries, KindOf(), MakeTypeRow())
  }

  function Summary(naming: Naming, app: Application): seq<Counts> {
    if app.status != Changed then [CountRow(APPLICATION, app.title, [Entry(APPLICATION, app.status)])]
    else
      var entries := TypeEntries(naming, app);
      Mapped(Filter(app.components, IsPage()), PageRow(naming)) + Mapped(KeysOf(entries, KindOf()), TypeRow(entries))
  }

  lemma MorePages(components: seq<Component>, i: nat, row: Component -> Counts)
    requires i < |components|
    ensures Mapped(Filter(components[..i + 1], IsPage()), row)
         == Mapped(Filter(components[..i], IsPage()), row)
           + (if components[i].kind == PAGE then [row(components[i])] else [])
  {
    assert components[..i + 1] == components[..i] + [components[i]];
    FilterSnoc(components[..i], components[i], IsPage());
  }

  lemma MoreParts(components: seq<Component>, i: nat, entries: Component -> seq<Entry>)
    requires i < |components|
    ensures Flat(Filter(components[..i + 1], NotPage()), entries)
         == Flat(Filter(components[..i], NotPage()), entries)
           + (if components[i].kind == PAGE then [] else entries(components[i]))
  {
    assert components[..i + 1] == components[..i] + [components[i]];
    FilterSnoc(components[..i], components[i], NotPage());
    if components[i].kind != PAGE {
      FlatSnoc(Filter(components[..i], NotPage()), components[i], entries);
    } else {
      assert Filter(components[..i], NotPage()) + [] == Filter(components[..i], NotPage());
    }
  }

  /** The loop over the components: a row for each page, entries for everything else. */
  method Collect(naming: Naming, components: seq<Component>) returns (rows: seq<Counts>, entries: seq<Entry>)
    ensures rows == Mapped(Filter(components, IsPage()), PageRow(naming))
    ensures entries == Flat(Filter(components, NotPage()), PartEntries(naming))
  {
    rows, entries := [], [];
    for i := 0 to |components|
      invariant rows == Mapped(Filter(components[..i], IsPage()), PageRow(naming))
      invariant entries == Flat(Filter(components[..i], NotPage()), PartEntries(naming))
    {
      var c := components[i];
      MorePages(components, i, PageRow(naming));
      MoreParts(components, i, PartEntries(naming));
      if c.kind == PAGE {
        rows := rows + [PageRow(naming)(c)];
        continue;
      }
      var lines := ListComponent(naming, c, "  ");
      entries := entries + Mapped(lines, EntryOf());
    }
    assert components[..|components|] == components;
  }

  /** `application_summary`. */
  method Summarize(naming: Naming, app: Application) returns (rows: seq<Counts>)
    ensures rows == Summary(naming, app)
  {
    if app.status != Changed {
      return [CountRow(APPLICATION, app.title, [Entry(APPLICATION, app.status)])];
    }
    var entries;
    rows, entries := Collect(naming, app.components);
    entries := entries + Mapped(app.files, FileEntry());
    var types := GroupBy(entries, KindOf());
    var typeRows := EachGroup(types, types.order, MakeTypeRow(), entries, KindOf());
    rows := rows + typeRows;
  }

  // ----- the summary and the listings agree

  /** What the screen says of a component: its page's lines, or its own outside a page. */
  function ShownEntries(naming: Naming): Component -> seq<Entry> {
    (c: Component) => if c.kind == PAGE then PageEntries(naming)(c) else PartEntries(naming)(c)
  }

  function AllEntries(naming: Naming, app: Application): seq<Entry> {
    Flat(app.components, ShownEntries(naming)) + Mapped(app.files, FileEntry())
  }

  lemma PageRowsCount(naming: Naming, pages: seq<Component>, status: Status)
    ensures SumOver(Mapped(pages, PageRow(naming)), CountIn(status))
      == SumOver(pages, Sizes(PageEntries(naming), HasStatus(status)))
  {
    SumOverMapped(pages, PageRow(naming), CountIn(status), Sizes(PageEntries(naming), HasStatus(status)));
  }

  lemma TypeRowsCount(entries: seq<Entry>, status: Status)
    ensures SumOver(Mapped(KeysOf(entries, KindOf()), TypeRow(entries)), CountIn(status))
      == |Filter(entries, HasStatus(status))|
  {
    var kinds := KeysOf(entries, KindOf());
    SumOverMapped(kinds, TypeRow(entries), CountIn(status), SizeIn(entries, KindOf(), HasStatus(status)));
    KeysOfIs(entries, KindOf());
    GroupsAddUp(entries, KindOf(), HasStatus(status), kinds);
  }

  lemma ShownInParts(naming: Naming, components: seq<Component>, status: Status)
    ensures |Filter(Flat(components, ShownEntries(naming)), HasStatus(status))|
         == SumOver(Filter(components, IsPage()), Sizes(PageEntries(naming), HasStatus(status)))
            + SumOver(Filter(components, NotPage()), Sizes(PartEntries(naming), HasStatus(status)))
  {
    var shown := Sizes(ShownEntries(naming), HasStatus(status));
    FilterFlat(components, ShownEntries(naming), HasStatus(status));
    SumOverSplit(components, IsPage(), NotPage(), shown);
    forall c ensures c in Filter(components, IsPage()) ==> c.kind == PAGE { FilterMember(components, IsPage(), c); }
    forall c ensures c in Filter(components, NotPage()) ==> c.kind != PAGE { FilterMember(components, NotPage(), c); }
    SumOverSame(Filter(components, IsPage()), shown, Sizes(PageEntries(naming), HasStatus(status)));
    SumOverSame(Filter(components, NotPage()), shown, Sizes(PartEntries(naming), HasStatus(status)));
  }

  lemma EntriesConserved(naming: Naming, app: Application, status: Status)
    requires app.status == Changed
    ensures SumOver(Summary(naming, app), CountIn(status)) == |Filter(AllEntries(naming, app), HasStatus(status))|
  {
    var pages, parts := Filter(app.components, IsPage()), Filter(app.components, NotPage());
    var entries, files := TypeEntries(naming, app), Mapped(app.files, FileEntry());
    SumOverOn(Mapped(pages, PageRow(naming)), Mapped(KeysOf(entries, KindOf()), TypeRow(entries)), CountIn(status));
    PageRowsCount(naming, pages, status);
    TypeRowsCount(entries, status);
    FilterOn(Flat(parts, PartEntries(naming)), files, HasStatus(status));
    FilterFlat(parts, PartEntries(naming), HasStatus(status));
    ShownInParts(naming, app.components, status);
    FilterOn(Flat(app.components, ShownEntries(naming)), files, HasStatus(status));
  }

  /** The lines a component is shown by: a page's listing, or its own lines outside a page. */
  function ShownLines(naming: Naming): Component -> seq<Line> {
    (c: Component) => if c.kind == "PAGE" then PageLines(naming, c) else ComponentLines(naming, c, "  ")
  }

  function LineHas(status: Status): Line -> bool {
    (l: Line) => l.status == status
  }

  function LineOf(kind: string, status: Status): Line -> bool {
    (l: Line) => l.kind == kind && l.status == status
  }

  function Is(status: Status): Status -> bool {
    (s: Status) => s == status
  }

  /** Counting what was made of items is counting the items. */
  lemma {:induction false} FilterMapped<T, U>(items: seq<T>, f: T -> U, p: U -> bool, q: T -> bool)
    requires forall x :: x in items ==> (p(f(x)) <==> q(x))
    ensures |Filter(Mapped(items, f), p)| == |Filter(items, q)|
  {
    if items != [] {
      var front, last := items[..|items| - 1], Last(items);
      assert items == front + [last];
      FilterMapped(front, f, p, q);
      MappedSnoc(front, last, f);
      FilterSnoc(Mapped(front, f), f(last), p);
    }
  }

  lemma ShownAlike(naming: Naming, c: Component, status: Status)
    ensures Sizes(ShownEntries(naming), HasStatus(status))(c) == Sizes(ShownLines(naming), LineHas(status))(c)
  {
    var lines := ShownLines(naming)(c);
    if c.kind == PAGE {
      assert lines == PageLines(naming, c) && ShownEntries(naming)(c) == PageEntries(naming)(c);
    } else {
      assert lines == ComponentLines(naming, c, "  ") && ShownEntries(naming)(c) == PartEntries(naming)(c);
    }
    assert ShownEntries(naming)(c) == Mapped(lines, EntryOf());
    FilterMapped(lines, EntryOf(), HasStatus(status), LineHas(status));
  }

  lemma EntriesAreLines(naming: Naming, components: seq<Component>, status: Status)
    ensures |Filter(Flat(components, ShownEntries(naming)), HasStatus(status))|
         == |Filter(Flat(components, ShownLines(naming)), LineHas(status))|
  {
    var entries, lines := Sizes(ShownEntries(naming), HasStatus(status)), Sizes(ShownLines(naming), LineHas(status));
    FilterFlat(components, ShownEntries(naming), HasStatus(status));
    FilterFlat(components, ShownLines(naming), LineHas(status));
    forall c ensures entries(c) == lines(c) { ShownAlike(naming, c, status); }
    SumOverSame(components, entries, lines);
  }

  /** For each status the summary's cells total the lines of that status the components are shown
      by, and the files of it. */
  lemma SummaryConserves(naming: Naming, app: Application, status: Status)
    requires app.status == Changed
    ensures SumOver(Summary(naming, app), CountIn(status))
         == |Filter(Flat(app.components, ShownLines(naming)), LineHas(status))| + |Filter(app.files, Is(status))|
  {
    EntriesConserved(naming, app, status);
    FilterOn(Flat(app.components, ShownEntries(naming)), Mapped(app.files, FileEntry()), HasStatus(status));
    EntriesAreLines(naming, app.components, status);
    FilterMapped(app.files, FileEntry(), HasStatus(status), Is(status));
  }

  function CountAll(r: Counts): nat {
    r.missing + r.extra + r.changed
  }

  lemma {:induction false} EveryEntryCounted(kind: string, name: string, entries: seq<Entry>)
    ensures CountAll(CountRow(kind, name, entries)) == |entries|
  {
    if entries != [] {
      EveryEntryCounted(kind, name, entries[..|entries| - 1]);
    }
  }

  /** An application only one side has is one row, counted once, and has no listings. */
  lemma OneSidedApplication(naming: Naming, app: Application, status: Status)
    requires app.status != Changed
    ensures SumOver(Summary(naming, app), CountIn(status)) == if status == app.status then 1 else 0
    ensures PageGroups(naming, app) == []
    ensures |Summary(naming, app)| == 1
    ensures Summary(naming, app)[0].kind == "APPLICATION" && Summary(naming, app)[0].name == app.title
  {
    var entry := Entry(APPLICATION, app.status);
    var row := CountRow(APPLICATION, app.title, [entry]);
    SumOverOne(row, CountIn(status));
    assert [entry][..0] == [];
    assert forall st ::
      Filter([entry], HasStatus(st))
      == Filter([entry][..0], HasStatus(st)) + (if HasStatus(st)(entry) then [entry] else []);
  }

  /** A listing row: one changed property, repeating its component. */
  datatype ScreenRow = ScreenRow(kind: string, name: string, status: Status, property: string)

  /** `_rows`, for one line. */
  function Expand(): Line -> seq<ScreenRow> {
    (l: Line) => Mapped(if l.properties == [] then [""] else l.properties, RowFor(l))
  }

  function RowFor(l: Line): string -> ScreenRow {
    property => ScreenRow(l.kind, l.name, l.status, property)
  }

  function PageGroups(naming: Naming, app: Application): seq<seq<ScreenRow>> {
    if app.status != Changed then [] else Mapped(Filter(app.components, IsPage()), PageGroup(naming))
  }

  function PageGroup(naming: Naming): Component -> seq<ScreenRow> {
    (page: Component) => Flat(PageLines(naming, page), Expand())
  }

  /** A line is listed once for each property it names, or once if it names none, every row
      repeating its type, name and status. */
  lemma ExpandedRows(l: Line, k: nat)
    requires k < |Expand()(l)|
    ensures |Expand()(l)| == if l.properties == [] then 1 else |l.properties|
    ensures
      var row := Expand()(l)[k];
      && row.kind == l.kind && row.name == l.name && row.status == l.status
      && row.property == if l.properties == [] then "" else l.properties[k]
  {
  }

  function RowsOf(): Line -> nat {
    (l: Line) => if l.properties == [] then 1 else |l.properties|
  }

  lemma {:induction false} ExpandedSize(lines: seq<Line>)
    ensures |Flat(lines, Expand())| == SumOver(lines, RowsOf())
  {
    if lines != [] {
      ExpandedSize(lines[..|lines| - 1]);
    }
  }

  /** The first rows of the summary are the page groups' pages: each counts exactly the lines its
      group expands, and the group has one row per changed property, or one where there is none. */
  lemma PagesAgree(naming: Naming, app: Application, i: nat)
    requires app.status == Changed && i < |Filter(app.components, IsPage())|
    ensures
      var page := Filter(app.components, IsPage())[i];
      && |PageGroups(naming, app)| == |Filter(app.components, IsPage())| <= |Summary(naming, app)|
      && Summary(naming, app)[i].kind == PAGE && Summary(naming, app)[i].name == page.name
      && CountAll(Summary(naming, app)[i]) == |PageLines(naming, page)|
      && PageGroups(naming, app)[i] == Flat(PageLines(naming, page), Expand())
      && |PageGroups(naming, app)[i]| == SumOver(PageLines(naming, page), RowsOf())
  {
    var page := Filter(app.components, IsPage())[i];
    EveryEntryCounted(PAGE, page.name, PageEntries(naming)(page));
    ExpandedSize(PageLines(naming, page));
  }

  lemma TypeRowOf(entries: seq<Entry>, e: Entry) returns (i: nat)
    requires e in entries
    ensures
      var rows := Mapped(KeysOf(entries, KindOf()), TypeRow(entries));
      && i < |rows| && rows[i] == CountRow(e.kind, "", Group(entries, KindOf(), e.kind))
      && forall j :: 0 <= j < |rows| && j != i ==> rows[j].kind != e.kind
  {
    var kinds := KeysOf(entries, KindOf());
    KeysOfIs(entries, KindOf());
    assert KindOf()(e) in kinds;
    i :| 0 <= i < |kinds| && kinds[i] == e.kind;
    assert TypeRow(entries)(e.kind) == CountRow(e.kind, "", Group(entries, KindOf(), e.kind));
  }

  /** Where the type rows of a summary begin. */
  function PageCount(app: Application): nat {
    |Filter(app.components, IsPage())|
  }

  /** The rows of the types there are, in the summary. */
  lemma AfterThePages(naming: Naming, app: Application, types: seq<Counts>)
    requires app.status == Changed
    requires types == Mapped(KeysOf(TypeEntries(naming, app), KindOf()), TypeRow(TypeEntries(naming, app)))
    ensures |Summary(naming, app)| == PageCount(app) + |types| && Summary(naming, app)[PageCount(app)..] == types
  {
  }

  /** Every type there is a line of outside a page, or a file of, has exactly one row after the
      pages' own, which counts that type's lines. */
  lemma OneRowPerType(naming: Naming, app: Application, e: Entry) returns (i: nat)
    requires app.status == Changed && e in TypeEntries(naming, app)
    ensures
      var rows, entries := Summary(naming, app), TypeEntries(naming, app);
      && PageCount(app) <= i < |rows| && rows[i] == CountRow(e.kind, "", Group(entries, KindOf(), e.kind))
      && forall j :: PageCount(app) <= j < |rows| && j != i ==> rows[j].kind != e.kind
  {
    var entries := TypeEntries(naming, app);
    var types := Mapped(KeysOf(entries, KindOf()), TypeRow(entries));
    i := TypeRowOf(entries, e);
    AfterThePages(naming, app, types);
    i := UniqueAfter(Summary(naming, app), PageCount(app), types, i);
  }

  /** The only row of its kind in the last rows is so from there on. */
  lemma UniqueAfter(rows: seq<Counts>, start: nat, types: seq<Counts>, k: nat) returns (i: nat)
    requires start <= |rows| && rows[start..] == types && k < |types|
    requires forall j :: 0 <= j < |types| && j != k ==> types[j].kind != types[k].kind
    ensures i == start + k < |rows| && rows[i] == types[k]
    ensures forall j :: start <= j < |rows| && j != i ==> rows[j].kind != types[k].kind
  {
    i := start + k;
    forall j | start <= j < |rows| && j != i ensures rows[j].kind != types[k].kind {
      assert rows[j] == types[j - start];
    }
  }

  /** The lines shown outside the pages. */
  function PartLines(naming: Naming, app: Application): seq<Line> {
    Flat(Filter(app.components, NotPage()), ShownLines(naming))
  }

  lemma PagesApart(components: seq<Component>, c: Component)
    ensures c in Filter(components, IsPage()) <==> c in components && c.kind == "PAGE"
    ensures c in Filter(components, NotPage()) <==> c in components && c.kind != "PAGE"
  {
    FilterMember(components, IsPage(), c);
    FilterMember(components, NotPage(), c);
  }

  function KindAndStatus(kind: string, status: Status): Entry -> bool {
    (e: Entry) => e.kind == kind && e.status == status
  }

  lemma PartEntriesAre(naming: Naming, components: seq<Component>, kind: string, status: Status)
    requires forall c :: c in components ==> c.kind != "PAGE"
    ensures |Filter(Flat(components, PartEntries(naming)), KindAndStatus(kind, status))|
         == |Filter(Flat(components, ShownLines(naming)), LineOf(kind, status))|
  {
    var p, q := KindAndStatus(kind, status), LineOf(kind, status);
    FilterFlat(components, PartEntries(naming), p);
    FilterFlat(components, ShownLines(naming), q);
    forall c | c in components ensures Sizes(PartEntries(naming), p)(c) == Sizes(ShownLines(naming), q)(c) {
      assert PartEntries(naming)(c) == Mapped(ShownLines(naming)(c), EntryOf());
      FilterMapped(ShownLines(naming)(c), EntryOf(), p, q);
    }
    SumOverSame(components, Sizes(PartEntries(naming), p), Sizes(ShownLines(naming), q));
  }

  /** A type's row counts the lines of that type shown outside the pages, and `APP FILE` the files. */
  lemma TypeRowCounts(naming: Naming, app: Application, kind: string, status: Status)
    ensures CountIn(status)(CountRow(kind, "", Group(TypeEntries(naming, app), KindOf(), kind)))
         == |Filter(PartLines(naming, app), LineOf(kind, status))|
            + (if kind == "APP FILE" then |Filter(app.files, Is(status))| else 0)
  {
    var parts, p := Filter(app.components, NotPage()), KindAndStatus(kind, status);
    FilterTwice(TypeEntries(naming, app), Keyed(KindOf(), kind), HasStatus(status), p);
    FilterOn(Flat(parts, PartEntries(naming)), Mapped(app.files, FileEntry()), p);
    forall c | c in parts ensures c.kind != "PAGE" { PagesApart(app.components, c); }
    PartEntriesAre(naming, parts, kind, status);
    if kind == APP_FILE {
      FilterMapped(app.files, FileEntry(), p, Is(status));
    } else {
      forall e | e in Mapped(app.files, FileEntry()) ensures !p(e) {
        var i :| 0 <= i < |app.files| && Mapped(app.files, FileEntry())[i] == e;
      }
      FilterNone(Mapped(app.files, FileEntry()), p);
    }
  }

  /** And every row after the pages' own is that of a type there is such a line of. */
  lemma EveryRowHasALine(naming: Naming, app: Application, i: nat) returns (e: Entry)
    requires app.status == Changed && PageCount(app) <= i < |Summary(naming, app)|
    ensures e in TypeEntries(naming, app) && e.kind == Summary(naming, app)[i].kind
  {
    var entries := TypeEntries(naming, app);
    AfterThePages(naming, app, Mapped(KeysOf(entries, KindOf()), TypeRow(entries)));
    e := RowHasEntry(Summary(naming, app), PageCount(app), entries, i);
  }

  lemma RowHasEntry(rows: seq<Counts>, start: nat, entries: seq<Entry>, i: nat) returns (e: Entry)
    requires start <= i < |rows| && rows[start..] == Mapped(KeysOf(entries, KindOf()), TypeRow(entries))
    ensures e in entries && e.kind == rows[i].kind
  {
    var kinds := KeysOf(entries, KindOf());
    var kind := kinds[i - start];
    assert rows[i] == rows[start..][i - start] == TypeRow(entries)(kind);
    assert TypeRow(entries)(kind) == CountRow(kind, "", Group(entries, KindOf(), kind));
    e := EntryOfKind(entries, kind);
  }

  lemma EntryOfKind(entries: seq<Entry>, kind: string) returns (e: Entry)
    requires kind in KeysOf(entries, KindOf())
    ensures e in entries && e.kind == kind
  {
    KeysOfIs(entries, KindOf());
    e := Group(entries, KindOf(), kind)[0];
    FilterMember(entries, Keyed(KindOf(), kind), e);
  }
}
