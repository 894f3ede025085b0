/**
 `locate_revealed_apps` over the configured connections, its report, and what the report means in
 terms of those connections alone.
 */
module AppLocate {
  import opened Prelude
  import opened AppSearch

  // ----- the search itself

  datatype Located = Located(
    owners: seq<string>, notConfigured: seq<(string, string, seq<string>)>, notFound: seq<string>)

  /** The configured connections and what their discovery sees. */
  datatype Connections = Connections(
    configured: seq<string>, upper: string -> string, own: string, sees: string -> seq<App>)

  function SearchOrder(c: Connections): seq<string> {
    [c.own] + Filter(c.configured, schema => schema != c.own)
  }

  function HomesOf(c: Connections): Homes {
    owner => Lookup(c.configured, c.upper, owner)
  }

  function Listed(filed: map<string, seq<App>>): set<string> {
    set o, i | o in filed && 0 <= i < |filed[o]| :: filed[o][i].id
  }

  function Wanted(filed: map<string, seq<App>>, requested: seq<string>): seq<string> {
    Filter(Unique(requested), id => id !in Listed(filed))
  }

  /** The search that never stops early. */
  function FullScan(c: Connections, filed: map<string, seq<App>>, requested: seq<string>): State {
    Scan(HomesOf(c), Start(Wanted(filed, requested), filed), Stream(c.sees, SearchOrder(c)))
  }

  function Report(s: State): Located
    requires forall id :: id in s.order ==> id in s.reached
  {
    Located(s.owners,
            seq(|s.order|, i requires 0 <= i < |s.order| =>
              (s.order[i], s.reached[s.order[i]].owner, Sort(s.reached[s.order[i]].schemas, TextLe))),
            Filter(s.missing, id => id !in s.reached))
  }

  // ----- the outcome, told from the connections alone

  /** The run's own connection and the configured ones are the ones to ask. */
  ghost predicate IsAsked(c: Connections, schema: string) {
    schema == c.own || schema in c.configured
  }

  ghost predicate SeesId(c: Connections, schema: string, id: string) {
    exists a :: a in c.sees(schema) && a.id == id
  }

  /** No answer holds an application of that id before `app`. */
  ghost predicate FirstOf(apps: seq<App>, app: App) {
    exists i :: 0 <= i < |apps| && apps[i] == app && forall j :: 0 <= j < i ==> apps[j].id != app.id
  }

  /** `schema` is the first configured connection to see the id. */
  ghost predicate FirstToSee(c: Connections, configured: seq<string>, id: string, schema: string) {
    exists k :: 0 <= k < |configured| && configured[k] == schema
             && forall j :: 0 <= j < k ==> !SeesId(c, configured[j], id)
  }

  /** The application an id is found as: the own connection's first, else that of the first
      configured connection to see the id. */
  ghost predicate FoundAs(c: Connections, id: string, schema: string, app: App) {
    && app.id == id && FirstOf(c.sees(schema), app)
    && (if SeesId(c, c.own, id) then schema == c.own else FirstToSee(c, c.configured, id, schema))
  }

  /** Every connection is asked once: the own one first, the others as they are configured. */
  lemma SearchOrderIs(c: Connections, schema: string)
    ensures SearchOrder(c) != [] && SearchOrder(c)[0] == c.own
    ensures schema in SearchOrder(c) <==> IsAsked(c, schema)
    ensures Distinct(c.configured) ==> Distinct(SearchOrder(c))
    ensures c.own !in c.configured ==> SearchOrder(c) == [c.own] + c.configured
  {
    var other := (s: string) => s != c.own;
    FilterSame(c.configured, other, s => s != c.own);
    FilterMember(c.configured, other, schema);
    forall s ensures s in Filter(c.configured, other) <==> s in c.configured && s != c.own {
      FilterMember(c.configured, other, s);
    }
    if Distinct(c.configured) {
      FilterDistinct(c.configured, other);
      DistinctOn([c.own], Filter(c.configured, other));
    }
    if c.own !in c.configured { FilterAll(c.configured, other); }
  }

  lemma OwnGoesFirst(c: Connections, before: seq<string>, after: seq<string>)
    requires c.configured == before + [c.own] + after && c.own !in before && c.own !in after
    ensures SearchOrder(c) == [c.own] + before + after
  {
    var other := (s: string) => s != c.own;
    FilterSame(c.configured, other, s => s != c.own);
    FilterOn(before + [c.own], after, other);
    FilterOn(before, [c.own], other);
    FilterAll(before, other);
    FilterAll(after, other);
    FilterNone([c.own], other);
    assert before + [] == before;
  }

  lemma {:induction false} FirstOn(a: seq<Sighting>, b: seq<Sighting>, id: string)
    ensures First(a + b, id) == if First(a, id).Some? then First(a, id) else First(b, id)
  {
    if b == [] {
      assert a + b == a;
    } else {
      FirstOn(a, b[..|b| - 1], id);
      assert (a + b)[..|a + b| - 1] == a + b[..|b| - 1];
    }
  }

  lemma {:induction false} FirstThrough(schema: string, apps: seq<App>, id: string)
    ensures
      match First(Through(schema, apps), id)
      case None => forall a :: a in apps ==> a.id != id
      case Some(x) => x.schema == schema && x.app.id == id && FirstOf(apps, x.app) && x.app in apps
  {
    if apps != [] {
      var front := apps[..|apps| - 1];
      FirstThrough(schema, front, id);
      assert apps == front + [Last(apps)] && Through(schema, apps)[..|apps| - 1] == Through(schema, front);
      if First(Through(schema, front), id).Some? {
        FirstStays(front, Last(apps), First(Through(schema, front), id).value.app);
      } else if Last(apps).id == id {
        assert apps[|apps| - 1] == Last(apps);
      }
    }
  }

  lemma FirstStays(apps: seq<App>, more: App, app: App)
    requires FirstOf(apps, app)
    ensures FirstOf(apps + [more], app)
  {
    var i :| 0 <= i < |apps| && apps[i] == app && forall j :: 0 <= j < i ==> apps[j].id != app.id;
    assert (apps + [more])[i] == app;
  }

  function Others(c: Connections): string -> bool {
    s => s != c.own
  }

  /** The first sighting through the configured connections but the own one. */
  lemma {:induction false} FirstConfigured(c: Connections, configured: seq<string>, id: string)
    requires !SeesId(c, c.own, id)
    ensures
      match First(Stream(c.sees, Filter(configured, Others(c))), id)
      case None => forall s :: s in configured ==> !SeesId(c, s, id)
      case Some(x) =>
        x.app.id == id && FirstOf(c.sees(x.schema), x.app) && FirstToSee(c, configured, id, x.schema)
  {
    if configured != [] {
      var front, last := configured[..|configured| - 1], Last(configured);
      assert configured == front + [last];
      FirstConfigured(c, front, id);
      FirstThrough(last, c.sees(last), id);
      if last != c.own {
        var before := Filter(front, Others(c));
        FlatSnoc(before, last, Reader(c.sees));
        FirstOn(Stream(c.sees, before), Through(last, c.sees(last)), id);
      } else {
        assert Filter(configured, Others(c)) == Filter(front, Others(c));
      }
      FirstToSeeNext(c, front, last, id);
    }
  }

  lemma FirstToSeeNext(c: Connections, front: seq<string>, last: string, id: string)
    ensures forall s :: FirstToSee(c, front, id, s) ==> FirstToSee(c, front + [last], id, s)
    ensures (forall s :: s in front ==> !SeesId(c, s, id)) ==> FirstToSee(c, front + [last], id, last)
  {
    var all := front + [last];
    assert all[|front|] == last && forall k :: 0 <= k < |front| ==> all[k] == front[k] && front[k] in front;
    forall s | FirstToSee(c, front, id, s) ensures FirstToSee(c, all, id, s) {
      var k :| 0 <= k < |front| && front[k] == s && forall j :: 0 <= j < k ==> !SeesId(c, front[j], id);
      assert all[k] == s;
    }
  }

  /** The first sighting of the stream is what the id is found as, and there is none just when no
      connection to ask sees the id. */
  lemma FirstIsFound(c: Connections, id: string)
    ensures
      match First(Stream(c.sees, SearchOrder(c)), id)
      case None => forall s :: IsAsked(c, s) ==> !SeesId(c, s, id)
      case Some(x) => FoundAs(c, id, x.schema, x.app) && SeesId(c, x.schema, id) && IsAsked(c, x.schema)
  {
    var rest := Filter(c.configured, Others(c));
    FilterSame(c.configured, Others(c), schema => schema != c.own);
    FlatOn([c.own], rest, Reader(c.sees));
    assert [c.own][..0] == [];
    assert Stream(c.sees, [c.own]) == Through(c.own, c.sees(c.own));
    FirstOn(Stream(c.sees, [c.own]), Stream(c.sees, rest), id);
    FirstThrough(c.own, c.sees(c.own), id);
    if First(Through(c.own, c.sees(c.own)), id).None? {
      FirstConfigured(c, c.configured, id);
    }
  }

  lemma {:induction false} InStream(sees: string -> seq<App>, order: seq<string>, x: Sighting)
    ensures x in Stream(sees, order) <==> x.schema in order && x.app in sees(x.schema)
  {
    if order != [] {
      var front, last := order[..|order| - 1], Last(order);
      assert order == front + [last];
      InStream(sees, front, x);
      var part := Through(last, sees(last));
      if x.schema == last && x.app in sees(last) {
        var i :| 0 <= i < |sees(last)| && sees(last)[i] == x.app;
        assert part[i] == x;
      }
    }
  }

  /** The schemas named for an id are exactly the connections that see it. */
  lemma SeenByAsked(c: Connections, id: string, schema: string)
    ensures schema in SeenBy(Stream(c.sees, SearchOrder(c)), id) <==> IsAsked(c, schema) && SeesId(c, schema, id)
  {
    var seen := Stream(c.sees, SearchOrder(c));
    SeenByIs(seen, id);
    SearchOrderIs(c, schema);
    if IsAsked(c, schema) && SeesId(c, schema, id) {
      var a :| a in c.sees(schema) && a.id == id;
      InStream(c.sees, SearchOrder(c), Sighting(schema, a));
      assert Sighting(schema, a) in seen;
    }
    if x :| x in seen && x.schema == schema && x.app.id == id {
      InStream(c.sees, SearchOrder(c), x);
    }
  }

  /** No configured name is the owner's. */
  ghost predicate Homeless(c: Connections, owner: string) {
    forall i :: 0 <= i < |c.configured| ==> c.upper(c.configured[i]) != c.upper(owner)
  }

  /** The list an owner's applications go to. */
  ghost predicate GoesTo(c: Connections, owner: string, o: string) {
    if Homeless(c, owner) then o == owner
    else exists i: nat :: IsHome(c.configured, c.upper, owner, i) && c.configured[i] == o
  }

  lemma HomeIs(c: Connections, owner: string, o: string)
    ensures HomesOf(c)(owner).None? <==> Homeless(c, owner)
    ensures HomeOf(HomesOf(c), owner) == o <==> GoesTo(c, owner, o)
  {
    var i := LookupIs(c.configured, c.upper, owner);
    if HomesOf(c)(owner).Some? {
      assert IsHome(c.configured, c.upper, owner, i);
    }
  }

  /** An id that is requested and on no list yet. */
  ghost predicate IsWanted(filed: map<string, seq<App>>, requested: seq<string>, id: string) {
    id in requested && !exists o, i :: o in filed && 0 <= i < |filed[o]| && filed[o][i].id == id
  }

  /** What the search reports and files of one id. */
  ghost predicate Reported(c: Connections, wanted: bool, located: Located, id: string) {
    && (id in located.notFound <==> wanted && forall s :: IsAsked(c, s) ==> !SeesId(c, s, id))
    && ((exists i :: 0 <= i < |located.notConfigured| && located.notConfigured[i].0 == id) <==>
          wanted && exists schema, app :: FoundAs(c, id, schema, app) && Homeless(c, app.owner))
  }

  /** An entry of the unconfigured: the owner the id was found under, and all connections that see it. */
  ghost predicate NamesOwner(c: Connections, entry: (string, string, seq<string>)) {
    && (exists schema, app :: FoundAs(c, entry.0, schema, app) && app.owner == entry.1 && Homeless(c, entry.1))
    && Sorted(entry.2, TextLe) && Distinct(entry.2)
    && (forall s :: s in entry.2 <==> IsAsked(c, s) && SeesId(c, s, entry.0))
  }

  /** What the search leaves, with no word of how it goes about it. */
  ghost predicate Finds(c: Connections, filed: map<string, seq<App>>, requested: seq<string>, located: Located) {
    && Distinct(located.notFound)
    && (forall id :: Reported(c, IsWanted(filed, requested, id), located, id))
    && (forall i, j :: 0 <= i < j < |located.notConfigured| ==>
          located.notConfigured[i].0 != located.notConfigured[j].0)
    && (forall i :: 0 <= i < |located.notConfigured| ==> NamesOwner(c, located.notConfigured[i]))
  }

  lemma WantedIs(filed: map<string, seq<App>>, requested: seq<string>, id: string)
    ensures Distinct(Wanted(filed, requested)) && (id in Wanted(filed, requested) <==> IsWanted(filed, requested, id))
  {
    UniqueIs(requested);
    FilterMember(Unique(requested), x => x !in Listed(filed), id);
    FilterDistinct(Unique(requested), x => x !in Listed(filed));
  }

  lemma ReportedId(c: Connections, wanted: seq<string>, filed: map<string, seq<App>>, s: State, id: string)
    requires s == Scan(HomesOf(c), Start(wanted, filed), Stream(c.sees, SearchOrder(c)))
    requires forall k :: k in s.order <==> k in s.reached
    ensures Reported(c, id in wanted, Report(s), id)
  {
    var seen, homes := Stream(c.sees, SearchOrder(c)), HomesOf(c);
    ScanClassifies(homes, wanted, filed, seen, id);
    FilterMember(s.missing, k => k !in s.reached, id);
    FirstIsFound(c, id);
    OrderListed(s, id);
    if First(seen, id).Some? {
      var x := First(seen, id).value;
      HomeIs(c, x.app.owner, "");
      forall schema, app | FoundAs(c, id, schema, app) ensures app == x.app {
        FoundOnce(c, id, schema, app, x.schema, x.app);
      }
    } else {
      NotFoundAs(c, id);
    }
  }

  lemma OrderListed(s: State, id: string)
    requires forall k :: k in s.order ==> k in s.reached
    ensures id in s.order <==> exists i :: 0 <= i < |Report(s).notConfigured| && Report(s).notConfigured[i].0 == id
  {
    if id in s.order {
      var i :| 0 <= i < |s.order| && s.order[i] == id;
      assert Report(s).notConfigured[i].0 == id;
    }
  }

  lemma FirstToSeeIs(c: Connections, configured: seq<string>, id: string, s: string, t: string)
    requires FirstToSee(c, configured, id, s) && FirstToSee(c, configured, id, t)
    requires SeesId(c, s, id) && SeesId(c, t, id)
    ensures s == t
  {
  }

  lemma FirstOfIs(apps: seq<App>, a: App, b: App)
    requires FirstOf(apps, a) && FirstOf(apps, b) && a.id == b.id
    ensures a == b
  {
  }

  /** There is one application an id is found as. */
  lemma FoundOnce(c: Connections, id: string, s: string, a: App, t: string, b: App)
    requires FoundAs(c, id, s, a) && FoundAs(c, id, t, b)
    ensures s == t && a == b
  {
    assert a in c.sees(s) && b in c.sees(t);
    if !SeesId(c, c.own, id) { FirstToSeeIs(c, c.configured, id, s, t); }
    FirstOfIs(c.sees(s), a, b);
  }

  lemma NotFoundAs(c: Connections, id: string)
    requires forall s :: IsAsked(c, s) ==> !SeesId(c, s, id)
    ensures !exists schema, app :: FoundAs(c, id, schema, app)
  {
    if schema, app :| FoundAs(c, id, schema, app) {
      assert app in c.sees(schema) && IsAsked(c, schema);
    }
  }

  lemma NamedOwner(c: Connections, wanted: seq<string>, filed: map<string, seq<App>>, s: State, i: nat)
    requires s == Scan(HomesOf(c), Start(wanted, filed), Stream(c.sees, SearchOrder(c)))
    requires (forall k :: k in s.order <==> k in s.reached) && i < |s.order|
    ensures NamesOwner(c, Report(s).notConfigured[i])
  {
    var seen, homes, id := Stream(c.sees, SearchOrder(c)), HomesOf(c), s.order[i];
    ScanClassifies(homes, wanted, filed, seen, id);
    FirstIsFound(c, id);
    var x := First(seen, id).value;
    HomeIs(c, x.app.owner, "");
    SeenByIs(seen, id);
    var schemas := SeenBy(seen, id);
    SortPermutes(schemas, TextLe);
    SortDistinct(schemas, TextLe);
    TextOrder();
    SortOrders(schemas, TextLe);
    forall schema ensures schema in schemas <==> IsAsked(c, schema) && SeesId(c, schema, id) {
      SeenByAsked(c, id, schema);
    }
  }

  /** The report of the full scan is told by the connections alone. */
  lemma ScanFinds(c: Connections, filed: map<string, seq<App>>, requested: seq<string>, s: State)
    requires s == FullScan(c, filed, requested)
    ensures (forall id :: id in s.order <==> id in s.reached) && Finds(c, filed, requested, Report(s))
  {
    var wanted, homes, seen := Wanted(filed, requested), HomesOf(c), Stream(c.sees, SearchOrder(c));
    ScanOrders(homes, Start(wanted, filed), seen);
    forall id ensures Reported(c, IsWanted(filed, requested, id), Report(s), id) {
      WantedIs(filed, requested, id);
      ReportedId(c, wanted, filed, s, id);
    }
    forall i | 0 <= i < |s.order| ensures NamesOwner(c, Report(s).notConfigured[i]) {
      NamedOwner(c, wanted, filed, s, i);
    }
    WantedIs(filed, requested, "");
    ScanMisses(homes, wanted, filed, seen);
    FilterDistinct(wanted, StillMissing(homes, seen));
    FilterDistinct(s.missing, id => id !in s.reached);
  }

  /** What the list of owner `o` gained: each wanted id whose application goes there, once. */
  ghost predicate Gains(
    c: Connections, filed: map<string, seq<App>>, requested: seq<string>, gained: seq<App>, o: string) {
    && (forall i, j :: 0 <= i < j < |gained| ==> gained[i].id != gained[j].id)
    && (forall a :: a in gained <==>
          IsWanted(filed, requested, a.id) && (exists schema :: FoundAs(c, a.id, schema, a)) && GoesTo(c, a.owner, o))
  }

  /** The list of owner `o` after the search, and whether the search reports `o` as a new owner. */
  ghost predicate Files(
    c: Connections, filed: map<string, seq<App>>, requested: seq<string>, owners: seq<string>,
    after: map<string, seq<App>>, o: string) {
    exists gained: seq<App> ::
      && Gains(c, filed, requested, gained, o) && AppsOf(after, o) == AppsOf(filed, o) + gained
      && (o in after <==> o in filed || gained != []) && (o in owners <==> o in after && o !in filed)
  }

  lemma {:induction false} HomedIs(homes: Homes, firsts: seq<Sighting>, o: string, a: App)
    ensures a in Homed(homes, firsts, o) <==>
      exists x :: x in firsts && x.app == a && HomeOf(homes, a.owner) == o
  {
    if firsts != [] {
      HomedIs(homes, firsts[..|firsts| - 1], o, a);
      assert firsts == firsts[..|firsts| - 1] + [Last(firsts)];
    }
  }

  lemma FirstsMember(wanted: seq<string>, seen: seq<Sighting>, x: Sighting)
    ensures x in Firsts(wanted, seen) <==> x.app.id in wanted && First(seen, x.app.id) == Some(x)
  {
    FirstsAreFirst(wanted, seen, x);
    assert x in Firsts(wanted, seen) <==> x in multiset(Firsts(wanted, seen));
  }

  ghost predicate OneEach(apps: seq<App>) {
    forall i, j :: 0 <= i < j < |apps| ==> apps[i].id != apps[j].id
  }

  /** No id is filed twice. */
  lemma {:induction false} HomedOnce(homes: Homes, wanted: seq<string>, seen: seq<Sighting>, o: string)
    ensures OneEach(Homed(homes, Firsts(wanted, seen), o))
  {
    if seen != [] {
      var front, last := seen[..|seen| - 1], Last(seen);
      var firsts := Firsts(wanted, front);
      HomedOnce(homes, wanted, front, o);
      if last.app.id in wanted && First(front, last.app.id).None? {
        assert (firsts + [last])[..|firsts|] == firsts;
        forall a | a in Homed(homes, firsts, o) ensures a.id != last.app.id {
          HomedIs(homes, firsts, o, a);
          var x :| x in firsts && x.app == a;
          FirstsMember(wanted, front, x);
        }
      } else {
        assert firsts + [] == firsts;
      }
    }
  }

  lemma GainedIs(c: Connections, wanted: seq<string>, o: string, a: App)
    ensures a in Homed(HomesOf(c), Firsts(wanted, Stream(c.sees, SearchOrder(c))), o) <==>
      a.id in wanted && (exists schema :: FoundAs(c, a.id, schema, a)) && GoesTo(c, a.owner, o)
  {
    var seen, homes := Stream(c.sees, SearchOrder(c)), HomesOf(c);
    HomedIs(homes, Firsts(wanted, seen), o, a);
    HomeIs(c, a.owner, o);
    FirstIsFound(c, a.id);
    if x :| x in Firsts(wanted, seen) && x.app == a {
      FirstsMember(wanted, seen, x);
    }
    if schema :| FoundAs(c, a.id, schema, a) {
      if First(seen, a.id).None? { NotFoundAs(c, a.id); }
      var x := First(seen, a.id).value;
      FoundOnce(c, a.id, schema, a, x.schema, x.app);
      FirstsMember(wanted, seen, x);
    }
  }

  lemma GainsAre(c: Connections, filed: map<string, seq<App>>, requested: seq<string>, gained: seq<App>, o: string)
    requires gained == Homed(HomesOf(c), Firsts(Wanted(filed, requested), Stream(c.sees, SearchOrder(c))), o)
    ensures Gains(c, filed, requested, gained, o)
  {
    HomedOnce(HomesOf(c), Wanted(filed, requested), Stream(c.sees, SearchOrder(c)), o);
    forall a
      ensures a in gained <==>
        IsWanted(filed, requested, a.id) && (exists schema :: FoundAs(c, a.id, schema, a)) && GoesTo(c, a.owner, o)
    {
      WantedIs(filed, requested, a.id);
      GainedIs(c, Wanted(filed, requested), o, a);
    }
  }

  /** And so are the lists; in what order the ids are filed is `ScanFiles`. */
  lemma ScanFilesIds(c: Connections, filed: map<string, seq<App>>, requested: seq<string>, s: State, o: string)
    requires s == FullScan(c, filed, requested)
    ensures Files(c, filed, requested, s.owners, s.filed, o)
  {
    var wanted, seen := Wanted(filed, requested), Stream(c.sees, SearchOrder(c));
    ScanFiles(HomesOf(c), wanted, filed, seen, o);
    GainsAre(c, filed, requested, Homed(HomesOf(c), Firsts(wanted, seen), o), o);
  }

  // ----- the order of the report

  ghost function NobodySees(c: Connections, filed: map<string, seq<App>>, requested: seq<string>): string -> bool {
    id => IsWanted(filed, requested, id) && forall s :: IsAsked(c, s) ==> !SeesId(c, s, id)
  }

  ghost function Unhoused(c: Connections): Sighting -> bool {
    (x: Sighting) => Homeless(c, x.app.owner)
  }

  function IdOf(): Sighting -> string {
    (x: Sighting) => x.app.id
  }

  function EntryId(): ((string, string, seq<string>)) -> string {
    (entry: (string, string, seq<string>)) => entry.0
  }

  /** The ids reached under no configured owner, in the order of their first sightings. */
  lemma {:induction false} OrderIs(
    c: Connections, wanted: seq<string>, filed: map<string, seq<App>>, seen: seq<Sighting>)
    ensures Scan(HomesOf(c), Start(wanted, filed), seen).order
         == Mapped(Filter(Firsts(wanted, seen), Unhoused(c)), IdOf())
  {
    if seen != [] {
      var front, last, homes := seen[..|seen| - 1], Last(seen), HomesOf(c);
      OrderIs(c, wanted, filed, front);
      ScanClassifies(homes, wanted, filed, front, last.app.id);
      HomeIs(c, last.app.owner, "");
      if last.app.id in wanted && First(front, last.app.id).None? {
        FilterSnoc(Firsts(wanted, front), last, Unhoused(c));
        MappedOn(Filter(Firsts(wanted, front), Unhoused(c)), [last], IdOf());
      } else {
        assert Firsts(wanted, front) + [] == Firsts(wanted, front);
      }
    }
  }

  /** What is not found stands in the order requested, what is not configured in the order found. */
  lemma ReportInOrder(c: Connections, filed: map<string, seq<App>>, requested: seq<string>, s: State)
    requires s == FullScan(c, filed, requested)
    ensures (forall id :: id in s.order ==> id in s.reached)
    ensures Report(s).notFound == Filter(Unique(requested), NobodySees(c, filed, requested))
    ensures Mapped(Report(s).notConfigured, EntryId())
         == Mapped(Filter(Firsts(Wanted(filed, requested), Stream(c.sees, SearchOrder(c))), Unhoused(c)), IdOf())
  {
    var wanted, homes, seen := Wanted(filed, requested), HomesOf(c), Stream(c.sees, SearchOrder(c));
    Outcome(c, filed, requested);
    OrderIs(c, wanted, filed, seen);
    assert Mapped(Report(s).notConfigured, EntryId()) == s.order;
    ScanMisses(homes, wanted, filed, seen);
    NotFoundIs(c, filed, requested, s);
  }

  lemma NotFoundIs(c: Connections, filed: map<string, seq<App>>, requested: seq<string>, s: State)
    requires (forall id :: id in s.order ==> id in s.reached) && Finds(c, filed, requested, Report(s))
    requires s.missing == Filter(Wanted(filed, requested), StillMissing(HomesOf(c), Stream(c.sees, SearchOrder(c))))
    ensures Report(s).notFound == Filter(Unique(requested), NobodySees(c, filed, requested))
  {
    var wanted, still := Wanted(filed, requested), StillMissing(HomesOf(c), Stream(c.sees, SearchOrder(c)));
    var unlisted, lost := (id: string) => id !in Listed(filed), (id: string) => id !in s.reached;
    var both, all := (id: string) => still(id) && lost(id), (id: string) => unlisted(id) && still(id) && lost(id);
    FilterSame(Unique(requested), unlisted, id => id !in Listed(filed));
    FilterSame(s.missing, lost, id => id !in s.reached);
    FilterTwice(wanted, still, lost, both);
    FilterTwice(Unique(requested), unlisted, both, all);
    forall id ensures all(id) && id in Unique(requested) <==> id in Report(s).notFound {
      FilterMember(s.missing, lost, id);
      FilterMember(wanted, still, id);
      FilterMember(Unique(requested), unlisted, id);
    }
    forall id | id in Unique(requested) ensures all(id) == NobodySees(c, filed, requested)(id) {
      assert Reported(c, IsWanted(filed, requested, id), Report(s), id);
    }
    FilterSame(Unique(requested), all, NobodySees(c, filed, requested));
  }

  /** The report and the lists a search leaves. */
  ghost predicate Settles(
    c: Connections, filed: map<string, seq<App>>, requested: seq<string>, located: Located,
    after: map<string, seq<App>>) {
    Finds(c, filed, requested, located) && forall o :: Files(c, filed, requested, located.owners, after, o)
  }

  lemma Outcome(c: Connections, filed: map<string, seq<App>>, requested: seq<string>)
    ensures
      var final := FullScan(c, filed, requested);
      && (forall id :: id in final.order <==> id in final.reached)
      && Settles(c, filed, requested, Report(final), final.filed)
  {
    var final := FullScan(c, filed, requested);
    ScanFinds(c, filed, requested, final);
    forall o ensures Files(c, filed, requested, final.owners, final.filed, o) {
      ScanFilesIds(c, filed, requested, final, o);
    }
  }

  /** Asking the next connection for what is missing is reading all it sees. */
  lemma AskOne(
    homes: Homes, s0: State, sees: string -> seq<App>, order: seq<string>, i: nat, before: State, asked: App -> bool)
    requires i < |order| && before == Scan(homes, s0, Stream(sees, order[..i]))
    requires forall a :: asked(a) <==> a.id in before.missing
    ensures Scan(homes, before, Through(order[i], Filter(sees(order[i]), asked)))
         == Scan(homes, s0, Stream(sees, order[..i + 1]))
  {
    AskingIsEnough(homes, before, order[i], sees(order[i]), asked);
    assert order[..i + 1] == order[..i] + [order[i]];
    FlatSnoc(order[..i], order[i], Reader(sees));
    ScanOn(homes, s0, Stream(sees, order[..i]), Through(order[i], sees(order[i])));
  }

  /** With nothing missing the rest need not be asked. */
  lemma AskNoMore(homes: Homes, s0: State, sees: string -> seq<App>, order: seq<string>, i: nat, s: State)
    requires i <= |order| && s == Scan(homes, s0, Stream(sees, order[..i]))
    requires i == |order| || s.missing == []
    ensures s == Scan(homes, s0, Stream(sees, order))
  {
    if i == |order| {
      assert order[..i] == order;
    } else {
      assert order[..i] + order[i..] == order;
      FlatOn(order[..i], order[i..], Reader(sees));
      ScanOn(homes, s0, Stream(sees, order[..i]), Stream(sees, order[i..]));
      NothingLeft(homes, s, Stream(sees, order[i..]));
    }
  }

  class ApexRun {
    var applicationsBySchema: map<string, seq<App>>
    const connections: Connections

    constructor (connections: Connections)
      ensures this.connections == connections && applicationsBySchema == map[]
    {
      this.connections := connections;
      applicationsBySchema := map[];
    }

    /** One row of a connection's answer. */
    method ReadRow(schema: string, app: App, s0: State) returns (s: State)
      requires s0.filed == applicationsBySchema
      modifies this
      ensures s == Step(HomesOf(connections), s0, Sighting(schema, app)) && applicationsBySchema == s.filed
    {
      s := s0;
      if app.id !in s.missing {
        return;
      }
      if app.id !in s.reached {
        var configured;
        s, configured := Place(s, app);
        if configured {
          s := s.(missing := Without(s.missing, app.id));
          return;
        }
        s := s.(reached := s.reached[app.id := Reach(app.owner, [])], order := s.order + [app.id]);
        assert [] + [schema] == [schema];
      }
      var reach := s.reached[app.id];
      if schema !in reach.schemas {
        ghost var before := s.reached;
        s := s.(reached := s.reached[app.id := reach.(schemas := reach.schemas + [schema])]);
      }
      assert s.reached == Step(HomesOf(connections), s0, Sighting(schema, app)).reached;
    }

    /** The inner loop over one connection's answer. */
    method ReadAnswer(schema: string, answer: seq<App>, s0: State) returns (s: State)
      requires s0.filed == applicationsBySchema
      modifies this
      ensures s == Scan(HomesOf(connections), s0, Through(schema, answer)) && applicationsBySchema == s.filed
    {
      s := s0;
      assert Through(schema, answer[..0]) == [];
      for i := 0 to |answer|
        invariant s == Scan(HomesOf(connections), s0, Through(schema, answer[..i])) && applicationsBySchema == s.filed
      {
        assert Through(schema, answer[..i + 1])[..i] == Through(schema, answer[..i]);
        s := ReadRow(schema, answer[i], s);
      }
      assert answer[..|answer|] == answer;
    }

    /** `_place`: the application goes to its configured owner's list or to its own owner's. */
    method Place(s0: State, app: App) returns (s: State, configured: bool)
      requires s0.filed == applicationsBySchema
      modifies this
      ensures s == File(s0, HomeOf(HomesOf(connections), app.owner), app) && applicationsBySchema == s.filed
      ensures configured <==> HomesOf(connections)(app.owner).Some?
    {
      var home := Lookup(connections.configured, connections.upper, app.owner);
      var owner := if home.Some? then home.value else app.owner;
      s := s0;
      if owner !in applicationsBySchema {
        applicationsBySchema := applicationsBySchema[owner := []];
        s := s.(owners := s.owners + [owner]);
      }
      applicationsBySchema := applicationsBySchema[owner := applicationsBySchema[owner] + [app]];
      s := s.(filed := applicationsBySchema);
      assert [] + [app] == [app];
      assert s.filed == File(s0, owner, app).filed;
      configured := home.Some?;
    }

    /** The outer loop: it drops the ids placed and stops early, and finds what reading all that
        every connection sees would. */
    method AskAll(order: seq<string>, s0: State) returns (s: State)
      requires s0.filed == applicationsBySchema
      modifies this
      ensures s == Scan(HomesOf(connections), s0, Stream(connections.sees, order)) && applicationsBySchema == s.filed
    {
      s := s0;
      ghost var homes := HomesOf(connections);
      var i := 0;
      while i < |order|
        invariant 0 <= i <= |order| && s.filed == applicationsBySchema
        invariant s == Scan(homes, s0, Stream(connections.sees, order[..i]))
      {
        var schema, missing := order[i], s.missing;
        var asked := (a: App) => a.id in missing;
        ghost var before := s;
        s := ReadAnswer(schema, Filter(connections.sees(schema), asked), s);
        AskOne(homes, s0, connections.sees, order, i, before, asked);
        i := i + 1;
        if s.missing == [] {
          break;
        }
      }
      AskNoMore(homes, s0, connections.sees, order, i, s);
    }

    /** The search: a range or no gateway finds nothing out, and otherwise every requested id that
        no list holds is settled by what the connections see. */
    method Locate(requested: seq<string>, hasRanges: bool, hasFactory: bool) returns (located: Located)
      modifies this
      ensures hasRanges || !hasFactory ==>
        located == Located([], [], []) && applicationsBySchema == old(applicationsBySchema)
      ensures !hasRanges && hasFactory ==>
        Settles(connections, old(applicationsBySchema), requested, located, applicationsBySchema)
      ensures !hasRanges && hasFactory ==>
        var final := FullScan(connections, old(applicationsBySchema), requested);
        (forall id :: id in final.order ==> id in final.reached)
        && applicationsBySchema == final.filed && located == Report(final)
    {
      if hasRanges || !hasFactory {
        return Located([], [], []);
      }
      var order := SearchOrder(connections);
      var listed := Listed(applicationsBySchema);
      var s := Start(Filter(Unique(requested), id => id !in listed), applicationsBySchema);
      Outcome(connections, applicationsBySchema, requested);
      if s.missing == [] {
        NothingLeft(HomesOf(connections), s, Stream(connections.sees, order));
        return Located([], [], []);
      }
      s := AskAll(order, s);
      located := Report(s);
    }
  }
}
