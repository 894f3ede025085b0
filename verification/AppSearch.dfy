/**
 `locate_revealed_apps`: the ids the configured owners did not list are looked for through one
 connection after the other, and the search stops once every one of them has a configured owner.

 What each connection sees is an arbitrary sequence of applications.  The search is related to
 the full scan of all connections, and the full scan to the first sighting of each id.
 */
module AppSearch {
  import opened Prelude

  /** An application by its id as text and its owner; `rest` stands for its other columns. */
  datatype App = App(id: string, owner: string, rest: nat)

  datatype Sighting = Sighting(schema: string, app: App)

  datatype Reach = Reach(owner: string, schemas: seq<string>)

  /** What the search changes: `filed` is the run's `applications_by_schema`. */
  datatype State = State(
    missing: seq<string>,
    reached: map<string, Reach>,
    order: seq<string>,              // the keys of `reached` in insertion order
    filed: map<string, seq<App>>,
    owners: seq<string>)

  function Start(missing: seq<string>, filed: map<string, seq<App>>): State {
    State(missing, map[], [], filed, [])
  }

  /** The configured schema an owner is, if any: of two names equal in upper case the later. */
  function Lookup(names: seq<string>, upper: string -> string, owner: string): Option<string> {
    if names == [] then None
    else if upper(Last(names)) == upper(owner) then Some(Last(names))
    else Lookup(names[..|names| - 1], upper, owner)
  }

  /** The `i`th name is the last one equal to the owner in upper case. */
  ghost predicate IsHome(names: seq<string>, upper: string -> string, owner: string, i: nat) {
    i < |names| && upper(names[i]) == upper(owner) && forall j :: i < j < |names| ==> upper(names[j]) != upper(owner)
  }

  /** The answer is a configured name equal to the owner in upper case, the last such one. */
  lemma {:induction false} LookupIs(names: seq<string>, upper: string -> string, owner: string) returns (i: nat)
    ensures Lookup(names, upper, owner).None? ==> forall j :: 0 <= j < |names| ==> upper(names[j]) != upper(owner)
    ensures Lookup(names, upper, owner).Some? ==>
      IsHome(names, upper, owner, i) && Lookup(names, upper, owner) == Some(names[i])
  {
    i := 0;
    if names != [] {
      if upper(Last(names)) == upper(owner) {
        i := |names| - 1;
      } else {
        i := LookupIs(names[..|names| - 1], upper, owner);
      }
    }
  }

  type Homes = string -> Option<string>

  function HomeOf(homes: Homes, owner: string): string {
    if homes(owner).Some? then homes(owner).value else owner
  }

  // ----- the search as a function of the sightings

  function Without(s: seq<string>, id: string): seq<string> {
    Filter(s, x => x != id)
  }

  function File(s: State, owner: string, app: App): State {
    if owner in s.filed then s.(filed := s.filed[owner := s.filed[owner] + [app]])
    else s.(filed := s.filed[owner := [app]], owners := s.owners + [owner])
  }

  function Reaches(r: Reach, schema: string): Reach {
    if schema in r.schemas then r else r.(schemas := r.schemas + [schema])
  }

  function Step(homes: Homes, s: State, x: Sighting): State {
    var id := x.app.id;
    if id !in s.missing then s
    else if id in s.reached then s.(reached := s.reached[id := Reaches(s.reached[id], x.schema)])
    else
      var placed := File(s, HomeOf(homes, x.app.owner), x.app);
      if homes(x.app.owner).Some? then placed.(missing := Without(s.missing, id))
      else placed.(reached := s.reached[id := Reach(x.app.owner, [x.schema])], order := s.order + [id])
  }

  function Scan(homes: Homes, s: State, seen: seq<Sighting>): State {
    if seen == [] then s else Step(homes, Scan(homes, s, seen[..|seen| - 1]), Last(seen))
  }

  function Through(schema: string, apps: seq<App>): seq<Sighting> {
    seq(|apps|, i requires 0 <= i < |apps| => Sighting(schema, apps[i]))
  }

  function Reader(sees: string -> seq<App>): string -> seq<Sighting> {
    schema => Through(schema, sees(schema))
  }

  /** Everything every connection sees, in search order. */
  function Stream(sees: string -> seq<App>, order: seq<string>): seq<Sighting> {
    Flat(order, Reader(sees))
  }

  lemma {:induction false} ScanOn(homes: Homes, s: State, a: seq<Sighting>, b: seq<Sighting>)
    ensures Scan(homes, s, a + b) == Scan(homes, Scan(homes, s, a), b)
  {
    if b == [] {
      assert a + b == a;
    } else {
      ScanOn(homes, s, a, b[..|b| - 1]);
      assert (a + b)[..|a + b| - 1] == a + b[..|b| - 1];
    }
  }

  lemma MissingShrinks(homes: Homes, s: State, x: Sighting, id: string)
    ensures id in Step(homes, s, x).missing ==> id in s.missing
  {
    FilterMember(s.missing, y => y != x.app.id, id);
  }

  lemma {:induction false} ScanShrinks(homes: Homes, s: State, seen: seq<Sighting>, id: string)
    ensures id in Scan(homes, s, seen).missing ==> id in s.missing
  {
    if seen != [] {
      ScanShrinks(homes, s, seen[..|seen| - 1], id);
      MissingShrinks(homes, Scan(homes, s, seen[..|seen| - 1]), Last(seen), id);
    }
  }

  /** Asking a connection only for the missing ids is as good as reading all it sees. */
  lemma {:induction false} AskingIsEnough(homes: Homes, s: State, schema: string, apps: seq<App>, asked: App -> bool)
    requires forall a :: asked(a) <==> a.id in s.missing
    ensures Scan(homes, s, Through(schema, Filter(apps, asked))) == Scan(homes, s, Through(schema, apps))
  {
    if apps == [] {
      assert Through(schema, Filter(apps, asked)) == Through(schema, apps);
    } else {
      var front, last := apps[..|apps| - 1], Last(apps);
      AskingIsEnough(homes, s, schema, front, asked);
      assert Through(schema, apps)[..|apps| - 1] == Through(schema, front);
      if asked(last) {
        assert Through(schema, Filter(apps, asked)) == Through(schema, Filter(front, asked)) + [Sighting(schema, last)];
        ScanOn(homes, s, Through(schema, Filter(front, asked)), [Sighting(schema, last)]);
        ScanOne(homes, Scan(homes, s, Through(schema, front)), Sighting(schema, last));
      } else {
        assert Filter(apps, asked) == Filter(front, asked);
        ScanShrinks(homes, s, Through(schema, front), last.id);
      }
    }
  }

  lemma ScanOne(homes: Homes, s: State, x: Sighting)
    ensures Scan(homes, s, [x]) == Step(homes, s, x)
  {
    assert [x][..0] == [];
  }

  /** Once nothing is missing the rest of the connections change nothing. */
  lemma {:induction false} NothingLeft(homes: Homes, s: State, seen: seq<Sighting>)
    requires s.missing == []
    ensures Scan(homes, s, seen) == s
  {
    if seen != [] {
      NothingLeft(homes, s, seen[..|seen| - 1]);
    }
  }

  // ----- what the full scan finds

  function First(seen: seq<Sighting>, id: string): Option<Sighting> {
    if seen == [] then None
    else if First(seen[..|seen| - 1], id).Some? then First(seen[..|seen| - 1], id)
    else if Last(seen).app.id == id then Some(Last(seen))
    else None
  }

  /** The schemas whose connections see an id, each once, in search order. */
  function SeenBy(seen: seq<Sighting>, id: string): seq<string> {
    if seen == [] then [] else
      var before := SeenBy(seen[..|seen| - 1], id);
      if Last(seen).app.id != id || Last(seen).schema in before then before else before + [Last(seen).schema]
  }

  /** The first sightings of the wanted ids, in the order of the stream. */
  function Firsts(wanted: seq<string>, seen: seq<Sighting>): seq<Sighting> {
    if seen == [] then [] else
      var front := seen[..|seen| - 1];
      Firsts(wanted, front)
      + (if Last(seen).app.id in wanted && First(front, Last(seen).app.id).None? then [Last(seen)] else [])
  }

  lemma {:induction false} SeenByIs(seen: seq<Sighting>, id: string)
    ensures Distinct(SeenBy(seen, id))
    ensures forall schema ::
      schema in SeenBy(seen, id) <==> exists x :: x in seen && x.schema == schema && x.app.id == id
  {
    if seen != [] {
      var front, last := seen[..|seen| - 1], Last(seen);
      SeenByIs(front, id);
      assert seen == front + [last];
      forall schema
        ensures schema in SeenBy(seen, id) <==> exists x :: x in seen && x.schema == schema && x.app.id == id
      {
        if exists x :: x in front && x.schema == schema && x.app.id == id {
          var x :| x in front && x.schema == schema && x.app.id == id;
          assert x in seen;
        } else if last.schema == schema && last.app.id == id {
          assert last in seen;
        }
      }
    }
  }

  lemma {:induction false} FirstIs(seen: seq<Sighting>, id: string)
    ensures First(seen, id).None? <==> forall x :: x in seen ==> x.app.id != id
    ensures First(seen, id).Some? ==> First(seen, id).value in seen && First(seen, id).value.app.id == id
  {
    if seen != [] {
      FirstIs(seen[..|seen| - 1], id);
      assert seen == seen[..|seen| - 1] + [Last(seen)];
    }
  }

  /** Every wanted id that is seen at all is a first sighting exactly once. */
  lemma {:induction false} FirstsAreFirst(wanted: seq<string>, seen: seq<Sighting>, x: Sighting)
    ensures multiset(Firsts(wanted, seen))[x] == if x.app.id in wanted && First(seen, x.app.id) == Some(x) then 1 else 0
  {
    if seen != [] {
      var front, last := seen[..|seen| - 1], Last(seen);
      FirstsAreFirst(wanted, front, x);
      FirstIs(front, last.app.id);
      FirstIs(front, x.app.id);
    }
  }

  /** Where the search stands on one id after a stream. */
  ghost predicate Classified(homes: Homes, wanted: seq<string>, seen: seq<Sighting>, s: State, id: string) {
    match First(seen, id)
    case None => (id in s.missing <==> id in wanted) && id !in s.reached
    case Some(x) =>
      if homes(x.app.owner).Some? then id !in s.missing && id !in s.reached
      else (id in s.missing <==> id in wanted) && (id in s.reached <==> id in wanted)
           && (id in wanted ==> s.reached[id] == Reach(x.app.owner, SeenBy(seen, id)))
  }

  lemma StepClassifies(homes: Homes, wanted: seq<string>, seen: seq<Sighting>, s: State, x: Sighting, id: string)
    requires Classified(homes, wanted, seen, s, id) && Classified(homes, wanted, seen, s, x.app.id)
    ensures Classified(homes, wanted, seen + [x], Step(homes, s, x), id)
  {
    assert (seen + [x])[..|seen|] == seen;
    FilterMember(s.missing, y => y != x.app.id, id);
    assert First(seen, id).None? ==> SeenBy(seen, id) == [] by { NotSeen(seen, id); }
  }

  lemma {:induction false} NotSeen(seen: seq<Sighting>, id: string)
    ensures First(seen, id).None? ==> SeenBy(seen, id) == []
  {
    if seen != [] { NotSeen(seen[..|seen| - 1], id); }
  }

  /** For every id: not found when no connection sees it; otherwise its first sighting decides
      whether it is placed under a configured owner or reached unconfigured, and then exactly
      the schemas that see it are named. */
  lemma {:induction false} ScanClassifies(
    homes: Homes, wanted: seq<string>, filed: map<string, seq<App>>, seen: seq<Sighting>, id: string)
    ensures Classified(homes, wanted, seen, Scan(homes, Start(wanted, filed), seen), id)
  {
    if seen != [] {
      var front, last := seen[..|seen| - 1], Last(seen);
      ScanClassifies(homes, wanted, filed, front, id);
      ScanClassifies(homes, wanted, filed, front, last.app.id);
      StepClassifies(homes, wanted, front, Scan(homes, Start(wanted, filed), front), last, id);
      assert seen == front + [last];
    }
  }

  // ----- what is filed, and under whom

  function AppsOf(filed: map<string, seq<App>>, owner: string): seq<App> {
    if owner in filed then filed[owner] else []
  }

  function Homed(homes: Homes, firsts: seq<Sighting>, owner: string): seq<App> {
    if firsts == [] then [] else
      Homed(homes, firsts[..|firsts| - 1], owner)
      + (if HomeOf(homes, Last(firsts).app.owner) == owner then [Last(firsts).app] else [])
  }

  /** The list of owner `o` after the search, and whether `o` is one of the owners it added. */
  ghost predicate FiledUnder(homes: Homes, before: map<string, seq<App>>, firsts: seq<Sighting>, s: State, o: string) {
    && AppsOf(s.filed, o) == AppsOf(before, o) + Homed(homes, firsts, o)
    && (o in s.filed <==> o in before || Homed(homes, firsts, o) != [])
    && (o in s.owners <==> o in s.filed && o !in before)
  }

  lemma FileFiles(homes: Homes, before: map<string, seq<App>>, firsts: seq<Sighting>, s: State, x: Sighting, o: string)
    requires FiledUnder(homes, before, firsts, s, o)
    requires forall k :: k in before ==> k in s.filed
    ensures FiledUnder(homes, before, firsts + [x], File(s, HomeOf(homes, x.app.owner), x.app), o)
  {
    assert (firsts + [x])[..|firsts|] == firsts;
  }

  /** Every found id is appended exactly once, to its home's list, in the order of the first
      sightings; nothing else is filed, and the owners named are exactly the newly filed ones. */
  lemma {:induction false} ScanFiles(
    homes: Homes, wanted: seq<string>, filed: map<string, seq<App>>, seen: seq<Sighting>, o: string)
    ensures FiledUnder(homes, filed, Firsts(wanted, seen), Scan(homes, Start(wanted, filed), seen), o)
  {
    if seen != [] {
      var front, last := seen[..|seen| - 1], Last(seen);
      var s := Scan(homes, Start(wanted, filed), front);
      ScanFiles(homes, wanted, filed, front, o);
      ScanClassifies(homes, wanted, filed, front, last.app.id);
      ScanOwners(homes, wanted, filed, front);
      if last.app.id in wanted && First(front, last.app.id).None? {
        FileFiles(homes, filed, Firsts(wanted, front), s, last, o);
      } else {
        assert Firsts(wanted, front) + [] == Firsts(wanted, front);
      }
    }
  }

  ghost predicate OwnersFiled(filed: map<string, seq<App>>, s: State) {
    Distinct(s.owners) && (forall o :: o in s.owners ==> o in s.filed) && (forall k :: k in filed ==> k in s.filed)
  }

  lemma StepOwners(homes: Homes, filed: map<string, seq<App>>, s: State, x: Sighting)
    requires OwnersFiled(filed, s)
    ensures OwnersFiled(filed, Step(homes, s, x))
  {
    var after := File(s, HomeOf(homes, x.app.owner), x.app);
    assert OwnersFiled(filed, after);
    assert Step(homes, s, x).owners in {s.owners, after.owners};
    assert Step(homes, s, x).filed in {s.filed, after.filed};
  }

  lemma {:induction false} ScanOwners(
    homes: Homes, wanted: seq<string>, filed: map<string, seq<App>>, seen: seq<Sighting>)
    ensures OwnersFiled(filed, Scan(homes, Start(wanted, filed), seen))
  {
    if seen != [] {
      ScanOwners(homes, wanted, filed, seen[..|seen| - 1]);
      StepOwners(homes, filed, Scan(homes, Start(wanted, filed), seen[..|seen| - 1]), Last(seen));
    }
  }

  function StillMissing(homes: Homes, seen: seq<Sighting>): string -> bool {
    id => First(seen, id).None? || homes(First(seen, id).value.app.owner).None?
  }

  /** One more sighting: `missing` loses an id just when that sighting places it. */
  lemma MissingNext(homes: Homes, wanted: seq<string>, front: seq<Sighting>, s: State, x: Sighting)
    requires s.missing == Filter(wanted, StillMissing(homes, front)) && Classified(homes, wanted, front, s, x.app.id)
    ensures Step(homes, s, x).missing == Filter(wanted, StillMissing(homes, front + [x]))
  {
    assert (front + [x])[..|front|] == front;
    var was, now, other := StillMissing(homes, front), StillMissing(homes, front + [x]), (id: string) => id != x.app.id;
    forall id ensures id != x.app.id ==> now(id) == was(id) {
      assert id != x.app.id ==> First(front + [x], id) == First(front, id);
    }
    assert First(front, x.app.id).Some? ==> First(front + [x], x.app.id) == First(front, x.app.id);
    assert First(front, x.app.id).None? ==> First(front + [x], x.app.id) == Some(x);
    if x.app.id in s.missing && x.app.id !in s.reached && homes(x.app.owner).Some? {
      FilterTwice(wanted, was, other, now);
      FilterSame(s.missing, other, id => id != x.app.id);
    } else {
      FilterMember(wanted, was, x.app.id);
      FilterSame(wanted, was, now);
    }
  }

  /** The ids the scan still misses keep their order. */
  lemma {:induction false} ScanMisses(
    homes: Homes, wanted: seq<string>, filed: map<string, seq<App>>, seen: seq<Sighting>)
    ensures Scan(homes, Start(wanted, filed), seen).missing == Filter(wanted, StillMissing(homes, seen))
  {
    if seen == [] {
      forall id ensures StillMissing(homes, seen)(id) {
        assert First(seen, id).None?;
      }
      FilterAll(wanted, StillMissing(homes, seen));
    } else {
      var front, last := seen[..|seen| - 1], Last(seen);
      ScanMisses(homes, wanted, filed, front);
      ScanClassifies(homes, wanted, filed, front, last.app.id);
      MissingNext(homes, wanted, front, Scan(homes, Start(wanted, filed), front), last);
      assert seen == front + [last];
    }
  }

  /** Each reached id is listed once. */
  lemma {:induction false} ScanOrders(homes: Homes, s: State, seen: seq<Sighting>)
    requires Distinct(s.order) && forall id :: id in s.order <==> id in s.reached
    ensures Distinct(Scan(homes, s, seen).order)
    ensures forall id :: id in Scan(homes, s, seen).order <==> id in Scan(homes, s, seen).reached
  {
    if seen != [] {
      ScanOrders(homes, s, seen[..|seen| - 1]);
    }
  }
}
