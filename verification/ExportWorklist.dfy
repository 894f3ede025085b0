/**
 The export worklist: `run_schema_sections` walks a list of schemas lazily while the last
 originally requested segment may append to it the owners of the applications nobody listed
 (`_route_missing_apps`, `_resolve_apex_app_owners`, `_add_reached_apps`).
 */
module ExportWorklist {
  import opened Prelude
  import opened AppSearch

  /** What the export may be answered, all of it arbitrary. */
  datatype World = World(
    configured: seq<string>,                             // schema names of the connection file
    upper: string -> string,
    discover: (string, seq<string>) -> seq<App>,         // a schema's own applications within a scope
    ownerOf: (string, string) -> string,                 // an id's owner read through a schema, "" if unseen
    sees: string -> seq<App>,                            // every application a schema's connection reaches
    selects: App -> bool,                                // `in_selection`
    ends: string -> End)                                 // how exporting a schema ends

  datatype End = Exit(code: int) | Raised

  datatype Request = Request(ids: seq<string>, hasRanges: bool)

  // ----- the owner of a missing id

  datatype Owner = Unseen | Foreign | Owned(schema: string)

  function OwnerIn(w: World, schema: string): string -> Owner {
    id =>
      var owner := w.ownerOf(schema, id);
      if owner == "" then Unseen else
        match Lookup(w.configured, w.upper, owner)
        case None => Foreign
        case Some(name) => Owned(name)
  }

  /** The owner schemas of `ids` in the order they first appear. */
  function OwnersOf(ids: seq<string>, owner: string -> Owner): seq<string> {
    if ids == [] then [] else
      var front := OwnersOf(ids[..|ids| - 1], owner);
      match owner(Last(ids))
      case Owned(schema) => if schema in front then front else front + [schema]
      case _ => front
  }

  function IdsOf(ids: seq<string>, owner: string -> Owner, kind: Owner): seq<string> {
    Filter(ids, id => owner(id) == kind)
  }

  lemma {:induction false} OwnersOfIs(ids: seq<string>, owner: string -> Owner)
    ensures Distinct(OwnersOf(ids, owner))
    ensures forall o :: o in OwnersOf(ids, owner) <==> exists id :: id in ids && owner(id) == Owned(o)
  {
    if ids != [] {
      var front, last := ids[..|ids| - 1], Last(ids);
      OwnersOfIs(front, owner);
      assert ids == front + [last];
      assert forall id :: id in ids <==> id in front || id == last;
    }
  }

  /** The ids by owner, as a dictionary with its key order, and the ids owned by nobody
      configured or seen by nobody. */
  datatype Resolved = Resolved(
    order: seq<string>, groups: map<string, seq<string>>, foreign: seq<string>, unseen: seq<string>)

  function GroupOf(groups: map<string, seq<string>>, o: string): seq<string> {
    if o in groups then groups[o] else []
  }

  /** `r` sorts ids the way `kinds` does. */
  ghost predicate Sorts(r: Resolved, kinds: Owner -> seq<string>) {
    && (forall o :: o in r.groups <==> o in r.order)
    && (forall o :: GroupOf(r.groups, o) == kinds(Owned(o)))
    && r.foreign == kinds(Foreign) && r.unseen == kinds(Unseen)
  }

  lemma SortsAs(r: Resolved, kinds: Owner -> seq<string>, kinds': Owner -> seq<string>)
    requires Sorts(r, kinds) && forall k :: kinds'(k) == kinds(k)
    ensures Sorts(r, kinds')
  {
  }

  function Kinds(ids: seq<string>, owner: string -> Owner): Owner -> seq<string> {
    kind => IdsOf(ids, owner, kind)
  }

  function More(kinds: Owner -> seq<string>, owner: Owner, id: string): Owner -> seq<string> {
    kind => kinds(kind) + (if kind == owner then [id] else [])
  }

  /** `owner_to_app_ids.setdefault(schema, []).append(id)`. */
  method Group(r: Resolved, id: string, schema: string) returns (r': Resolved)
    ensures r'.foreign == r.foreign && r'.unseen == r.unseen
    ensures r'.groups == r.groups[schema := GroupOf(r.groups, schema) + [id]]
    ensures r'.order == if schema in r.groups then r.order else r.order + [schema]
  {
    var order, group := r.order, [];
    if schema in r.groups { group := r.groups[schema]; } else { order := order + [schema]; }
    r' := r.(order := order, groups := r.groups[schema := group + [id]]);
  }

  method ResolveOne(r: Resolved, id: string, owner: Owner, ghost kinds: Owner -> seq<string>) returns (r': Resolved)
    requires Sorts(r, kinds)
    ensures Sorts(r', More(kinds, owner, id))
    ensures r'.order == if owner.Owned? && owner.schema !in r.order then r.order + [owner.schema] else r.order
  {
    match owner {
      case Unseen => r' := r.(unseen := r.unseen + [id]);
      case Foreign => r' := r.(foreign := r.foreign + [id]);
      case Owned(schema) => r' := Group(r, id, schema);
    }
  }

  lemma KindsNext(ids: seq<string>, owner: string -> Owner, i: nat)
    requires i < |ids|
    ensures forall k :: Kinds(ids[..i + 1], owner)(k) == More(Kinds(ids[..i], owner), owner(ids[i]), ids[i])(k)
    ensures OwnersOf(ids[..i + 1], owner) ==
      match owner(ids[i])
      case Owned(schema) =>
        if schema in OwnersOf(ids[..i], owner) then OwnersOf(ids[..i], owner)
        else OwnersOf(ids[..i], owner) + [schema]
      case _ => OwnersOf(ids[..i], owner)
  {
    assert ids[..i + 1][..i] == ids[..i] && Last(ids[..i + 1]) == ids[i];
    forall k
      ensures IdsOf(ids[..i + 1], owner, k) == IdsOf(ids[..i], owner, k) + (if k == owner(ids[i]) then [ids[i]] else [])
    {
    }
  }

  /** `_resolve_apex_app_owners`. */
  method ResolveOwners(ids: seq<string>, owner: string -> Owner) returns (r: Resolved)
    ensures r.order == OwnersOf(ids, owner) && Sorts(r, Kinds(ids, owner))
  {
    r := Resolved([], map[], [], []);
    for i := 0 to |ids|
      invariant r.order == OwnersOf(ids[..i], owner) && Sorts(r, Kinds(ids[..i], owner))
    {
      ghost var kinds := Kinds(ids[..i], owner);
      r := ResolveOne(r, ids[i], owner(ids[i]), kinds);
      KindsNext(ids, owner, i);
      SortsAs(r, More(kinds, owner(ids[i]), ids[i]), Kinds(ids[..i + 1], owner));
    }
    assert ids[..|ids|] == ids;
  }

  // ----- what becomes of a missing id

  datatype Fate =
    | Routed(schema: string)          // gets a segment on its own owner
    | OwnedByListed(schema: string)   // its owner has a segment anyway
    | Exported                        // joins the routing schema's own list
    | Unreached                       // reported not found

  predicate Has(apps: seq<App>, id: string) {
    exists a :: a in apps && a.id == id
  }

  function FateOf(w: World, schema: string, listed: seq<string>): string -> Fate {
    id =>
      match OwnerIn(w, schema)(id)
      case Unseen => Unreached
      case Foreign => if Has(w.sees(schema), id) then Exported else Unreached
      case Owned(o) => if o in listed then OwnedByListed(o) else Routed(o)
  }

  /** The record of one routing. */
  datatype Routing = Routing(
    through: string,                     // the schema it ran in
    listed: seq<string>,                 // the schemas listed when it ran
    missing: seq<string>,
    owners: seq<string>,                 // appended to the list
    scopes: map<string, seq<string>>,    // what each of them is to export
    added: seq<App>,                     // appended to the routing schema's applications
    unreached: seq<string>)              // reported not found

  ghost predicate OneEach(apps: seq<App>) {
    forall i, j :: 0 <= i < j < |apps| ==> apps[i].id != apps[j].id
  }

  function HasFate(w: World, r: Routing, fate: Fate): string -> bool {
    id => FateOf(w, r.through, r.listed)(id) == fate
  }

  function Fated(r: Routing, w: World, fate: Fate): seq<string> {
    Filter(r.missing, HasFate(w, r, fate))
  }

  /** Each occurrence of a missing id has one fate, and the routing carries it out. */
  ghost predicate Sound(w: World, r: Routing) {
    && Distinct(r.owners)
    && (forall o :: o in r.owners <==> Fated(r, w, Routed(o)) != [])
    && (forall o :: o in r.scopes <==> o in r.owners)
    && (forall o :: o in r.owners ==> o !in r.listed && r.scopes[o] == Fated(r, w, Routed(o)))
    && OneEach(r.added)
    && (forall a :: a in r.added ==> a in w.sees(r.through))
    && (forall id :: Has(r.added, id) <==> id in Fated(r, w, Exported))
    && multiset(r.unreached) == multiset(Fated(r, w, Unreached))
  }

  function HasOwner(w: World, r: Routing, kind: Owner): string -> bool {
    id => OwnerIn(w, r.through)(id) == kind
  }

  lemma FateIs(w: World, schema: string, listed: seq<string>, id: string)
    ensures
      var fate := FateOf(w, schema, listed)(id);
      match OwnerIn(w, schema)(id)
      case Unseen => fate == Unreached
      case Foreign => fate == if Has(w.sees(schema), id) then Exported else Unreached
      case Owned(o) => fate == if o in listed then OwnedByListed(o) else Routed(o)
  {
  }

  /** The fate of a missing id, from what the connection answers: unseen by it, owned by a
      configured schema, or owned by a foreign one, whose application it may reach or not. */
  lemma FateMeans(w: World, schema: string, listed: seq<string>, id: string)
    ensures
      var owner, fate := w.ownerOf(schema, id), FateOf(w, schema, listed)(id);
      var foreign := owner != "" && forall i :: 0 <= i < |w.configured| ==> w.upper(w.configured[i]) != w.upper(owner);
      && (fate.Unreached? <==> owner == "" || (foreign && forall a :: a in w.sees(schema) ==> a.id != id))
      && (fate.Exported? <==> foreign && exists a :: a in w.sees(schema) && a.id == id)
      && (fate.Routed? || fate.OwnedByListed? <==>
            owner != "" && exists i: nat :: IsHome(w.configured, w.upper, owner, i) && w.configured[i] == fate.schema)
      && (fate.Routed? ==> fate.schema !in listed) && (fate.OwnedByListed? ==> fate.schema in listed)
  {
    var owner := w.ownerOf(schema, id);
    var i := LookupIs(w.configured, w.upper, owner);
    FateIs(w, schema, listed, id);
    assert Lookup(w.configured, w.upper, owner).Some? ==> IsHome(w.configured, w.upper, owner, i);
  }

  lemma RoutedWhen(w: World, r: Routing, o: string, id: string)
    ensures HasFate(w, r, Routed(o))(id) <==> HasOwner(w, r, Owned(o))(id) && o !in r.listed
  {
    FateIs(w, r.through, r.listed, id);
  }

  /** The ids an owner group holds are those routed to it, unless it is listed already. */
  lemma RoutedGroup(w: World, r: Routing, o: string)
    ensures Fated(r, w, Routed(o)) == if o in r.listed then [] else Kinds(r.missing, OwnerIn(w, r.through))(Owned(o))
  {
    var routed, owned := HasFate(w, r, Routed(o)), HasOwner(w, r, Owned(o));
    forall id ensures routed(id) <==> owned(id) && o !in r.listed { RoutedWhen(w, r, o, id); }
    if o in r.listed { FilterNone(r.missing, routed); } else { FilterSame(r.missing, routed, owned); }
    FilterSame(r.missing, owned, id => OwnerIn(w, r.through)(id) == Owned(o));
  }

  /** The report lists the unseen ids and those foreign ids the connection does not reach. */
  lemma UnreachedIds(w: World, r: Routing, foreign: seq<string>, unseen: seq<string>, lost: string -> bool)
    requires foreign == IdsOf(r.missing, OwnerIn(w, r.through), Foreign)
    requires unseen == IdsOf(r.missing, OwnerIn(w, r.through), Unseen)
    requires forall id :: id in foreign ==> (lost(id) <==> !Has(w.sees(r.through), id))
    ensures multiset(unseen + Filter(foreign, lost)) == multiset(Fated(r, w, Unreached))
  {
    var owner, fate := OwnerIn(w, r.through), FateOf(w, r.through, r.listed);
    var isUnseen, isLost := (id: string) => owner(id) == Unseen, (id: string) => owner(id) == Foreign && lost(id);
    FilterSame(r.missing, id => owner(id) == Unseen, isUnseen);
    FilterTwice(r.missing, id => owner(id) == Foreign, lost, isLost);
    forall id | id in r.missing ensures fate(id) == Unreached <==> isUnseen(id) || isLost(id) {
      FilterMember(r.missing, x => owner(x) == Foreign, id);
    }
    FilterSplits(r.missing, isUnseen, isLost, HasFate(w, r, Unreached));
  }

  /** `added` is what the routing schema's connection reaches of the foreign ids. */
  lemma ExportedIds(w: World, r: Routing, foreign: seq<string>, id: string)
    requires foreign == IdsOf(r.missing, OwnerIn(w, r.through), Foreign)
    ensures id in Fated(r, w, Exported) <==> id in foreign && Has(w.sees(r.through), id)
  {
    var owner, fate := OwnerIn(w, r.through), FateOf(w, r.through, r.listed);
    FilterMember(r.missing, x => owner(x) == Foreign, id);
    FilterMember(r.missing, HasFate(w, r, Exported), id);
  }

  lemma {:induction false} OwnedIds(ids: seq<string>, owner: string -> Owner, o: string)
    ensures o in OwnersOf(ids, owner) <==> IdsOf(ids, owner, Owned(o)) != []
  {
    if ids != [] {
      OwnedIds(ids[..|ids| - 1], owner, o);
    }
  }

  // ----- the run

  /** One schema's part of the run: what it was scoped to, what it exported, how it ended. */
  datatype Segment = Segment(schema: string, scope: seq<string>, apps: seq<App>, end: End)

  function Own(w: World, schema: string, scope: seq<string>): seq<App> {
    Filter(w.discover(schema, scope), w.selects)
  }

  /** An application the schema's discovery gives and the selection keeps has that id. */
  ghost predicate Lists(w: World, schema: string, scope: seq<string>, id: string) {
    exists a :: a in w.discover(schema, scope) && w.selects(a) && a.id == id
  }

  /** A schema's own applications are those discovered that the selection keeps, as often. */
  lemma OwnIs(w: World, schema: string, scope: seq<string>, a: App, id: string)
    ensures multiset(Own(w, schema, scope))[a] == if w.selects(a) then multiset(w.discover(schema, scope))[a] else 0
    ensures Has(Own(w, schema, scope), id) <==> Lists(w, schema, scope, id)
  {
    FilterCount(w.discover(schema, scope), w.selects, a);
    forall b ensures b in Own(w, schema, scope) <==> b in w.discover(schema, scope) && w.selects(b) {
      FilterMember(w.discover(schema, scope), w.selects, b);
    }
  }

  /** `exit_code or schema_exit_code`: every segment ended, those before `failed` ended well, and
      `failed` is the one the exit code is of, if any. */
  ghost predicate CodeOf(segments: seq<Segment>, exit: int, failed: nat) {
    && (forall j :: 0 <= j < |segments| ==> segments[j].end.Exit?)
    && failed <= |segments| && (forall j :: 0 <= j < failed ==> segments[j].end == Exit(0))
    && (if exit == 0 then failed == |segments| else failed < |segments| && segments[failed].end == Exit(exit))
  }

  /** The exit code is zero just when no segment failed, and the first failed one's otherwise; only
      the last segment can have raised. */
  ghost predicate Ended(segments: seq<Segment>, exit: int, raised: bool) {
    && (forall j :: 0 <= j < |segments| && segments[j].end.Raised? ==> raised && j == |segments| - 1)
    && (exit == 0 ==> forall j :: 0 <= j < |segments| && segments[j].end.Exit? ==> segments[j].end.code == 0)
    && (exit != 0 ==> exists j :: 0 <= j < |segments| && segments[j].end == Exit(exit)
                               && forall k :: 0 <= k < j ==> segments[k].end == Exit(0))
  }

  lemma CodeNext(segments: seq<Segment>, next: Segment, exit: int, failed: nat)
    requires CodeOf(segments, exit, failed)
    ensures
      if next.end.Raised? then Ended(segments + [next], exit, true)
      else CodeOf(segments + [next], if exit != 0 then exit else next.end.code,
                  if exit == 0 && next.end.code == 0 then |segments| + 1 else failed)
  {
    if exit != 0 { assert (segments + [next])[failed].end == Exit(exit); }
  }

  lemma CodeEnds(segments: seq<Segment>, exit: int, failed: nat)
    requires CodeOf(segments, exit, failed)
    ensures Ended(segments, exit, false)
  {
  }

  class ExportRun {
    const world: World
    const request: Request
    var schemas: seq<string>
    var scope: map<string, seq<string>>
    var applicationsBySchema: map<string, seq<App>>
    var segments: seq<Segment>
    var routings: seq<Routing>

    constructor (world: World, request: Request, schemas: seq<string>, scope: map<string, seq<string>>)
      requires forall s :: s in schemas ==> s in scope
      ensures this.world == world && this.request == request && this.schemas == schemas && this.scope == scope
      ensures applicationsBySchema == map[] && segments == [] && routings == []
    {
      this.world, this.request, this.schemas, this.scope := world, request, schemas, scope;
      applicationsBySchema, segments, routings := map[], [], [];
    }

    /** `_add_reached_apps`: the named applications the schema's connection sees join its list. */
    method AddReached(schema: string, ids: seq<string>) returns (added: seq<App>)
      requires schema in applicationsBySchema
      modifies this`applicationsBySchema
      ensures applicationsBySchema == old(applicationsBySchema)[schema := old(applicationsBySchema)[schema] + added]
      ensures OneEach(added) && forall a :: a in added ==> a in world.sees(schema)
      ensures forall id :: Has(added, id) <==>
        id in ids && Has(world.sees(schema), id) && !Has(old(applicationsBySchema)[schema], id)
    {
      var listed := applicationsBySchema[schema];
      added := [];
      if ids == [] {
        assert listed + [] == listed;
        return;
      }
      var asked := (a: App) => a.id in ids;
      var answer := Filter(world.sees(schema), asked);
      for i := 0 to |answer|
        invariant applicationsBySchema == old(applicationsBySchema)
        invariant OneEach(added) && forall a :: a in added ==> a in answer
        invariant forall id :: Has(added, id) <==> Has(answer[..i], id) && !Has(listed, id)
      {
        var app := answer[i];
        HasOne(answer[..i], app);
        HasOne(added, app);
        assert answer[..i + 1] == answer[..i] + [app];
        if exists a :: a in listed + added && a.id == app.id {
          continue;
        }
        added := added + [app];
      }
      assert answer[..|answer|] == answer;
      applicationsBySchema := applicationsBySchema[schema := listed + added];
      forall a ensures a in answer <==> a in world.sees(schema) && a.id in ids {
        FilterMember(world.sees(schema), asked, a);
      }
    }

    /** The routing loop over the owners: a schema already listed is not appended again. */
    method AppendOwners(order: seq<string>, groups: map<string, seq<string>>)
      returns (owners: seq<string>, scopes: map<string, seq<string>>)
      requires Distinct(order) && forall o :: o in order ==> o in groups
      modifies this`schemas, this`scope
      ensures Appended(old(schemas), order, groups, owners, scopes)
      ensures schemas == old(schemas) + owners && scope == old(scope) + scopes
    {
      owners, scopes := [], map[];
      for i := 0 to |order|
        invariant Appended(old(schemas), order[..i], groups, owners, scopes)
        invariant schemas == old(schemas) + owners && scope == old(scope) + scopes
      {
        var owner := order[i];
        AppendedNext(old(schemas), order, i, groups, owners, scopes);
        if owner in schemas {
          continue;
        }
        UpdateMerged(old(scope), scopes, owner, groups[owner]);
        scope := scope[owner := groups[owner]];
        schemas := schemas + [owner];
        owners, scopes := owners + [owner], scopes[owner := groups[owner]];
      }
      assert order[..|order|] == order;
    }

    /** `_route_missing_apps`, in the segment of `schema`. */
    method Route(schema: string)
      requires schema in applicationsBySchema
      modifies this`schemas, this`scope, this`applicationsBySchema, this`routings
      ensures
        var missing := Missing(request.ids, old(applicationsBySchema));
        && After(old(routings), old(schemas), old(scope), routings, schemas, scope, world, schema, missing)
        && (missing == [] ==> applicationsBySchema == old(applicationsBySchema))
        && applicationsBySchema
           == old(applicationsBySchema)[schema := old(applicationsBySchema)[schema] + AddedBy(routings, old(routings))]
    {
      var missing := Missing(request.ids, applicationsBySchema);
      if missing == [] {
        assert applicationsBySchema[schema] + [] == applicationsBySchema[schema];
        return;
      }
      var r := Carry(schema, missing);
      routings := routings + [r];
    }

    /** The routing of the ids found missing. */
    method Carry(schema: string, missing: seq<string>) returns (r: Routing)
      requires schema in applicationsBySchema && missing == Missing(request.ids, applicationsBySchema)
      modifies this`schemas, this`scope, this`applicationsBySchema
      ensures r.through == schema && r.listed == old(schemas) && r.missing == missing && Sound(world, r)
      ensures schemas == old(schemas) + r.owners && scope == old(scope) + r.scopes
      ensures applicationsBySchema == old(applicationsBySchema)[schema := old(applicationsBySchema)[schema] + r.added]
    {
      var owner := OwnerIn(world, schema);
      var resolved := ResolveOwners(missing, owner);
      OwnersOfIs(missing, owner);
      var listed := schemas;
      var owners, scopes := AppendOwners(resolved.order, resolved.groups);
      NoneListed(request.ids, applicationsBySchema, schema, resolved.foreign, owner);
      var added := AddReached(schema, resolved.foreign);
      var lost := (id: string) => !Has(added, id);
      r := Routing(schema, listed, missing, owners, scopes, added, resolved.unseen + Filter(resolved.foreign, lost));
      RoutingIsSound(world, r, resolved, lost);
    }

    ghost function Now(): Progress
      reads this
    {
      Progress(schemas, scope, applicationsBySchema, segments, routings)
    }

    /** `run_one`: discovery, the routing if this is the last original segment, the export. */
    method RunOne(schema: string, last: bool) returns (end: End)
      requires schema in scope
      modifies this
      ensures end == world.ends(schema) && Walks(world, request, old(Now()), schema, last, Now())
    {
      var ids := scope[schema];
      applicationsBySchema := applicationsBySchema[schema := Own(world, schema, ids)];
      assert Own(world, schema, ids) + [] == Own(world, schema, ids);
      if last && !request.hasRanges {
        Route(schema);
      }
      end := world.ends(schema);
      segments := segments + [Segment(schema, ids, applicationsBySchema[schema], end)];
    }

    /** The whole export: `run_schema_sections` over the list that grows.  `raised` is an
        exception, which ends the run on the spot. */
    method Run() returns (exit: int, raised: bool)
      requires applicationsBySchema == map[] && segments == [] && routings == []
      requires forall s :: s in schemas ==> s in scope
      modifies this
      ensures Reached(world, request, old(schemas), old(scope), Now())
      ensures if raised then segments != [] && Last(segments).end.Raised? else |segments| == |schemas|
      ensures Ended(segments, exit, raised)
    {
      exit, raised := 0, false;
      var initial, index := |schemas|, 0;
      ghost var failed := 0;   // the segment the exit code is of
      while index < |schemas|
        invariant index == |segments| && Reached(world, request, old(schemas), old(scope), Now())
        invariant CodeOf(segments, exit, failed)
        decreases if index < initial then initial - index else 0, |schemas| - index
      {
        ghost var before := Now();
        var schema := schemas[index];
        var end := RunOne(schema, index + 1 == initial);
        ReachedNext(world, request, old(schemas), old(scope), before, Now());
        index := index + 1;
        CodeNext(before.segments, Last(segments), exit, failed);
        if end.Raised? {
          return exit, true;
        }
        failed := if exit == 0 && end.code == 0 then index else failed;
        exit := if exit != 0 then exit else end.code;
      }
      CodeEnds(segments, exit, failed);
    }
  }

  /** Where the run stands. */
  datatype Progress = Progress(
    schemas: seq<string>, scope: map<string, seq<string>>, apps: map<string, seq<App>>,
    segments: seq<Segment>, routings: seq<Routing>)

  /** What one segment does. */
  ghost predicate Walks(w: World, q: Request, p: Progress, schema: string, last: bool, p': Progress)
    requires schema in p.scope
  {
    var own := Own(w, schema, p.scope[schema]);
    var apps := p.apps[schema := own];
    var missing := if last && !q.hasRanges then Missing(q.ids, apps) else [];
    && After(p.routings, p.schemas, p.scope, p'.routings, p'.schemas, p'.scope, w, schema, missing)
    && p'.segments == p.segments
         + [Segment(schema, p.scope[schema], own + AddedBy(p'.routings, p.routings), w.ends(schema))]
    && (missing == [] ==> p'.apps == apps)
  }

  /** After some segments of a run over `listed`: the routing happened in the last originally
      listed one, if it is past, and the list is what that made it. */
  ghost predicate Reached(w: World, q: Request, listed: seq<string>, scope: map<string, seq<string>>, p: Progress)
    requires forall s :: s in listed ==> s in scope
  {
    Walked(w, |listed|, p) && Stands(w, q, listed, scope, p)
  }

  ghost predicate Stands(w: World, q: Request, listed: seq<string>, scope: map<string, seq<string>>, p: Progress)
    requires forall s :: s in listed ==> s in scope
  {
    if listed == [] || |p.segments| < |listed| then
      && |p.segments| <= |listed| && p.routings == [] && p.schemas == listed && p.scope == scope
      && p.apps == OwnApps(w, listed[..|p.segments|], scope)
    else
      After([], listed, scope, p.routings, p.schemas, p.scope, w, Last(listed), MissingAtFirst(w, q, listed, scope))
  }

  /** The schemas and scopes there were stay as they were. */
  lemma AfterKeeps(before: seq<Routing>, listed: seq<string>, scope: map<string, seq<string>>,
                   routings: seq<Routing>, schemas: seq<string>, scope': map<string, seq<string>>,
                   w: World, schema: string, missing: seq<string>)
    requires (forall s :: s in listed ==> s in scope)
      && After(before, listed, scope, routings, schemas, scope', w, schema, missing)
    ensures listed <= schemas && forall s :: s in schemas ==> s in scope'
    ensures forall s :: s in listed ==> scope'[s] == scope[s]
  {
    if missing != [] {
      assert forall s :: s in schemas ==> s in listed || s in Last(routings).owners;
    }
  }

  lemma WalkedNext(w: World, initial: nat, p: Progress, p': Progress, own: seq<App>)
    requires Walked(w, initial, p) && |p.segments| < |p.schemas|
    requires p.schemas <= p'.schemas && (forall s :: s in p'.schemas ==> s in p'.scope)
    requires forall s :: s in p.schemas ==> p'.scope[s] == p.scope[s]
    requires |p.segments| < initial ==> p.routings == []
    requires |p.segments| + 1 != initial ==> p'.routings == p.routings
    requires var schema := p.schemas[|p.segments|];
      && own == Own(w, schema, p.scope[schema])
      && p'.segments == p.segments
           + [Segment(schema, p.scope[schema], own + AddedBy(p'.routings, p.routings), w.ends(schema))]
    ensures Walked(w, initial, p')
  {
    forall j | 0 <= j < |p'.segments| ensures p'.segments[j] == SegmentOf(w, initial, p', j) {
      assert p.schemas[j] == p'.schemas[j];
      if j < |p.segments| {
        assert p.segments[j] == SegmentOf(w, initial, p, j);
      }
    }
  }

  lemma StandsNext(
    w: World, q: Request, listed: seq<string>, scope: map<string, seq<string>>, p: Progress, p': Progress)
    requires forall s :: s in listed ==> s in scope
    requires Stands(w, q, listed, scope, p) && |p.segments| < |p.schemas| && |p'.segments| == |p.segments| + 1
    requires var schema := p.schemas[|p.segments|];
      schema in p.scope && Walks(w, q, p, schema, |p.segments| + 1 == |listed|, p')
    ensures Stands(w, q, listed, scope, p')
  {
    var n := |p.segments|;
    if n < |listed| {
      OwnAppsNext(w, listed, scope, n);
      if n + 1 == |listed| {
        assert listed[..n + 1] == listed;
      }
    }
  }

  lemma ReachedNext(
    w: World, q: Request, listed: seq<string>, scope: map<string, seq<string>>, p: Progress, p': Progress)
    requires forall s :: s in listed ==> s in scope
    requires Reached(w, q, listed, scope, p) && |p.segments| < |p.schemas|
    requires var schema := p.schemas[|p.segments|];
      schema in p.scope && Walks(w, q, p, schema, |p.segments| + 1 == |listed|, p')
    ensures Reached(w, q, listed, scope, p')
  {
    var n := |p.segments|;
    var schema := p.schemas[n];
    var own := Own(w, schema, p.scope[schema]);
    var missing := if n + 1 == |listed| && !q.hasRanges then Missing(q.ids, p.apps[schema := own]) else [];
    AfterKeeps(p.routings, p.schemas, p.scope, p'.routings, p'.schemas, p'.scope, w, schema, missing);
    WalkedNext(w, |listed|, p, p', own);
    StandsNext(w, q, listed, scope, p, p');
  }

  lemma OwnAppsNext(w: World, listed: seq<string>, scope: map<string, seq<string>>, n: nat)
    requires n < |listed| && forall s :: s in listed ==> s in scope
    ensures OwnApps(w, listed[..n + 1], scope)
      == OwnApps(w, listed[..n], scope)[listed[n] := Own(w, listed[n], scope[listed[n]])]
  {
    assert listed[..n + 1] == listed[..n] + [listed[n]];
  }

  /** What the routing schema's own list gained. */
  function AddedBy(routings: seq<Routing>, before: seq<Routing>): seq<App> {
    if |routings| > |before| then Last(routings).added else []
  }

  /** At most one routing, of the missing ids, and the list grown by its owners. */
  ghost predicate After(before: seq<Routing>, listed: seq<string>, scope: map<string, seq<string>>,
                        routings: seq<Routing>, schemas: seq<string>, scope': map<string, seq<string>>,
                        w: World, schema: string, missing: seq<string>) {
    if missing == [] then routings == before && schemas == listed && scope' == scope
    else
      && |routings| == |before| + 1 && routings[..|before|] == before
      && var r := Last(routings);
         && r.through == schema && r.listed == listed && r.missing == missing && Sound(w, r)
         && schemas == listed + r.owners && scope' == scope + r.scopes
  }

  /** The applications of the originally requested schemas. */
  function OwnApps(w: World, schemas: seq<string>, scope: map<string, seq<string>>): map<string, seq<App>>
    requires forall s :: s in schemas ==> s in scope
  {
    map s | s in schemas :: Own(w, s, scope[s])
  }

  /** The requested ids that none of the originally requested schemas lists. */
  function MissingAtFirst(
    w: World, request: Request, schemas: seq<string>, scope: map<string, seq<string>>): seq<string>
    requires forall s :: s in schemas ==> s in scope
  {
    if request.hasRanges then [] else Missing(request.ids, OwnApps(w, schemas, scope))
  }

  /** One segment for each schema of the list, in order, each within its own scope; the last
      original one also exports what the routing added. */
  ghost predicate Walked(w: World, initial: nat, p: Progress) {
    && (forall s :: s in p.schemas ==> s in p.scope)
    && |p.segments| <= |p.schemas|
    && forall j :: 0 <= j < |p.segments| ==> p.segments[j] == SegmentOf(w, initial, p, j)
  }

  function SegmentOf(w: World, initial: nat, p: Progress, j: nat): Segment
    requires j < |p.schemas| && p.schemas[j] in p.scope
  {
    var schema := p.schemas[j];
    Segment(schema, p.scope[schema],
            Own(w, schema, p.scope[schema]) + (if j + 1 == initial then AddedBy(p.routings, []) else []),
            w.ends(schema))
  }

  /** The owners appended for `order` to a list, and their scopes. */
  ghost predicate Appended(listed: seq<string>, order: seq<string>, groups: map<string, seq<string>>,
                           owners: seq<string>, scopes: map<string, seq<string>>) {
    && Distinct(owners) && (forall o :: o in owners <==> o in order && o !in listed)
    && (forall o :: o in scopes <==> o in owners)
    && (forall o :: o in owners ==> o in groups && scopes[o] == groups[o])
  }

  lemma AppendedNext(listed: seq<string>, order: seq<string>, i: nat, groups: map<string, seq<string>>,
                     owners: seq<string>, scopes: map<string, seq<string>>)
    requires i < |order| && Distinct(order) && order[i] in groups
    requires Appended(listed, order[..i], groups, owners, scopes)
    ensures order[i] in listed + owners <==> order[i] in listed
    ensures order[i] in listed ==> Appended(listed, order[..i + 1], groups, owners, scopes)
    ensures order[i] !in listed ==>
      Appended(listed, order[..i + 1], groups, owners + [order[i]], scopes[order[i] := groups[order[i]]])
  {
    assert order[..i + 1] == order[..i] + [order[i]] && order[i] !in order[..i];
  }

  predicate ListedIn(apps: map<string, seq<App>>, id: string) {
    exists s :: s in apps && Has(apps[s], id)
  }

  function Missing(ids: seq<string>, apps: map<string, seq<App>>): seq<string> {
    Filter(ids, id => !ListedIn(apps, id))
  }

  /** A missing id is not on the routing schema's own list. */
  lemma NoneListed(
    ids: seq<string>, apps: map<string, seq<App>>, schema: string, foreign: seq<string>, owner: string -> Owner)
    requires schema in apps && foreign == IdsOf(Missing(ids, apps), owner, Foreign)
    ensures forall id :: id in foreign ==> !Has(apps[schema], id)
  {
    forall id | id in foreign ensures !Has(apps[schema], id) {
      FilterMember(Missing(ids, apps), x => owner(x) == Foreign, id);
      FilterMember(ids, x => !ListedIn(apps, x), id);
    }
  }

  lemma RoutingIsSound(w: World, r: Routing, resolved: Resolved, lost: string -> bool)
    requires var owner := OwnerIn(w, r.through);
      resolved.order == OwnersOf(r.missing, owner) && Sorts(resolved, Kinds(r.missing, owner))
    requires Appended(r.listed, resolved.order, resolved.groups, r.owners, r.scopes)
    requires OneEach(r.added) && (forall a :: a in r.added ==> a in w.sees(r.through))
    requires forall id :: Has(r.added, id) <==> id in resolved.foreign && Has(w.sees(r.through), id)
    requires forall id :: lost(id) <==> !Has(r.added, id)
    requires r.unreached == resolved.unseen + Filter(resolved.foreign, lost)
    ensures Sound(w, r)
  {
    var owner := OwnerIn(w, r.through);
    forall o
      ensures o in r.owners <==> Fated(r, w, Routed(o)) != []
      ensures o in r.owners ==> r.scopes[o] == Fated(r, w, Routed(o))
    {
      RoutedGroup(w, r, o);
      OwnedIds(r.missing, owner, o);
      assert Kinds(r.missing, owner)(Owned(o)) == IdsOf(r.missing, owner, Owned(o));
    }
    assert Kinds(r.missing, owner)(Foreign) == IdsOf(r.missing, owner, Foreign);
    assert Kinds(r.missing, owner)(Unseen) == IdsOf(r.missing, owner, Unseen);
    forall id ensures Has(r.added, id) <==> id in Fated(r, w, Exported) {
      ExportedIds(w, r, resolved.foreign, id);
    }
    UnreachedIds(w, r, resolved.foreign, resolved.unseen, lost);
  }

  lemma HasOne(apps: seq<App>, app: App)
    ensures forall id :: Has(apps + [app], id) <==> Has(apps, id) || app.id == id
  {
    assert forall a :: a in apps + [app] <==> a in apps || a == app;
  }

  // ----- what a finished run has done

  lemma NoSchemaTwice(w: World, q: Request, listed: seq<string>, scope: map<string, seq<string>>, p: Progress)
    requires forall s :: s in listed ==> s in scope
    requires Reached(w, q, listed, scope, p) && Distinct(listed)
    ensures Distinct(p.schemas) && listed <= p.schemas && |p.routings| <= 1
  {
    if p.schemas != listed {
      var r := Last(p.routings);
      assert forall i, j :: 0 <= i < |listed| <= j < |p.schemas| ==> p.schemas[i] in listed && p.schemas[j] in r.owners;
    }
  }

  /** Where an id of that fate ends up. */
  ghost predicate Settled(listed: seq<string>, p: Progress, r: Routing, id: string, fate: Fate) {
    match fate
    case Routed(o) => exists j :: |listed| <= j < |p.segments| && p.segments[j].schema == o && id in p.segments[j].scope
    case OwnedByListed(o) => o in listed
    case Exported => 0 < |listed| <= |p.segments| && Has(p.segments[|listed| - 1].apps, id)
    case Unreached => id in r.unreached
  }

  lemma SettledRouted(w: World, listed: seq<string>, p: Progress, r: Routing, id: string, o: string)
    requires Walked(w, |listed|, p) && |p.segments| == |p.schemas|
    requires p.schemas == listed + r.owners && o in r.owners && id in p.scope[o]
    ensures Settled(listed, p, r, id, Routed(o))
  {
    var i :| 0 <= i < |r.owners| && r.owners[i] == o;
    assert p.segments[|listed| + i] == SegmentOf(w, |listed|, p, |listed| + i);
  }

  lemma SettledExported(w: World, listed: seq<string>, p: Progress, r: Routing, id: string)
    requires Walked(w, |listed|, p) && |p.segments| == |p.schemas| && 0 < |listed| <= |p.schemas|
    requires p.routings == [r] && Has(r.added, id)
    ensures Settled(listed, p, r, id, Exported)
  {
    assert p.segments[|listed| - 1] == SegmentOf(w, |listed|, p, |listed| - 1);
    var a :| a in r.added && a.id == id;
    assert a in p.segments[|listed| - 1].apps;
  }

  lemma SettledBy(w: World, listed: seq<string>, p: Progress, r: Routing, id: string, fate: Fate)
    requires Walked(w, |listed|, p) && |p.segments| == |p.schemas| && listed != []
    requires p.routings == [r] && r.listed == listed && Sound(w, r) && id in Fated(r, w, fate)
    requires p.schemas == listed + r.owners && forall o :: o in r.owners ==> p.scope[o] == r.scopes[o]
    ensures Settled(listed, p, r, id, fate)
  {
    match fate {
      case Routed(o) => SettledRouted(w, listed, p, r, id, o);
      case OwnedByListed(o) => OwnersListed(w, r, id, o);
      case Exported => SettledExported(w, listed, p, r, id);
      case Unreached =>
        assert id in multiset(Fated(r, w, Unreached));
        assert id in multiset(r.unreached);
    }
  }

  lemma OwnersListed(w: World, r: Routing, id: string, o: string)
    requires id in Fated(r, w, OwnedByListed(o))
    ensures o in r.listed
  {
    FilterMember(r.missing, HasFate(w, r, OwnedByListed(o)), id);
    FateIs(w, r.through, r.listed, id);
  }

  /** An originally requested schema lists the id. */
  ghost predicate ListedAtFirst(w: World, listed: seq<string>, scope: map<string, seq<string>>, id: string)
    requires forall s :: s in listed ==> s in scope
  {
    exists s :: s in listed && Lists(w, s, scope[s], id)
  }

  /** A finished run has settled every requested id: an original schema's discovery lists it, and
      then it was never missing; or it is routed to a segment of its own that is scoped to it, or
      owned by a schema listed anyway, or exported by the last original segment, or reported. */
  lemma EveryIdSettled(
    w: World, q: Request, listed: seq<string>, scope: map<string, seq<string>>, p: Progress, id: string)
    requires forall s :: s in listed ==> s in scope
    requires Reached(w, q, listed, scope, p) && |p.segments| == |p.schemas|
    requires listed != [] && !q.hasRanges && id in q.ids
    ensures
      if ListedAtFirst(w, listed, scope, id) then
        forall r :: r in p.routings ==> id !in r.missing
      else
        |p.routings| == 1 && Settled(listed, p, p.routings[0], id, FateOf(w, p.routings[0].through, listed)(id))
  {
    MissingIs(w, q, listed, scope, id);
    if MissingAtFirst(w, q, listed, scope) != [] {
      var r := TheRouting(w, q, listed, scope, p);
      if id in r.missing { MissingSettled(w, listed, p, r, id); }
    }
  }

  lemma MissingSettled(w: World, listed: seq<string>, p: Progress, r: Routing, id: string)
    requires Walked(w, |listed|, p) && |p.segments| == |p.schemas| && listed != []
    requires p.routings == [r] && r.listed == listed && Sound(w, r) && id in r.missing
    requires p.schemas == listed + r.owners && forall o :: o in r.owners ==> p.scope[o] == r.scopes[o]
    ensures Settled(listed, p, r, id, FateOf(w, r.through, listed)(id))
  {
    var fate := FateOf(w, r.through, listed)(id);
    FilterMember(r.missing, HasFate(w, r, fate), id);
    SettledBy(w, listed, p, r, id, fate);
  }

  lemma MissingIs(w: World, q: Request, listed: seq<string>, scope: map<string, seq<string>>, id: string)
    requires (forall s :: s in listed ==> s in scope) && !q.hasRanges && id in q.ids
    ensures id in MissingAtFirst(w, q, listed, scope) <==> !ListedAtFirst(w, listed, scope, id)
  {
    FilterMember(q.ids, x => !ListedIn(OwnApps(w, listed, scope), x), id);
    forall s | s in listed ensures Has(OwnApps(w, listed, scope)[s], id) <==> Lists(w, s, scope[s], id) {
      OwnIs(w, s, scope[s], App("", "", 0), id);
    }
  }

  lemma TheRouting(
    w: World, q: Request, listed: seq<string>, scope: map<string, seq<string>>, p: Progress) returns (r: Routing)
    requires forall s :: s in listed ==> s in scope
    requires Reached(w, q, listed, scope, p) && |p.segments| == |p.schemas|
    requires listed != [] && MissingAtFirst(w, q, listed, scope) != []
    ensures Walked(w, |listed|, p) && p.routings == [r] && r.listed == listed && Sound(w, r)
    ensures r.missing == MissingAtFirst(w, q, listed, scope)
    ensures p.schemas == listed + r.owners && forall o :: o in r.owners ==> p.scope[o] == r.scopes[o]
  {
    r := Last(p.routings);
  }

  // ----- the routes both APEX commands start from

  /** The schemas routed to and the ids left over; `recorded` is the owner cached for an id,
      `Foreign` standing for every record that routes nowhere. */
  datatype Routes = Routes(schemas: seq<string>, unrouted: seq<string>)

  function OwnerRoutes(ids: seq<string>, recorded: string -> Owner): Routes {
    Routes(OwnersOf(ids, recorded), Filter(ids, id => !recorded(id).Owned?))
  }

  function SoleOwner(r: Routes): Option<string> {
    if r.unrouted != [] || |r.schemas| != 1 then None else Some(r.schemas[0])
  }

  /** The shortcut is taken exactly when there is a request and all of it has one owner. */
  lemma SoleOwnerOwnsAll(ids: seq<string>, recorded: string -> Owner, schema: string)
    ensures SoleOwner(OwnerRoutes(ids, recorded)) == Some(schema) <==>
      ids != [] && forall id :: id in ids ==> recorded(id) == Owned(schema)
  {
    var r, open := OwnerRoutes(ids, recorded), (id: string) => !recorded(id).Owned?;
    OwnersOfIs(ids, recorded);
    FilterSame(ids, open, id => !recorded(id).Owned?);
    if ids != [] && forall id :: id in ids ==> recorded(id) == Owned(schema) {
      FilterNone(ids, open);
      assert ids[0] in ids && schema in r.schemas;
      OnlyOne(r.schemas, schema);
    } else if SoleOwner(r) == Some(schema) {
      assert schema in r.schemas;
      forall id | id in ids ensures recorded(id) == Owned(schema) {
        FilterMember(ids, open, id);
        assert recorded(id).Owned? && recorded(id).schema in r.schemas;
      }
    }
  }
}
