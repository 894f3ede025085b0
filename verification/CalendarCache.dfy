/**
 `_commits_from_cache`: which selected branches a commit is attributed to, rebuilt from
 one month of each branch's commit store.
 */
module CalendarCache {
  import opened Prelude
  import opened Dates

  /** A commit as the store returns it; `day` is the day number of the author's own date. */
  datatype Record = Record(id: string, author: string, day: Day, summary: string)

  datatype Commit = Commit(email: string, day: Day, summary: string, branches: set<string>)

  datatype Branch = Branch(short: string, ref: string)

  /** The stores, read for one month, and what git names as the default branch. */
  datatype Repo = Repo(month: string -> seq<Record>, defaultRef: string, defaultShort: string)

  predicate HasId(records: seq<Record>, id: string) {
    records != [] && (Last(records).id == id || HasId(records[..|records| - 1], id))
  }

  lemma {:induction false} HasIdIs(records: seq<Record>, id: string)
    ensures HasId(records, id) <==> exists r :: r in records && r.id == id
  {
    if records != [] {
      HasIdIs(records[..|records| - 1], id);
      assert records == records[..|records| - 1] + [Last(records)];
    }
  }

  predicate OnDefault(repo: Repo, id: string) {
    repo.defaultRef != "" && HasId(repo.month(repo.defaultRef), id)
  }

  function DefaultBranch(repo: Repo): Branch {
    Branch(repo.defaultShort, repo.defaultRef)
  }

  /** What reading `records` of a branch adds to the branches of commit `id`: a commit that is
      on the default branch is skipped as inherited on any other. */
  function Mark(records: seq<Record>, short: string, inherited: string -> bool, id: string): set<string> {
    if !inherited(id) && HasId(records, id) then {short} else {}
  }

  function Inherited(repo: Repo, b: Branch): string -> bool {
    id => b != DefaultBranch(repo) && OnDefault(repo, id)
  }

  /** The branches commit `id` is attributed to. */
  function Holders(repo: Repo, selected: seq<Branch>, id: string): set<string> {
    if selected == [] then {} else
      Holders(repo, selected[..|selected| - 1], id)
      + Mark(repo.month(Last(selected).ref), Last(selected).short, Inherited(repo, Last(selected)), id)
  }

  ghost predicate Copies(c: Commit, r: Record) {
    c.email == r.author && c.day == r.day && c.summary == r.summary
  }

  ghost predicate CopiesOne(c: Commit, id: string, records: seq<Record>) {
    exists r :: r in records && r.id == id && Copies(c, r)
  }

  ghost predicate CopiesStored(repo: Repo, selected: seq<Branch>, c: Commit, id: string) {
    exists b :: b in selected && CopiesOne(c, id, repo.month(b.ref))
  }

  /** The commits read so far, `done` telling their branches. */
  ghost predicate Holds(commits: map<string, Commit>, order: seq<string>, done: string -> set<string>) {
    && Distinct(order)
    && (forall id :: id in order <==> id in commits)
    && (forall id :: id in commits <==> done(id) != {})
    && (forall id :: id in commits ==> commits[id].branches == done(id))
  }

  /** Nothing but the branches of a commit changes once it is there. */
  ghost predicate Grows(commits: map<string, Commit>, commits': map<string, Commit>, records: seq<Record>) {
    forall id :: id in commits' ==>
      || (id in commits && commits'[id] == commits[id].(branches := commits'[id].branches))
      || CopiesOne(commits'[id], id, records)
  }

  function Marked(
    base: string -> set<string>, records: seq<Record>, short: string,
    inherited: string -> bool): string -> set<string> {
    id => base(id) + Mark(records, short, inherited, id)
  }

  function Added(done: string -> set<string>, mark: string, short: string): string -> set<string> {
    id => done(id) + (if id == mark then {short} else {})
  }

  lemma HoldsAs(
    commits: map<string, Commit>, order: seq<string>, done: string -> set<string>, done': string -> set<string>)
    requires Holds(commits, order, done)
    requires forall id :: done'(id) == done(id)
    ensures Holds(commits, order, done')
  {
  }

  lemma MarkNext(base: string -> set<string>, records: seq<Record>, short: string, inherited: string -> bool, j: nat)
    requires j < |records|
    ensures inherited(records[j].id) ==>
      forall id :: Marked(base, records[..j + 1], short, inherited)(id)
        == Marked(base, records[..j], short, inherited)(id)
    ensures !inherited(records[j].id) ==>
      forall id :: Marked(base, records[..j + 1], short, inherited)(id)
                == Added(Marked(base, records[..j], short, inherited), records[j].id, short)(id)
  {
    var upTo := records[..j + 1];
    assert upTo[..j] == records[..j] && Last(upTo) == records[j];
    forall id ensures Mark(upTo, short, inherited, id) == Mark(records[..j], short, inherited, id)
                   + (if id == records[j].id && !inherited(id) then {short} else {}) {
    }
  }

  method ReadRecord(
    record: Record, short: string, commits: map<string, Commit>, order: seq<string>,
    ghost done: string -> set<string>)
    returns (commits': map<string, Commit>, order': seq<string>)
    requires Holds(commits, order, done)
    ensures Holds(commits', order', Added(done, record.id, short))
    ensures Grows(commits, commits', [record])
  {
    commits', order' := commits, order;
    if record.id !in commits' {
      order' := order' + [record.id];
      commits' := commits'[record.id := Commit(record.author, record.day, record.summary, {})];
    }
    var commit := commits'[record.id];
    commits' := commits'[record.id := commit.(branches := commit.branches + {short})];
    assert Copies(Commit(record.author, record.day, record.summary, {short}), record);
  }

  lemma GrowsOn(
    a: map<string, Commit>, b: map<string, Commit>, c: map<string, Commit>, records: seq<Record>, record: Record)
    requires Grows(a, b, records) && Grows(b, c, [record]) && record in records
    ensures Grows(a, c, records)
  {
    forall id | id in c
      ensures (id in a && c[id] == a[id].(branches := c[id].branches)) || CopiesOne(c[id], id, records)
    {
      if CopiesOne(c[id], id, [record]) {
        assert Copies(c[id], record);
      } else if CopiesOne(b[id], id, records) {
        var r :| r in records && r.id == id && Copies(b[id], r);
        assert Copies(c[id], r);
      }
    }
  }

  /** The inner loop, over one branch's records. */
  method ReadBranch(records: seq<Record>, short: string, inherited: string -> bool,
                    commits: map<string, Commit>, order: seq<string>, ghost base: string -> set<string>)
    returns (commits': map<string, Commit>, order': seq<string>)
    requires Holds(commits, order, base)
    ensures Holds(commits', order', Marked(base, records, short, inherited))
    ensures Grows(commits, commits', records)
  {
    commits', order' := commits, order;
    HoldsAs(commits, order, base, Marked(base, records[..0], short, inherited));
    for j := 0 to |records|
      invariant Holds(commits', order', Marked(base, records[..j], short, inherited))
      invariant Grows(commits, commits', records)
    {
      var record := records[j];
      ghost var done := Marked(base, records[..j], short, inherited);
      ghost var next := Marked(base, records[..j + 1], short, inherited);
      MarkNext(base, records, short, inherited, j);
      if inherited(record.id) {
        HoldsAs(commits', order', done, next);
        continue;
      }
      ghost var before := commits';
      commits', order' := ReadRecord(record, short, commits', order', done);
      GrowsOn(commits, before, commits', records, record);
      HoldsAs(commits', order', Added(done, record.id, short), next);
    }
    assert records[..|records|] == records;
  }

  function HoldersOf(repo: Repo, selected: seq<Branch>): string -> set<string> {
    id => Holders(repo, selected, id)
  }

  lemma HoldersNext(repo: Repo, selected: seq<Branch>, i: nat, inherited: string -> bool)
    requires i < |selected| && forall id :: inherited(id) == Inherited(repo, selected[i])(id)
    ensures forall id ::
      HoldersOf(repo, selected[..i + 1])(id)
      == Marked(HoldersOf(repo, selected[..i]), repo.month(selected[i].ref), selected[i].short, inherited)(id)
  {
    var upTo := selected[..i + 1];
    assert upTo[..i] == selected[..i] && Last(upTo) == selected[i];
    forall id ensures Holders(repo, upTo, id)
                   == Holders(repo, selected[..i], id)
                     + Mark(repo.month(selected[i].ref), selected[i].short, inherited, id) {
    }
  }

  method InheritedIds(repo: Repo) returns (ids: set<string>)
    ensures forall id :: id in ids <==> OnDefault(repo, id)
  {
    ids := {};
    if repo.defaultRef != "" {
      ids := set r | r in repo.month(repo.defaultRef) :: r.id;
      forall id ensures HasId(repo.month(repo.defaultRef), id) <==> id in ids {
        HasIdIs(repo.month(repo.defaultRef), id);
      }
    }
  }

  /** The dictionary, with its insertion order. */
  method CommitsFromCache(repo: Repo, selected: seq<Branch>)
    returns (commits: map<string, Commit>, order: seq<string>)
    ensures Holds(commits, order, HoldersOf(repo, selected))
    ensures forall id :: id in commits ==> CopiesStored(repo, selected, commits[id], id)
  {
    var defaultIds := InheritedIds(repo);
    commits, order := map[], [];
    for i := 0 to |selected|
      invariant Holds(commits, order, HoldersOf(repo, selected[..i]))
      invariant forall id :: id in commits ==> CopiesStored(repo, selected[..i], commits[id], id)
    {
      var b := selected[i];
      var isDefault := b.short == repo.defaultShort && b.ref == repo.defaultRef;
      var inherited := id => !isDefault && id in defaultIds;
      ghost var before, done := commits, HoldersOf(repo, selected[..i]);
      commits, order := ReadBranch(repo.month(b.ref), b.short, inherited, commits, order, done);
      StillStored(repo, selected[..i], b, before, commits);
      HoldersNext(repo, selected, i, inherited);
      HoldsAs(commits, order, Marked(done, repo.month(b.ref), b.short, inherited), HoldersOf(repo, selected[..i + 1]));
      assert selected[..i + 1] == selected[..i] + [b];
    }
    assert selected[..|selected|] == selected;
  }

  lemma StillStored(
    repo: Repo, selected: seq<Branch>, b: Branch, commits: map<string, Commit>, commits': map<string, Commit>)
    requires forall id :: id in commits ==> CopiesStored(repo, selected, commits[id], id)
    requires Grows(commits, commits', repo.month(b.ref))
    ensures forall id :: id in commits' ==> CopiesStored(repo, selected + [b], commits'[id], id)
  {
    forall id | id in commits' ensures CopiesStored(repo, selected + [b], commits'[id], id) {
      var home := b;
      if !CopiesOne(commits'[id], id, repo.month(b.ref)) {
        home :| home in selected && CopiesOne(commits[id], id, repo.month(home.ref));
        var r :| r in repo.month(home.ref) && r.id == id && Copies(commits[id], r);
        assert Copies(commits'[id], r);
      }
      assert home in selected + [b] && CopiesOne(commits'[id], id, repo.month(home.ref));
    }
  }

  ghost predicate Stores(repo: Repo, ref: string, id: string) {
    exists r :: r in repo.month(ref) && r.id == id
  }

  /** A branch that counts for `id`: if the default branch's store holds it only that one does,
      otherwise every one whose store does. */
  ghost predicate Counts(repo: Repo, b: Branch, id: string) {
    if repo.defaultRef != "" && Stores(repo, repo.defaultRef, id)
    then b.short == repo.defaultShort && b.ref == repo.defaultRef
    else Stores(repo, b.ref, id)
  }

  /** A commit of the default branch belongs to that branch alone, or to none when it is not
      selected; any other commit to exactly the selected branches that hold it, in whatever
      order they are read. */
  lemma {:induction false} Attribution(repo: Repo, selected: seq<Branch>, id: string)
    ensures forall short :: short in Holders(repo, selected, id) <==>
      exists b :: b in selected && b.short == short && Counts(repo, b, id)
  {
    if selected != [] {
      var front, last := selected[..|selected| - 1], Last(selected);
      Attribution(repo, front, id);
      HasIdIs(repo.month(last.ref), id);
      HasIdIs(repo.month(repo.defaultRef), id);
      assert selected == front + [last];
      assert Mark(repo.month(last.ref), last.short, Inherited(repo, last), id) ==
        if Counts(repo, last, id) then {last.short} else {};
      forall short ensures short in Holders(repo, selected, id) <==>
                           exists b :: b in selected && b.short == short && Counts(repo, b, id) {
        if short in Holders(repo, front, id) {
          var b :| b in front && b.short == short && Counts(repo, b, id);
          assert b in selected;
        } else if short == last.short && Counts(repo, last, id) {
          assert last in selected;
        }
      }
    }
  }

  lemma AnyOrder(repo: Repo, one: seq<Branch>, two: seq<Branch>, id: string)
    requires multiset(one) == multiset(two)
    ensures Holders(repo, one, id) == Holders(repo, two, id)
  {
    assert forall b :: b in one <==> b in multiset(one);
    assert forall b :: b in two <==> b in multiset(two);
    Attribution(repo, one, id);
    Attribution(repo, two, id);
  }
}
