/**
 `commits_at_hashes`: for each measured file, the newest scanned commit whose recorded content
 hash is the measured one.
 */
module Baseline {
  import opened Prelude

  datatype File = File(name: string, hash: string)

  datatype Record = Record(number: int, files: seq<File>)

  predicate NewestFirst(a: Record, b: Record) {
    a.number >= b.number
  }

  /** The commit recorded exactly the measured content of `file`; an empty hash is one like any other. */
  predicate Matches(record: Record, measured: map<string, string>, file: string) {
    file in measured && File(file, measured[file]) in record.files
  }

  /** `commits` holds, for each file, the greatest number of a matching commit among `records`. */
  ghost predicate NewestMatch(records: seq<Record>, measured: map<string, string>, commits: map<string, int>) {
    && (forall file :: file in commits <==> exists r :: r in records && Matches(r, measured, file))
    && (forall file, r :: file in commits && r in records && Matches(r, measured, file) ==> r.number <= commits[file])
    && (forall file :: file in commits ==>
         exists r :: r in records && Matches(r, measured, file) && r.number == commits[file])
  }

  /** The inner loop, over the files of one record that is no newer than any before it. */
  method LookUp(
    record: Record, measured: map<string, string>, commits: map<string, int>)
    returns (commits': map<string, int>)
    ensures forall file :: file in commits' <==> file in commits || Matches(record, measured, file)
    ensures forall file :: file in commits' ==>
      commits'[file] == if file in commits then commits[file] else record.number
  {
    commits' := commits;
    for i := 0 to |record.files|
      invariant forall file :: file in commits' <==>
        file in commits || (file in measured && File(file, measured[file]) in record.files[..i])
      invariant forall file :: file in commits' ==>
        commits'[file] == if file in commits then commits[file] else record.number
    {
      var f := record.files[i];
      assert record.files[..i + 1] == record.files[..i] + [f];
      if f.name in measured && measured[f.name] == f.hash && f.name !in commits' {
        commits' := commits'[f.name := record.number];
      }
    }
    assert record.files[..|record.files|] == record.files;
  }

  lemma OneMore(
    records: seq<Record>, i: nat, measured: map<string, string>, commits: map<string, int>,
    commits': map<string, int>)
    requires i < |records| && Sorted(records, NewestFirst) && NewestMatch(records[..i], measured, commits)
    requires forall file :: file in commits' <==> file in commits || Matches(records[i], measured, file)
    requires forall file :: file in commits' ==>
      commits'[file] == if file in commits then commits[file] else records[i].number
    ensures NewestMatch(records[..i + 1], measured, commits')
  {
    NoNewerBefore(records, i);
    AddOldest(records[..i], records[i], measured, commits, commits');
    assert records[..i + 1] == records[..i] + [records[i]];
  }

  lemma NoNewerBefore(records: seq<Record>, i: nat)
    requires i < |records| && Sorted(records, NewestFirst)
    ensures forall r :: r in records[..i] ==> r.number >= records[i].number
  {
    forall r | r in records[..i] ensures r.number >= records[i].number {
      var k :| 0 <= k < i && records[k] == r;
    }
  }

  lemma AddOldest(
    before: seq<Record>, last: Record, measured: map<string, string>, commits: map<string, int>,
    commits': map<string, int>)
    requires NewestMatch(before, measured, commits) && forall r :: r in before ==> r.number >= last.number
    requires forall file :: file in commits' <==> file in commits || Matches(last, measured, file)
    requires forall file :: file in commits' ==>
      commits'[file] == if file in commits then commits[file] else last.number
    ensures NewestMatch(before + [last], measured, commits')
  {
    var records := before + [last];
    assert forall r :: r in records <==> r in before || r == last;
    forall file | file in commits'
      ensures exists r :: r in records && Matches(r, measured, file) && r.number == commits'[file]
    {
      if file in commits {
        var r :| r in before && Matches(r, measured, file) && r.number == commits[file];
        assert r in records;
      } else {
        assert last in records;
      }
    }
  }

  lemma NewestFirstOrders()
    ensures TotalOrder(NewestFirst)
  {
  }

  /** A scan that raises, None here, leaves every file without a commit. */
  method CommitsAtHashes(scan: Option<seq<Record>>, measured: map<string, string>) returns (commits: map<string, int>)
    ensures NewestMatch(if scan.Some? then scan.value else [], measured, commits)
  {
    commits := map[];
    if scan.None? {
      return;
    }
    var sorted := Sort(scan.value, NewestFirst);
    NewestFirstOrders();
    SortOrders(scan.value, NewestFirst);
    for i := 0 to |sorted|
      invariant NewestMatch(sorted[..i], measured, commits)
    {
      var found := LookUp(sorted[i], measured, commits);
      OneMore(sorted, i, measured, commits, found);
      commits := found;
    }
    assert sorted[..|sorted|] == sorted;
    SortPermutes(scan.value, NewestFirst);
    Reordered(sorted, scan.value, measured, commits);
  }

  /** Only which records there are counts, not their order. */
  lemma Reordered(a: seq<Record>, b: seq<Record>, measured: map<string, string>, commits: map<string, int>)
    requires NewestMatch(a, measured, commits) && forall r :: r in a <==> r in b
    ensures NewestMatch(b, measured, commits)
  {
    forall file | file in commits
      ensures exists r :: r in b && Matches(r, measured, file) && r.number == commits[file]
    {
      var r :| r in a && Matches(r, measured, file) && r.number == commits[file];
      assert r in b;
    }
  }

  /** The answer is the only one with that property. */
  lemma NewestMatchIsUnique(
    records: seq<Record>, measured: map<string, string>, one: map<string, int>, two: map<string, int>)
    requires NewestMatch(records, measured, one) && NewestMatch(records, measured, two)
    ensures one == two
  {
    forall file | file in one ensures one[file] == two[file] {
      var r :| r in records && Matches(r, measured, file) && r.number == one[file];
      var s :| s in records && Matches(s, measured, file) && s.number == two[file];
    }
  }
}
