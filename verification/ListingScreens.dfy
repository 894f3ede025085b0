/**
 The tables fitted by tiers: the object and grant listings, the counts, the application listings,
 the relations and links of a search.  Which of them keep to the line as printed.
 */
module ListingScreens {
  import opened Prelude
  import opened ColumnFitter
  import opened DiffTables
  import opened PrintedTables
  import opened PrintedBlocks

  /** The line a listing prints. */
  ghost function ListingLine(columns: seq<string>, rows: seq<Row>, tiers: seq<seq<string>>): nat
    requires Distinct(columns)
  {
    PrintedLine(columns, FitRows(columns, rows, ObjectWidths(columns, rows, tiers)), map[])
  }

  function Natural(columns: seq<string>, rows: seq<Row>): Widths {
    NaturalWidths(columns, rows, map[])
  }

  /** Of the columns that can give way `b` has the longest header and comes first in `every`,
      the tiers one after the other. */
  ghost predicate Leads(columns: seq<string>, every: seq<string>, b: string) {
    && b in columns && b in every && LAST_FLOOR < |b| <= MIN_CELL
    && forall c :: c in columns && c in every ==> |c| <= |b| && (|c| == |b| ==> Rank(every, b) <= Rank(every, c))
  }

  lemma TiersInFront(tiers: seq<seq<string>>)
    ensures
      var phases := ObjectPhases(tiers);
      && Last(phases) == Phase(Concat(tiers), LAST_FLOOR)
      && (forall q :: q in Front(phases) ==> q.floor == MIN_CELL)
      && (forall q, c :: q in Front(phases) && c in q.candidates ==> c in Concat(tiers))
  {
    var phases := ObjectPhases(tiers);
    assert Front(phases) == TierPhases(tiers);
    forall q, c | q in TierPhases(tiers) && c in q.candidates ensures c in Concat(tiers) {
      ConcatMember(tiers, c);
    }
  }

  lemma ListingBreaks(columns: seq<string>, rows: seq<Row>, tiers: seq<seq<string>>, b: string, headers: Widths)
    requires Distinct(columns) && Leads(columns, Concat(tiers), b) && headers == Untrimmed(columns, map[])
    ensures FirstToBreak(Natural(columns, rows), ObjectPhases(tiers), headers, b)
  {
    TiersInFront(tiers);
  }

  lemma ListingDrawn(columns: seq<string>, rows: seq<Row>, tiers: seq<seq<string>>, phases: seq<Phase>, natural: Widths)
    requires Distinct(columns) && phases == ObjectPhases(tiers) && natural == Natural(columns, rows)
    ensures ListingLine(columns, rows, tiers)
         == LineWidth(columns, Printed(Outcome(columns, natural, phases), Untrimmed(columns, map[])))
  {
    TiersInFront(tiers);
    forall p | p in phases ensures p.floor >= LAST_FLOOR { ObjectPhaseIs(tiers, p); }
    OutcomeCut(columns, natural, phases);
    LineDrawn(columns, rows, map[], Outcome(columns, natural, phases));
    assert TrimLabels(map[], Outcome(columns, natural, phases)) == map[];
  }

  /** The printed cap of a listing, exactly: it keeps to the line just when it would with the
      columns that can give way cut to the longest of their headers, those listed before that
      column to one less; a trimmed one then prints at exactly the line. */
  lemma ListingPrints(columns: seq<string>, rows: seq<Row>, tiers: seq<seq<string>>, b: string)
    requires Distinct(columns) && Leads(columns, Concat(tiers), b)
    ensures
      var natural := Natural(columns, rows);
      var brim := LineWidth(columns, Brim(natural, Concat(tiers), b, |b|));
      && (ListingLine(columns, rows, tiers) <= MAX_LINE <==> brim <= MAX_LINE)
      && (LineWidth(columns, natural) > MAX_LINE >= brim ==> ListingLine(columns, rows, tiers) == MAX_LINE)
  {
    var natural, phases, headers := Natural(columns, rows), ObjectPhases(tiers), Untrimmed(columns, map[]);
    TiersInFront(tiers);
    ListingBreaks(columns, rows, tiers, b, headers);
    ListingDrawn(columns, rows, tiers, phases, natural);
    PrintsWithin(columns, natural, phases, headers, b, Outcome(columns, natural, phases));
  }

  /** Where no flexible header is longer than four, the listing prints as it is fitted, and keeps
      to the line just when it would with those columns at four. */
  lemma PlainListingPrints(columns: seq<string>, rows: seq<Row>, tiers: seq<seq<string>>)
    requires Distinct(columns) && forall c :: c in columns && c in Concat(tiers) ==> |c| <= LAST_FLOOR
    ensures ListingLine(columns, rows, tiers) == LineWidth(columns, ObjectWidths(columns, rows, tiers))
    ensures ListingLine(columns, rows, tiers) <= MAX_LINE
       <==> LineWidth(columns, SqueezedObjects(columns, rows, tiers)) <= MAX_LINE
  {
    var natural, phases, headers := Natural(columns, rows), ObjectPhases(tiers), Untrimmed(columns, map[]);
    forall p | p in phases ensures p.floor >= LAST_FLOOR { ObjectPhaseIs(tiers, p); }
    forall c | c in headers && c in natural
      ensures headers[c] <= natural[c] && (Flexible(phases, c) ==> headers[c] <= LAST_FLOOR)
    {
      LeastOfObjects(tiers, c, 0);
    }
    PrintsAsFitted(columns, natural, phases, headers);
    ListingDrawn(columns, rows, tiers, phases, natural);
    ObjectsFit(columns, rows, tiers);
  }

  // ----- measuring

  /** Where a column stands when `b` is at its header. */
  function AtBrim(every: seq<string>, natural: Widths, b: string, c: string): nat
    requires c in natural && b != ""
  {
    if c !in every then natural[c]
    else if Rank(every, c) < Rank(every, b) then Min(natural[c], |b| - 1)
    else Min(natural[c], |b|)
  }

  lemma BrimAt(every: seq<string>, natural: Widths, b: string, c: string)
    requires b in every && b != "" && c in natural
    ensures c in Brim(natural, every, b, |b|) && Brim(natural, every, b, |b|)[c] == AtBrim(every, natural, b, c)
  {
  }

  lemma {:induction false} RankAt(candidates: seq<string>, i: nat)
    requires Distinct(candidates) && i < |candidates|
    ensures Rank(candidates, candidates[i]) == i
  {
    if i > 0 {
      assert candidates[0] != candidates[i];
      RankAt(candidates[1..], i - 1);
    }
  }

  lemma LineOfTwo(columns: seq<string>, w: Widths)
    requires |columns| == 2 && columns[0] in w && columns[1] in w
    ensures forall c :: c in columns ==> c in w
    ensures LineWidth(columns, w) == 5 + w[columns[0]] + w[columns[1]]
  {
    assert columns == [columns[0]] + [columns[1]];
    SumOne(columns[0], w);
    SumSnoc([columns[0]], columns[1], w);
  }

  lemma LineOfThree(columns: seq<string>, w: Widths)
    requires |columns| == 3 && columns[0] in w && columns[1] in w && columns[2] in w
    ensures forall c :: c in columns ==> c in w
    ensures LineWidth(columns, w) == 8 + w[columns[0]] + w[columns[1]] + w[columns[2]]
  {
    assert columns == columns[..2] + [columns[2]];
    LineOfTwo(columns[..2], w);
    SumSnoc(columns[..2], columns[2], w);
  }

  lemma LineOfFour(columns: seq<string>, w: Widths)
    requires |columns| == 4 && columns[0] in w && columns[1] in w && columns[2] in w && columns[3] in w
    ensures forall c :: c in columns ==> c in w
    ensures LineWidth(columns, w) == 11 + w[columns[0]] + w[columns[1]] + w[columns[2]] + w[columns[3]]
  {
    assert columns == columns[..3] + [columns[3]];
    LineOfThree(columns[..3], w);
    SumSnoc(columns[..3], columns[3], w);
  }

  lemma LineOfFive(columns: seq<string>, w: Widths)
    requires |columns| == 5 && columns[0] in w && columns[1] in w && columns[2] in w && columns[3] in w
      && columns[4] in w
    ensures forall c :: c in columns ==> c in w
    ensures LineWidth(columns, w) == 14 + w[columns[0]] + w[columns[1]] + w[columns[2]] + w[columns[3]] + w[columns[4]]
  {
    assert columns == columns[..4] + [columns[4]];
    LineOfFour(columns[..4], w);
    SumSnoc(columns[..4], columns[4], w);
  }

  lemma TwoLed(columns: seq<string>, rows: seq<Row>, tiers: seq<seq<string>>, every: seq<string>, b: string)
    requires |columns| == 2 && Distinct(columns) && every == Concat(tiers) && Leads(columns, every, b)
    ensures
      var n := Natural(columns, rows);
      ListingLine(columns, rows, tiers) <= MAX_LINE
      <==> 5 + AtBrim(every, n, b, columns[0]) + AtBrim(every, n, b, columns[1]) <= MAX_LINE
  {
    var natural := Natural(columns, rows);
    ListingPrints(columns, rows, tiers, b);
    BrimAt(every, natural, b, columns[0]);
    BrimAt(every, natural, b, columns[1]);
    LineOfTwo(columns, Brim(natural, every, b, |b|));
  }

  lemma ThreeLed(columns: seq<string>, rows: seq<Row>, tiers: seq<seq<string>>, every: seq<string>, b: string)
    requires |columns| == 3 && Distinct(columns) && every == Concat(tiers) && Leads(columns, every, b)
    ensures
      var n := Natural(columns, rows);
      ListingLine(columns, rows, tiers) <= MAX_LINE
      <==> 8 + AtBrim(every, n, b, columns[0]) + AtBrim(every, n, b, columns[1]) + AtBrim(every, n, b, columns[2])
           <= MAX_LINE
  {
    var natural := Natural(columns, rows);
    ListingPrints(columns, rows, tiers, b);
    BrimAt(every, natural, b, columns[0]);
    BrimAt(every, natural, b, columns[1]);
    BrimAt(every, natural, b, columns[2]);
    LineOfThree(columns, Brim(natural, every, b, |b|));
  }

  lemma FourLed(columns: seq<string>, rows: seq<Row>, tiers: seq<seq<string>>, every: seq<string>, b: string)
    requires |columns| == 4 && Distinct(columns) && every == Concat(tiers) && Leads(columns, every, b)
    ensures
      var n := Natural(columns, rows);
      ListingLine(columns, rows, tiers) <= MAX_LINE
      <==> 11 + AtBrim(every, n, b, columns[0]) + AtBrim(every, n, b, columns[1]) + AtBrim(every, n, b, columns[2])
           + AtBrim(every, n, b, columns[3]) <= MAX_LINE
  {
    var natural := Natural(columns, rows);
    ListingPrints(columns, rows, tiers, b);
    BrimAt(every, natural, b, columns[0]);
    BrimAt(every, natural, b, columns[1]);
    BrimAt(every, natural, b, columns[2]);
    BrimAt(every, natural, b, columns[3]);
    LineOfFour(columns, Brim(natural, every, b, |b|));
  }

  lemma FiveLed(columns: seq<string>, rows: seq<Row>, tiers: seq<seq<string>>, every: seq<string>, b: string)
    requires |columns| == 5 && Distinct(columns) && every == Concat(tiers) && Leads(columns, every, b)
    ensures
      var n := Natural(columns, rows);
      ListingLine(columns, rows, tiers) <= MAX_LINE
      <==> 14 + AtBrim(every, n, b, columns[0]) + AtBrim(every, n, b, columns[1]) + AtBrim(every, n, b, columns[2])
           + AtBrim(every, n, b, columns[3]) + AtBrim(every, n, b, columns[4]) <= MAX_LINE
  {
    var natural := Natural(columns, rows);
    ListingPrints(columns, rows, tiers, b);
    forall i | 0 <= i < 5
      ensures columns[i] in Brim(natural, every, b, |b|)
      ensures Brim(natural, every, b, |b|)[columns[i]] == AtBrim(every, natural, b, columns[i])
    {
      BrimAt(every, natural, b, columns[i]);
    }
    LineOfFive(columns, Brim(natural, every, b, |b|));
  }

  /** `b` comes first of all that can give, and no header of the table is longer. */
  lemma LeadsFirst(columns: seq<string>, every: seq<string>, b: string)
    requires b in columns && every != [] && every[0] == b && LAST_FLOOR < |b| <= MIN_CELL
    requires forall c :: c in columns && c in every ==> |c| <= |b|
    ensures Leads(columns, every, b) && Rank(every, b) == 0
  {
  }

  /** `b` is the one column of the table that can give way. */
  lemma LeadsAlone(columns: seq<string>, every: seq<string>, b: string)
    requires b in columns && b in every && LAST_FLOOR < |b| <= MIN_CELL
    requires forall c :: c in columns && c in every ==> c == b
    ensures Leads(columns, every, b)
  {
  }

  // ----- the object screens

  const OBJECT_TIERS := [["object_name", "owner", "grantee"], ["object_type", "table_name"]]
  const OBJECT_EVERY := ["object_name", "owner", "grantee", "object_type", "table_name"]

  const OBJECTS := ["object_type", "object_name", "status"]
  const INCOMING := ["owner", "object_type", "object_name", "privilege", "status"]
  const OUTGOING := ["object_type", "object_name", "grantee", "privilege", "status"]
  const TYPE_COUNTS := ["object_type", "count"]
  const TABLE_COUNTS := ["table_name", "missing", "extra", "changed"]

  lemma ObjectEvery()
    ensures Concat(OBJECT_TIERS) == OBJECT_EVERY
  {
    assert Concat(OBJECT_TIERS[1..][1..]) == [];
  }

  lemma NeverGives(c: string)
    requires c != "" && c[0] != 'o' && c[0] != 'g' && c[0] != 't'
    ensures c !in OBJECT_EVERY
  {
    assert OBJECT_EVERY[0][0] == 'o' && OBJECT_EVERY[1][0] == 'o' && OBJECT_EVERY[2][0] == 'g';
    assert OBJECT_EVERY[3][0] == 'o' && OBJECT_EVERY[4][0] == 't';
  }

  lemma MayGive()
    ensures OBJECT_EVERY[0] == "object_name" && "object_name" in OBJECT_EVERY && "owner" in OBJECT_EVERY
    ensures "grantee" in OBJECT_EVERY && "object_type" in OBJECT_EVERY && "table_name" in OBJECT_EVERY
  {
    assert OBJECT_EVERY[1] == "owner" && OBJECT_EVERY[2] == "grantee";
    assert OBJECT_EVERY[3] == "object_type" && OBJECT_EVERY[4] == "table_name";
  }

  lemma GrantColumns(who: string)
    requires who == "owner" || who == "grantee"
    ensures "object_name" in OBJECT_EVERY && "object_type" in OBJECT_EVERY && who in OBJECT_EVERY
    ensures "privilege" !in OBJECT_EVERY && "status" !in OBJECT_EVERY && OBJECT_EVERY[0] == "object_name"
    ensures |"object_name"| == 11 && |"object_type"| == 11 && |who| <= 11
    ensures Distinct(INCOMING) && Distinct(OUTGOING)
  {
    MayGive();
    NeverGives("privilege");
    NeverGives("status");
  }

  lemma GrantBrims(
    n: Widths, every: seq<string>, name: string, kind: string, who: string, privilege: string, status: string)
    requires name in every && kind in every && who in every && privilege !in every && status !in every
    requires name in n && kind in n && who in n && privilege in n && status in n
    requires |name| == 11 && Rank(every, name) == 0 && n[name] >= 11 && n[kind] >= 11
    ensures AtBrim(every, n, name, name) == 11 && AtBrim(every, n, name, kind) == 11
    ensures AtBrim(every, n, name, who) == Min(n[who], 11)
    ensures AtBrim(every, n, name, privilege) == n[privilege] && AtBrim(every, n, name, status) == n[status]
  {
  }

  /** A table of two names of eleven letters in its header, a shorter third, and two fixed columns. */
  lemma GrantsPrint(
    columns: seq<string>, rows: seq<Row>, tiers: seq<seq<string>>, every: seq<string>,
    name: string, kind: string, who: string, privilege: string, status: string)
    requires columns == [who, kind, name, privilege, status] || columns == [kind, name, who, privilege, status]
    requires Distinct(columns) && every == Concat(tiers) && every != [] && every[0] == name
    requires name in every && kind in every && who in every && privilege !in every && status !in every
    requires |name| == 11 && |kind| == 11 && |who| <= 11
    ensures
      var n := Natural(columns, rows);
      ListingLine(columns, rows, tiers) <= MAX_LINE <==> Min(n[who], 11) + n[privilege] + n[status] <= 42
  {
    var n := Natural(columns, rows);
    GrantsLed(columns, every, name, kind, who, privilege, status);
    FiveLed(columns, rows, tiers, every, name);
    assert n[name] >= 11 && n[kind] >= 11;
    if columns == [who, kind, name, privilege, status] {
      GrantBrims(n, every, name, kind, who, privilege, status);
    } else {
      GrantBrims(n, every, name, kind, who, privilege, status);
    }
  }

  lemma GrantsLed(
    columns: seq<string>, every: seq<string>, name: string, kind: string, who: string, privilege: string,
    status: string)
    requires columns == [who, kind, name, privilege, status] || columns == [kind, name, who, privilege, status]
    requires every != [] && every[0] == name && privilege !in every && status !in every
    requires |name| == 11 && |kind| == 11 && |who| <= 11
    ensures Leads(columns, every, name) && Rank(every, name) == 0
  {
    LeadsFirst(columns, every, name);
  }

  /** The incoming grants keep to the line exactly when owner, privilege and status, the owner
      counting for eleven at most, leave eleven characters each for the type and the name. */
  lemma IncomingPrints(rows: seq<Row>)
    ensures Distinct(INCOMING)
    ensures
      var n := Natural(INCOMING, rows);
      ListingLine(INCOMING, rows, OBJECT_TIERS) <= MAX_LINE
      <==> Min(n["owner"], 11) + n["privilege"] + n["status"] <= 42
  {
    ObjectEvery();
    GrantColumns("owner");
    GrantsPrint(INCOMING, rows, OBJECT_TIERS, OBJECT_EVERY, "object_name", "object_type", "owner", "privilege",
      "status");
  }

  /** And so do the outgoing ones, with the grantee for the owner. */
  lemma OutgoingPrints(rows: seq<Row>)
    ensures Distinct(OUTGOING)
    ensures
      var n := Natural(OUTGOING, rows);
      ListingLine(OUTGOING, rows, OBJECT_TIERS) <= MAX_LINE
      <==> Min(n["grantee"], 11) + n["privilege"] + n["status"] <= 42
  {
    ObjectEvery();
    GrantColumns("grantee");
    GrantsPrint(OUTGOING, rows, OBJECT_TIERS, OBJECT_EVERY, "object_name", "object_type", "grantee", "privilege",
      "status");
  }

  /** No column prints under its header, and what is in no tier prints whole. */
  lemma ListingAtLeast(columns: seq<string>, rows: seq<Row>, tiers: seq<seq<string>>, w: Widths)
    requires Distinct(columns) && Table(columns, w)
    requires forall c :: c in columns ==>
      w[c] <= |c| || (c !in Concat(tiers) && w[c] <= Natural(columns, rows)[c])
    ensures ListingLine(columns, rows, tiers) >= LineWidth(columns, w)
  {
    var natural, phases := Natural(columns, rows), ObjectPhases(tiers);
    ListingDrawn(columns, rows, tiers, phases, natural);
    ObjectsFit(columns, rows, tiers);
    PrintedAtLeast(columns, natural, Outcome(columns, natural, phases), w);
  }

  lemma PrintedAtLeast(columns: seq<string>, natural: Widths, r: Widths, w: Widths)
    requires Table(columns, natural) && Table(columns, r) && Table(columns, w)
    requires forall c :: c in columns ==> w[c] <= |c| || (r[c] == natural[c] && w[c] <= natural[c])
    ensures LineWidth(columns, Printed(r, Untrimmed(columns, map[]))) >= LineWidth(columns, w)
  {
    SumMono(columns, w, Printed(r, Untrimmed(columns, map[])));
  }

  lemma GrantAtLeast(
    columns: seq<string>, rows: seq<Row>, tiers: seq<seq<string>>,
    who: string, kind: string, name: string, privilege: string, status: string)
    requires columns == [who, kind, name, privilege, status] && Distinct(columns)
    requires privilege !in Concat(tiers) && status !in Concat(tiers)
    ensures
      var n := Natural(columns, rows);
      ListingLine(columns, rows, tiers) >= 14 + |who| + |kind| + |name| + n[privilege] + n[status]
  {
    var n := Natural(columns, rows);
    assert columns[0] == who && columns[1] == kind && columns[2] == name;
    assert columns[3] == privilege && columns[4] == status;
    var w: Widths := map c | c in columns :: if c == privilege || c == status then n[c] else |c|;
    ListingAtLeast(columns, rows, tiers, w);
    LineOfFive(columns, w);
  }

  /** An incoming grant prints its three headers and all of its privilege and status. */
  lemma IncomingAtLeast(rows: seq<Row>)
    ensures Distinct(INCOMING)
    ensures
      var n := Natural(INCOMING, rows);
      ListingLine(INCOMING, rows, OBJECT_TIERS) >= 41 + n["privilege"] + n["status"]
  {
    ObjectEvery();
    GrantColumns("owner");
    assert |"owner"| == 5;
    GrantAtLeast(INCOMING, rows, OBJECT_TIERS, "owner", "object_type", "object_name", "privilege", "status");
  }

  lemma NamesPrint(
    columns: seq<string>, rows: seq<Row>, tiers: seq<seq<string>>, every: seq<string>,
    name: string, kind: string, status: string)
    requires columns == [kind, name, status] && Distinct(columns) && every == Concat(tiers) && every != []
    requires every[0] == name && name in every && kind in every && status !in every
    requires |name| == 11 && |kind| == 11
    ensures ListingLine(columns, rows, tiers) <= MAX_LINE <==> Natural(columns, rows)[status] <= 48
  {
    var n := Natural(columns, rows);
    LeadsFirst(columns, every, name);
    ThreeLed(columns, rows, tiers, every, name);
    assert n[name] >= 11 && n[kind] >= 11;
  }

  lemma ObjectColumns()
    ensures Distinct(OBJECTS)
  {
    assert OBJECTS[0][7] == 't' && OBJECTS[1][7] == 'n' && OBJECTS[2][0] == 's';
  }

  /** `CHANGED OBJECTS` leaves its status forty-eight characters. */
  lemma ObjectsPrint(rows: seq<Row>)
    ensures Distinct(OBJECTS)
    ensures ListingLine(OBJECTS, rows, OBJECT_TIERS) <= MAX_LINE <==> Natural(OBJECTS, rows)["status"] <= 48
  {
    ObjectColumns();
    ObjectEvery();
    MayGive();
    NeverGives("status");
    NamesPrint(OBJECTS, rows, OBJECT_TIERS, OBJECT_EVERY, "object_name", "object_type", "status");
  }

  lemma CountPrints(
    columns: seq<string>, rows: seq<Row>, tiers: seq<seq<string>>, every: seq<string>, b: string, count: string)
    requires columns == [b, count] && Distinct(columns) && every == Concat(tiers)
    requires b in every && count !in every && LAST_FLOOR < |b| <= MIN_CELL
    ensures ListingLine(columns, rows, tiers) <= MAX_LINE <==> 5 + |b| + Natural(columns, rows)[count] <= MAX_LINE
  {
    LeadsAlone(columns, every, b);
    TwoLed(columns, rows, tiers, every, b);
    assert Natural(columns, rows)[b] >= |b|;
  }

  /** The counts by type leave the count sixty-two digits. */
  lemma TypeCountsPrint(rows: seq<Row>)
    ensures Distinct(TYPE_COUNTS)
    ensures ListingLine(TYPE_COUNTS, rows, OBJECT_TIERS) <= MAX_LINE <==> Natural(TYPE_COUNTS, rows)["count"] <= 62
  {
    ObjectEvery();
    MayGive();
    NeverGives("count");
    assert TYPE_COUNTS[0][0] == 'o' && TYPE_COUNTS[1][0] == 'c' && |"object_type"| == 11;
    CountPrints(TYPE_COUNTS, rows, OBJECT_TIERS, OBJECT_EVERY, "object_type", "count");
  }

  lemma CountsPrint(
    columns: seq<string>, rows: seq<Row>, tiers: seq<seq<string>>, every: seq<string>,
    b: string, first: string, second: string, third: string)
    requires columns == [b, first, second, third] && Distinct(columns) && every == Concat(tiers)
    requires b in every && LAST_FLOOR < |b| <= MIN_CELL
    requires first !in every && second !in every && third !in every
    ensures
      var n := Natural(columns, rows);
      ListingLine(columns, rows, tiers) <= MAX_LINE <==> 11 + |b| + n[first] + n[second] + n[third] <= MAX_LINE
  {
    LeadsAlone(columns, every, b);
    FourLed(columns, rows, tiers, every, b);
    assert Natural(columns, rows)[b] >= |b|;
  }

  lemma CountColumns()
    ensures Distinct(TABLE_COUNTS) && |"table_name"| == 10
    ensures "missing" !in OBJECT_EVERY && "extra" !in OBJECT_EVERY && "changed" !in OBJECT_EVERY
  {
    assert TABLE_COUNTS[0][0] == 't' && TABLE_COUNTS[1][0] == 'm' && TABLE_COUNTS[2][0] == 'e'
      && TABLE_COUNTS[3][0] == 'c';
    NeverGives("missing");
    NeverGives("extra");
    NeverGives("changed");
  }

  /** The counts by table leave their three numbers fifty-seven digits. */
  lemma TableCountsPrint(rows: seq<Row>)
    ensures Distinct(TABLE_COUNTS)
    ensures
      var n := Natural(TABLE_COUNTS, rows);
      ListingLine(TABLE_COUNTS, rows, OBJECT_TIERS) <= MAX_LINE <==> n["missing"] + n["extra"] + n["changed"] <= 57
  {
    ObjectEvery();
    MayGive();
    CountColumns();
    CountsPrint(TABLE_COUNTS, rows, OBJECT_TIERS, OBJECT_EVERY, "table_name", "missing", "extra", "changed");
  }
}
