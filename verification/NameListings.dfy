/**
 The listings that give way by the name of a component, a file or a related object: an
 application's summary and pages, the static and the restored files, the relations and the links
 of a search.
 */
module NameListings {
  import opened Prelude
  import opened ColumnFitter
  import opened DiffTables
  import opened PrintedTables
  import opened PrintedBlocks
  import opened ListingScreens

  const COMPONENT_TIERS := [["name"], ["property"], ["type"]]
  const RELATION_TIERS := [["name"], ["object"]]
  const LINK_TIERS := [["component"]]

  const SUMMARY := ["type", "name", "missing", "extra", "changed"]
  const PAGE := ["type", "name", "status", "property"]
  const FILES := ["name", "size [kb]", "status"]
  const RESTORED := ["file", "status"]
  const RELATIONS := ["object", "relation", "type", "name"]
  const LINKS := ["from", "to", "src_type", "component", "flag"]

  lemma OneTier(a: seq<string>)
    ensures Concat([a]) == a
  {
    assert Concat([a][1..]) == [];
  }

  lemma TwoTiers(a: seq<string>, b: seq<string>)
    ensures Concat([a, b]) == a + b
  {
    OneTier(b);
    assert [a, b][1..] == [b];
  }

  lemma ThreeTiers(a: string, b: string, c: string)
    ensures Concat([[a], [b], [c]]) == [a, b, c]
  {
    TwoTiers([b], [c]);
    assert [[a], [b], [c]][1..] == [[b], [c]];
  }

  // ----- the pages of an application

  lemma PageRanks(every: seq<string>, kind: string, name: string, property: string)
    requires every == [name, property, kind] && Distinct(every)
    ensures Rank(every, name) == 0 && Rank(every, property) == 1 && Rank(every, kind) == 2
    ensures name in every && property in every && kind in every
  {
    RankAt(every, 0);
    RankAt(every, 1);
    RankAt(every, 2);
  }

  lemma PageBrims(n: Widths, every: seq<string>, kind: string, name: string, status: string, property: string)
    requires every == [name, property, kind] && Distinct(every) && status !in every
    requires kind in n && name in n && status in n && property in n && |property| == 8 && n[property] >= 8
    ensures AtBrim(every, n, property, kind) == Min(n[kind], 8) && AtBrim(every, n, property, name) == Min(n[name], 7)
    ensures AtBrim(every, n, property, status) == n[status] && AtBrim(every, n, property, property) == 8
  {
    PageRanks(every, kind, name, property);
  }

  lemma PageLeads(
    columns: seq<string>, every: seq<string>, kind: string, name: string, status: string, property: string)
    requires columns == [kind, name, status, property] && Distinct(columns) && every == [name, property, kind]
    requires |kind| == 4 && |name| == 4 && |property| == 8
    ensures Leads(columns, every, property)
  {
    assert columns[0] == kind && columns[1] == name && columns[2] == status && columns[3] == property;
    assert property == every[1];
  }

  lemma PageLed(
    columns: seq<string>, rows: seq<Row>, tiers: seq<seq<string>>, kind: string, name: string, status: string,
    property: string)
    requires columns == [kind, name, status, property] && Distinct(columns) && tiers == [[name], [property], [kind]]
    requires |kind| == 4 && |name| == 4 && |property| == 8
    ensures
      var n := Natural(columns, rows);
      ListingLine(columns, rows, tiers) <= MAX_LINE <==> 19 + Min(n[kind], 8) + Min(n[name], 7) + n[status] <= MAX_LINE
  {
    var every, n := [name, property, kind], Natural(columns, rows);
    ThreeTiers(name, property, kind);
    assert columns[0] == kind && columns[1] == name && columns[2] == status && columns[3] == property;
    PageRanks(every, kind, name, property);
    PageLeads(columns, every, kind, name, status, property);
    FourLed(columns, rows, tiers, every, property);
    assert n[property] >= 8;
    PageBrims(n, every, kind, name, status, property);
  }

  lemma PageColumns()
    ensures Distinct(PAGE) && |"type"| == 4 && |"name"| == 4 && |"property"| == 8
  {
    assert PAGE[0][0] == 't' && PAGE[1][0] == 'n' && PAGE[2][0] == 's' && PAGE[3][0] == 'p';
  }

  /** A page's listing leaves its status forty-four characters at the least. */
  lemma PagePrints(rows: seq<Row>)
    ensures Distinct(PAGE)
    ensures
      var n := Natural(PAGE, rows);
      ListingLine(PAGE, rows, COMPONENT_TIERS) <= MAX_LINE
      <==> Min(n["type"], 8) + Min(n["name"], 7) + n["status"] <= 59
  {
    PageColumns();
    PageLed(PAGE, rows, COMPONENT_TIERS, "type", "name", "status", "property");
  }

  // ----- the relations and links of a search

  lemma RelationLed(
    columns: seq<string>, rows: seq<Row>, tiers: seq<seq<string>>, used: string, relation: string, kind: string,
    name: string)
    requires columns == [used, relation, kind, name] && Distinct(columns) && tiers == [[name], [used]]
    requires |used| == 6 && |name| == 4
    ensures
      var n := Natural(columns, rows);
      ListingLine(columns, rows, tiers) <= MAX_LINE <==> 17 + n[relation] + n[kind] + Min(n[name], 5) <= MAX_LINE
  {
    var every, n := [name, used], Natural(columns, rows);
    TwoTiers([name], [used]);
    assert columns[0] == used && columns[1] == relation && columns[2] == kind && columns[3] == name;
    assert used in every && relation !in every && kind !in every;
    RankAt(every, 0);
    RankAt(every, 1);
    FourLed(columns, rows, tiers, every, used);
    assert n[used] >= 6;
  }

  lemma RelationColumns()
    ensures Distinct(RELATIONS) && |"object"| == 6 && |"name"| == 4
  {
    assert RELATIONS[0][0] == 'o' && RELATIONS[1][0] == 'r' && RELATIONS[2][0] == 't' && RELATIONS[3][0] == 'n';
  }

  /** The relations keep to the line exactly when relation and type leave six characters for the
      object and five for the name, or what it needs. */
  lemma RelationsPrint(rows: seq<Row>)
    ensures Distinct(RELATIONS)
    ensures
      var n := Natural(RELATIONS, rows);
      ListingLine(RELATIONS, rows, RELATION_TIERS) <= MAX_LINE <==> n["relation"] + n["type"] + Min(n["name"], 5) <= 61
  {
    RelationColumns();
    RelationLed(RELATIONS, rows, RELATION_TIERS, "object", "relation", "type", "name");
  }

  lemma LinkLed(
    columns: seq<string>, rows: seq<Row>, tiers: seq<seq<string>>, a: string, b: string, c: string, component: string,
    d: string)
    requires columns == [a, b, c, component, d] && Distinct(columns) && tiers == [[component]] && |component| == 9
    ensures
      var n := Natural(columns, rows);
      ListingLine(columns, rows, tiers) <= MAX_LINE <==> 23 + n[a] + n[b] + n[c] + n[d] <= MAX_LINE
  {
    var every, n := [component], Natural(columns, rows);
    OneTier(every);
    assert columns[0] == a && columns[1] == b && columns[2] == c && columns[3] == component && columns[4] == d;
    LeadsAlone(columns, every, component);
    FiveLed(columns, rows, tiers, every, component);
    assert n[component] >= 9;
  }

  lemma LinkColumns()
    ensures Distinct(LINKS) && |"component"| == 9
  {
    assert LINKS[0] == "from" && LINKS[0][1] == 'r' && LINKS[4][1] == 'l' && LINKS[1][0] == 't';
    assert LINKS[2][0] == 's' && LINKS[3][0] == 'c' && LINKS[4][0] == 'f' && LINKS[0][0] == 'f';
  }

  lemma LinksPrint(rows: seq<Row>)
    ensures Distinct(LINKS)
    ensures
      var n := Natural(LINKS, rows);
      ListingLine(LINKS, rows, LINK_TIERS) <= MAX_LINE <==> n["from"] + n["to"] + n["src_type"] + n["flag"] <= 55
  {
    LinkColumns();
    LinkLed(LINKS, rows, LINK_TIERS, "from", "to", "src_type", "component", "flag");
  }

  // ----- listings whose flexible headers are short

  lemma Squeezed(columns: seq<string>, rows: seq<Row>, tiers: seq<seq<string>>, c: string)
    requires c in columns
    ensures c in SqueezedObjects(columns, rows, tiers)
    ensures SqueezedObjects(columns, rows, tiers)[c]
         == if c in Concat(tiers) then Min(Natural(columns, rows)[c], LAST_FLOOR) else Natural(columns, rows)[c]
  {
  }

  lemma FilePrints(columns: seq<string>, rows: seq<Row>, tiers: seq<seq<string>>, file: string, status: string)
    requires columns == [file, status] && Distinct(columns) && tiers == [[file]] && |file| == 4
    ensures ListingLine(columns, rows, tiers) <= MAX_LINE <==> 9 + Natural(columns, rows)[status] <= MAX_LINE
  {
    OneTier([file]);
    assert columns[0] == file && columns[1] == status;
    PlainListingPrints(columns, rows, tiers);
    Squeezed(columns, rows, tiers, file);
    Squeezed(columns, rows, tiers, status);
    LineOfTwo(columns, SqueezedObjects(columns, rows, tiers));
    assert Natural(columns, rows)[file] >= 4;
  }

  lemma SizedFilePrints(
    columns: seq<string>, rows: seq<Row>, tiers: seq<seq<string>>, file: string, size: string, status: string)
    requires columns == [file, size, status] && Distinct(columns) && tiers == [[file]] && |file| == 4
    ensures
      var n := Natural(columns, rows);
      ListingLine(columns, rows, tiers) <= MAX_LINE <==> 12 + n[size] + n[status] <= MAX_LINE
  {
    OneTier([file]);
    assert columns[0] == file && columns[1] == size && columns[2] == status;
    PlainListingPrints(columns, rows, tiers);
    Squeezed(columns, rows, tiers, file);
    Squeezed(columns, rows, tiers, size);
    Squeezed(columns, rows, tiers, status);
    LineOfThree(columns, SqueezedObjects(columns, rows, tiers));
    assert Natural(columns, rows)[file] >= 4;
  }

  lemma FileColumns()
    ensures Distinct(FILES) && Distinct(RESTORED) && |"name"| == 4 && |"file"| == 4
  {
    assert FILES[0][0] == 'n' && FILES[1][1] == 'i' && FILES[2][1] == 't' && RESTORED[0][0] == 'f'
      && RESTORED[1][0] == 's';
    assert FILES[1][0] == 's' && FILES[2][0] == 's';
  }

  /** The files of a workspace leave size and status the line less four for the name. */
  lemma FilesPrint(rows: seq<Row>)
    ensures Distinct(FILES)
    ensures
      var n := Natural(FILES, rows);
      ListingLine(FILES, rows, [["name"]]) <= MAX_LINE <==> n["size [kb]"] + n["status"] <= 66
  {
    FileColumns();
    SizedFilePrints(FILES, rows, [["name"]], "name", "size [kb]", "status");
  }

  /** The restored files leave the status as much. */
  lemma RestoredPrints(rows: seq<Row>)
    ensures Distinct(RESTORED)
    ensures ListingLine(RESTORED, rows, [["file"]]) <= MAX_LINE <==> Natural(RESTORED, rows)["status"] <= 69
  {
    FileColumns();
    FilePrints(RESTORED, rows, [["file"]], "file", "status");
  }

  lemma SummaryLine(
    columns: seq<string>, rows: seq<Row>, tiers: seq<seq<string>>, property: string,
    kind: string, name: string, first: string, second: string, third: string)
    requires columns == [kind, name, first, second, third] && Distinct(columns) && tiers == [[name], [property], [kind]]
    requires |kind| == 4 && |name| == 4 && property !in columns
    ensures
      var n := Natural(columns, rows);
      ListingLine(columns, rows, tiers) <= MAX_LINE <==> 22 + n[first] + n[second] + n[third] <= MAX_LINE
  {
    ThreeTiers(name, property, kind);
    assert columns[0] == kind && columns[1] == name && columns[2] == first && columns[3] == second
      && columns[4] == third;
    PlainListingPrints(columns, rows, tiers);
    forall i | 0 <= i < 5
      ensures columns[i] in SqueezedObjects(columns, rows, tiers)
      ensures SqueezedObjects(columns, rows, tiers)[columns[i]] ==
        if i < 2 then 4 else Natural(columns, rows)[columns[i]]
    {
      Squeezed(columns, rows, tiers, columns[i]);
    }
    LineOfFive(columns, SqueezedObjects(columns, rows, tiers));
  }

  lemma SummaryColumns()
    ensures Distinct(SUMMARY) && "property" !in SUMMARY && |"type"| == 4 && |"name"| == 4
  {
    assert SUMMARY[0][0] == 't' && SUMMARY[1][0] == 'n' && SUMMARY[2][0] == 'm' && SUMMARY[3][0] == 'e'
      && SUMMARY[4][0] == 'c';
    assert "property"[0] == 'p';
  }

  /** An application's summary leaves its counts fifty-six digits. */
  lemma SummaryPrints(rows: seq<Row>)
    ensures Distinct(SUMMARY)
    ensures
      var n := Natural(SUMMARY, rows);
      ListingLine(SUMMARY, rows, COMPONENT_TIERS) <= MAX_LINE <==> n["missing"] + n["extra"] + n["changed"] <= 56
  {
    SummaryColumns();
    SummaryLine(SUMMARY, rows, COMPONENT_TIERS, "property", "type", "name", "missing", "extra", "changed");
  }
}
