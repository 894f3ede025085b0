/**
 The object changes and the grants of the `diff` screen, from what was found to the printed line.
 A privilege is whatever a grant script has between its verb and its ON, the column list of a
 column privilege included.
 */
module GrantScreen {
  import opened Prelude
  import opened ColumnFitter
  import opened DiffTables
  import opened PrintedTables
  import opened ListingScreens
  import DataBlock
  import Selection

  datatype Object = Object(kind: string, name: string, status: DataBlock.Status)

  /** The privileges one side has and the other has not. */
  datatype Grant = Grant(
    owner: string, grantee: string, kind: string, name: string, privileges: seq<string>, status: DataBlock.Status)

  function PrivilegeLabel(grant: Grant): string {
    if grant.privileges == [] then ""
    else if |grant.privileges| == 1 then grant.privileges[0]
    else grant.privileges[0] + " + " + Selection.Numeral(|grant.privileges| - 1)
  }

  function ObjectRow(): Object -> Row {
    (o: Object) => map[
      "object_type" := Some(o.kind), "object_name" := Some(o.name), "status" := Some(DataBlock.StatusText(o.status))]
  }

  function IncomingRow(): Grant -> Row {
    (g: Grant) => map[
      "owner" := Some(g.owner), "object_type" := Some(g.kind), "object_name" := Some(g.name),
      "privilege" := Some(PrivilegeLabel(g)), "status" := Some(DataBlock.StatusText(g.status))]
  }

  function OutgoingRow(): Grant -> Row {
    (g: Grant) => map[
      "object_type" := Some(g.kind), "object_name" := Some(g.name), "grantee" := Some(g.grantee),
      "privilege" := Some(PrivilegeLabel(g)), "status" := Some(DataBlock.StatusText(g.status))]
  }

  /** The first privilege, and how many more there are. */
  lemma PrivilegeLabelIs(grant: Grant)
    requires grant.privileges != []
    ensures |grant.privileges| == 1 ==> PrivilegeLabel(grant) == grant.privileges[0]
    ensures |grant.privileges| > 1 ==> exists more ::
      && Selection.AllDigits(more) && Selection.Value(more) == |grant.privileges| - 1
      && PrivilegeLabel(grant) == grant.privileges[0] + " + " + more
  {
    if |grant.privileges| > 1 {
      Selection.NumeralValue(|grant.privileges| - 1);
    }
  }

  lemma ObjectCells(o: Object)
    ensures CellOf(ObjectRow()(o), "object_type") == Some(o.kind)
    ensures CellOf(ObjectRow()(o), "object_name") == Some(o.name)
    ensures CellOf(ObjectRow()(o), "status") == Some(DataBlock.StatusText(o.status))
  {
    assert "object_type"[7] == 't' && "object_name"[7] == 'n' && "status"[0] == 's';
  }

  lemma StatusLength(status: DataBlock.Status)
    ensures |DataBlock.StatusText(status)| <= 7 && |"status"| == 6
  {
    assert |"MISSING"| == 7 && |"CHANGED"| == 7 && |"EXTRA"| == 5;
  }

  lemma MappedAtMost<T>(header: nat, items: seq<T>, row: T -> Row, column: string, bound: nat)
    requires header <= bound && forall x :: x in items ==> |Text(CellOf(row(x), column))| <= bound
    ensures NaturalWidth(header, Mapped(items, row), column) <= bound
  {
    forall r | r in Mapped(items, row) ensures |Text(CellOf(r, column))| <= bound {
      var i :| 0 <= i < |items| && Mapped(items, row)[i] == r;
      assert items[i] in items;
    }
    NaturalAtMost(header, Mapped(items, row), column, bound);
  }

  /** The object listing keeps to the line whatever its types and names. */
  lemma ObjectScreenFits(objects: seq<Object>)
    ensures Distinct(OBJECTS) && ListingLine(OBJECTS, Mapped(objects, ObjectRow()), OBJECT_TIERS) <= MAX_LINE
  {
    ObjectsPrint(Mapped(objects, ObjectRow()));
    forall o | o in objects ensures |Text(CellOf(ObjectRow()(o), "status"))| <= 7 { StatusLength(o.status); }
    assert |"status"| == 6;
    MappedAtMost(6, objects, ObjectRow(), "status", 7);
  }

  lemma IncomingCells(g: Grant)
    ensures CellOf(IncomingRow()(g), "owner") == Some(g.owner)
    ensures CellOf(IncomingRow()(g), "object_type") == Some(g.kind)
    ensures CellOf(IncomingRow()(g), "object_name") == Some(g.name)
    ensures CellOf(IncomingRow()(g), "privilege") == Some(PrivilegeLabel(g))
    ensures CellOf(IncomingRow()(g), "status") == Some(DataBlock.StatusText(g.status))
  {
  }

  lemma OutgoingCells(g: Grant)
    ensures CellOf(OutgoingRow()(g), "object_type") == Some(g.kind)
    ensures CellOf(OutgoingRow()(g), "object_name") == Some(g.name)
    ensures CellOf(OutgoingRow()(g), "grantee") == Some(g.grantee)
    ensures CellOf(OutgoingRow()(g), "privilege") == Some(PrivilegeLabel(g))
    ensures CellOf(OutgoingRow()(g), "status") == Some(DataBlock.StatusText(g.status))
  {
  }

  /** The widths of the two columns of a grant that do not give way. */
  lemma FixedWidths(grants: seq<Grant>, row: Grant -> Row, bound: nat)
    requires bound >= 9
    requires forall g :: g in grants ==>
      |Text(CellOf(row(g), "privilege"))| <= bound && CellOf(row(g), "status") == Some(DataBlock.StatusText(g.status))
    ensures NaturalWidth(9, Mapped(grants, row), "privilege") <= bound
    ensures NaturalWidth(6, Mapped(grants, row), "status") <= 7
  {
    forall g | g in grants ensures |Text(CellOf(row(g), "status"))| <= 7 { StatusLength(g.status); }
    MappedAtMost(6, grants, row, "status", 7);
    MappedAtMost(9, grants, row, "privilege", bound);
  }

  lemma HeadersOfGrants()
    ensures |"status"| == 6 && |"privilege"| == 9
  {
  }

  /** Privilege labels of at most twenty-four characters leave room for every incoming grant. */
  lemma IncomingScreenFits(grants: seq<Grant>)
    requires forall g :: g in grants ==> |PrivilegeLabel(g)| <= 24
    ensures Distinct(INCOMING) && ListingLine(INCOMING, Mapped(grants, IncomingRow()), OBJECT_TIERS) <= MAX_LINE
  {
    forall g | g in grants
      ensures |Text(CellOf(IncomingRow()(g), "privilege"))| <= 24
      ensures CellOf(IncomingRow()(g), "status") == Some(DataBlock.StatusText(g.status))
    {
      IncomingCells(g);
    }
    FixedWidths(grants, IncomingRow(), 24);
    HeadersOfGrants();
    IncomingPrints(Mapped(grants, IncomingRow()));
  }

  /** And for every outgoing one. */
  lemma OutgoingScreenFits(grants: seq<Grant>)
    requires forall g :: g in grants ==> |PrivilegeLabel(g)| <= 24
    ensures Distinct(OUTGOING) && ListingLine(OUTGOING, Mapped(grants, OutgoingRow()), OBJECT_TIERS) <= MAX_LINE
  {
    forall g | g in grants
      ensures |Text(CellOf(OutgoingRow()(g), "privilege"))| <= 24
      ensures CellOf(OutgoingRow()(g), "status") == Some(DataBlock.StatusText(g.status))
    {
      OutgoingCells(g);
    }
    FixedWidths(grants, OutgoingRow(), 24);
    HeadersOfGrants();
    OutgoingPrints(Mapped(grants, OutgoingRow()));
  }

  /** A missing grant whose privilege has thirty-three characters is too long for a screen of
      eighty columns, whatever its names. */
  lemma LongPrivilegeOverflows(g: Grant)
    requires |PrivilegeLabel(g)| >= 33 && g.status.Missing?
    ensures Distinct(INCOMING) && ListingLine(INCOMING, Mapped([g], IncomingRow()), OBJECT_TIERS) > 80
  {
    var rows := Mapped([g], IncomingRow());
    IncomingCells(g);
    assert rows[0] == IncomingRow()(g) && rows[0] in rows && |"MISSING"| == 7;
    LongRowOverflows(rows, rows[0]);
  }

  lemma LongRowOverflows(rows: seq<Row>, row: Row)
    requires row in rows && |Text(CellOf(row, "privilege"))| >= 33 && |Text(CellOf(row, "status"))| >= 7
    ensures Distinct(INCOMING) && ListingLine(INCOMING, rows, OBJECT_TIERS) > 80
  {
    IncomingAtLeast(rows);
  }

  const COLUMN_PRIVILEGE := "UPDATE (\"EMERGENCY_CONTACT_PHONE\")"

  lemma ColumnGrant() returns (g: Grant)
    ensures g.privileges == [COLUMN_PRIVILEGE] && g.status.Missing? && |PrivilegeLabel(g)| == 34
  {
    g := Grant("HR", "APP", "TABLE", "EMPLOYEES", [COLUMN_PRIVILEGE], DataBlock.Missing);
  }

  /** The documented cap is not absolute: a grant of a column privilege does not fit. */
  lemma CapCanFail()
    ensures Distinct(INCOMING)
    ensures exists g: Grant ::
      g.privileges == [COLUMN_PRIVILEGE] && ListingLine(INCOMING, Mapped([g], IncomingRow()), OBJECT_TIERS) > 80
  {
    var g := ColumnGrant();
    LongPrivilegeOverflows(g);
  }
}
