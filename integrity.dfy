/** How the tables and the allowance computation fit together. Deleting a
    chore or a child never touches the records table (the delete methods may
    modify only their own table), so records can outlive the chore they name;
    the computation then shows such a record as an "Unknown Chore" line. */
module Integrity {
  import opened Types
  import opened Http
  import opened Allowances
  import Chores
  import Children
  import Records

  /** A full scan of a table: its values, each at least once, in storage order. */
  ghost predicate IsScanOf<T(!new)>(scan: seq<T>, table: map<string, T>)
  {
    forall x :: x in scan <==> x in table.Values
  }

  /** Once the chore `id` is gone from a valid chores table (as
      `ChoreTable.Delete` leaves it), a scan of the table no longer has it,
      and every child who had completed it gets an "Unknown Chore" line for it. */
  lemma DeletedChoreReadsAsUnknown(t: Chores.ChoreTable, id: string, scan: seq<Chore>,
                                   child: Child, records: seq<ChoreRecord>, r: ChoreRecord,
                                   month: string, year: int)
    requires t.Valid() && id !in t.items && IsScanOf(scan, t.items)
    requires r in records && r.childId == child.id && r.choreId == id
    ensures Detail(id, UnknownChore, 0, Occurrences(records, child.id, id), 0)
              in AllowanceFor(child, ChoreMap(scan), records, month, year).records
  {
    forall c | c in scan
      ensures c.id != id
    {
      assert c in t.items.Values;
      var k :| k in t.items && t.items[k] == c;
    }
    DanglingChoreIsUnknown(child, scan, records, r, month, year);
  }

  /** A scan of a valid chores table, whose prices are all positive, yields
      non-negative allowances. */
  lemma StoredPricesGiveNonNegativeAmounts(t: Chores.ChoreTable, scan: seq<Chore>, child: Child,
                                           records: seq<ChoreRecord>, month: string, year: int)
    requires t.Valid() && IsScanOf(scan, t.items)
    ensures AllowanceFor(child, ChoreMap(scan), records, month, year).amount >= 0
  {
    forall c | c in scan
      ensures c.price > 0
    {
      assert c in t.items.Values;
      var k :| k in t.items && t.items[k] == c;
    }
    AmountNonNegative(child, scan, records, month, year);
  }

  /** The allowances computed from a scan of a valid children table name
      stored children: each allowance's child id is a key of the table, and
      the child stored under it has the allowance's child name. */
  lemma AllowancesNameStoredChildren(t: Children.ChildTable, scan: seq<Child>, chores: seq<Chore>,
                                     records: seq<ChoreRecord>, month: string, year: int)
    requires t.Valid() && IsScanOf(scan, t.items)
    ensures forall a :: a in Compute(scan, chores, records, month, year) ==>
              a.childId in t.items && t.items[a.childId].name == a.childName
  {
    var all := Compute(scan, chores, records, month, year);
    forall a | a in all
      ensures a.childId in t.items && t.items[a.childId].name == a.childName
    {
      var i :| 0 <= i < |all| && all[i] == a;
      var c := scan[i];
      assert c in t.items.Values;
      var k :| k in t.items && t.items[k] == c;
    }
  }

  /** A chores table holding Dishes (100) and Laundry (50). */
  method TwoChores() returns (chores: Chores.ChoreTable)
    ensures fresh(chores) && chores.Valid()
    ensures chores.items == map["h1" := Chore("h1", "Dishes", 100, "t0", "t0"),
                                "h2" := Chore("h2", "Laundry", 50, "t0", "t0")]
  {
    chores := new Chores.ChoreTable();
    var dishesBody := map["name" := JString("Dishes"), "price" := JNumber(100)];
    assert Chores.ChoreFields(Decoded(dishesBody)) == Success(("Dishes", 100));
    var dishes := chores.Create(Decoded(dishesBody), "h1", "t0");
    var laundryBody := map["name" := JString("Laundry"), "price" := JNumber(50)];
    assert Chores.ChoreFields(Decoded(laundryBody)) == Success(("Laundry", 50));
    var laundry := chores.Create(Decoded(laundryBody), "h2", "t0");
  }

  /** A children table holding Alice. */
  method OneChild() returns (children: Children.ChildTable)
    ensures fresh(children) && children.Valid()
    ensures children.items == map["c1" := Child("c1", "Alice", "t0", "t0")]
  {
    children := new Children.ChildTable();
    var aliceBody := map["name" := JString("Alice")];
    assert Children.ChildName(Decoded(aliceBody)) == Success("Alice");
    var alice := children.Create(Decoded(aliceBody), "c1", "t0");
  }

  /** A records table holding one completion of chore h1 by child c1, added
      through POST /records, which finds both in their tables. */
  method OneCompletion(chores: Chores.ChoreTable, children: Children.ChildTable) returns (records: Records.RecordTable)
    requires "h1" in chores.items && "c1" in children.items
    ensures fresh(records) && records.Valid()
    ensures records.items == map["r1" := ChoreRecord("r1", "h1", "c1", "2024-03-05", "t1", "t1")]
  {
    records := new Records.RecordTable();
    var body := map["choreId" := JString("h1"), "childId" := JString("c1"), "date" := JString("2024-03-05")];
    assert RequiredString(body, "choreId") == Some("h1");
    assert RequiredString(body, "childId") == Some("c1");
    assert RequiredString(body, "date") == Some("2024-03-05");
    assert IsIsoDate("2024-03-05");
    var done := records.Create(Decoded(body), chores, children, "r1", "t1");
  }

  /** A chore is created, a child completes it, the chore is deleted: the
      record stays in the records table, and the child's allowance, computed
      from the tables as they are after the delete, shows it as an unknown
      chore worth nothing. */
  method DeleteChoreKeepsItsRecords() returns (remaining: map<string, ChoreRecord>, allowances: seq<Allowance>)
    ensures remaining == map["r1" := ChoreRecord("r1", "h1", "c1", "2024-03-05", "t1", "t1")]
    ensures allowances == [Allowance("c1", "Alice", "March", 2024, 0, [Detail("h1", UnknownChore, 0, 1, 0)])]
  {
    var chores := TwoChores();
    var children := OneChild();
    var records := OneCompletion(chores, children);

    var deleted := chores.Delete(Some("h1"));
    assert deleted == Success(Chores.ChoreDeleted("h1"));
    assert "h1" !in chores.items;

    remaining := records.items;
    var r1 := remaining["r1"];
    var child, laundryChore := children.items["c1"], chores.items["h2"];
    allowances := CalculateAllowances([child], [laundryChore], [r1], "March", 2024);
    UnknownLineAfterDelete(child, laundryChore, r1, allowances);
  }

  lemma UnknownLineAfterDelete(child: Child, laundry: Chore, r1: ChoreRecord, allowances: seq<Allowance>)
    requires child == Child("c1", "Alice", "t0", "t0") && laundry.id == "h2"
    requires r1 == ChoreRecord("r1", "h1", "c1", "2024-03-05", "t1", "t1")
    requires allowances == Compute([child], [laundry], [r1], "March", 2024)
    ensures allowances == [Allowance("c1", "Alice", "March", 2024, 0, [Detail("h1", UnknownChore, 0, 1, 0)])]
  {
    var rs := [r1];
    assert rs[..0] == [];
    assert RecordsOf(rs, "c1") == rs;
    assert GroupKeys(rs) == ["h1"];
    assert ByChore(rs, "h1") == rs;
    assert ChoreMap([laundry]) == map["h2" := laundry];
    var line := Detail("h1", UnknownChore, 0, 1, 0);
    assert Details(ChoreMap([laundry]), ["h1"], rs) == [line];
    assert [line][..0] == [];
    assert SumSubtotals([line]) == 0;
  }
}
