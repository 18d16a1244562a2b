/** Worked examples of the allowance computation: one child, one chore,
    one or two completions, a completion of an unknown chore, no children,
    and a child with no completions. */
module Scenarios {
  import opened Types
  import opened Allowances

  const Alice := Child("c1", "Alice", "t0", "t0")
  const Bob := Child("c2", "Bob", "t0", "t0")
  const Dishes := Chore("h1", "Dishes", 100, "t0", "t0")

  function Done(id: string, choreId: string, childId: string): (rec: ChoreRecord)
  {
    ChoreRecord(id, choreId, childId, "2024-03-05", "t1", "t1")
  }

  /** One completion of a 100-yen chore earns 100. */
  lemma OneCompletion()
    ensures Compute([Alice], [Dishes], [Done("r1", "h1", "c1")], "March", 2024)
              == [Allowance("c1", "Alice", "March", 2024, 100, [Detail("h1", "Dishes", 100, 1, 100)])]
  {
    var rs := [Done("r1", "h1", "c1")];
    assert rs[..0] == [];
    assert RecordsOf(rs, "c1") == rs;
    assert GroupKeys(rs) == ["h1"];
    assert ByChore(rs, "h1") == rs;
    assert ChoreMap([Dishes]) == map["h1" := Dishes];
    var line := Detail("h1", "Dishes", 100, 1, 100);
    assert Details(ChoreMap([Dishes]), ["h1"], rs) == [line];
    assert [line][..0] == [];
    assert SumSubtotals([line]) == 100;
  }

  /** The same chore done twice on the same day counts twice. */
  lemma TwoCompletions()
    ensures var a := Compute([Alice], [Dishes], [Done("r1", "h1", "c1"), Done("r2", "h1", "c1")], "March", 2024);
      |a| == 1 && a[0].amount == 200 && a[0].records == [Detail("h1", "Dishes", 100, 2, 200)]
  {
    var rs := [Done("r1", "h1", "c1"), Done("r2", "h1", "c1")];
    assert rs[..1] == [rs[0]] && rs[..1][..0] == [];
    assert RecordsOf(rs, "c1") == rs;
    assert GroupKeys(rs[..1]) == ["h1"];
    assert GroupKeys(rs) == ["h1"];
    assert ByChore(rs[..1], "h1") == [rs[0]];
    assert ByChore(rs, "h1") == rs;
    assert ChoreMap([Dishes]) == map["h1" := Dishes];
    var line := Detail("h1", "Dishes", 100, 2, 200);
    assert Details(ChoreMap([Dishes]), ["h1"], rs) == [line];
    assert [line][..0] == [];
    assert SumSubtotals([line]) == 200;
  }

  /** A completion of a chore that is not in the list earns nothing. */
  lemma UnknownChoreCompletion()
    ensures var a := Compute([Alice], [Dishes], [Done("r1", "h9", "c1")], "March", 2024);
      |a| == 1 && a[0].amount == 0 && a[0].records == [Detail("h9", UnknownChore, 0, 1, 0)]
  {
    var rs := [Done("r1", "h9", "c1")];
    assert rs[..0] == [];
    assert RecordsOf(rs, "c1") == rs;
    assert GroupKeys(rs) == ["h9"];
    assert ByChore(rs, "h9") == rs;
    assert ChoreMap([Dishes]) == map["h1" := Dishes];
    var line := Detail("h9", UnknownChore, 0, 1, 0);
    assert Details(ChoreMap([Dishes]), ["h9"], rs) == [line];
    assert [line][..0] == [];
    assert SumSubtotals([line]) == 0;
  }

  /** No children, no allowances. */
  lemma NoChildren()
    ensures Compute([], [Dishes], [Done("r1", "h1", "c1")], "March", 2024) == []
  {
  }

  /** A child without completions still gets an allowance, of 0 with no lines. */
  lemma ChildWithoutCompletions()
    ensures var a := Compute([Alice, Bob], [Dishes], [Done("r1", "h1", "c1")], "March", 2024);
      |a| == 2 && a[1] == Allowance("c2", "Bob", "March", 2024, 0, [])
  {
    NoCompletionsNoAllowance(Bob, ChoreMap([Dishes]), [Done("r1", "h1", "c1")], "March", 2024);
  }
}
