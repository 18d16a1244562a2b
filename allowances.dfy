/** GET /allowances (backend/src/allowances/index.ts): the monthly allowance
    of every child, computed from the children, the chores and the month's
    completion records.

    The specification is a family of functions over sequences, each defined
    from the END of its input so that it follows the order in which the
    handler's `forEach`, `push` and `reduce` visit elements. The two loops
    that build maps in place (the chore lookup and the per-chore grouping) are
    methods proved equal to those functions, and the lemmas after them state
    what an allowance means: one line per distinct chore, in order of first
    completion, with the right count and price, and a total that equals the
    sum of the prices of the child's completions. */
module Allowances {
  import opened Types
  import opened Http

  /** One line of an allowance: a chore, how often the child did it, and what it earned. */
  datatype Detail = Detail(choreId: string, choreName: string, price: int, count: nat, subtotal: int)

  datatype Allowance = Allowance(
    childId: string,
    childName: string,
    month: string,
    year: int,
    amount: int,
    records: seq<Detail>)

  const UnknownChore := "Unknown Chore"
  const AllowancesPath := "/allowances"
  const MonthYearRequired := "Month and year query parameters are required"
  const YearNotNumber := "Year must be a valid number"

  predicate Distinct(keys: seq<string>)
  {
    forall i, j :: 0 <= i < j < |keys| ==> keys[i] != keys[j]
  }

  // ---------------------------------------------------------------------------
  // The chore lookup: `choreMap.set(chore.id, chore)` for every chore in turn.

  function ChoreMap(chores: seq<Chore>): (choreMap: map<string, Chore>)
    ensures forall id :: id in choreMap ==> choreMap[id].id == id
  {
    if chores == [] then map[]
    else
      var last := chores[|chores| - 1];
      ChoreMap(chores[..|chores| - 1])[last.id := last]
  }

  /** A chore id is in the lookup exactly when some chore has it, and the
      chore found there is one of the chores, with that id. */
  lemma {:induction false} ChoreMapKeys(chores: seq<Chore>)
    ensures forall id :: id in ChoreMap(chores) <==> exists i :: 0 <= i < |chores| && chores[i].id == id
    ensures forall id :: id in ChoreMap(chores) ==> ChoreMap(chores)[id].id == id && ChoreMap(chores)[id] in chores
  {
    if chores != [] {
      var n := |chores| - 1;
      var init, last := chores[..n], chores[n];
      ChoreMapKeys(init);
      assert chores == init + [last];
      forall id | id in ChoreMap(chores)
        ensures exists i :: 0 <= i < |chores| && chores[i].id == id
      {
        if id != last.id {
          assert id in ChoreMap(init);
          var i :| 0 <= i < n && init[i].id == id;
          assert chores[i].id == id;
        } else {
          assert chores[n].id == id;
        }
      }
      forall id | exists i :: 0 <= i < |chores| && chores[i].id == id
        ensures id in ChoreMap(chores)
      {
        var i :| 0 <= i < |chores| && chores[i].id == id;
        if i < n {
          assert init[i].id == id;
        }
      }
    }
  }

  /** When ids repeat, the last chore with an id is the one the lookup keeps. */
  lemma {:induction false} ChoreMapLastWins(chores: seq<Chore>, i: nat)
    requires i < |chores|
    requires forall j :: i < j < |chores| ==> chores[j].id != chores[i].id
    ensures chores[i].id in ChoreMap(chores) && ChoreMap(chores)[chores[i].id] == chores[i]
  {
    var n := |chores| - 1;
    if i < n {
      var init := chores[..n];
      assert forall j :: i < j < n ==> init[j] == chores[j];
      ChoreMapLastWins(init, i);
      assert chores[n].id != chores[i].id;
    }
  }

  /** The chore lookup as the handler builds it, by setting one key per chore. */
  method BuildChoreMap(chores: seq<Chore>) returns (choreMap: map<string, Chore>)
    ensures choreMap == ChoreMap(chores)
  {
    choreMap := map[];
    for i := 0 to |chores|
      invariant choreMap == ChoreMap(chores[..i])
    {
      assert chores[..i + 1][..i] == chores[..i];
      choreMap := choreMap[chores[i].id := chores[i]];
    }
    assert chores[..|chores|] == chores;
  }

  // ---------------------------------------------------------------------------
  // Selecting one child's records and grouping them by chore.

  /** `records.filter(record => record.childId === childId)` */
  function RecordsOf(records: seq<ChoreRecord>, childId: string): (mine: seq<ChoreRecord>)
  {
    if records == [] then []
    else
      var rest, last := RecordsOf(records[..|records| - 1], childId), records[|records| - 1];
      if last.childId == childId then rest + [last] else rest
  }

  /** The records that the grouping pushes under `choreId`. */
  function ByChore(rs: seq<ChoreRecord>, choreId: string): (group: seq<ChoreRecord>)
  {
    if rs == [] then []
    else
      var rest, last := ByChore(rs[..|rs| - 1], choreId), rs[|rs| - 1];
      if last.choreId == choreId then rest + [last] else rest
  }

  /** The keys of the grouping map in insertion order: each chore id once,
      where it is first seen. */
  function GroupKeys(rs: seq<ChoreRecord>): (keys: seq<string>)
  {
    if rs == [] then []
    else
      var keys, last := GroupKeys(rs[..|rs| - 1]), rs[|rs| - 1];
      if last.choreId in keys then keys else keys + [last.choreId]
  }

  /** How many of `records` say that child `childId` did chore `choreId`:
      a direct count over the whole input, with no filtering or grouping. */
  function Occurrences(records: seq<ChoreRecord>, childId: string, choreId: string): (n: nat)
  {
    if records == [] then 0
    else
      var last := records[|records| - 1];
      Occurrences(records[..|records| - 1], childId, choreId)
        + (if last.childId == childId && last.choreId == choreId then 1 else 0)
  }

  /** Whether some record says that child `childId` did chore `choreId`. */
  predicate Completed(records: seq<ChoreRecord>, childId: string, choreId: string)
  {
    exists r :: r in records && r.childId == childId && r.choreId == choreId
  }

  /** The child's records are exactly the input records that name the child. */
  lemma {:induction false} RecordsOfMembers(records: seq<ChoreRecord>, childId: string)
    ensures forall r :: r in RecordsOf(records, childId) <==> r in records && r.childId == childId
  {
    if records != [] {
      var n := |records| - 1;
      RecordsOfMembers(records[..n], childId);
      assert records == records[..n] + [records[n]];
    }
  }

  lemma {:induction false} RecordsOfConcat(a: seq<ChoreRecord>, b: seq<ChoreRecord>, childId: string)
    ensures RecordsOf(a + b, childId) == RecordsOf(a, childId) + RecordsOf(b, childId)
  {
    if b == [] {
      assert a + b == a;
    } else {
      var n := |b| - 1;
      RecordsOfConcat(a, b[..n], childId);
      assert (a + b)[..|a + b| - 1] == a + b[..n];
    }
  }

  lemma {:induction false} ByChoreAppend(rs: seq<ChoreRecord>, r: ChoreRecord, choreId: string)
    ensures ByChore(rs + [r], choreId) == ByChore(rs, choreId) + (if r.choreId == choreId then [r] else [])
  {
    assert (rs + [r])[..|rs|] == rs;
  }

  /** Grouping one child's records counts exactly that child's completions of each chore. */
  lemma {:induction false} GroupSizeIsOccurrences(records: seq<ChoreRecord>, childId: string, choreId: string)
    ensures |ByChore(RecordsOf(records, childId), choreId)| == Occurrences(records, childId, choreId)
  {
    if records != [] {
      var n := |records| - 1;
      GroupSizeIsOccurrences(records[..n], childId, choreId);
      if records[n].childId == childId {
        ByChoreAppend(RecordsOf(records[..n], childId), records[n], choreId);
      }
    }
  }

  /** The group keys are distinct and are exactly the chore ids that occur. */
  lemma {:induction false} GroupKeysOccur(rs: seq<ChoreRecord>)
    ensures Distinct(GroupKeys(rs))
    ensures forall c :: c in GroupKeys(rs) <==> exists q :: 0 <= q < |rs| && rs[q].choreId == c
  {
    if rs != [] {
      var n := |rs| - 1;
      var init := rs[..n];
      var keys0 := GroupKeys(init);
      var keys := GroupKeys(rs);
      GroupKeysOccur(init);
      assert forall q :: 0 <= q < n ==> rs[q] == init[q];
      forall c | exists q :: 0 <= q < |rs| && rs[q].choreId == c
        ensures c in keys
      {
        var q :| 0 <= q < |rs| && rs[q].choreId == c;
        if q < n {
          assert init[q].choreId == c;
        }
      }
      forall c | c in keys
        ensures exists q :: 0 <= q < |rs| && rs[q].choreId == c
      {
        if c in keys0 {
          var q :| 0 <= q < n && init[q].choreId == c;
          assert rs[q].choreId == c;
        } else {
          assert rs[n].choreId == c;
        }
      }
    }
  }

  /** The group keys come in order of first occurrence: whenever a later key
      occurs at position q, an earlier key has already occurred before q. */
  lemma {:induction false} GroupKeysFirstSeen(rs: seq<ChoreRecord>)
    ensures FirstSeenOrder(rs, GroupKeys(rs))
  {
    if rs != [] {
      var init, last := rs[..|rs| - 1], rs[|rs| - 1];
      var keys0, keys := GroupKeys(init), GroupKeys(rs);
      GroupKeysOccur(init);
      GroupKeysFirstSeen(init);
      assert rs == init + [last];
      forall i, j, q | 0 <= i < j < |keys| && 0 <= q < |rs| && rs[q].choreId == keys[j]
        ensures exists p :: 0 <= p < q && rs[p].choreId == keys[i]
      {
        if j < |keys0| {
          FirstSeenKept(init, last, keys0, i, j, q);
        } else {
          FirstSeenAdded(init, last, keys0, i, q);
        }
      }
    }
  }

  /** Two keys already seen in `init` stay in first-seen order in `init + [last]`. */
  lemma FirstSeenKept(init: seq<ChoreRecord>, last: ChoreRecord, keys0: seq<string>, i: nat, j: nat, q: nat)
    requires FirstSeenOrder(init, keys0)
    requires forall c :: c in keys0 ==> exists q :: 0 <= q < |init| && init[q].choreId == c
    requires i < j < |keys0| && q <= |init| && (init + [last])[q].choreId == keys0[j]
    ensures exists p :: 0 <= p < q && (init + [last])[p].choreId == keys0[i]
  {
    var earlier := keys0[i];
    if q < |init| {
      assert init[q].choreId == keys0[j];
      var p :| 0 <= p < q && init[p].choreId == earlier;
      assert (init + [last])[p] == init[p];
    } else {
      assert keys0[j] in keys0;
      var q' :| 0 <= q' < |init| && init[q'].choreId == keys0[j];
      var p :| 0 <= p < q' && init[p].choreId == keys0[i];
      assert (init + [last])[p] == init[p];
    }
  }

  /** A key first seen at `last` comes after every key already seen in `init`. */
  lemma FirstSeenAdded(init: seq<ChoreRecord>, last: ChoreRecord, keys0: seq<string>, i: nat, q: nat)
    requires forall c :: c in keys0 <==> exists q :: 0 <= q < |init| && init[q].choreId == c
    requires last.choreId !in keys0
    requires i < |keys0| && q <= |init| && (init + [last])[q].choreId == last.choreId
    ensures exists p :: 0 <= p < q && (init + [last])[p].choreId == keys0[i]
  {
    assert keys0[i] in keys0;
    var p :| 0 <= p < |init| && init[p].choreId == keys0[i];
    assert forall k :: 0 <= k < |init| ==> (init + [last])[k] == init[k];
    assert q == |init|;
    assert (init + [last])[p] == init[p];
  }

  /** Everything the grouping promises about its keys. */
  lemma GroupKeysSpec(rs: seq<ChoreRecord>)
    ensures Distinct(GroupKeys(rs))
    ensures forall c :: c in GroupKeys(rs) <==> exists q :: 0 <= q < |rs| && rs[q].choreId == c
    ensures FirstSeenOrder(rs, GroupKeys(rs))
  {
    GroupKeysOccur(rs);
    GroupKeysFirstSeen(rs);
  }

  /** `keys[i]` occurs in `rs` before the first occurrence of every later `keys[j]`. */
  ghost predicate FirstSeenOrder(rs: seq<ChoreRecord>, keys: seq<string>)
  {
    forall i, j, q :: 0 <= i < j < |keys| && 0 <= q < |rs| && rs[q].choreId == keys[j] ==>
      exists p :: 0 <= p < q && rs[p].choreId == keys[i]
  }

  /** What one more record does to the keys and to every group. */
  lemma GroupStep(rs: seq<ChoreRecord>, i: nat)
    requires i < |rs|
    ensures GroupKeys(rs[..i + 1]) ==
              if rs[i].choreId in GroupKeys(rs[..i]) then GroupKeys(rs[..i]) else GroupKeys(rs[..i]) + [rs[i].choreId]
    ensures forall choreId :: ByChore(rs[..i + 1], choreId) ==
              ByChore(rs[..i], choreId) + (if rs[i].choreId == choreId then [rs[i]] else [])
  {
    assert rs[..i + 1] == rs[..i] + [rs[i]];
    forall choreId
      ensures ByChore(rs[..i + 1], choreId) == ByChore(rs[..i], choreId) + (if rs[i].choreId == choreId then [rs[i]] else [])
    {
      ByChoreAppend(rs[..i], rs[i], choreId);
    }
  }

  /** The grouping as the handler performs it: a map from chore id to the
      records pushed under it, and the order in which its keys were inserted. */
  method GroupByChore(rs: seq<ChoreRecord>) returns (keys: seq<string>, groups: map<string, seq<ChoreRecord>>)
    ensures keys == GroupKeys(rs)
    ensures forall choreId :: choreId in groups <==> choreId in keys
    ensures forall choreId :: choreId in groups ==> groups[choreId] == ByChore(rs, choreId)
  {
    keys, groups := [], map[];
    for i := 0 to |rs|
      invariant keys == GroupKeys(rs[..i])
      invariant forall choreId :: choreId in groups <==> choreId in keys
      invariant forall choreId :: choreId in groups ==> groups[choreId] == ByChore(rs[..i], choreId)
      invariant forall choreId :: choreId !in groups ==> ByChore(rs[..i], choreId) == []
    {
      var record := rs[i];
      GroupStep(rs, i);
      if record.choreId !in groups {
        groups := groups[record.choreId := []];
        keys := keys + [record.choreId];
      }
      groups := groups[record.choreId := groups[record.choreId] + [record]];
    }
    assert rs[..|rs|] == rs;
  }

  // ---------------------------------------------------------------------------
  // Pricing the groups and adding up.

  /** The unit price a line uses: the chore's price, or 0 for an unknown chore. */
  function PriceOf(choreMap: map<string, Chore>, choreId: string): (price: int)
  {
    if choreId in choreMap then choreMap[choreId].price else 0
  }

  function Priced(choreMap: map<string, Chore>): (weight: string -> int)
  {
    choreId => PriceOf(choreMap, choreId)
  }

  /** Weight 1 for every chore: a weighted sum with it counts. */
  function CountWeight(choreId: string): (weight: int)
  {
    1
  }

  /** The line for one group (lines 96-114 of the handler). */
  function DetailFor(choreMap: map<string, Chore>, choreId: string, group: seq<ChoreRecord>): (line: Detail)
    ensures line.choreId == choreId && line.count == |group| && line.subtotal == line.price * line.count
    ensures choreId in choreMap ==> line.choreName == choreMap[choreId].name && line.price == choreMap[choreId].price
    ensures choreId !in choreMap ==> line.choreName == UnknownChore && line.price == 0 && line.subtotal == 0
  {
    if choreId !in choreMap then
      Detail(choreId, UnknownChore, 0, |group|, 0)
    else
      var chore := choreMap[choreId];
      Detail(choreId, chore.name, chore.price, |group|, chore.price * |group|)
  }

  function Details(choreMap: map<string, Chore>, keys: seq<string>, rs: seq<ChoreRecord>): (lines: seq<Detail>)
    ensures |lines| == |keys| && forall k :: 0 <= k < |keys| ==> lines[k].choreId == keys[k]
  {
    seq(|keys|, i requires 0 <= i < |keys| => DetailFor(choreMap, keys[i], ByChore(rs, keys[i])))
  }

  /** `recordDetails.reduce((sum, detail) => sum + detail.subtotal, 0)` */
  function SumSubtotals(details: seq<Detail>): (total: int)
    ensures (forall k :: 0 <= k < |details| ==> details[k].subtotal >= 0) ==> total >= 0
    ensures (forall k :: 0 <= k < |details| ==> details[k].subtotal == 0) ==> total == 0
  {
    if details == [] then 0 else SumSubtotals(details[..|details| - 1]) + details[|details| - 1].subtotal
  }

  function SumCounts(details: seq<Detail>): (total: int)
    ensures total >= 0
  {
    if details == [] then 0 else SumCounts(details[..|details| - 1]) + details[|details| - 1].count
  }

  /** The allowance of one child (lines 83-127 of the handler). */
  function AllowanceFor(child: Child, choreMap: map<string, Chore>, records: seq<ChoreRecord>,
                        month: string, year: int): (a: Allowance)
    ensures a.childId == child.id && a.childName == child.name && a.month == month && a.year == year
    ensures a.amount == SumSubtotals(a.records)
    ensures forall k :: 0 <= k < |a.records| ==> a.records[k].subtotal == a.records[k].price * a.records[k].count
  {
    var mine := RecordsOf(records, child.id);
    var details := Details(choreMap, GroupKeys(mine), mine);
    Allowance(child.id, child.name, month, year, SumSubtotals(details), details)
  }

  /** `children.map(...)`: the allowances of all children. */
  function Compute(children: seq<Child>, chores: seq<Chore>, records: seq<ChoreRecord>,
                   month: string, year: int): (allowances: seq<Allowance>)
    ensures |allowances| == |children|
    ensures forall i :: 0 <= i < |children| ==>
              && allowances[i].childId == children[i].id && allowances[i].childName == children[i].name
              && allowances[i].month == month && allowances[i].year == year
  {
    seq(|children|, i requires 0 <= i < |children| => AllowanceFor(children[i], ChoreMap(chores), records, month, year))
  }

  /** The computation as the handler performs it: the lookup and the grouping
      are built in place, and one allowance is produced per child. */
  method CalculateAllowances(children: seq<Child>, chores: seq<Chore>, records: seq<ChoreRecord>,
                             month: string, year: int) returns (allowances: seq<Allowance>)
    ensures allowances == Compute(children, chores, records, month, year)
  {
    var choreMap := BuildChoreMap(chores);
    allowances := [];
    for i := 0 to |children|
      invariant |allowances| == i
      invariant forall k :: 0 <= k < i ==> allowances[k] == AllowanceFor(children[k], choreMap, records, month, year)
    {
      var child := children[i];
      var childRecords := RecordsOf(records, child.id);
      var keys, groups := GroupByChore(childRecords);
      var details := seq(|keys|, j requires 0 <= j < |keys| => DetailFor(choreMap, keys[j], groups[keys[j]]));
      assert details == Details(choreMap, GroupKeys(childRecords), childRecords);
      var totalAmount := SumSubtotals(details);
      allowances := allowances + [Allowance(child.id, child.name, month, year, totalAmount, details)];
    }
  }

  // ---------------------------------------------------------------------------
  // What an allowance means.

  /** Weighted(w, keys, rs) is the sum over the keys of w(key) times the size of the key's group. */
  function Weighted(w: string -> int, keys: seq<string>, rs: seq<ChoreRecord>): (sum: int)
  {
    if keys == [] then 0
    else
      var k := keys[|keys| - 1];
      Weighted(w, keys[..|keys| - 1], rs) + w(k) * |ByChore(rs, k)|
  }

  /** PerRecord(w, rs) is the sum over the records of w(record's chore id). */
  function PerRecord(w: string -> int, rs: seq<ChoreRecord>): (sum: int)
  {
    if rs == [] then 0 else PerRecord(w, rs[..|rs| - 1]) + w(rs[|rs| - 1].choreId)
  }

  lemma {:induction false} WeightedOfNothing(w: string -> int, keys: seq<string>)
    ensures Weighted(w, keys, []) == 0
  {
    if keys != [] {
      WeightedOfNothing(w, keys[..|keys| - 1]);
    }
  }

  /** One more record adds the weight of its chore, once, when its chore is a key. */
  lemma {:induction false} WeightedStep(w: string -> int, keys: seq<string>, rs: seq<ChoreRecord>, r: ChoreRecord)
    requires Distinct(keys)
    ensures Weighted(w, keys, rs + [r]) == Weighted(w, keys, rs) + (if r.choreId in keys then w(r.choreId) else 0)
  {
    if keys != [] {
      var n := |keys| - 1;
      var init, k := keys[..n], keys[n];
      assert Distinct(init);
      WeightedStep(w, init, rs, r);
      ByChoreAppend(rs, r, k);
      assert keys == init + [k];
      var before, after := |ByChore(rs, k)|, |ByChore(rs + [r], k)|;
      if r.choreId == k {
        assert r.choreId !in init;
        assert after == before + 1;
        MulSucc(w(k), before);
      } else {
        assert after == before;
        assert r.choreId in keys <==> r.choreId in init;
      }
    }
  }

  lemma MulSucc(a: int, n: int)
    ensures a * (n + 1) == a * n + a
  {
  }

  /** Grouping changes nothing in a weighted sum: adding w(key) times the
      size of each group is adding w(chore) once per record. */
  lemma {:induction false} GroupingPreservesWeight(w: string -> int, keys: seq<string>, rs: seq<ChoreRecord>)
    requires Distinct(keys)
    requires forall r :: r in rs ==> r.choreId in keys
    ensures Weighted(w, keys, rs) == PerRecord(w, rs)
  {
    if rs == [] {
      WeightedOfNothing(w, keys);
    } else {
      var n := |rs| - 1;
      var init := rs[..n];
      assert rs == init + [rs[n]];
      GroupingPreservesWeight(w, keys, init);
      WeightedStep(w, keys, init, rs[n]);
    }
  }

  lemma {:induction false} SubtotalsAreWeighted(choreMap: map<string, Chore>, keys: seq<string>, rs: seq<ChoreRecord>)
    ensures SumSubtotals(Details(choreMap, keys, rs)) == Weighted(Priced(choreMap), keys, rs)
    ensures SumCounts(Details(choreMap, keys, rs)) == Weighted(CountWeight, keys, rs)
  {
    if keys != [] {
      var n := |keys| - 1;
      SubtotalsAreWeighted(choreMap, keys[..n], rs);
      assert Details(choreMap, keys, rs)[..n] == Details(choreMap, keys[..n], rs);
    }
  }

  lemma {:induction false} PerRecordOfOne(rs: seq<ChoreRecord>)
    ensures PerRecord(CountWeight, rs) == |rs|
  {
    if rs != [] {
      PerRecordOfOne(rs[..|rs| - 1]);
    }
  }

  /** The keys cover every record of the group map. */
  lemma GroupKeysCover(rs: seq<ChoreRecord>)
    ensures Distinct(GroupKeys(rs))
    ensures forall r :: r in rs ==> r.choreId in GroupKeys(rs)
  {
    GroupKeysSpec(rs);
    forall r | r in rs ensures r.choreId in GroupKeys(rs) {
      var q :| 0 <= q < |rs| && rs[q] == r;
    }
  }

  /** The total of an allowance is the price of every one of the child's
      completions added up, each at its chore's current price (0 when the
      chore is unknown); and the line counts add up to the number of the
      child's completions. */
  lemma AmountIsPricePerCompletion(child: Child, choreMap: map<string, Chore>, records: seq<ChoreRecord>,
                                   month: string, year: int)
    ensures AllowanceFor(child, choreMap, records, month, year).amount
              == PerRecord(Priced(choreMap), RecordsOf(records, child.id))
    ensures SumCounts(AllowanceFor(child, choreMap, records, month, year).records)
              == |RecordsOf(records, child.id)|
  {
    var mine := RecordsOf(records, child.id);
    var keys := GroupKeys(mine);
    GroupKeysCover(mine);
    SubtotalsAreWeighted(choreMap, keys, mine);
    GroupingPreservesWeight(Priced(choreMap), keys, mine);
    GroupingPreservesWeight(CountWeight, keys, mine);
    PerRecordOfOne(mine);
  }

  /** The chore ids of a list of lines, in order. */
  function LineIds(lines: seq<Detail>): (ids: seq<string>)
    ensures |ids| == |lines| && forall k :: 0 <= k < |lines| ==> ids[k] == lines[k].choreId
  {
    if lines == [] then [] else LineIds(lines[..|lines| - 1]) + [lines[|lines| - 1].choreId]
  }

  /** The line ids are the group keys of the child's records. */
  lemma LineIdsAreGroupKeys(child: Child, choreMap: map<string, Chore>, records: seq<ChoreRecord>,
                            month: string, year: int)
    ensures LineIds(AllowanceFor(child, choreMap, records, month, year).records) == GroupKeys(RecordsOf(records, child.id))
  {
    var ids := LineIds(AllowanceFor(child, choreMap, records, month, year).records);
    assert |ids| == |GroupKeys(RecordsOf(records, child.id))|;
  }

  /** The lines have distinct chore ids and follow the order in which the
      child first completed each chore. */
  lemma LinesInFirstCompletionOrder(child: Child, choreMap: map<string, Chore>, records: seq<ChoreRecord>,
                                    month: string, year: int)
    ensures Distinct(LineIds(AllowanceFor(child, choreMap, records, month, year).records))
    ensures FirstSeenOrder(RecordsOf(records, child.id), LineIds(AllowanceFor(child, choreMap, records, month, year).records))
  {
    GroupKeysSpec(RecordsOf(records, child.id));
    LineIdsAreGroupKeys(child, choreMap, records, month, year);
  }

  /** A chore is a group key of the child's records exactly when the child completed it. */
  lemma GroupKeyIffCompleted(records: seq<ChoreRecord>, childId: string, choreId: string)
    ensures (choreId in GroupKeys(RecordsOf(records, childId))) == Completed(records, childId, choreId)
  {
    var mine := RecordsOf(records, childId);
    GroupKeysOccur(mine);
    RecordsOfMembers(records, childId);
    if Completed(records, childId, choreId) {
      var r :| r in records && r.childId == childId && r.choreId == choreId;
      assert r in mine;
      var q :| 0 <= q < |mine| && mine[q] == r;
    }
    if choreId in GroupKeys(mine) {
      var q :| 0 <= q < |mine| && mine[q].choreId == choreId;
      assert mine[q] in records;
    }
  }

  /** A chore has a line exactly when the child completed it. */
  lemma LinesAreTheCompletedChores(child: Child, choreMap: map<string, Chore>, records: seq<ChoreRecord>,
                                   month: string, year: int, choreId: string)
    ensures (choreId in LineIds(AllowanceFor(child, choreMap, records, month, year).records))
            == Completed(records, child.id, choreId)
  {
    LineIdsAreGroupKeys(child, choreMap, records, month, year);
    GroupKeyIffCompleted(records, child.id, choreId);
  }

  /** Each line counts the child's completions of its chore. A known chore's
      line carries the chore's name and price and earns price times count; an
      unknown chore's line is "Unknown Chore" at price 0 and earns nothing. */
  lemma LineValues(child: Child, choreMap: map<string, Chore>, records: seq<ChoreRecord>,
                   month: string, year: int, k: nat)
    requires k < |AllowanceFor(child, choreMap, records, month, year).records|
    ensures var line := AllowanceFor(child, choreMap, records, month, year).records[k];
      && line.count == Occurrences(records, child.id, line.choreId)
      && (line.choreId in choreMap ==>
            var chore := choreMap[line.choreId];
            line.choreName == chore.name && line.price == chore.price && line.subtotal == chore.price * line.count)
      && (line.choreId !in choreMap ==>
            line.choreName == UnknownChore && line.price == 0 && line.subtotal == 0)
  {
    var line := AllowanceFor(child, choreMap, records, month, year).records[k];
    GroupSizeIsOccurrences(records, child.id, line.choreId);
  }

  /** A child with no completions is owed nothing and has no lines. */
  lemma {:induction false} NoCompletionsNoAllowance(child: Child, choreMap: map<string, Chore>,
                                                    records: seq<ChoreRecord>, month: string, year: int)
    requires forall r :: r in records ==> r.childId != child.id
    ensures AllowanceFor(child, choreMap, records, month, year).amount == 0
    ensures AllowanceFor(child, choreMap, records, month, year).records == []
  {
    RecordsOfMembers(records, child.id);
  }

  /** Another child's records, wherever they sit in the input, change nothing. */
  lemma OtherChildrensRecordsIgnored(child: Child, choreMap: map<string, Chore>, before: seq<ChoreRecord>,
                                     r: ChoreRecord, after: seq<ChoreRecord>, month: string, year: int)
    requires r.childId != child.id
    ensures AllowanceFor(child, choreMap, before + [r] + after, month, year)
              == AllowanceFor(child, choreMap, before + after, month, year)
  {
    RecordsOfConcat(before + [r], after, child.id);
    RecordsOfConcat(before, [r], child.id);
    RecordsOfConcat(before, after, child.id);
    assert RecordsOf([r], child.id) == [];
  }

  /** One more completion by the child, whatever its date, raises the amount
      by exactly the price of its chore: the computation trusts the records it
      is given and does not filter them again. */
  lemma OneMoreCompletion(child: Child, choreMap: map<string, Chore>, records: seq<ChoreRecord>,
                          r: ChoreRecord, month: string, year: int)
    requires r.childId == child.id
    ensures AllowanceFor(child, choreMap, records + [r], month, year).amount
              == AllowanceFor(child, choreMap, records, month, year).amount + PriceOf(choreMap, r.choreId)
  {
    AmountIsPricePerCompletion(child, choreMap, records + [r], month, year);
    AmountIsPricePerCompletion(child, choreMap, records, month, year);
    assert (records + [r])[..|records|] == records;
  }

  /** A completion whose chore no longer exists (chores are deleted without
      touching records) still shows up, as an "Unknown Chore" line worth 0. */
  lemma DanglingChoreIsUnknown(child: Child, chores: seq<Chore>, records: seq<ChoreRecord>,
                               r: ChoreRecord, month: string, year: int)
    requires r in records && r.childId == child.id
    requires forall c :: c in chores ==> c.id != r.choreId
    ensures Detail(r.choreId, UnknownChore, 0, Occurrences(records, child.id, r.choreId), 0)
              in AllowanceFor(child, ChoreMap(chores), records, month, year).records
  {
    var lines := AllowanceFor(child, ChoreMap(chores), records, month, year).records;
    ChoreMapKeys(chores);
    assert r.choreId !in ChoreMap(chores);
    assert Completed(records, child.id, r.choreId);
    LinesAreTheCompletedChores(child, ChoreMap(chores), records, month, year, r.choreId);
    var ids := LineIds(lines);
    var k :| 0 <= k < |ids| && ids[k] == r.choreId;
    LineValues(child, ChoreMap(chores), records, month, year, k);
    assert lines[k].choreId == r.choreId;
    assert lines[k] == Detail(r.choreId, UnknownChore, 0, Occurrences(records, child.id, r.choreId), 0);
  }

  /** Changing a chore's price changes every allowance that counts the
      chore, past months included, by the price difference once per
      completion: lines are priced when they are computed, not when the
      chore was done. */
  lemma RepricingIsRetroactive(child: Child, choreMap: map<string, Chore>, records: seq<ChoreRecord>,
                               choreId: string, newPrice: int, month: string, year: int)
    requires choreId in choreMap
    ensures AllowanceFor(child, choreMap[choreId := choreMap[choreId].(price := newPrice)], records, month, year).amount
              == AllowanceFor(child, choreMap, records, month, year).amount
                 + (newPrice - choreMap[choreId].price) * Occurrences(records, child.id, choreId)
  {
    var repriced := choreMap[choreId := choreMap[choreId].(price := newPrice)];
    AmountIsPricePerCompletion(child, repriced, records, month, year);
    AmountIsPricePerCompletion(child, choreMap, records, month, year);
    RepricedTotal(choreMap, choreId, newPrice, records, child.id);
  }

  lemma {:induction false} RepricedTotal(choreMap: map<string, Chore>, choreId: string, newPrice: int,
                                         records: seq<ChoreRecord>, childId: string)
    requires choreId in choreMap
    ensures PerRecord(Priced(choreMap[choreId := choreMap[choreId].(price := newPrice)]), RecordsOf(records, childId))
              == PerRecord(Priced(choreMap), RecordsOf(records, childId))
                 + (newPrice - choreMap[choreId].price) * Occurrences(records, childId, choreId)
  {
    if records != [] {
      var n := |records| - 1;
      var repriced := choreMap[choreId := choreMap[choreId].(price := newPrice)];
      var before, after := Priced(choreMap), Priced(repriced);
      var delta := newPrice - choreMap[choreId].price;
      var r := records[n];
      var mine := RecordsOf(records[..n], childId);
      var occ := Occurrences(records[..n], childId, choreId);
      RepricedTotal(choreMap, choreId, newPrice, records[..n], childId);
      assert PerRecord(after, mine) == PerRecord(before, mine) + delta * occ;
      if r.childId == childId {
        assert RecordsOf(records, childId) == mine + [r];
        assert (mine + [r])[..|mine|] == mine;
        assert PerRecord(after, mine + [r]) == PerRecord(after, mine) + after(r.choreId);
        assert PerRecord(before, mine + [r]) == PerRecord(before, mine) + before(r.choreId);
        if r.choreId == choreId {
          assert after(r.choreId) == before(r.choreId) + delta;
          assert Occurrences(records, childId, choreId) == occ + 1;
          MulSucc(delta, occ);
        } else {
          assert after(r.choreId) == before(r.choreId);
          assert Occurrences(records, childId, choreId) == occ;
        }
      } else {
        assert RecordsOf(records, childId) == mine;
        assert Occurrences(records, childId, choreId) == occ;
      }
    }
  }

  /** With only positive prices stored, nobody is owed a negative amount. */
  lemma {:induction false} AmountNonNegative(child: Child, chores: seq<Chore>, records: seq<ChoreRecord>,
                                             month: string, year: int)
    requires forall c :: c in chores ==> c.price > 0
    ensures AllowanceFor(child, ChoreMap(chores), records, month, year).amount >= 0
  {
    ChoreMapKeys(chores);
    AmountIsPricePerCompletion(child, ChoreMap(chores), records, month, year);
    PerRecordNonNegative(Priced(ChoreMap(chores)), RecordsOf(records, child.id));
  }

  lemma {:induction false} PerRecordNonNegative(w: string -> int, rs: seq<ChoreRecord>)
    requires forall r :: r in rs ==> w(r.choreId) >= 0
    ensures PerRecord(w, rs) >= 0
  {
    if rs != [] {
      var n := |rs| - 1;
      assert forall r :: r in rs[..n] ==> r in rs;
      PerRecordNonNegative(w, rs[..n]);
    }
  }

  // ---------------------------------------------------------------------------
  // The handler: query guards, short-circuits, and the month's records.

  /** Code-point order on strings, which is the order DynamoDB's `BETWEEN`
      uses on UTF-8 strings. */
  predicate LexLe(a: string, b: string)
  {
    a == [] || (b != [] && (a[0] < b[0] || (a[0] == b[0] && LexLe(a[1..], b[1..]))))
  }

  /** The scan's `#date BETWEEN :start AND :end` filter. */
  function InRange(records: seq<ChoreRecord>, start: string, end: string): (kept: seq<ChoreRecord>)
    ensures |kept| <= |records|
  {
    if records == [] then []
    else
      var rest, last := InRange(records[..|records| - 1], start, end), records[|records| - 1];
      if LexLe(start, last.date) && LexLe(last.date, end) then rest + [last] else rest
  }

  /** The month's records are exactly the records dated from `start` to `end`, both included. */
  lemma {:induction false} InRangeMembers(records: seq<ChoreRecord>, start: string, end: string)
    ensures forall r :: r in InRange(records, start, end) <==> r in records && LexLe(start, r.date) && LexLe(r.date, end)
  {
    if records != [] {
      var n := |records| - 1;
      InRangeMembers(records[..n], start, end);
      assert records == records[..n] + [records[n]];
    }
  }

  /** `!x` on an optional query parameter. */
  predicate Present(query: map<string, string>, key: string)
  {
    key in query && query[key] != ""
  }

  /** GET /allowances. `parseInt` stands for `parseInt(yearStr, 10)` (None for NaN),
      `monthRange` for `getStartAndEndOfMonth` (None where its `toISOString`
      throws on an invalid date, which the handler's `catch` turns into a 500);
      `children`, `chores` and `records` are the three table scans. */
  function GetAllowances(req: Request, parseInt: string -> Option<int>,
                         monthRange: (string, int) -> Option<(string, string)>,
                         children: seq<Child>, chores: seq<Chore>, records: seq<ChoreRecord>)
    : (r: Response<seq<Allowance>>)
    ensures !(req.httpMethod == "GET" && req.path == AllowancesPath) ==> r == Failure(404, RouteNotFound)
    ensures r.Failure? ==> r.code in {400, 404, 500}
    ensures r.Failure? && r.code == 400 <==>
              req.httpMethod == "GET" && req.path == AllowancesPath &&
              (!Present(req.query, "month") || !Present(req.query, "year") || parseInt(req.query["year"]).None?)
    ensures r.Failure? && r.code == 500 <==>
              && req.httpMethod == "GET" && req.path == AllowancesPath
              && Present(req.query, "month") && Present(req.query, "year") && parseInt(req.query["year"]).Some?
              && monthRange(req.query["month"], parseInt(req.query["year"]).value).None?
    ensures r.Failure? && r.code == 500 ==> r.message == InternalError
    ensures (&& req.httpMethod == "GET" && req.path == AllowancesPath
             && (!Present(req.query, "month") || !Present(req.query, "year")))
            ==> r == Failure(400, MonthYearRequired)
    ensures (&& req.httpMethod == "GET" && req.path == AllowancesPath
             && Present(req.query, "month") && Present(req.query, "year") && parseInt(req.query["year"]).None?)
            ==> r == Failure(400, YearNotNumber)
    ensures r.Success? <==>
              && req.httpMethod == "GET" && req.path == AllowancesPath
              && Present(req.query, "month") && Present(req.query, "year") && parseInt(req.query["year"]).Some?
              && monthRange(req.query["month"], parseInt(req.query["year"]).value).Some?
    ensures r.Success? ==>
              && Present(req.query, "month") && Present(req.query, "year") && parseInt(req.query["year"]).Some?
              && monthRange(req.query["month"], parseInt(req.query["year"]).value).Some?
              && (children == [] || chores == [] <==> r.data == [])
              && (r.data != [] ==> |r.data| == |children|)
              && forall i :: 0 <= i < |r.data| ==>
                   r.data[i].childId == children[i].id && r.data[i].month == req.query["month"]
                   && r.data[i].year == parseInt(req.query["year"]).value
    ensures r.Success? && r.data != [] ==>
              var month, year := req.query["month"], parseInt(req.query["year"]).value;
              var (start, end) := monthRange(month, year).value;
              r.data == Compute(children, chores, InRange(records, start, end), month, year)
  {
    if !(req.httpMethod == "GET" && req.path == AllowancesPath) then Failure(404, RouteNotFound)
    else if !Present(req.query, "month") || !Present(req.query, "year") then Failure(400, MonthYearRequired)
    else
      var month := req.query["month"];
      match parseInt(req.query["year"])
      case None => Failure(400, YearNotNumber)
      case Some(year) =>
        match monthRange(month, year)
        case None => Failure(500, InternalError)
        case Some((start, end)) =>
          if children == [] then Success([])
          else if chores == [] then Success([])
          else Success(Compute(children, chores, InRange(records, start, end), month, year))
  }

  /** A missing parameter, an unreadable year or an invalid month is reported
      whatever the tables hold. */
  lemma GuardsPrecedeScans(req: Request, parseInt: string -> Option<int>,
                           monthRange: (string, int) -> Option<(string, string)>,
                           children: seq<Child>, chores: seq<Chore>, records: seq<ChoreRecord>,
                           children': seq<Child>, chores': seq<Chore>, records': seq<ChoreRecord>)
    requires GetAllowances(req, parseInt, monthRange, children, chores, records).Failure?
    ensures GetAllowances(req, parseInt, monthRange, children', chores', records')
              == GetAllowances(req, parseInt, monthRange, children, chores, records)
  {
  }

  /** Records dated outside the requested month never reach the computation. */
  lemma {:induction false} OtherMonthsIgnored(req: Request, parseInt: string -> Option<int>,
                                              monthRange: (string, int) -> Option<(string, string)>,
                                              children: seq<Child>, chores: seq<Chore>,
                                              before: seq<ChoreRecord>, r: ChoreRecord, after: seq<ChoreRecord>)
    requires Present(req.query, "month") && Present(req.query, "year") && parseInt(req.query["year"]).Some?
    requires monthRange(req.query["month"], parseInt(req.query["year"]).value).Some?
    requires var (start, end) := monthRange(req.query["month"], parseInt(req.query["year"]).value).value;
             !(LexLe(start, r.date) && LexLe(r.date, end))
    ensures GetAllowances(req, parseInt, monthRange, children, chores, before + [r] + after)
              == GetAllowances(req, parseInt, monthRange, children, chores, before + after)
  {
    var (start, end) := monthRange(req.query["month"], parseInt(req.query["year"]).value).value;
    InRangeConcat(before + [r], after, start, end);
    InRangeConcat(before, [r], start, end);
    InRangeConcat(before, after, start, end);
    assert InRange([r], start, end) == [];
  }

  lemma {:induction false} InRangeConcat(a: seq<ChoreRecord>, b: seq<ChoreRecord>, start: string, end: string)
    ensures InRange(a + b, start, end) == InRange(a, start, end) + InRange(b, start, end)
  {
    if b == [] {
      assert a + b == a;
    } else {
      var n := |b| - 1;
      InRangeConcat(a, b[..n], start, end);
      assert (a + b)[..|a + b| - 1] == a + b[..n];
    }
  }
}
