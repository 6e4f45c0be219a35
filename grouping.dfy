/**
 * PeopleCSV::GroupedPeople: an insertion-ordered hash from an identifier value
 * to the rows appended under it, built by scanning the table column by column,
 * then stripped of the values that were seen only once.
 *
 * The functions below are the specification of the class's methods; each is a
 * fold taken from the end of its input, so that a loop's invariant is the
 * function applied to the prefix already scanned.
 */
module Grouping {
  import opened Tables

  /** A Ruby Hash as the grouping uses it: `order` lists the keys in insertion order. */
  datatype Groups = Groups(order: seq<string>, members: map<string, seq<Row>>)

  const NoGroups := Groups([], map[])

  /** The keys listed in `order` are exactly the keys of the hash, each once. */
  ghost predicate WellFormed(g: Groups)
  {
    && Distinct(g.order)
    && forall k :: k in g.order <==> k in g.members
  }

  /** The rows under `k`, or none when `k` is not a key. */
  function Lookup(m: map<string, seq<Row>>, k: string): seq<Row>
  {
    if k in m then m[k] else []
  }

  /** add!: a nil value is ignored; a new value starts a group at the end of
      the order; a known value gets `person` appended to its group. */
  function WithPerson(g: Groups, identifierValue: Option<string>, person: Row): (r: Groups)
    ensures WellFormed(g) ==> WellFormed(r)
    ensures identifierValue.None? ==> r == g
    ensures identifierValue.Some? ==>
      r.order == if identifierValue.value in g.members then g.order else g.order + [identifierValue.value]
    ensures identifierValue.Some? ==>
      && Lookup(r.members, identifierValue.value) == Lookup(g.members, identifierValue.value) + [person]
      && forall k :: k != identifierValue.value ==> Lookup(r.members, k) == Lookup(g.members, k)
  {
    match identifierValue
    case None => g
    case Some(k) =>
      if k in g.members then Groups(g.order, g.members[k := g.members[k] + [person]])
      else Groups(g.order + [k], g.members[k := [person]])
  }

  /** add_from_csv_by_index: add! every data row under its cell at `index`, in row order. */
  function WithColumn(g: Groups, rows: seq<Row>, index: nat): (r: Groups)
    ensures WellFormed(g) ==> WellFormed(r)
    decreases |rows|
  {
    if rows == [] then g
    else
      var last := rows[|rows| - 1];
      WithPerson(WithColumn(g, rows[..|rows| - 1], index), CellAt(last, index), last)
  }

  /** The loop of initialize: one full column scan per index, in index order. */
  function WithColumns(g: Groups, rows: seq<Row>, indexes: seq<nat>): (r: Groups)
    ensures WellFormed(g) ==> WellFormed(r)
    decreases |indexes|
  {
    if indexes == [] then g
    else WithColumn(WithColumns(g, rows, indexes[..|indexes| - 1]), rows, indexes[|indexes| - 1])
  }

  /** The keys of `keys` whose group holds at least two rows, in their order. */
  function KeptKeys(keys: seq<string>, m: map<string, seq<Row>>): (kept: seq<string>)
    ensures forall k :: k in kept <==> k in keys && |Lookup(m, k)| >= 2
    ensures Distinct(keys) ==> Distinct(kept)
    decreases |keys|
  {
    if keys == [] then []
    else
      var last := keys[|keys| - 1];
      KeptKeys(keys[..|keys| - 1], m) + if |Lookup(m, last)| >= 2 then [last] else []
  }

  /** delete_non_grouped_data!: drop every group with fewer than two rows. */
  function WithoutSingletons(g: Groups): (r: Groups)
    ensures WellFormed(g) ==> WellFormed(r)
    ensures forall k :: k in r.members <==> k in g.members && |g.members[k]| >= 2
    ensures forall k :: k in r.members ==> r.members[k] == g.members[k]
  {
    Groups(KeptKeys(g.order, g.members), map k | k in g.members && |g.members[k]| >= 2 :: g.members[k])
  }

  /** GroupedPeople.new(csv: table, indexes: indexes). */
  function Grouped(table: Table, indexes: seq<nat>): Groups
  {
    WithoutSingletons(WithColumns(NoGroups, DataRows(table), indexes))
  }

  /** `[identifier_value].concat(row)` for every row of one group, in order. */
  function Tagged(k: string, rows: seq<Row>): seq<Row>
    decreases |rows|
  {
    if rows == [] then []
    else Tagged(k, rows[..|rows| - 1]) + [[Some(k)] + rows[|rows| - 1]]
  }

  /** The tagged rows of every group listed in `keys`, group after group. */
  function FlattenKeys(keys: seq<string>, m: map<string, seq<Row>>): seq<Row>
    decreases |keys|
  {
    if keys == [] then []
    else
      var last := keys[|keys| - 1];
      FlattenKeys(keys[..|keys| - 1], m) + Tagged(last, Lookup(m, last))
  }

  /** The body rows guess_by_indexes emits for a grouping. */
  function Flattened(g: Groups): seq<Row>
  {
    FlattenKeys(g.order, g.members)
  }

  /** One more row of a group, emitted after `done` and the rows before it. */
  lemma TaggedStep(done: seq<Row>, res: seq<Row>, k: string, rows: seq<Row>, j: nat)
    requires j < |rows| && res == done + Tagged(k, rows[..j])
    ensures res + [[Some(k)] + rows[j]] == done + Tagged(k, rows[..j + 1])
  {
    assert rows[..j + 1][..j] == rows[..j];
  }

  /** One more group: the rows emitted for keys[..i], then those of keys[i]. */
  lemma FlattenKeysStep(header: seq<Row>, done: seq<Row>, keys: seq<string>, m: map<string, seq<Row>>, i: nat)
    requires i < |keys| && keys[i] in m
    requires done == header + FlattenKeys(keys[..i], m)
    ensures done + Tagged(keys[i], m[keys[i]]) == header + FlattenKeys(keys[..i + 1], m)
  {
    assert keys[..i + 1][..i] == keys[..i];
  }

  /** One more row of the table scanned: row 0, the header, adds nothing. */
  lemma ColumnStep(g: Groups, csv: Table, rowIndex: nat, index: nat)
    requires rowIndex < |csv|
    ensures rowIndex == 0 ==> WithColumn(g, DataRows(csv[..rowIndex + 1]), index) == WithColumn(g, DataRows(csv[..rowIndex]), index)
    ensures rowIndex != 0 ==> (WithColumn(g, DataRows(csv[..rowIndex + 1]), index) ==
      WithPerson(WithColumn(g, DataRows(csv[..rowIndex]), index), CellAt(csv[rowIndex], index), csv[rowIndex]))
  {
    if rowIndex != 0 {
      assert DataRows(csv[..rowIndex + 1])[..rowIndex - 1] == DataRows(csv[..rowIndex]);
    }
  }

  /** The hash after delete_non_grouped_data! has visited the keys `visited`. */
  function Pruned(m: map<string, seq<Row>>, visited: seq<string>): map<string, seq<Row>>
  {
    map k | k in m && (k in visited ==> |m[k]| >= 2) :: m[k]
  }

  lemma PrunedNone(m: map<string, seq<Row>>)
    ensures Pruned(m, []) == m
  {
  }

  /** The next key of the walk is still in the hash, with its rows untouched. */
  lemma NextKeyKept(g: Groups, i: nat)
    requires WellFormed(g) && i < |g.order|
    ensures g.order[i] in g.members && g.order[i] !in g.order[..i]
    ensures g.order[i] in Pruned(g.members, g.order[..i])
    ensures Pruned(g.members, g.order[..i])[g.order[i]] == g.members[g.order[i]]
  {
  }

  /** Visiting the next key deletes its group exactly when it has fewer than two rows. */
  lemma PrunedStep(m: map<string, seq<Row>>, keys: seq<string>, i: nat)
    requires i < |keys| && keys[i] in m && keys[i] !in keys[..i]
    ensures (if |m[keys[i]]| < 2 then Pruned(m, keys[..i]) - {keys[i]} else Pruned(m, keys[..i])) == Pruned(m, keys[..i + 1])
  {
    assert keys[..i + 1] == keys[..i] + [keys[i]];
  }

  lemma KeptKeysStep(keys: seq<string>, m: map<string, seq<Row>>, i: nat)
    requires i < |keys| && keys[i] in m
    ensures KeptKeys(keys[..i + 1], m) == KeptKeys(keys[..i], m) + if |m[keys[i]]| >= 2 then [keys[i]] else []
  {
    assert keys[..i + 1][..i] == keys[..i];
  }

  /** Once every key is visited, the kept keys and the pruned hash are WithoutSingletons. */
  lemma PrunedAll(g: Groups, kept: seq<string>, m: map<string, seq<Row>>)
    requires WellFormed(g)
    requires kept == KeptKeys(g.order[..|g.order|], g.members) && m == Pruned(g.members, g.order[..|g.order|])
    ensures Groups(kept, m) == WithoutSingletons(g)
    ensures WellFormed(Groups(kept, m))
  {
    assert g.order[..|g.order|] == g.order;
  }

  /**
   * GroupedPeople < Hash. The hash is the pair of fields `order` (its key
   * order) and `members` (its contents); Value() is the hash as a value.
   */
  class GroupedPeople {
    var order: seq<string>
    var members: map<string, seq<Row>>

    function Value(): Groups
      reads this
    {
      Groups(order, members)
    }

    ghost predicate Valid()
      reads this
    {
      WellFormed(Value())
    }

    /** initialize(csv:, indexes:): scan every index in turn, then drop the singletons. */
    constructor (csv: Table, indexes: seq<nat>)
      ensures Valid()
      ensures Value() == Grouped(csv, indexes)
    {
      order := [];
      members := map[];
      new;
      var n := 0;
      while n < |indexes|
        invariant 0 <= n <= |indexes|
        invariant Valid()
        invariant Value() == WithColumns(NoGroups, DataRows(csv), indexes[..n])
      {
        assert indexes[..n + 1][..n] == indexes[..n];
        AddFromCsvByIndex(csv, indexes[n]);
        n := n + 1;
      }
      assert indexes[..|indexes|] == indexes;
      DeleteNonGroupedData();
    }

    /** add_from_csv_by_index: every row but row 0 is added under its cell at `index`. */
    method AddFromCsvByIndex(csv: Table, index: nat)
      requires Valid()
      modifies this
      ensures Valid()
      ensures Value() == WithColumn(old(Value()), DataRows(csv), index)
    {
      var rowIndex := 0;
      while rowIndex < |csv|
        invariant 0 <= rowIndex <= |csv|
        invariant Valid()
        invariant Value() == WithColumn(old(Value()), DataRows(csv[..rowIndex]), index)
      {
        var row := csv[rowIndex];
        ColumnStep(old(Value()), csv, rowIndex, index);
        if rowIndex != 0 {
          Add(CellAt(row, index), row);
        }
        rowIndex := rowIndex + 1;
      }
      assert csv[..|csv|] == csv;
    }

    /** add!(identifier_value:, person:). */
    method Add(identifierValue: Option<string>, person: Row)
      requires Valid()
      modifies this
      ensures Valid()
      ensures Value() == WithPerson(old(Value()), identifierValue, person)
    {
      if identifierValue.None? {
        return;
      }
      var k := identifierValue.value;
      if k in members {
        members := members[k := members[k] + [person]];
      } else {
        members := members[k := [person]];
        order := order + [k];
      }
    }

    /** delete_non_grouped_data!: walk the keys in order and delete each group with fewer than two rows. */
    method DeleteNonGroupedData()
      requires Valid()
      modifies this
      ensures Valid()
      ensures Value() == WithoutSingletons(old(Value()))
    {
      ghost var g := Value();
      var keys, groups := order, members;
      var kept: seq<string> := [];
      var i := 0;
      PrunedNone(groups);
      while i < |keys|
        invariant 0 <= i <= |keys|
        invariant kept == KeptKeys(keys[..i], g.members)
        invariant groups == Pruned(g.members, keys[..i])
      {
        var k := keys[i];
        NextKeyKept(g, i);
        KeptKeysStep(keys, g.members, i);
        PrunedStep(g.members, keys, i);
        if |groups[k]| < 2 {
          groups := groups - {k};
        } else {
          kept := kept + [k];
        }
        i := i + 1;
      }
      order, members := kept, groups;
      PrunedAll(g, kept, members);
    }
  }
}
