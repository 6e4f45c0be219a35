/**
 * What the grouping computes, stated without the hash. A column scan is the
 * list of appends add! receives (a non-nil value and the row); the groups are
 * the distinct values in the order they first occur in that list, and the
 * rows of a group are the rows appended under its value, in append order.
 */
module GroupingReference {
  import opened Tables
  import opened Grouping

  /** One add! call with a non-nil value: `person` is appended under `key`. */
  datatype Append = Append(key: string, person: Row)

  /** The appends of one scan of the column at `index`, in row order; nil cells make none. */
  function ColumnAppends(rows: seq<Row>, index: nat): (r: seq<Append>)
    ensures forall a :: a in r <==> a.person in rows && CellAt(a.person, index) == Some(a.key)
    decreases |rows|
  {
    if rows == [] then []
    else
      var last := rows[|rows| - 1];
      var earlier := ColumnAppends(rows[..|rows| - 1], index);
      assert forall x :: x in rows <==> x in rows[..|rows| - 1] || x == last;
      match CellAt(last, index)
      case None => earlier
      case Some(k) => earlier + [Append(k, last)]
  }

  /** The appends of all column scans: index by index, and row by row within an index. */
  function Appends(rows: seq<Row>, indexes: seq<nat>): (r: seq<Append>)
    ensures forall a :: a in r <==> a.person in rows && exists i :: i in indexes && CellAt(a.person, i) == Some(a.key)
    decreases |indexes|
  {
    if indexes == [] then []
    else
      var last := indexes[|indexes| - 1];
      var earlier := Appends(rows, indexes[..|indexes| - 1]);
      assert forall i :: i in indexes <==> i in indexes[..|indexes| - 1] || i == last;
      earlier + ColumnAppends(rows, last)
  }

  /** The value of every append, in order. */
  function Keys(appends: seq<Append>): seq<string>
  {
    seq(|appends|, p requires 0 <= p < |appends| => appends[p].key)
  }

  /** The rows appended under `k`, in append order. */
  function RowsOf(appends: seq<Append>, k: string): (r: seq<Row>)
    ensures forall row :: row in r <==> Append(k, row) in appends
    decreases |appends|
  {
    if appends == [] then []
    else
      var last := appends[|appends| - 1];
      var earlier := RowsOf(appends[..|appends| - 1], k);
      assert forall a :: a in appends <==> a in appends[..|appends| - 1] || a == last;
      if last.key == k then earlier + [last.person] else earlier
  }

  /** The distinct elements of `s`, each at the place it first occurs. */
  function FirstSeen(s: seq<string>): (r: seq<string>)
    ensures Distinct(r)
    ensures forall x :: x in r <==> x in s
    decreases |s|
  {
    if s == [] then []
    else
      var last := s[|s| - 1];
      var earlier := FirstSeen(s[..|s| - 1]);
      assert forall x :: x in s <==> x in s[..|s| - 1] || x == last;
      if last in s[..|s| - 1] then earlier else earlier + [last]
  }

  /** The position where `x` first occurs in `s` (|s| when it does not occur). */
  function FirstIndex(s: seq<string>, x: string): (p: nat)
    ensures p <= |s|
    ensures p < |s| <==> x in s
    ensures p < |s| ==> s[p] == x && x !in s[..p]
    decreases |s|
  {
    if s == [] then 0
    else if s[0] == x then 0
    else
      var p := 1 + FirstIndex(s[1..], x);
      assert p < |s| ==> s[..p] == [s[0]] + s[1..][..p - 1];
      p
  }

  /** The values among `keys` with at least two appends, in their order. */
  function Survivors(appends: seq<Append>, keys: seq<string>): (r: seq<string>)
    ensures forall k :: k in r <==> k in keys && |RowsOf(appends, k)| >= 2
    ensures Distinct(keys) ==> Distinct(r)
    decreases |keys|
  {
    if keys == [] then []
    else
      var last := keys[|keys| - 1];
      var earlier := Survivors(appends, keys[..|keys| - 1]);
      assert forall x :: x in keys <==> x in keys[..|keys| - 1] || x == last;
      earlier + if |RowsOf(appends, last)| >= 2 then [last] else []
  }

  /** The tagged rows of each value in `keys`, value after value. */
  function TagAll(appends: seq<Append>, keys: seq<string>): seq<Row>
    decreases |keys|
  {
    if keys == [] then []
    else TagAll(appends, keys[..|keys| - 1]) + Tagged(keys[|keys| - 1], RowsOf(appends, keys[|keys| - 1]))
  }

  /** The output body the appends call for: every value appended at least twice,
      in first-seen order, each followed by its rows in append order. */
  function Body(appends: seq<Append>): seq<Row>
  {
    TagAll(appends, Survivors(appends, FirstSeen(Keys(appends))))
  }

  /** The identifier cell of an output row, as a string ("" when absent). */
  function Identifier(row: Row): string
  {
    if |row| > 0 && row[0].Some? then row[0].value else ""
  }

  /** The output rows whose identifier cell is `k`, in order. */
  function WithIdentifier(out: seq<Row>, k: string): seq<Row>
    decreases |out|
  {
    if out == [] then []
    else
      var last := out[|out| - 1];
      WithIdentifier(out[..|out| - 1], k) + if |last| > 0 && last[0] == Some(k) then [last] else []
  }

  /** The data rows whose cell at `index` is `k`, in row order. */
  function ColumnMatches(rows: seq<Row>, index: nat, k: string): seq<Row>
    decreases |rows|
  {
    if rows == [] then []
    else
      var last := rows[|rows| - 1];
      ColumnMatches(rows[..|rows| - 1], index, k) + if CellAt(last, index) == Some(k) then [last] else []
  }

  /** For each index in turn, the data rows whose cell there is `k`. */
  function Matches(rows: seq<Row>, indexes: seq<nat>, k: string): seq<Row>
    decreases |indexes|
  {
    if indexes == [] then []
    else Matches(rows, indexes[..|indexes| - 1], k) + ColumnMatches(rows, indexes[|indexes| - 1], k)
  }

  // ---------------------------------------------------------------------------
  // The hash-based grouping computes the reference.

  /** `g` is the hash that the appends `appends` build from an empty hash. */
  ghost predicate Represents(g: Groups, appends: seq<Append>)
  {
    && WellFormed(g)
    && g.order == FirstSeen(Keys(appends))
    && forall k :: Lookup(g.members, k) == RowsOf(appends, k)
  }

  lemma Associative<T>(a: seq<T>, b: seq<T>, c: seq<T>)
    ensures a + b + c == a + (b + c)
  {
  }

  lemma KeysSnoc(appends: seq<Append>, a: Append)
    ensures Keys(appends + [a]) == Keys(appends) + [a.key]
  {
  }

  lemma RowsOfSnoc(appends: seq<Append>, a: Append, k: string)
    ensures RowsOf(appends + [a], k) == RowsOf(appends, k) + if a.key == k then [a.person] else []
  {
    assert (appends + [a])[..|appends|] == appends;
  }

  lemma FirstSeenSnoc(s: seq<string>, x: string)
    ensures FirstSeen(s + [x]) == FirstSeen(s) + if x in s then [] else [x]
  {
    assert (s + [x])[..|s|] == s;
  }

  lemma {:induction false} RepresentsWithPerson(g: Groups, appends: seq<Append>, k: string, person: Row)
    requires Represents(g, appends)
    ensures Represents(WithPerson(g, Some(k), person), appends + [Append(k, person)])
  {
    var a := Append(k, person);
    var g' := WithPerson(g, Some(k), person);
    KeysSnoc(appends, a);
    FirstSeenSnoc(Keys(appends), k);
    assert k in g.members <==> k in Keys(appends);
    forall x
      ensures Lookup(g'.members, x) == RowsOf(appends + [a], x)
    {
      RowsOfSnoc(appends, a, x);
    }
  }

  lemma {:induction false} RepresentsWithColumn(g: Groups, appends: seq<Append>, rows: seq<Row>, index: nat)
    requires Represents(g, appends)
    ensures Represents(WithColumn(g, rows, index), appends + ColumnAppends(rows, index))
    decreases |rows|
  {
    if rows == [] {
      assert appends + ColumnAppends(rows, index) == appends;
    } else {
      var last := rows[|rows| - 1];
      var prefix := rows[..|rows| - 1];
      RepresentsWithColumn(g, appends, prefix, index);
      var before := appends + ColumnAppends(prefix, index);
      match CellAt(last, index)
      case None =>
      case Some(k) =>
        RepresentsWithPerson(WithColumn(g, prefix, index), before, k, last);
        Associative(appends, ColumnAppends(prefix, index), [Append(k, last)]);
    }
  }

  lemma {:induction false} RepresentsWithColumns(g: Groups, appends: seq<Append>, rows: seq<Row>, indexes: seq<nat>)
    requires Represents(g, appends)
    ensures Represents(WithColumns(g, rows, indexes), appends + Appends(rows, indexes))
    decreases |indexes|
  {
    if indexes == [] {
      assert appends + Appends(rows, indexes) == appends;
    } else {
      var prefix, last := indexes[..|indexes| - 1], indexes[|indexes| - 1];
      RepresentsWithColumns(g, appends, rows, prefix);
      RepresentsWithColumn(WithColumns(g, rows, prefix), appends + Appends(rows, prefix), rows, last);
      Associative(appends, Appends(rows, prefix), ColumnAppends(rows, last));
    }
  }

  lemma {:induction false} KeptKeysAreSurvivors(keys: seq<string>, m: map<string, seq<Row>>, appends: seq<Append>)
    requires forall k :: k in keys ==> Lookup(m, k) == RowsOf(appends, k)
    ensures KeptKeys(keys, m) == Survivors(appends, keys)
    decreases |keys|
  {
    if keys != [] {
      KeptKeysAreSurvivors(keys[..|keys| - 1], m, appends);
    }
  }

  lemma {:induction false} FlattenKeysIsTagAll(keys: seq<string>, m: map<string, seq<Row>>, appends: seq<Append>)
    requires forall k :: k in keys ==> Lookup(m, k) == RowsOf(appends, k)
    ensures FlattenKeys(keys, m) == TagAll(appends, keys)
    decreases |keys|
  {
    if keys != [] {
      FlattenKeysIsTagAll(keys[..|keys| - 1], m, appends);
    }
  }

  /** GroupedPeople, flattened, is the reference body of the appends its scans make. */
  lemma GroupedIsReference(table: Table, indexes: seq<nat>)
    ensures Flattened(Grouped(table, indexes)) == Body(Appends(DataRows(table), indexes))
  {
    var appends := Appends(DataRows(table), indexes);
    var g := WithColumns(NoGroups, DataRows(table), indexes);
    assert Represents(NoGroups, []);
    RepresentsWithColumns(NoGroups, [], DataRows(table), indexes);
    assert [] + appends == appends;
    KeptKeysAreSurvivors(g.order, g.members, appends);
    var kept := WithoutSingletons(g);
    FlattenKeysIsTagAll(kept.order, kept.members, appends);
  }
}
