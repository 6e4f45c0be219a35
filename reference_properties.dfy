/**
 * Properties of the reference body: which rows it holds, which values it
 * keeps, the order of its groups, and how it splits when two scans share no
 * value.
 */
module ReferenceProperties {
  import opened Tables
  import opened Grouping
  import opened GroupingReference

  // ---------------------------------------------------------------------------
  // Tagged rows

  lemma {:induction false} TaggedRows(k: string, rows: seq<Row>)
    ensures |Tagged(k, rows)| == |rows|
    ensures forall p :: 0 <= p < |rows| ==> Tagged(k, rows)[p] == [Some(k)] + rows[p]
    decreases |rows|
  {
    if rows != [] {
      TaggedRows(k, rows[..|rows| - 1]);
    }
  }

  /** Every row of TagAll is a row appended under one of `keys`, tagged with that value. */
  lemma {:induction false} TagAllRows(appends: seq<Append>, keys: seq<string>)
    ensures forall b: Row :: b in TagAll(appends, keys) ==>
      |b| >= 1 && b[0].Some? && b[0].value in keys && b[1..] in RowsOf(appends, b[0].value)
    decreases |keys|
  {
    if keys != [] {
      var prefix, last := keys[..|keys| - 1], keys[|keys| - 1];
      TagAllRows(appends, prefix);
      TaggedRows(last, RowsOf(appends, last));
      forall b: Row | b in TagAll(appends, keys)
        ensures |b| >= 1 && b[0].Some? && b[0].value in keys && b[1..] in RowsOf(appends, b[0].value)
      {
        if b !in TagAll(appends, prefix) {
          var p :| 0 <= p < |Tagged(last, RowsOf(appends, last))| && Tagged(last, RowsOf(appends, last))[p] == b;
          assert b[1..] == RowsOf(appends, last)[p];
        }
      }
    }
  }

  /** Each body row is `[k] + r` for an append of `r` under `k`. */
  lemma BodyRowsAreAppends(appends: seq<Append>)
    ensures forall b: Row :: b in Body(appends) ==>
      |b| >= 1 && b[0].Some? && Append(b[0].value, b[1..]) in appends
  {
    TagAllRows(appends, Survivors(appends, FirstSeen(Keys(appends))));
  }

  // ---------------------------------------------------------------------------
  // The rows under one identifier

  lemma {:induction false} WithIdentifierConcat(a: seq<Row>, b: seq<Row>, k: string)
    ensures WithIdentifier(a + b, k) == WithIdentifier(a, k) + WithIdentifier(b, k)
    decreases |b|
  {
    if b != [] {
      var prefix := b[..|b| - 1];
      WithIdentifierConcat(a, prefix, k);
      assert (a + b)[..|a + b| - 1] == a + prefix;
      var last := b[|b| - 1];
      assert (a + b)[|a + b| - 1] == last;
      var e := if |last| > 0 && last[0] == Some(k) then [last] else [];
      assert WithIdentifier(a + b, k) == WithIdentifier(a + prefix, k) + e;
      assert WithIdentifier(b, k) == WithIdentifier(prefix, k) + e;
      Associative(WithIdentifier(a, k), WithIdentifier(prefix, k), e);
    } else {
      assert a + b == a;
    }
  }

  lemma {:induction false} WithIdentifierTagged(k': string, rows: seq<Row>, k: string)
    ensures WithIdentifier(Tagged(k', rows), k) == if k == k' then Tagged(k', rows) else []
    decreases |rows|
  {
    if rows != [] {
      var prefix := rows[..|rows| - 1];
      WithIdentifierTagged(k', prefix, k);
      WithIdentifierConcat(Tagged(k', prefix), [[Some(k')] + rows[|rows| - 1]], k);
      assert [[Some(k')] + rows[|rows| - 1]][..0] == [];
    }
  }

  lemma {:induction false} WithIdentifierTagAll(appends: seq<Append>, keys: seq<string>, k: string)
    requires Distinct(keys)
    ensures WithIdentifier(TagAll(appends, keys), k) == if k in keys then Tagged(k, RowsOf(appends, k)) else []
    decreases |keys|
  {
    if keys != [] {
      var prefix, last := keys[..|keys| - 1], keys[|keys| - 1];
      WithIdentifierTagAll(appends, prefix, k);
      WithIdentifierConcat(TagAll(appends, prefix), Tagged(last, RowsOf(appends, last)), k);
      WithIdentifierTagged(last, RowsOf(appends, last), k);
      assert k == last ==> k !in prefix;
      assert k in keys <==> k in prefix || k == last;
    }
  }

  /** A value with rows appended under it occurs among the appends' values. */
  lemma AppendedKeyOccurs(appends: seq<Append>, k: string)
    requires RowsOf(appends, k) != []
    ensures k in Keys(appends)
  {
    var row := RowsOf(appends, k)[0];
    assert Append(k, row) in appends;
    var p :| 0 <= p < |appends| && appends[p] == Append(k, row);
    assert Keys(appends)[p] == k;
  }

  /** The size filter: the body rows tagged `k` are all the rows appended under
      `k`, in append order, when there are at least two of them, and none otherwise. */
  lemma BodyWithIdentifier(appends: seq<Append>, k: string)
    ensures WithIdentifier(Body(appends), k) ==
      if |RowsOf(appends, k)| >= 2 then Tagged(k, RowsOf(appends, k)) else []
  {
    var survivors := Survivors(appends, FirstSeen(Keys(appends)));
    WithIdentifierTagAll(appends, survivors, k);
    if |RowsOf(appends, k)| >= 2 {
      AppendedKeyOccurs(appends, k);
    }
  }

  /** The body is empty exactly when no value was appended twice. */
  lemma BodyEmpty(appends: seq<Append>)
    ensures Body(appends) == [] <==> forall k :: |RowsOf(appends, k)| < 2
  {
    if Body(appends) != [] {
      BodyRowsAreAppends(appends);
      var k := Body(appends)[0][0].value;
      WithIdentifierConcat([Body(appends)[0]], Body(appends)[1..], k);
      assert [Body(appends)[0]] + Body(appends)[1..] == Body(appends);
      assert WithIdentifier([Body(appends)[0]], k) != [];
      BodyWithIdentifier(appends, k);
    } else {
      forall k
        ensures |RowsOf(appends, k)| < 2
      {
        BodyWithIdentifier(appends, k);
        if |RowsOf(appends, k)| >= 2 {
          TaggedRows(k, RowsOf(appends, k));
        }
      }
    }
  }

  // ---------------------------------------------------------------------------
  // Order of the groups

  lemma {:induction false} FirstIndexOfPrefix(s: seq<string>, t: seq<string>, x: string)
    requires x in s
    ensures FirstIndex(s + t, x) == FirstIndex(s, x)
    decreases |s|
  {
    if s[0] != x {
      assert (s + t)[1..] == s[1..] + t;
      FirstIndexOfPrefix(s[1..], t, x);
    }
  }

  lemma {:induction false} FirstIndexOfNew(s: seq<string>, x: string)
    requires x !in s
    ensures FirstIndex(s + [x], x) == |s|
    decreases |s|
  {
    if s != [] {
      assert (s + [x])[1..] == s[1..] + [x];
      FirstIndexOfNew(s[1..], x);
    }
  }

  /** `keys` lists values in the order of their first occurrence in `s`. */
  ghost predicate InFirstSeenOrder(keys: seq<string>, s: seq<string>)
  {
    forall i, j :: 0 <= i < j < |keys| ==> FirstIndex(s, keys[i]) < FirstIndex(s, keys[j])
  }

  lemma {:induction false} FirstSeenOrdered(s: seq<string>)
    ensures InFirstSeenOrder(FirstSeen(s), s)
    decreases |s|
  {
    if s != [] {
      var prefix, last := s[..|s| - 1], s[|s| - 1];
      FirstSeenOrdered(prefix);
      assert prefix + [last] == s;
      forall y | y in prefix
        ensures FirstIndex(s, y) == FirstIndex(prefix, y)
      {
        FirstIndexOfPrefix(prefix, [last], y);
      }
      if last !in prefix {
        FirstIndexOfNew(prefix, last);
      }
    }
  }

  /** In an ordered list, every earlier value first occurs before the last one. */
  lemma LastAfterPrefix(keys: seq<string>, s: seq<string>)
    requires keys != [] && InFirstSeenOrder(keys, s)
    ensures forall y :: y in keys[..|keys| - 1] ==> FirstIndex(s, y) < FirstIndex(s, keys[|keys| - 1])
  {
    forall y | y in keys[..|keys| - 1]
      ensures FirstIndex(s, y) < FirstIndex(s, keys[|keys| - 1])
    {
      var i :| 0 <= i < |keys| - 1 && keys[..|keys| - 1][i] == y;
      assert keys[i] == y;
    }
  }

  /** A value that first occurs after every listed one may be listed last. */
  lemma AppendOrdered(r: seq<string>, x: string, s: seq<string>)
    requires InFirstSeenOrder(r, s)
    requires forall y :: y in r ==> FirstIndex(s, y) < FirstIndex(s, x)
    ensures InFirstSeenOrder(r + [x], s)
  {
    forall i, j | 0 <= i < j < |r + [x]|
      ensures FirstIndex(s, (r + [x])[i]) < FirstIndex(s, (r + [x])[j])
    {
      assert (r + [x])[i] == r[i] && r[i] in r;
    }
  }

  lemma {:induction false} SurvivorsOrdered(appends: seq<Append>, keys: seq<string>, s: seq<string>)
    requires InFirstSeenOrder(keys, s)
    ensures InFirstSeenOrder(Survivors(appends, keys), s)
    decreases |keys|
  {
    if keys != [] {
      var prefix, last := keys[..|keys| - 1], keys[|keys| - 1];
      assert InFirstSeenOrder(prefix, s);
      SurvivorsOrdered(appends, prefix, s);
      if |RowsOf(appends, last)| >= 2 {
        LastAfterPrefix(keys, s);
        AppendOrdered(Survivors(appends, prefix), last, s);
      }
    }
  }

  lemma {:induction false} TagAllOrdered(appends: seq<Append>, keys: seq<string>, s: seq<string>)
    requires InFirstSeenOrder(keys, s)
    ensures forall p, q :: 0 <= p <= q < |TagAll(appends, keys)| ==>
      FirstIndex(s, Identifier(TagAll(appends, keys)[p])) <= FirstIndex(s, Identifier(TagAll(appends, keys)[q]))
    decreases |keys|
  {
    if keys != [] {
      var prefix, last := keys[..|keys| - 1], keys[|keys| - 1];
      TagAllOrdered(appends, prefix, s);
      TagAllRows(appends, prefix);
      TaggedRows(last, RowsOf(appends, last));
      var front, back := TagAll(appends, prefix), Tagged(last, RowsOf(appends, last));
      var all := TagAll(appends, keys);
      assert all == front + back;
      forall p, q | 0 <= p <= q < |all|
        ensures FirstIndex(s, Identifier(all[p])) <= FirstIndex(s, Identifier(all[q]))
      {
        if q < |front| {
          assert all[p] == front[p] && all[q] == front[q];
        } else if |front| <= p {
          assert Identifier(all[p]) == last && Identifier(all[q]) == last;
        } else {
          assert all[p] == front[p] && front[p] in front;
          var y := Identifier(front[p]);
          var i :| 0 <= i < |prefix| && prefix[i] == y;
          assert keys[i] == y;
          assert Identifier(all[q]) == last;
        }
      }
    }
  }

  /** Groups appear in the order their value was first appended: a later body
      row never carries a value first seen earlier than the one above it. */
  lemma BodyInFirstSeenOrder(appends: seq<Append>)
    ensures forall p, q :: 0 <= p <= q < |Body(appends)| ==>
      FirstIndex(Keys(appends), Identifier(Body(appends)[p])) <= FirstIndex(Keys(appends), Identifier(Body(appends)[q]))
  {
    var s := Keys(appends);
    FirstSeenOrdered(s);
    SurvivorsOrdered(appends, FirstSeen(s), s);
    TagAllOrdered(appends, Survivors(appends, FirstSeen(s)), s);
  }

  /** The rows of one group are contiguous in the body. */
  lemma BodyGroupsContiguous(appends: seq<Append>, p: nat, m: nat, q: nat)
    requires p <= m <= q < |Body(appends)|
    requires Identifier(Body(appends)[p]) == Identifier(Body(appends)[q])
    ensures Identifier(Body(appends)[m]) == Identifier(Body(appends)[p])
  {
    var body, s := Body(appends), Keys(appends);
    BodyInFirstSeenOrder(appends);
    BodyRowsAreAppends(appends);
    forall b: Row | b in body
      ensures Identifier(b) in s
    {
      var k := b[0].value;
      assert Append(k, b[1..]) in appends;
      var i :| 0 <= i < |appends| && appends[i] == Append(k, b[1..]);
      assert s[i] == k;
    }
    assert body[p] in body && body[m] in body;
    assert FirstIndex(s, Identifier(body[m])) == FirstIndex(s, Identifier(body[p]));
  }

  // ---------------------------------------------------------------------------
  // Scans that share no value

  lemma KeysConcat(a: seq<Append>, b: seq<Append>)
    ensures Keys(a + b) == Keys(a) + Keys(b)
  {
  }

  lemma {:induction false} RowsOfConcat(a: seq<Append>, b: seq<Append>, k: string)
    ensures RowsOf(a + b, k) == RowsOf(a, k) + RowsOf(b, k)
    decreases |b|
  {
    if b != [] {
      var prefix := b[..|b| - 1];
      RowsOfConcat(a, prefix, k);
      assert (a + b)[..|a + b| - 1] == a + prefix;
      var last := b[|b| - 1];
      assert (a + b)[|a + b| - 1] == last;
      var e := if last.key == k then [last.person] else [];
      assert RowsOf(a + b, k) == RowsOf(a + prefix, k) + e;
      assert RowsOf(b, k) == RowsOf(prefix, k) + e;
      Associative(RowsOf(a, k), RowsOf(prefix, k), e);
    } else {
      assert a + b == a;
    }
  }

  lemma RowsOfAbsent(appends: seq<Append>, k: string)
    requires k !in Keys(appends)
    ensures RowsOf(appends, k) == []
  {
    if RowsOf(appends, k) != [] {
      AppendedKeyOccurs(appends, k);
    }
  }

  lemma {:induction false} FirstSeenConcat(a: seq<string>, b: seq<string>)
    requires forall x :: x in a ==> x !in b
    ensures FirstSeen(a + b) == FirstSeen(a) + FirstSeen(b)
    decreases |b|
  {
    if b != [] {
      var prefix, last := b[..|b| - 1], b[|b| - 1];
      FirstSeenConcat(a, prefix);
      assert (a + b)[..|a + b| - 1] == a + prefix;
      assert (a + b)[|a + b| - 1] == last;
      assert last in a + prefix <==> last in prefix;
      var e := if last in prefix then [] else [last];
      assert FirstSeen(a + b) == FirstSeen(a + prefix) + e;
      assert FirstSeen(b) == FirstSeen(prefix) + e;
      Associative(FirstSeen(a), FirstSeen(prefix), e);
    } else {
      assert a + b == a;
    }
  }

  lemma {:induction false} SurvivorsConcat(appends: seq<Append>, a: seq<string>, b: seq<string>)
    ensures Survivors(appends, a + b) == Survivors(appends, a) + Survivors(appends, b)
    decreases |b|
  {
    if b != [] {
      var prefix, last := b[..|b| - 1], b[|b| - 1];
      SurvivorsConcat(appends, a, prefix);
      assert (a + b)[..|a + b| - 1] == a + prefix;
      assert (a + b)[|a + b| - 1] == last;
      var e := if |RowsOf(appends, last)| >= 2 then [last] else [];
      assert Survivors(appends, a + b) == Survivors(appends, a + prefix) + e;
      assert Survivors(appends, b) == Survivors(appends, prefix) + e;
      Associative(Survivors(appends, a), Survivors(appends, prefix), e);
    } else {
      assert a + b == a;
    }
  }

  lemma {:induction false} TagAllConcat(appends: seq<Append>, a: seq<string>, b: seq<string>)
    ensures TagAll(appends, a + b) == TagAll(appends, a) + TagAll(appends, b)
    decreases |b|
  {
    if b != [] {
      var prefix, last := b[..|b| - 1], b[|b| - 1];
      TagAllConcat(appends, a, prefix);
      assert (a + b)[..|a + b| - 1] == a + prefix;
      assert (a + b)[|a + b| - 1] == last;
      var e := Tagged(last, RowsOf(appends, last));
      assert TagAll(appends, a + b) == TagAll(appends, a + prefix) + e;
      assert TagAll(appends, b) == TagAll(appends, prefix) + e;
      Associative(TagAll(appends, a), TagAll(appends, prefix), e);
    } else {
      assert a + b == a;
    }
  }

  /** Survivors and TagAll only look at the rows of the values in `keys`. */
  lemma {:induction false} SameRowsSameBody(x: seq<Append>, y: seq<Append>, keys: seq<string>)
    requires forall k :: k in keys ==> RowsOf(x, k) == RowsOf(y, k)
    ensures Survivors(x, keys) == Survivors(y, keys)
    ensures TagAll(x, keys) == TagAll(y, keys)
    decreases |keys|
  {
    if keys != [] {
      SameRowsSameBody(x, y, keys[..|keys| - 1]);
    }
  }

  /** Two append lists with no value in common: the body of both is the body
      of the first followed by the body of the second. */
  lemma BodyConcat(a: seq<Append>, b: seq<Append>)
    requires forall k :: k in Keys(a) ==> k !in Keys(b)
    ensures Body(a + b) == Body(a) + Body(b)
  {
    var ab := a + b;
    KeysConcat(a, b);
    FirstSeenConcat(Keys(a), Keys(b));
    var fa, fb := FirstSeen(Keys(a)), FirstSeen(Keys(b));
    forall k | k in fa
      ensures RowsOf(ab, k) == RowsOf(a, k)
    {
      RowsOfConcat(a, b, k);
      RowsOfAbsent(b, k);
    }
    forall k | k in fb
      ensures RowsOf(ab, k) == RowsOf(b, k)
    {
      RowsOfConcat(a, b, k);
      RowsOfAbsent(a, k);
    }
    SurvivorsConcat(ab, fa, fb);
    SameRowsSameBody(ab, a, fa);
    SameRowsSameBody(ab, b, fb);
    var sa, sb := Survivors(a, fa), Survivors(b, fb);
    TagAllConcat(ab, sa, sb);
    SameRowsSameBody(ab, a, sa);
    SameRowsSameBody(ab, b, sb);
  }

  // ---------------------------------------------------------------------------
  // The appends of a table scan

  lemma {:induction false} AppendsConcat(rows: seq<Row>, x: seq<nat>, y: seq<nat>)
    ensures Appends(rows, x + y) == Appends(rows, x) + Appends(rows, y)
    decreases |y|
  {
    if y != [] {
      var prefix, last := y[..|y| - 1], y[|y| - 1];
      AppendsConcat(rows, x, prefix);
      assert (x + y)[..|x + y| - 1] == x + prefix;
      assert (x + y)[|x + y| - 1] == last;
      assert Appends(rows, x + y) == Appends(rows, x + prefix) + ColumnAppends(rows, last);
      Associative(Appends(rows, x), Appends(rows, prefix), ColumnAppends(rows, last));
    } else {
      assert x + y == x;
    }
  }

  lemma {:induction false} ColumnRowsAreMatches(rows: seq<Row>, index: nat, k: string)
    ensures RowsOf(ColumnAppends(rows, index), k) == ColumnMatches(rows, index, k)
    decreases |rows|
  {
    if rows != [] {
      var prefix, last := rows[..|rows| - 1], rows[|rows| - 1];
      ColumnRowsAreMatches(prefix, index, k);
      match CellAt(last, index)
      case None =>
      case Some(v) =>
        RowsOfSnoc(ColumnAppends(prefix, index), Append(v, last), k);
    }
  }

  /** The rows appended under `k` are, index by index, the rows whose cell there is `k`. */
  lemma {:induction false} RowsAreMatches(rows: seq<Row>, indexes: seq<nat>, k: string)
    ensures RowsOf(Appends(rows, indexes), k) == Matches(rows, indexes, k)
    decreases |indexes|
  {
    if indexes != [] {
      var prefix, last := indexes[..|indexes| - 1], indexes[|indexes| - 1];
      RowsAreMatches(rows, prefix, k);
      RowsOfConcat(Appends(rows, prefix), ColumnAppends(rows, last), k);
      ColumnRowsAreMatches(rows, last, k);
    }
  }
}
