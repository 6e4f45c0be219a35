/**
 * The scenarios of the repository's own tests, on their five-row table, and
 * an input on which the combined type groups rows that neither single type
 * groups. The reference is evaluated one step at a time on arbitrary rows
 * and values with the same pattern of equal cells, then instantiated.
 *
 * The first three sections hold only those one-step unrollings (positions of
 * short headers, scans of short tables, the reference on short append lists);
 * the scenarios themselves start at "The table of the repository's tests".
 */
module PeopleCsvExamples {
  import opened Tables
  import opened Grouping
  import opened PeopleCsv
  import opened GroupingReference
  import opened ReferenceProperties
  import opened PeopleCsvProperties

  // ---------------------------------------------------------------------------
  // Identifier positions of short headers.

  lemma {:induction false} PositionsOfOne(h0: Option<string>, c: Category)
    ensures IdentifierPositions([h0], c) == if IsIdentifier(h0, c) then [0] else []
  {
    assert [h0][..0] == [];
  }

  lemma {:induction false} PositionsOfTwo(h0: Option<string>, h1: Option<string>, c: Category)
    ensures IdentifierPositions([h0, h1], c) == IdentifierPositions([h0], c) + if IsIdentifier(h1, c) then [1] else []
  {
    assert [h0, h1][..1] == [h0];
  }

  lemma {:induction false} PositionsOfThree(h0: Option<string>, h1: Option<string>, h2: Option<string>, c: Category)
    ensures IdentifierPositions([h0, h1, h2], c) == IdentifierPositions([h0, h1], c) + if IsIdentifier(h2, c) then [2] else []
  {
    assert [h0, h1, h2][..2] == [h0, h1];
  }

  lemma {:induction false} OnlySecondOfThree(h0: Option<string>, h1: Option<string>, h2: Option<string>, c: Category)
    requires !IsIdentifier(h0, c) && IsIdentifier(h1, c) && !IsIdentifier(h2, c)
    ensures IdentifierPositions([h0, h1, h2], c) == [1]
  {
    PositionsOfOne(h0, c);
    PositionsOfTwo(h0, h1, c);
    PositionsOfThree(h0, h1, h2, c);
  }

  lemma {:induction false} OnlyThirdOfThree(h0: Option<string>, h1: Option<string>, h2: Option<string>, c: Category)
    requires !IsIdentifier(h0, c) && !IsIdentifier(h1, c) && IsIdentifier(h2, c)
    ensures IdentifierPositions([h0, h1, h2], c) == [2]
  {
    PositionsOfOne(h0, c);
    PositionsOfTwo(h0, h1, c);
    PositionsOfThree(h0, h1, h2, c);
  }

  lemma {:induction false} OnlyFirstOfTwo(h0: Option<string>, h1: Option<string>, c: Category)
    requires IsIdentifier(h0, c) && !IsIdentifier(h1, c)
    ensures IdentifierPositions([h0, h1], c) == [0]
  {
    PositionsOfOne(h0, c);
    PositionsOfTwo(h0, h1, c);
  }

  lemma {:induction false} OnlySecondOfTwo(h0: Option<string>, h1: Option<string>, c: Category)
    requires !IsIdentifier(h0, c) && IsIdentifier(h1, c)
    ensures IdentifierPositions([h0, h1], c) == [1]
  {
    PositionsOfOne(h0, c);
    PositionsOfTwo(h0, h1, c);
  }

  // ---------------------------------------------------------------------------
  // Column scans of short tables.

  lemma {:induction false} ColumnAppendsSet(rows: seq<Row>, r: Row, index: nat, v: string)
    requires CellAt(r, index) == Some(v)
    ensures ColumnAppends(rows + [r], index) == ColumnAppends(rows, index) + [Append(v, r)]
  {
    assert (rows + [r])[..|rows|] == rows;
  }

  lemma {:induction false} ColumnAppendsNil(rows: seq<Row>, r: Row, index: nat)
    requires CellAt(r, index) == None
    ensures ColumnAppends(rows + [r], index) == ColumnAppends(rows, index)
  {
    assert (rows + [r])[..|rows|] == rows;
  }

  /** The appends of one column over two rows whose cells there are both set. */
  lemma {:induction false} ColumnAppendsTwo(a: Row, b: Row, index: nat, va: string, vb: string)
    requires CellAt(a, index) == Some(va) && CellAt(b, index) == Some(vb)
    ensures ColumnAppends([a, b], index) == [Append(va, a), Append(vb, b)]
  {
    ColumnAppendsSet([], a, index, va);
    assert [] + [a] == [a];
    ColumnAppendsSet([a], b, index, vb);
    assert [a] + [b] == [a, b];
  }

  lemma {:induction false} ColumnAppendsThree(a: Row, b: Row, c: Row, index: nat, va: string, vb: string, vc: string)
    requires CellAt(a, index) == Some(va) && CellAt(b, index) == Some(vb) && CellAt(c, index) == Some(vc)
    ensures ColumnAppends([a, b, c], index) == [Append(va, a), Append(vb, b), Append(vc, c)]
  {
    ColumnAppendsTwo(a, b, index, va, vb);
    ColumnAppendsSet([a, b], c, index, vc);
    assert [a, b] + [c] == [a, b, c];
  }

  /** Four rows whose cells are all set. */
  lemma {:induction false} ColumnAppendsFour(a: Row, b: Row, c: Row, d: Row, index: nat, va: string, vb: string, vc: string, vd: string)
    requires CellAt(a, index) == Some(va) && CellAt(b, index) == Some(vb) && CellAt(c, index) == Some(vc)
    requires CellAt(d, index) == Some(vd)
    ensures ColumnAppends([a, b, c, d], index) == [Append(va, a), Append(vb, b), Append(vc, c), Append(vd, d)]
  {
    ColumnAppendsThree(a, b, c, index, va, vb, vc);
    ColumnAppendsSet([a, b, c], d, index, vd);
    assert [a, b, c] + [d] == [a, b, c, d];
  }

  /** Four rows, the last of which is nil in the column. */
  lemma {:induction false} ColumnAppendsFourLastNil(a: Row, b: Row, c: Row, d: Row, index: nat, va: string, vb: string, vc: string)
    requires CellAt(a, index) == Some(va) && CellAt(b, index) == Some(vb) && CellAt(c, index) == Some(vc)
    requires CellAt(d, index) == None
    ensures ColumnAppends([a, b, c, d], index) == [Append(va, a), Append(vb, b), Append(vc, c)]
  {
    ColumnAppendsThree(a, b, c, index, va, vb, vc);
    ColumnAppendsNil([a, b, c], d, index);
    assert [a, b, c] + [d] == [a, b, c, d];
  }

  lemma {:induction false} AppendsOfOne(rows: seq<Row>, i: nat)
    ensures Appends(rows, [i]) == ColumnAppends(rows, i)
  {
    assert [i][..0] == [];
    assert Appends(rows, [i]) == [] + ColumnAppends(rows, i);
  }

  lemma {:induction false} AppendsOfTwo(rows: seq<Row>, i: nat, j: nat)
    ensures Appends(rows, [i, j]) == ColumnAppends(rows, i) + ColumnAppends(rows, j)
  {
    assert [i, j][..1] == [i];
    AppendsOfOne(rows, i);
  }

  /** The scan of a table whose matching type selects the single column `i`. */
  lemma {:induction false} ScannedOneColumn(table: Table, t: MatchingType, i: nat)
    requires |table| > 0 && SelectedIndexes(table[0], t) == [i]
    ensures Scanned(table, t) == ColumnAppends(DataRows(table), i)
  {
    AppendsOfOne(DataRows(table), i);
  }

  /** The scan of a table whose matching type selects the columns `i` and `j`. */
  lemma {:induction false} ScannedTwoColumns(table: Table, t: MatchingType, i: nat, j: nat)
    requires |table| > 0 && SelectedIndexes(table[0], t) == [i, j]
    ensures Scanned(table, t) == ColumnAppends(DataRows(table), i) + ColumnAppends(DataRows(table), j)
  {
    AppendsOfTwo(DataRows(table), i, j);
  }

  // ---------------------------------------------------------------------------
  // The reference on short lists of appends.

  lemma {:induction false} RowsOfHit(appends: seq<Append>, a: Append, k: string)
    requires a.key == k
    ensures RowsOf(appends + [a], k) == RowsOf(appends, k) + [a.person]
  {
    RowsOfSnoc(appends, a, k);
  }

  lemma {:induction false} RowsOfMiss(appends: seq<Append>, a: Append, k: string)
    requires a.key != k
    ensures RowsOf(appends + [a], k) == RowsOf(appends, k)
  {
    RowsOfSnoc(appends, a, k);
  }

  lemma {:induction false} FirstSeenNew(s: seq<string>, x: string)
    requires x !in s
    ensures FirstSeen(s + [x]) == FirstSeen(s) + [x]
  {
    FirstSeenSnoc(s, x);
  }

  lemma {:induction false} FirstSeenRepeat(s: seq<string>, x: string)
    requires x in s
    ensures FirstSeen(s + [x]) == FirstSeen(s)
  {
    FirstSeenSnoc(s, x);
  }

  lemma {:induction false} FirstSeenOfTwo(v: string, w: string)
    requires v != w
    ensures FirstSeen([v, w]) == [v, w]
  {
    FirstSeenNew([], v);
    assert [] + [v] == [v];
    FirstSeenNew([v], w);
    assert [v] + [w] == [v, w];
  }

  lemma {:induction false} FirstSeenVWW(v: string, w: string)
    requires v != w
    ensures FirstSeen([v, w, w]) == [v, w]
  {
    FirstSeenOfTwo(v, w);
    assert [v, w] + [w] == [v, w, w];
    FirstSeenRepeat([v, w], w);
  }

  /** v, w, v: the first-seen values are v and w. */
  lemma {:induction false} FirstSeenVWV(v: string, w: string)
    requires v != w
    ensures FirstSeen([v, w, v]) == [v, w]
  {
    FirstSeenOfTwo(v, w);
    assert [v, w] + [v] == [v, w, v];
    FirstSeenRepeat([v, w], v);
  }

  /** v, w, w, v: the first-seen values are v and w. */
  lemma {:induction false} FirstSeenVWWV(v: string, w: string)
    requires v != w
    ensures FirstSeen([v, w, w, v]) == [v, w]
  {
    FirstSeenVWW(v, w);
    assert [v, w, w] + [v] == [v, w, w, v];
    assert v in [v, w, w];
    FirstSeenRepeat([v, w, w], v);
  }

  /** v, w, w, z with three distinct values: the first-seen values are v, w and z. */
  lemma {:induction false} FirstSeenVWWZ(v: string, w: string, z: string)
    requires v != w && w != z && v != z
    ensures FirstSeen([v, w, w, z]) == [v, w, z]
  {
    FirstSeenVWW(v, w);
    assert [v, w, w] + [z] == [v, w, w, z];
    assert [v, w] + [z] == [v, w, z];
    FirstSeenNew([v, w, w], z);
  }

  lemma {:induction false} SurvivorsOfOne(appends: seq<Append>, v: string)
    ensures Survivors(appends, [v]) == if |RowsOf(appends, v)| >= 2 then [v] else []
  {
    assert [v][..0] == [];
  }

  lemma {:induction false} SurvivorsOfTwo(appends: seq<Append>, v: string, w: string)
    ensures Survivors(appends, [v, w]) == Survivors(appends, [v]) + if |RowsOf(appends, w)| >= 2 then [w] else []
  {
    assert [v, w][..1] == [v];
  }

  lemma {:induction false} SurvivorsOfThree(appends: seq<Append>, v: string, w: string, x: string)
    ensures Survivors(appends, [v, w, x]) == Survivors(appends, [v, w]) + if |RowsOf(appends, x)| >= 2 then [x] else []
  {
    assert [v, w, x][..2] == [v, w];
  }

  lemma {:induction false} NoneSurvive(appends: seq<Append>, v: string, w: string)
    requires |RowsOf(appends, v)| < 2 && |RowsOf(appends, w)| < 2
    ensures Survivors(appends, [v, w]) == []
  {
    SurvivorsOfOne(appends, v);
    SurvivorsOfTwo(appends, v, w);
  }

  lemma {:induction false} FirstSurvives(appends: seq<Append>, v: string, w: string)
    requires |RowsOf(appends, v)| >= 2 && |RowsOf(appends, w)| < 2
    ensures Survivors(appends, [v, w]) == [v]
  {
    SurvivorsOfOne(appends, v);
    SurvivorsOfTwo(appends, v, w);
  }

  lemma {:induction false} BothSurvive(appends: seq<Append>, v: string, w: string)
    requires |RowsOf(appends, v)| >= 2 && |RowsOf(appends, w)| >= 2
    ensures Survivors(appends, [v, w]) == [v, w]
  {
    SurvivorsOfOne(appends, v);
    SurvivorsOfTwo(appends, v, w);
  }

  lemma {:induction false} SecondSurvives(appends: seq<Append>, v: string, w: string)
    requires |RowsOf(appends, v)| < 2 && |RowsOf(appends, w)| >= 2
    ensures Survivors(appends, [v, w]) == [w]
  {
    SurvivorsOfOne(appends, v);
    SurvivorsOfTwo(appends, v, w);
  }

  /** Of three values, only the middle one survives. */
  lemma {:induction false} MiddleSurvives(appends: seq<Append>, v: string, w: string, z: string)
    requires |RowsOf(appends, v)| < 2 && |RowsOf(appends, w)| >= 2 && |RowsOf(appends, z)| < 2
    ensures Survivors(appends, [v, w, z]) == [w]
  {
    SecondSurvives(appends, v, w);
    SurvivorsOfThree(appends, v, w, z);
  }

  lemma {:induction false} TagAllOfOne(appends: seq<Append>, v: string)
    ensures TagAll(appends, [v]) == Tagged(v, RowsOf(appends, v))
  {
    assert [v][..0] == [];
  }

  lemma {:induction false} TaggedTwo(k: string, x: Row, y: Row)
    ensures Tagged(k, [x, y]) == [[Some(k)] + x, [Some(k)] + y]
  {
    assert [x, y][..1] == [x];
    assert [x][..0] == [];
    assert Tagged(k, [x]) == [] + [[Some(k)] + x];
  }

  /** A single value with two rows, tagged. */
  lemma {:induction false} TagOne(appends: seq<Append>, v: string, a: Row, b: Row)
    requires RowsOf(appends, v) == [a, b]
    ensures TagAll(appends, [v]) == [[Some(v)] + a, [Some(v)] + b]
  {
    TagAllOfOne(appends, v);
    TaggedTwo(v, a, b);
  }

  /** The body, once the first-seen values and the survivors among them are known. */
  lemma {:induction false} BodyOfParts(appends: seq<Append>, keys: seq<string>, kept: seq<string>)
    requires FirstSeen(Keys(appends)) == keys
    requires Survivors(appends, keys) == kept
    ensures Body(appends) == TagAll(appends, kept)
  {
  }

  lemma {:induction false} RowsOfVW(v: string, w: string, x: Row, y: Row)
    requires v != w
    ensures RowsOf([Append(v, x), Append(w, y)], v) == [x]
    ensures RowsOf([Append(v, x), Append(w, y)], w) == [y]
  {
    assert [] + [Append(v, x)] == [Append(v, x)];
    assert [Append(v, x)] + [Append(w, y)] == [Append(v, x), Append(w, y)];
    RowsOfHit([], Append(v, x), v);
    RowsOfMiss([Append(v, x)], Append(w, y), v);
    RowsOfMiss([], Append(v, x), w);
    RowsOfHit([Append(v, x)], Append(w, y), w);
  }

  /** Two appends under different values: no group survives. */
  lemma {:induction false} BodyOfTwoDistinct(v: string, w: string, x: Row, y: Row)
    requires v != w
    ensures Body([Append(v, x), Append(w, y)]) == []
  {
    var appends := [Append(v, x), Append(w, y)];
    assert Keys(appends) == [v, w];
    FirstSeenOfTwo(v, w);
    RowsOfVW(v, w, x, y);
    NoneSurvive(appends, v, w);
    BodyOfParts(appends, [v, w], []);
  }

  lemma {:induction false} RowsOfVWV(v: string, w: string, x: Row, y: Row, z: Row)
    requires v != w
    ensures RowsOf([Append(v, x), Append(w, y), Append(v, z)], v) == [x, z]
    ensures RowsOf([Append(v, x), Append(w, y), Append(v, z)], w) == [y]
  {
    RowsOfVW(v, w, x, y);
    assert [Append(v, x), Append(w, y)] + [Append(v, z)] == [Append(v, x), Append(w, y), Append(v, z)];
    RowsOfHit([Append(v, x), Append(w, y)], Append(v, z), v);
    RowsOfMiss([Append(v, x), Append(w, y)], Append(v, z), w);
  }

  /** The pattern v, w, v: only v survives, with the first and third rows. */
  lemma {:induction false} BodyOfVWV(v: string, w: string, x: Row, y: Row, z: Row)
    requires v != w
    ensures Body([Append(v, x), Append(w, y), Append(v, z)]) == [[Some(v)] + x, [Some(v)] + z]
  {
    var appends := [Append(v, x), Append(w, y), Append(v, z)];
    assert Keys(appends) == [v, w, v];
    FirstSeenVWV(v, w);
    RowsOfVWV(v, w, x, y, z);
    FirstSurvives(appends, v, w);
    BodyOfParts(appends, [v, w], [v]);
    TagOne(appends, v, x, z);
  }

  lemma {:induction false} RowsOfVWW(v: string, w: string, x: Row, y: Row, z: Row)
    requires v != w
    ensures RowsOf([Append(v, x), Append(w, y), Append(w, z)], v) == [x]
    ensures RowsOf([Append(v, x), Append(w, y), Append(w, z)], w) == [y, z]
  {
    RowsOfVW(v, w, x, y);
    assert [Append(v, x), Append(w, y)] + [Append(w, z)] == [Append(v, x), Append(w, y), Append(w, z)];
    RowsOfMiss([Append(v, x), Append(w, y)], Append(w, z), v);
    RowsOfHit([Append(v, x), Append(w, y)], Append(w, z), w);
  }

  lemma {:induction false} RowsOfVWWV(v: string, w: string, x: Row, y: Row, z: Row, u: Row)
    requires v != w
    ensures RowsOf([Append(v, x), Append(w, y), Append(w, z), Append(v, u)], v) == [x, u]
    ensures RowsOf([Append(v, x), Append(w, y), Append(w, z), Append(v, u)], w) == [y, z]
  {
    var prefix := [Append(v, x), Append(w, y), Append(w, z)];
    RowsOfVWW(v, w, x, y, z);
    assert prefix + [Append(v, u)] == [Append(v, x), Append(w, y), Append(w, z), Append(v, u)];
    RowsOfHit(prefix, Append(v, u), v);
    RowsOfMiss(prefix, Append(v, u), w);
  }

  lemma {:induction false} TagAllOfTwo(appends: seq<Append>, v: string, w: string)
    ensures TagAll(appends, [v, w]) == TagAll(appends, [v]) + Tagged(w, RowsOf(appends, w))
  {
    assert [v, w][..1] == [v];
  }

  /** Two values with two rows each, tagged, one after the other. */
  lemma {:induction false} TagTwo(appends: seq<Append>, v: string, w: string, a: Row, b: Row, c: Row, d: Row)
    requires RowsOf(appends, v) == [a, b] && RowsOf(appends, w) == [c, d]
    ensures TagAll(appends, [v, w]) == [[Some(v)] + a, [Some(v)] + b, [Some(w)] + c, [Some(w)] + d]
  {
    TagOne(appends, v, a, b);
    TagAllOfTwo(appends, v, w);
    TaggedTwo(w, c, d);
  }

  /** The pattern v, w, w, v: both values survive, v first. */
  lemma {:induction false} BodyOfVWWV(v: string, w: string, x: Row, y: Row, z: Row, u: Row)
    requires v != w
    ensures Body([Append(v, x), Append(w, y), Append(w, z), Append(v, u)]) ==
      [[Some(v)] + x, [Some(v)] + u, [Some(w)] + y, [Some(w)] + z]
  {
    var appends := [Append(v, x), Append(w, y), Append(w, z), Append(v, u)];
    assert Keys(appends) == [v, w, w, v];
    FirstSeenVWWV(v, w);
    RowsOfVWWV(v, w, x, y, z, u);
    BothSurvive(appends, v, w);
    TagTwo(appends, v, w, x, u, y, z);
    BodyOfParts(appends, [v, w], [v, w]);
  }

  lemma {:induction false} RowsOfVWWZ(v: string, w: string, z: string, a: Row, b: Row, c: Row, d: Row)
    requires v != w && w != z && v != z
    ensures RowsOf([Append(v, a), Append(w, b), Append(w, c), Append(z, d)], v) == [a]
    ensures RowsOf([Append(v, a), Append(w, b), Append(w, c), Append(z, d)], w) == [b, c]
    ensures RowsOf([Append(v, a), Append(w, b), Append(w, c), Append(z, d)], z) == [d]
  {
    var prefix := [Append(v, a), Append(w, b), Append(w, c)];
    RowsOfVWW(v, w, a, b, c);
    assert prefix + [Append(z, d)] == [Append(v, a), Append(w, b), Append(w, c), Append(z, d)];
    RowsOfMiss(prefix, Append(z, d), v);
    RowsOfMiss(prefix, Append(z, d), w);
    RowsOfVWWOther(v, w, z, a, b, c);
    RowsOfHit(prefix, Append(z, d), z);
  }

  lemma {:induction false} RowsOfVWWOther(v: string, w: string, k: string, x: Row, y: Row, z: Row)
    requires k != v && k != w
    ensures RowsOf([Append(v, x), Append(w, y), Append(w, z)], k) == []
  {
    assert [] + [Append(v, x)] == [Append(v, x)];
    assert [Append(v, x)] + [Append(w, y)] == [Append(v, x), Append(w, y)];
    assert [Append(v, x), Append(w, y)] + [Append(w, z)] == [Append(v, x), Append(w, y), Append(w, z)];
    RowsOfMiss([], Append(v, x), k);
    RowsOfMiss([Append(v, x)], Append(w, y), k);
    RowsOfMiss([Append(v, x), Append(w, y)], Append(w, z), k);
  }

  /** The pattern v, w, w, z with three distinct values: only w survives. */
  lemma {:induction false} BodyOfVWWZ(v: string, w: string, z: string, a: Row, b: Row, c: Row, d: Row)
    requires v != w && w != z && v != z
    ensures Body([Append(v, a), Append(w, b), Append(w, c), Append(z, d)]) == [[Some(w)] + b, [Some(w)] + c]
  {
    var appends := [Append(v, a), Append(w, b), Append(w, c), Append(z, d)];
    assert Keys(appends) == [v, w, w, z];
    FirstSeenVWWZ(v, w, z);
    RowsOfVWWZ(v, w, z, a, b, c, d);
    MiddleSurvives(appends, v, w, z);
    BodyOfParts(appends, [v, w, z], [w]);
    TagOne(appends, w, b, c);
  }

  /** The patterns v, w, v and x, y, y, x one after the other, with no value in both. */
  lemma {:induction false} BodyOfVWVThenXYYX(v: string, w: string, x: string, y: string, r0: Row, r1: Row, r2: Row, r3: Row)
    requires v != w && x != y && v != x && v != y && w != x && w != y
    ensures Body([Append(v, r0), Append(w, r1), Append(v, r2)] + [Append(x, r0), Append(y, r1), Append(y, r2), Append(x, r3)]) ==
      [[Some(v)] + r0, [Some(v)] + r2] + [[Some(x)] + r0, [Some(x)] + r3, [Some(y)] + r1, [Some(y)] + r2]
  {
    var a := [Append(v, r0), Append(w, r1), Append(v, r2)];
    var b := [Append(x, r0), Append(y, r1), Append(y, r2), Append(x, r3)];
    assert Keys(a) == [v, w, v];
    assert Keys(b) == [x, y, y, x];
    BodyConcat(a, b);
    BodyOfVWV(v, w, r0, r1, r2);
    BodyOfVWWV(x, y, r0, r1, r2, r3);
  }

  /** Under a valid type, the output is the header row followed by the body of the scan. */
  lemma {:induction false} GuessedFromBody(table: Table, t: MatchingType, body: seq<Row>)
    requires |table| > 0 && Body(Scanned(table, t)) == body
    ensures GuessedByMatchingType(table, Name(t)) == Ok([[Some("Identifier")] + table[0]] + body)
  {
    GuessedIsReference(table, t);
  }

  // ---------------------------------------------------------------------------
  // The table of the repository's tests.

  const Header: Row := [Some("Name"), Some("Email"), Some("Phone")]
  const Take: Row := [Some("Take"), Some("take@example.com"), Some("09011111111")]
  const David: Row := [Some("David"), Some("david@example.com"), Some("09022222222")]
  const Takehiro: Row := [Some("Takehiro"), Some("take@example.com"), Some("09022222222")]
  const Dave: Row := [Some("Dave"), None, Some("09011111111")]

  const TestData: Table := [Header, Take, David, Takehiro, Dave]

  const OutputHeader: Row := [Some("Identifier"), Some("Name"), Some("Email"), Some("Phone")]

  lemma {:induction false} TestDataRows()
    ensures |TestData| > 0 && TestData[0] == Header
    ensures DataRows(TestData) == [Take, David, Takehiro, Dave]
    ensures [Some("Identifier")] + Header == OutputHeader
  {
  }

  lemma {:induction false} TestHeaderEmail()
    ensures !IsIdentifier(Some("Name"), Email) && IsIdentifier(Some("Email"), Email) && !IsIdentifier(Some("Phone"), Email)
  {
  }

  lemma {:induction false} TestHeaderPhone()
    ensures !IsIdentifier(Some("Name"), Phone) && !IsIdentifier(Some("Email"), Phone) && IsIdentifier(Some("Phone"), Phone)
  {
  }

  lemma {:induction false} TestEmailColumns()
    ensures IdentifierPositions(Header, Email) == [1]
  {
    TestHeaderEmail();
    OnlySecondOfThree(Some("Name"), Some("Email"), Some("Phone"), Email);
  }

  lemma {:induction false} TestPhoneColumns()
    ensures IdentifierPositions(Header, Phone) == [2]
  {
    TestHeaderPhone();
    OnlyThirdOfThree(Some("Name"), Some("Email"), Some("Phone"), Phone);
  }

  lemma {:induction false} TestSelectedColumns()
    ensures SelectedIndexes(Header, SameEmail) == [1]
    ensures SelectedIndexes(Header, SamePhone) == [2]
    ensures SelectedIndexes(Header, SameEmailOrPhone) == [1, 2]
  {
    TestSelectedColumnsEmail();
    TestSelectedColumnsPhone();
    TestSelectedColumnsBoth();
  }

  lemma {:induction false} TestSelectedColumnsEmail()
    ensures SelectedIndexes(Header, SameEmail) == [1]
  {
    TestEmailColumns();
  }

  lemma {:induction false} TestSelectedColumnsPhone()
    ensures SelectedIndexes(Header, SamePhone) == [2]
  {
    TestPhoneColumns();
  }

  lemma {:induction false} TestSelectedColumnsBoth()
    ensures SelectedIndexes(Header, SameEmailOrPhone) == [1, 2]
  {
    TestEmailColumns();
    TestPhoneColumns();
  }

  lemma {:induction false} TestEmailCells()
    ensures ColumnAppends([Take, David, Takehiro, Dave], 1) ==
      [Append("take@example.com", Take), Append("david@example.com", David), Append("take@example.com", Takehiro)]
  {
    ColumnAppendsFourLastNil(Take, David, Takehiro, Dave, 1, "take@example.com", "david@example.com", "take@example.com");
  }

  lemma {:induction false} TestPhoneCells()
    ensures ColumnAppends([Take, David, Takehiro, Dave], 2) ==
      [Append("09011111111", Take), Append("09022222222", David), Append("09022222222", Takehiro), Append("09011111111", Dave)]
  {
    ColumnAppendsFour(Take, David, Takehiro, Dave, 2, "09011111111", "09022222222", "09022222222", "09011111111");
  }

  lemma {:induction false} EmailScan()
    ensures Scanned(TestData, SameEmail) == ColumnAppends([Take, David, Takehiro, Dave], 1)
  {
    TestDataRows();
    TestSelectedColumns();
    ScannedOneColumn(TestData, SameEmail, 1);
  }

  lemma {:induction false} PhoneScan()
    ensures Scanned(TestData, SamePhone) == ColumnAppends([Take, David, Takehiro, Dave], 2)
  {
    TestDataRows();
    TestSelectedColumns();
    ScannedOneColumn(TestData, SamePhone, 2);
  }

  lemma {:induction false} CombinedScan()
    ensures Scanned(TestData, SameEmailOrPhone) ==
      ColumnAppends([Take, David, Takehiro, Dave], 1) + ColumnAppends([Take, David, Takehiro, Dave], 2)
  {
    TestDataRows();
    TestSelectedColumns();
    ScannedTwoColumns(TestData, SameEmailOrPhone, 1, 2);
  }

  lemma {:induction false} EmailBody()
    ensures Body(Scanned(TestData, SameEmail)) == [[Some("take@example.com")] + Take, [Some("take@example.com")] + Takehiro]
  {
    EmailScan();
    TestEmailCells();
    BodyOfVWV("take@example.com", "david@example.com", Take, David, Takehiro);
  }

  lemma {:induction false} PhoneBody()
    ensures Body(Scanned(TestData, SamePhone)) ==
      [[Some("09011111111")] + Take, [Some("09011111111")] + Dave, [Some("09022222222")] + David, [Some("09022222222")] + Takehiro]
  {
    PhoneScan();
    TestPhoneCells();
    BodyOfVWWV("09011111111", "09022222222", Take, David, Takehiro, Dave);
  }

  lemma {:induction false} CombinedBody()
    ensures Body(Scanned(TestData, SameEmailOrPhone)) ==
      [[Some("take@example.com")] + Take, [Some("take@example.com")] + Takehiro] +
      [[Some("09011111111")] + Take, [Some("09011111111")] + Dave, [Some("09022222222")] + David, [Some("09022222222")] + Takehiro]
  {
    CombinedScan();
    TestEmailCells();
    TestPhoneCells();
    BodyOfVWVThenXYYX("take@example.com", "david@example.com", "09011111111", "09022222222", Take, David, Takehiro, Dave);
  }

  lemma {:induction false} TestGuessed(t: MatchingType, body: seq<Row>)
    requires Body(Scanned(TestData, t)) == body
    ensures GuessedByMatchingType(TestData, Name(t)) == Ok([OutputHeader] + body)
  {
    TestDataRows();
    GuessedFromBody(TestData, t, body);
  }

  lemma {:induction false} HeadedTwo(h: Row, x: Row, y: Row)
    ensures [h] + [x, y] == [h, x, y]
  {
  }

  lemma {:induction false} HeadedFour(h: Row, x: Row, y: Row, z: Row, u: Row)
    ensures [h] + [x, y, z, u] == [h, x, y, z, u]
  {
  }

  lemma {:induction false} HeadedTwoFour(h: Row, x: Row, y: Row, r0: Row, r1: Row, r2: Row, r3: Row)
    ensures [h] + ([x, y] + [r0, r1, r2, r3]) == [h, x, y, r0, r1, r2, r3]
  {
  }

  lemma {:induction false} EmailGuessed()
    ensures GuessedByMatchingType(TestData, Name(SameEmail)) ==
      Ok([OutputHeader] + [[Some("take@example.com")] + Take, [Some("take@example.com")] + Takehiro])
  {
    EmailBody();
    TestGuessed(SameEmail, [[Some("take@example.com")] + Take, [Some("take@example.com")] + Takehiro]);
  }

  lemma {:induction false} PhoneGuessed()
    ensures GuessedByMatchingType(TestData, Name(SamePhone)) ==
      Ok([OutputHeader] + [[Some("09011111111")] + Take, [Some("09011111111")] + Dave,
                           [Some("09022222222")] + David, [Some("09022222222")] + Takehiro])
  {
    PhoneBody();
    TestGuessed(SamePhone,
      [[Some("09011111111")] + Take, [Some("09011111111")] + Dave, [Some("09022222222")] + David, [Some("09022222222")] + Takehiro]);
  }

  lemma {:induction false} CombinedGuessed()
    ensures GuessedByMatchingType(TestData, Name(SameEmailOrPhone)) ==
      Ok([OutputHeader] + ([[Some("take@example.com")] + Take, [Some("take@example.com")] + Takehiro] +
                           [[Some("09011111111")] + Take, [Some("09011111111")] + Dave,
                            [Some("09022222222")] + David, [Some("09022222222")] + Takehiro]))
  {
    CombinedBody();
    TestGuessed(SameEmailOrPhone,
      [[Some("take@example.com")] + Take, [Some("take@example.com")] + Takehiro] +
      [[Some("09011111111")] + Take, [Some("09011111111")] + Dave, [Some("09022222222")] + David, [Some("09022222222")] + Takehiro]);
  }

  /** The :same_email scenario: Take and Takehiro share take@example.com;
      David's address is his alone and Dave has none. */
  lemma {:induction false} GuessBySameEmail()
    ensures GuessedByMatchingType(TestData, "same_email") ==
      Ok([OutputHeader, [Some("take@example.com")] + Take, [Some("take@example.com")] + Takehiro])
  {
    EmailGuessed();
    assert Name(SameEmail) == "same_email";
    HeadedTwo(OutputHeader, [Some("take@example.com")] + Take, [Some("take@example.com")] + Takehiro);
  }

  /** The :same_phone scenario: each number is shared by two people, Dave's
      nil email notwithstanding; groups come in the order their number first appears. */
  lemma {:induction false} GuessBySamePhone()
    ensures GuessedByMatchingType(TestData, "same_phone") ==
      Ok([OutputHeader, [Some("09011111111")] + Take, [Some("09011111111")] + Dave,
          [Some("09022222222")] + David, [Some("09022222222")] + Takehiro])
  {
    PhoneGuessed();
    assert Name(SamePhone) == "same_phone";
    HeadedFour(OutputHeader, [Some("09011111111")] + Take, [Some("09011111111")] + Dave,
      [Some("09022222222")] + David, [Some("09022222222")] + Takehiro);
  }

  /** The :same_email_or_phone scenario: the email groups, then the phone groups,
      so Take and Takehiro appear twice. */
  lemma {:induction false} GuessBySameEmailOrPhone()
    ensures GuessedByMatchingType(TestData, "same_email_or_phone") ==
      Ok([OutputHeader, [Some("take@example.com")] + Take, [Some("take@example.com")] + Takehiro,
          [Some("09011111111")] + Take, [Some("09011111111")] + Dave,
          [Some("09022222222")] + David, [Some("09022222222")] + Takehiro])
  {
    CombinedGuessed();
    assert Name(SameEmailOrPhone) == "same_email_or_phone";
    HeadedTwoFour(OutputHeader, [Some("take@example.com")] + Take, [Some("take@example.com")] + Takehiro,
      [Some("09011111111")] + Take, [Some("09011111111")] + Dave,
      [Some("09022222222")] + David, [Some("09022222222")] + Takehiro);
  }

  // ---------------------------------------------------------------------------
  // One value in an email column and in a phone column.

  const SharedHeader: Row := [Some("Email"), Some("Phone")]
  const First: Row := [Some("a"), Some("b")]
  const Second: Row := [Some("b"), Some("c")]
  const SharedData: Table := [SharedHeader, First, Second]

  lemma {:induction false} SharedDataRows()
    ensures |SharedData| > 0 && SharedData[0] == SharedHeader
    ensures DataRows(SharedData) == [First, Second]
  {
  }

  lemma {:induction false} SharedEmailColumns()
    ensures IdentifierPositions(SharedHeader, Email) == [0]
  {
    TestHeaderEmail();
    OnlyFirstOfTwo(Some("Email"), Some("Phone"), Email);
  }

  lemma {:induction false} SharedPhoneColumns()
    ensures IdentifierPositions(SharedHeader, Phone) == [1]
  {
    TestHeaderPhone();
    OnlySecondOfTwo(Some("Email"), Some("Phone"), Phone);
  }

  lemma {:induction false} SharedColumns()
    ensures SelectedIndexes(SharedHeader, SameEmail) == [0]
    ensures SelectedIndexes(SharedHeader, SamePhone) == [1]
    ensures SelectedIndexes(SharedHeader, SameEmailOrPhone) == [0, 1]
  {
    SharedColumnsEmail();
    SharedColumnsPhone();
    SharedColumnsBoth();
  }

  lemma {:induction false} SharedColumnsEmail()
    ensures SelectedIndexes(SharedHeader, SameEmail) == [0]
  {
    SharedEmailColumns();
  }

  lemma {:induction false} SharedColumnsPhone()
    ensures SelectedIndexes(SharedHeader, SamePhone) == [1]
  {
    SharedPhoneColumns();
  }

  lemma {:induction false} SharedColumnsBoth()
    ensures SelectedIndexes(SharedHeader, SameEmailOrPhone) == [0, 1]
  {
    SharedEmailColumns();
    SharedPhoneColumns();
  }

  lemma {:induction false} SharedCells()
    ensures ColumnAppends([First, Second], 0) == [Append("a", First), Append("b", Second)]
    ensures ColumnAppends([First, Second], 1) == [Append("b", First), Append("c", Second)]
  {
    ColumnAppendsTwo(First, Second, 0, "a", "b");
    ColumnAppendsTwo(First, Second, 1, "b", "c");
  }

  lemma {:induction false} SharedScans()
    ensures Scanned(SharedData, SameEmail) == [Append("a", First), Append("b", Second)]
    ensures Scanned(SharedData, SamePhone) == [Append("b", First), Append("c", Second)]
    ensures Scanned(SharedData, SameEmailOrPhone) ==
      [Append("a", First), Append("b", Second)] + [Append("b", First), Append("c", Second)]
  {
    SharedDataRows();
    SharedColumns();
    SharedCells();
    ScannedOneColumn(SharedData, SameEmail, 0);
    ScannedOneColumn(SharedData, SamePhone, 1);
    ScannedTwoColumns(SharedData, SameEmailOrPhone, 0, 1);
  }

  lemma {:induction false} PairOfPairs(a: Append, b: Append, c: Append, d: Append)
    ensures [a, b] + [c, d] == [a, b, c, d]
  {
  }

  lemma {:induction false} SharedCombinedScan()
    ensures Scanned(SharedData, SameEmailOrPhone) ==
      [Append("a", First), Append("b", Second), Append("b", First), Append("c", Second)]
  {
    SharedScans();
    PairOfPairs(Append("a", First), Append("b", Second), Append("b", First), Append("c", Second));
  }

  lemma {:induction false} SharedEmailBody()
    ensures Body(Scanned(SharedData, SameEmail)) == []
  {
    SharedScans();
    BodyOfTwoDistinct("a", "b", First, Second);
  }

  lemma {:induction false} SharedPhoneBody()
    ensures Body(Scanned(SharedData, SamePhone)) == []
  {
    SharedScans();
    BodyOfTwoDistinct("b", "c", First, Second);
  }

  lemma {:induction false} SharedCombinedBody()
    ensures Body(Scanned(SharedData, SameEmailOrPhone)) == [[Some("b")] + Second, [Some("b")] + First]
  {
    SharedCombinedScan();
    BodyOfVWWZ("a", "b", "c", First, Second, First, Second);
  }

  lemma {:induction false} SharedGuessed(t: MatchingType, body: seq<Row>)
    requires Body(Scanned(SharedData, t)) == body
    ensures GuessedByMatchingType(SharedData, Name(t)) == Ok([[Some("Identifier")] + SharedHeader] + body)
  {
    SharedDataRows();
    GuessedFromBody(SharedData, t, body);
  }

  lemma {:induction false} SharedSingleGuessed()
    ensures GuessedByMatchingType(SharedData, Name(SameEmail)) == Ok([[Some("Identifier")] + SharedHeader] + [])
    ensures GuessedByMatchingType(SharedData, Name(SamePhone)) == Ok([[Some("Identifier")] + SharedHeader] + [])
  {
    SharedEmailBody();
    SharedPhoneBody();
    SharedGuessed(SameEmail, []);
    SharedGuessed(SamePhone, []);
  }

  lemma {:induction false} SharedCombinedGuessed()
    ensures GuessedByMatchingType(SharedData, Name(SameEmailOrPhone)) ==
      Ok([[Some("Identifier")] + SharedHeader] + [[Some("b")] + Second, [Some("b")] + First])
  {
    SharedCombinedBody();
    SharedGuessed(SameEmailOrPhone, [[Some("b")] + Second, [Some("b")] + First]);
  }

  /** Neither single type groups anything, yet the combined type groups both
      rows under "b", which one has as its email and the other as its phone:
      the combined output is not the two single outputs put together. */
  lemma {:induction false} CombinedMergesSharedValue()
    ensures GuessedByMatchingType(SharedData, "same_email") == Ok([[Some("Identifier")] + SharedHeader])
    ensures GuessedByMatchingType(SharedData, "same_phone") == Ok([[Some("Identifier")] + SharedHeader])
    ensures GuessedByMatchingType(SharedData, "same_email_or_phone") ==
      Ok([[Some("Identifier")] + SharedHeader, [Some("b")] + Second, [Some("b")] + First])
  {
    SharedSingleGuessed();
    SharedCombinedGuessed();
    assert Name(SameEmail) == "same_email";
    assert Name(SamePhone) == "same_phone";
    assert Name(SameEmailOrPhone) == "same_email_or_phone";
    assert [[Some("Identifier")] + SharedHeader] + [] == [[Some("Identifier")] + SharedHeader];
    HeadedTwo([Some("Identifier")] + SharedHeader, [Some("b")] + Second, [Some("b")] + First);
  }
}
