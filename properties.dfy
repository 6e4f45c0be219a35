/**
 * What guess_by_matching_type promises, stated on its result for a valid
 * matching type and a table with a header row.
 */
module PeopleCsvProperties {
  import opened Tables
  import opened Grouping
  import opened PeopleCsv
  import opened GroupingReference
  import opened ReferenceProperties

  /** The data rows and the positions the scans of matching type `t` read. */
  function Scanned(table: Table, t: MatchingType): seq<Append>
    requires |table| > 0
  {
    Appends(DataRows(table), SelectedIndexes(table[0], t))
  }

  /** For a valid type and a table with a header row the call succeeds, and its
      result is the output header followed by the reference body of the appends
      the scans make. */
  lemma GuessedIsReference(table: Table, t: MatchingType)
    requires |table| > 0
    ensures GuessedByMatchingType(table, Name(t)) == Ok([OutputHeaderRow(table[0])] + Body(Scanned(table, t)))
  {
    assert ParseMatchingType(Name(t)) == Some(t);
    GroupedIsReference(table, SelectedIndexes(table[0], t));
  }

  /** The successful result, restated on the reference. */
  lemma OutputIsReference(table: Table, t: MatchingType, out: Table)
    requires GuessedByMatchingType(table, Name(t)) == Ok(out)
    ensures |table| > 0
    ensures out == [OutputHeaderRow(table[0])] + Body(Scanned(table, t))
  {
    GuessedIsReference(table, t);
  }

  lemma HeadedRowsAreAppends(header: Row, appends: seq<Append>, out: Table)
    requires out == [header] + Body(appends)
    ensures forall p :: 1 <= p < |out| ==> |out[p]| >= 1 && out[p][0].Some? && Append(out[p][0].value, out[p][1..]) in appends
  {
    BodyRowsAreAppends(appends);
    forall p | 1 <= p < |out|
      ensures out[p] in Body(appends)
    {
      assert out[p] == Body(appends)[p - 1];
    }
  }

  /** Every row after the header is `[k] + r` where `r` is a data row, kept as
      it was, whose cell at one of the selected positions is `k`; in particular
      the Identifier cell is never nil. */
  lemma OutputRowsFaithful(table: Table, t: MatchingType, out: Table)
    requires GuessedByMatchingType(table, Name(t)) == Ok(out)
    ensures forall p :: 1 <= p < |out| ==>
      && |out[p]| >= 1
      && out[p][0].Some?
      && out[p][1..] in DataRows(table)
      && exists i :: i in SelectedIndexes(table[0], t) && CellAt(out[p][1..], i) == out[p][0]
  {
    OutputIsReference(table, t, out);
    HeadedRowsAreAppends(OutputHeaderRow(table[0]), Scanned(table, t), out);
  }

  /** The size filter: the output rows tagged `k` are exactly the rows that
      matched `k`, column by column and in row order within a column, if at
      least two did, and there are none otherwise. A row matching twice counts twice. */
  lemma OutputRowsUnderIdentifier(table: Table, t: MatchingType, out: Table, k: string)
    requires GuessedByMatchingType(table, Name(t)) == Ok(out)
    ensures var matches := Matches(DataRows(table), SelectedIndexes(table[0], t), k);
      WithIdentifier(out[1..], k) == if |matches| >= 2 then Tagged(k, matches) else []
  {
    OutputIsReference(table, t, out);
    assert out[1..] == Body(Scanned(table, t));
    BodyWithIdentifier(Scanned(table, t), k);
    RowsAreMatches(DataRows(table), SelectedIndexes(table[0], t), k);
  }

  lemma HeadedBodyEmpty(header: Row, body: seq<Row>, out: Table, appends: seq<Append>, rows: seq<Row>, indexes: seq<nat>)
    requires out == [header] + body
    requires body == [] <==> forall k :: |RowsOf(appends, k)| < 2
    requires forall k :: RowsOf(appends, k) == Matches(rows, indexes, k)
    ensures |out| == 1 ==> forall k :: |Matches(rows, indexes, k)| < 2
    ensures (forall k :: |Matches(rows, indexes, k)| < 2) ==> |out| == 1
  {
    assert |out| == 1 + |body|;
    if body == [] {
      forall k
        ensures |Matches(rows, indexes, k)| < 2
      {
        assert RowsOf(appends, k) == Matches(rows, indexes, k);
      }
      assert |out| == 1;
    } else {
      var k :| |RowsOf(appends, k)| >= 2;
      assert RowsOf(appends, k) == Matches(rows, indexes, k);
    }
  }

  lemma ScannedRowsAreMatches(rows: seq<Row>, indexes: seq<nat>)
    ensures forall k :: RowsOf(Appends(rows, indexes), k) == Matches(rows, indexes, k)
  {
    forall k
      ensures RowsOf(Appends(rows, indexes), k) == Matches(rows, indexes, k)
    {
      RowsAreMatches(rows, indexes, k);
    }
  }

  /** The output is the header row alone exactly when no value matched twice. */
  lemma OnlyHeaderIffNoGroup(table: Table, t: MatchingType, out: Table)
    requires GuessedByMatchingType(table, Name(t)) == Ok(out)
    ensures |out| == 1 ==> forall k :: |Matches(DataRows(table), SelectedIndexes(table[0], t), k)| < 2
    ensures (forall k :: |Matches(DataRows(table), SelectedIndexes(table[0], t), k)| < 2) ==> |out| == 1
  {
    OutputIsReference(table, t, out);
    ScannedRowsAreMatches(DataRows(table), SelectedIndexes(table[0], t));
    BodyEmpty(Scanned(table, t));
    HeadedBodyEmpty(OutputHeaderRow(table[0]), Body(Scanned(table, t)), out, Scanned(table, t), DataRows(table), SelectedIndexes(table[0], t));
  }

  lemma {:induction false} NoIdentifierNoPositions(header: Row, c: Category)
    requires forall i :: 0 <= i < |header| ==> !IsIdentifier(header[i], c)
    ensures IdentifierPositions(header, c) == []
    decreases |header|
  {
    if header != [] {
      NoIdentifierNoPositions(header[..|header| - 1], c);
    }
  }

  /** A header without a qualifying cell selects no column. */
  lemma NoSelectsNoIndexes(header: Row, t: MatchingType)
    requires forall i :: 0 <= i < |header| ==> !Selects(t, header[i])
    ensures SelectedIndexes(header, t) == []
  {
    if t != SamePhone {
      NoIdentifierNoPositions(header, Email);
    }
    if t != SameEmail {
      NoIdentifierNoPositions(header, Phone);
    }
  }

  /** With no identifier column in the header the output is the header row alone. */
  lemma NoIdentifierColumnOnlyHeader(table: Table, t: MatchingType, out: Table)
    requires GuessedByMatchingType(table, Name(t)) == Ok(out)
    requires forall i :: 0 <= i < |table[0]| ==> !Selects(t, table[0][i])
    ensures out == [OutputHeaderRow(table[0])]
  {
    OutputIsReference(table, t, out);
    NoSelectsNoIndexes(table[0], t);
    assert Scanned(table, t) == [];
    assert Body([]) == [];
  }

  /** The Identifier of every row after the header is that row's first cell,
      which is never nil: the ordering and grouping facts below, stated over
      `Identifier`, speak of the actual identifier value. */
  lemma OutputIdentifiersPresent(table: Table, t: MatchingType, out: Table)
    requires GuessedByMatchingType(table, Name(t)) == Ok(out)
    ensures forall p :: 1 <= p < |out| ==> |out[p]| >= 1 && out[p][0] == Some(Identifier(out[p]))
  {
    OutputRowsFaithful(table, t, out);
  }

  lemma HeadedFirstSeenOrder(header: Row, body: seq<Row>, keys: seq<string>, out: Table)
    requires out == [header] + body
    requires forall p, q :: 0 <= p <= q < |body| ==> FirstIndex(keys, Identifier(body[p])) <= FirstIndex(keys, Identifier(body[q]))
    ensures forall p, q :: 1 <= p <= q < |out| ==> FirstIndex(keys, Identifier(out[p])) <= FirstIndex(keys, Identifier(out[q]))
  {
    forall p, q | 1 <= p <= q < |out|
      ensures FirstIndex(keys, Identifier(out[p])) <= FirstIndex(keys, Identifier(out[q]))
    {
      assert out[p] == body[p - 1];
      assert out[q] == body[q - 1];
    }
  }

  /** Groups appear in the order their value was first met, scanning index by
      index and row by row: down the output, the first-seen position of the
      Identifier never decreases. */
  lemma OutputInFirstSeenOrder(table: Table, t: MatchingType, out: Table)
    requires GuessedByMatchingType(table, Name(t)) == Ok(out)
    ensures forall p, q :: 1 <= p <= q < |out| ==>
      FirstIndex(Keys(Scanned(table, t)), Identifier(out[p])) <= FirstIndex(Keys(Scanned(table, t)), Identifier(out[q]))
  {
    OutputIsReference(table, t, out);
    BodyInFirstSeenOrder(Scanned(table, t));
    HeadedFirstSeenOrder(OutputHeaderRow(table[0]), Body(Scanned(table, t)), Keys(Scanned(table, t)), out);
  }

  lemma HeadedGroupsContiguous(header: Row, appends: seq<Append>, out: Table, p: nat, m: nat, q: nat)
    requires out == [header] + Body(appends)
    requires 1 <= p <= m <= q < |out|
    requires Identifier(out[p]) == Identifier(out[q])
    ensures Identifier(out[m]) == Identifier(out[p])
  {
    BodyGroupsContiguous(appends, p - 1, m - 1, q - 1);
  }

  /** The rows of one group are adjacent in the output. */
  lemma OutputGroupsContiguous(table: Table, t: MatchingType, out: Table, p: nat, m: nat, q: nat)
    requires GuessedByMatchingType(table, Name(t)) == Ok(out)
    requires 1 <= p <= m <= q < |out|
    requires Identifier(out[p]) == Identifier(out[q])
    ensures Identifier(out[m]) == Identifier(out[p])
  {
    OutputIsReference(table, t, out);
    HeadedGroupsContiguous(OutputHeaderRow(table[0]), Scanned(table, t), out, p, m, q);
  }

  /** No value read at a position of `xs` equals a value read at a position of `ys`. */
  ghost predicate NoSharedValue(rows: seq<Row>, xs: seq<nat>, ys: seq<nat>)
  {
    forall r, s, i, j :: r in rows && s in rows && i in xs && j in ys && CellAt(r, i).Some? ==> CellAt(r, i) != CellAt(s, j)
  }

  /** A value that no cell at the positions `indexes` holds is never appended. */
  lemma NeverAppended(rows: seq<Row>, indexes: seq<nat>, k: string)
    requires forall s, j :: s in rows && j in indexes ==> CellAt(s, j) != Some(k)
    ensures k !in Keys(Appends(rows, indexes))
  {
    var appends := Appends(rows, indexes);
    forall p | 0 <= p < |appends|
      ensures Keys(appends)[p] != k
    {
      assert appends[p] in appends;
    }
  }

  /** Scans of positions that share no value append no common value. */
  lemma DisjointKeys(rows: seq<Row>, xs: seq<nat>, ys: seq<nat>)
    requires NoSharedValue(rows, xs, ys)
    ensures forall k :: k in Keys(Appends(rows, xs)) ==> k !in Keys(Appends(rows, ys))
  {
    var e := Appends(rows, xs);
    forall k | k in Keys(e)
      ensures k !in Keys(Appends(rows, ys))
    {
      var n :| 0 <= n < |e| && Keys(e)[n] == k;
      assert e[n] in e;
      NeverAppended(rows, ys, k);
    }
  }

  lemma HeadedConcat(e: seq<Append>, p: seq<Append>, both: Table, emails: Table, phones: Table)
    requires |both| > 0 && both[1..] == Body(e + p)
    requires |emails| > 0 && emails[1..] == Body(e)
    requires |phones| > 0 && phones[1..] == Body(p)
    requires forall k :: k in Keys(e) ==> k !in Keys(p)
    ensures both[1..] == emails[1..] + phones[1..]
  {
    BodyConcat(e, p);
  }

  /** When the email columns and the phone columns share no value, the combined
      output is the email output followed by the phone output (headers aside). */
  lemma CombinedDecomposes(table: Table, both: Table, emails: Table, phones: Table)
    requires GuessedByMatchingType(table, Name(SameEmailOrPhone)) == Ok(both)
    requires GuessedByMatchingType(table, Name(SameEmail)) == Ok(emails)
    requires GuessedByMatchingType(table, Name(SamePhone)) == Ok(phones)
    requires NoSharedValue(DataRows(table), IdentifierPositions(table[0], Email), IdentifierPositions(table[0], Phone))
    ensures both[1..] == emails[1..] + phones[1..]
  {
    var rows, header := DataRows(table), table[0];
    var xs, ys := IdentifierPositions(header, Email), IdentifierPositions(header, Phone);
    OutputIsReference(table, SameEmailOrPhone, both);
    OutputIsReference(table, SameEmail, emails);
    OutputIsReference(table, SamePhone, phones);
    AppendsConcat(rows, xs, ys);
    DisjointKeys(rows, xs, ys);
    HeadedConcat(Appends(rows, xs), Appends(rows, ys), both, emails, phones);
  }
}
