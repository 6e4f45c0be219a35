/**
 * PeopleCSV#guess_by_matching_type: pick the identifier columns for a
 * matching type, group the data rows by their values in those columns, and
 * emit every row of every group of two or more, tagged with the shared value,
 * under the header ["Identifier"] + header.
 */
module PeopleCsv {
  import opened Tables
  import opened Grouping

  /** The three symbols of MATCHING_TYPES. */
  datatype MatchingType = SameEmail | SamePhone | SameEmailOrPhone

  /** A call either returns the output table or raises. */
  datatype Error =
    | InvalidMatchingType  // PeopleCSV::InvalidMatchingType
    | MissingHeaderRow     // the table has no row 0, so header_row is nil

  datatype Result<+T> = Ok(value: T) | Err(error: Error)

  /** MATCHING_TYPES, by the symbols' names. */
  const MatchingTypes: seq<string> := ["same_email", "same_phone", "same_email_or_phone"]

  function Name(t: MatchingType): (s: string)
    ensures s in MatchingTypes
  {
    match t
    case SameEmail => "same_email"
    case SamePhone => "same_phone"
    case SameEmailOrPhone => "same_email_or_phone"
  }

  /** The `case` of guess_by_matching_type: the symbol named `s`, if it is one of the three. */
  function ParseMatchingType(s: string): (t: Option<MatchingType>)
    ensures t.Some? <==> s in MatchingTypes
    ensures t.Some? ==> Name(t.value) == s
  {
    if s == "same_email" then Some(SameEmail)
    else if s == "same_phone" then Some(SamePhone)
    else if s == "same_email_or_phone" then Some(SameEmailOrPhone)
    else None
  }

  /** The two keys of IDENTIFIERS. */
  datatype Category = Email | Phone

  /** The header names IDENTIFIERS lists for a category. */
  function Synonyms(c: Category): seq<string>
  {
    match c
    case Email => ["Email", "Email1", "Email2"]
    case Phone => ["Phone", "Phone1", "Phone2"]
  }

  /** `IDENTIFIERS[c].include?(header_column)`; a nil header cell is never included. */
  predicate IsIdentifier(headerColumn: Option<string>, c: Category)
  {
    headerColumn.Some? && headerColumn.value in Synonyms(c)
  }

  /** The positions of the header whose name is a synonym for `c`, in ascending order. */
  function IdentifierPositions(header: Row, c: Category): (r: seq<nat>)
    ensures forall i :: i in r <==> 0 <= i < |header| && IsIdentifier(header[i], c)
    ensures forall p, q :: 0 <= p < q < |r| ==> r[p] < r[q]
    decreases |header|
  {
    if header == [] then []
    else
      var earlier := IdentifierPositions(header[..|header| - 1], c);
      ElementsBelow(earlier, |header| - 1);
      earlier + if IsIdentifier(header[|header| - 1], c) then [|header| - 1] else []
  }

  /** Every element below `n`, position by position. */
  lemma ElementsBelow(s: seq<nat>, n: nat)
    requires forall i :: i in s ==> i < n
    ensures forall p :: 0 <= p < |s| ==> s[p] < n
  {
    forall p | 0 <= p < |s|
      ensures s[p] < n
    {
      assert s[p] in s;
    }
  }

  /** One more header cell looked at. */
  lemma PositionsStep(header: Row, i: nat, c: Category)
    requires i < |header|
    ensures IdentifierPositions(header[..i + 1], c) ==
      IdentifierPositions(header[..i], c) + if IsIdentifier(header[i], c) then [i] else []
  {
    assert header[..i + 1][..i] == header[..i];
  }

  /** email_identifier_indexes and phone_identifier_indexes: append each qualifying position while walking the header. */
  method IdentifierIndexes(header: Row, c: Category) returns (res: seq<nat>)
    ensures res == IdentifierPositions(header, c)
  {
    res := [];
    var i := 0;
    while i < |header|
      invariant 0 <= i <= |header|
      invariant res == IdentifierPositions(header[..i], c)
    {
      PositionsStep(header, i, c);
      if IsIdentifier(header[i], c) {
        res := res + [i];
      }
      i := i + 1;
    }
    assert header[..|header|] == header;
  }

  /** Whether a header cell qualifies a column under a matching type. */
  predicate Selects(t: MatchingType, headerColumn: Option<string>)
  {
    match t
    case SameEmail => IsIdentifier(headerColumn, Email)
    case SamePhone => IsIdentifier(headerColumn, Phone)
    case SameEmailOrPhone => IsIdentifier(headerColumn, Email) || IsIdentifier(headerColumn, Phone)
  }

  /** The indexes guess_by_matching_type hands to guess_by_indexes; the combined
      type takes the email positions first, then the phone positions. */
  function SelectedIndexes(header: Row, t: MatchingType): (r: seq<nat>)
    ensures forall i :: i in r <==> 0 <= i < |header| && Selects(t, header[i])
    ensures t == SameEmailOrPhone ==> r == IdentifierPositions(header, Email) + IdentifierPositions(header, Phone)
    ensures t != SameEmailOrPhone ==> forall p, q :: 0 <= p < q < |r| ==> r[p] < r[q]
  {
    match t
    case SameEmail => IdentifierPositions(header, Email)
    case SamePhone => IdentifierPositions(header, Phone)
    case SameEmailOrPhone => IdentifierPositions(header, Email) + IdentifierPositions(header, Phone)
  }

  /** output_header_row: ['Identifier'].concat(header_row). */
  function OutputHeaderRow(header: Row): Row
  {
    [Some("Identifier")] + header
  }

  /** What guess_by_indexes returns. */
  function GuessedByIndexes(table: Table, indexes: seq<nat>): seq<Row>
    requires |table| > 0
  {
    [OutputHeaderRow(table[0])] + Flattened(Grouped(table, indexes))
  }

  /** The two `each` loops of guess_by_indexes: after `header`, `[identifier_value].concat(row)`
      for every row of every group listed in `keys`, group by group. */
  method EmitGroups(header: Row, keys: seq<string>, groups: map<string, seq<Row>>) returns (res: Table)
    requires forall k :: k in keys ==> k in groups
    ensures res == [header] + FlattenKeys(keys, groups)
  {
    res := [header];
    var i := 0;
    while i < |keys|
      invariant 0 <= i <= |keys|
      invariant res == [header] + FlattenKeys(keys[..i], groups)
    {
      var identifierValue := keys[i];
      var rows := groups[identifierValue];
      ghost var done := res;
      var j := 0;
      while j < |rows|
        invariant 0 <= j <= |rows|
        invariant res == done + Tagged(identifierValue, rows[..j])
      {
        TaggedStep(done, res, identifierValue, rows, j);
        res := res + [[Some(identifierValue)] + rows[j]];
        j := j + 1;
      }
      assert rows[..|rows|] == rows;
      FlattenKeysStep([header], done, keys, groups, i);
      i := i + 1;
    }
    assert keys[..|keys|] == keys;
  }

  /** guess_by_indexes: the output header, then every surviving group of the grouping, tagged. */
  method GuessByIndexes(table: Table, indexes: seq<nat>) returns (res: Table)
    requires |table| > 0
    ensures res == GuessedByIndexes(table, indexes)
  {
    var header := OutputHeaderRow(table[0]);
    var groupedPeople := new GroupedPeople(table, indexes);
    res := EmitGroups(header, groupedPeople.order, groupedPeople.members);
  }

  /** What guess_by_matching_type returns or raises, for the symbol named `matchingType`. */
  function GuessedByMatchingType(table: Table, matchingType: string): (r: Result<Table>)
    ensures matchingType !in MatchingTypes <==> r == Err(InvalidMatchingType)
    ensures r.Ok? <==> matchingType in MatchingTypes && |table| > 0
    ensures r.Ok? ==> |r.value| >= 1 && r.value[0] == [Some("Identifier")] + table[0]
  {
    match ParseMatchingType(matchingType)
    case None => Err(InvalidMatchingType)
    case Some(t) =>
      if |table| == 0 then Err(MissingHeaderRow)
      else Ok(GuessedByIndexes(table, SelectedIndexes(table[0], t)))
  }

  /** guess_by_matching_type: the type is checked before any column is looked at. */
  method GuessByMatchingType(table: Table, matchingType: string) returns (r: Result<Table>)
    ensures r == GuessedByMatchingType(table, matchingType)
  {
    var t := ParseMatchingType(matchingType);
    if t.None? {
      return Err(InvalidMatchingType);
    }
    if |table| == 0 {
      return Err(MissingHeaderRow);
    }
    var indexes: seq<nat>;
    match t.value {
      case SameEmail =>
        indexes := IdentifierIndexes(table[0], Email);
      case SamePhone =>
        indexes := IdentifierIndexes(table[0], Phone);
      case SameEmailOrPhone =>
        var emailIndexes := IdentifierIndexes(table[0], Email);
        var phoneIndexes := IdentifierIndexes(table[0], Phone);
        indexes := emailIndexes + phoneIndexes;
    }
    var output := GuessByIndexes(table, indexes);
    r := Ok(output);
  }
}
