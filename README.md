# Same-person guesser: the duplicate matcher, in Dafny

This project models `PeopleCSV#guess_by_matching_type` from the same-person guesser. The method takes an in-memory CSV table whose row 0 is the header and a matching type (`:same_email`, `:same_phone` or `:same_email_or_phone`). It returns a new table made of two parts:

- the output header `Identifier` followed by the input header;
- for every value that appears at least twice in the selected identifier columns, one row per match, each being that value followed by the matching person's row.

The model has these modules:

- `Tables` (tables.dfy) holds the data model. A table is a sequence of rows, and a row is a sequence of `Option<string>` cells, where `None` is Ruby's `nil`. `CellAt` reads a cell the way Ruby's `Array#[]` does, so a position past the end reads as nil.
- `PeopleCsv` (people_csv.dfy) covers `PeopleCSV`:
  - `MATCHING_TYPES` and `IDENTIFIERS`;
  - the `case` dispatch, with its `InvalidMatchingType` error;
  - `output_header_row`;
  - the two loops that collect identifier positions;
  - `guess_by_indexes` and its nested `each` loops.

  Each loop is a `method`, proved against a specification function.
- `Grouping` (grouping.dfy) models `GroupedPeople < Hash` as a class. The field `order` holds the hash's key insertion order and the field `members` holds its contents. `initialize`, `add_from_csv_by_index`, `add!` and `delete_non_grouped_data!` are methods that update those fields. Each method is proved equal to a functional specification folded over the input (`WithPerson`, `WithColumn`, `WithColumns`, `WithoutSingletons`). `Flattened` lists the tagged rows group after group.
- `GroupingReference` (reference.dfy) is an independent definition of the expected output, without a hash:
  - `Appends` lists the `add!` calls the scans make, as (value, row) pairs;
  - `RowsOf`, `FirstSeen` and `Survivors` say which groups there are and in what order;
  - `Body` is the output the appends call for.

  `GroupedIsReference` proves that the hash-based grouping computes exactly this body.
- `ReferenceProperties` (reference_properties.dfy) proves properties of that reference: the rows it emits, the size filter, group order, contiguity of groups, and how it splits when two scans share no value.
- `PeopleCsvProperties` (properties.dfy) states those properties for the result of `guess_by_matching_type` itself.
- `PeopleCsvExamples` (examples.dfy) proves the outputs of the three scenarios of the repository's tests on their five-row table. It also proves the output for a table on which the combined type merges an email value with a phone value.

## Model

| member | source | states |
|---|---|---|
| PeopleCsv.Name | lib/people_csv.rb:9 | each of the three matching types is named by one of the MATCHING_TYPES symbols |
| PeopleCsv.ParseMatchingType | lib/people_csv.rb:31-40 | a symbol is accepted exactly when it is one of MATCHING_TYPES, and the type accepted is the one that symbol names |
| PeopleCsv.IdentifierPositions | lib/people_csv.rb:11-14 | a position is listed exactly when it is inside the header and its header cell is one of the category's synonyms (a nil cell never is); the positions are strictly ascending |
| PeopleCsv.IdentifierIndexes | lib/people_csv.rb:55-73 | walking the header and appending each qualifying position yields exactly the ascending synonym positions |
| PeopleCsv.SelectedIndexes | lib/people_csv.rb:31-37 | the positions handed to guess_by_indexes are exactly those whose header names an identifier of the type; for the combined type they are the email positions followed by the phone positions; for a single type they are ascending |
| PeopleCsv.EmitGroups | lib/people_csv.rb:84-88 | the nested each loops produce the header row followed by `[value] + row` for every row of every listed group, group after group and in append order within a group |
| PeopleCsv.GuessByIndexes | lib/people_csv.rb:79-91 | the result is the output header row followed by the flattened GroupedPeople built from the table and the indexes |
| PeopleCsv.GuessedByMatchingType | lib/people_csv.rb:30-41 | an unknown symbol raises InvalidMatchingType, and only then (even on an empty table); the call succeeds exactly for a known symbol and a table with a header row; on success the first row is `Identifier` followed by the input header |
| PeopleCsv.GuessByMatchingType | lib/people_csv.rb:30-41 | the method returns or raises exactly what GuessedByMatchingType says |
| Grouping.WithPerson | lib/people_csv.rb:133-142 | a nil value leaves the hash unchanged; otherwise the person is appended to the rows under the value, every other value's rows are unchanged, a new value is added at the end of the key order while a known value leaves the key order as it was, and the hash stays well formed |
| Grouping.WithColumn | lib/people_csv.rb:125-131 | scanning the data rows keeps the hash well formed (keys in `order` exactly the hash's keys, each once) |
| Grouping.WithColumns | lib/people_csv.rb:114-116 | scanning every index in turn keeps the hash well formed |
| Grouping.KeptKeys | lib/people_csv.rb:145-149 | a key is kept exactly when it was listed and its group has at least two rows; kept keys stay distinct |
| Grouping.WithoutSingletons | lib/people_csv.rb:145-149 | the groups left are exactly those with at least two rows, with their rows untouched, and the hash stays well formed |
| Grouping.GroupedPeople.constructor | lib/people_csv.rb:113-121 | the new hash is well formed and equals one column scan per index, in index order, with the singleton groups then deleted |
| Grouping.GroupedPeople.AddFromCsvByIndex | lib/people_csv.rb:125-131 | every row except row 0 is added under its cell at the index, in row order, and the hash stays well formed |
| Grouping.GroupedPeople.Add | lib/people_csv.rb:133-142 | the hash becomes WithPerson of the old hash: nil ignored, new key inserted last, existing group appended to |
| Grouping.GroupedPeople.DeleteNonGroupedData | lib/people_csv.rb:145-149 | after the walk the hash holds exactly the groups of two or more rows, in their original key order |
| GroupingReference.ColumnAppends | lib/people_csv.rb:125-131 | one column scan appends a row under a value exactly when the row is a data row whose cell at the index is that value |
| GroupingReference.Appends | lib/people_csv.rb:114-116 | the scans append a row under a value exactly when the row is a data row holding that value at one of the indexes |
| GroupingReference.RowsOf | lib/people_csv.rb:136-140 | the rows under a value are exactly those appended under it |
| GroupingReference.FirstSeen | lib/people_csv.rb:137-138 | the group keys are the appended values, each once |
| GroupingReference.Survivors | lib/people_csv.rb:145-149 | a value survives exactly when it was appended at least twice; survivors are distinct |
| GroupingReference.RepresentsWithPerson | lib/people_csv.rb:133-142 | one add! call turns the hash of a list of appends into the hash of that list with one more append |
| GroupingReference.RepresentsWithColumn | lib/people_csv.rb:125-131 | one column scan turns the hash of some appends into the hash of those appends followed by the scan's appends |
| GroupingReference.RepresentsWithColumns | lib/people_csv.rb:114-116 | all column scans build the hash of the appends of every index, index by index |
| GroupingReference.KeptKeysAreSurvivors | lib/people_csv.rb:145-149 | the keys delete_non_grouped_data! keeps are the reference survivors |
| GroupingReference.FlattenKeysIsTagAll | lib/people_csv.rb:84-88 | emitting the groups of the hash gives the reference's tagged rows |
| GroupingReference.GroupedIsReference | lib/people_csv.rb:110-149 | the body built through GroupedPeople equals the reference body of the appends its scans make |
| ReferenceProperties.TaggedRows | lib/people_csv.rb:85-87 | a group emits one row per member, each being the value followed by that member, in order |
| ReferenceProperties.BodyRowsAreAppends | lib/people_csv.rb:84-88 | every body row is `[k] + r` for a row r that was appended under k |
| ReferenceProperties.BodyWithIdentifier | lib/people_csv.rb:144-149 | the body rows tagged k are all rows appended under k, in append order, when there are at least two, and none otherwise |
| ReferenceProperties.BodyEmpty | lib/people_csv.rb:145-149 | the body is empty exactly when no value was appended twice |
| ReferenceProperties.FirstSeenOrdered | lib/people_csv.rb:136-138 | the keys are listed in the order their value was first appended |
| ReferenceProperties.SurvivorsOrdered | lib/people_csv.rb:145-149 | deleting groups keeps the remaining keys in first-seen order |
| ReferenceProperties.BodyInFirstSeenOrder | lib/people_csv.rb:84-87 | down the body, the first-append position of the row's value never decreases |
| ReferenceProperties.BodyGroupsContiguous | lib/people_csv.rb:84-88 | two body rows with the same value have only rows of that value between them |
| ReferenceProperties.BodyConcat | lib/people_csv.rb:37 | when two lists of appends share no value, the body of both together is the first body followed by the second |
| ReferenceProperties.AppendsConcat | lib/people_csv.rb:114-116 | scanning the indexes x then y makes the appends of x followed by those of y |
| ReferenceProperties.RowsAreMatches | lib/people_csv.rb:126-129 | the rows appended under k are, index by index and in row order, the data rows whose cell there is k |
| PeopleCsvProperties.GuessedIsReference | lib/people_csv.rb:30-41 | for every valid type and every table with a header row, the result is the output header followed by the reference body of the type's scans |
| PeopleCsvProperties.OutputIsReference | lib/people_csv.rb:79-91 | any successful result comes from a table with a header row and is the output header followed by the reference body |
| PeopleCsvProperties.OutputRowsFaithful | lib/people_csv.rb:126-129 | every row after the header is `[k] + r`, where k is not nil, r is an unchanged data row (never the header) and r's cell at some selected position is k |
| PeopleCsvProperties.OutputRowsUnderIdentifier | lib/people_csv.rb:133-149 | the output rows tagged k are exactly the rows matching k, index by index and in row order, when there are at least two matches (a row matching in two columns counts twice), and none otherwise |
| PeopleCsvProperties.OnlyHeaderIffNoGroup | lib/people_csv.rb:80-90 | the output is the header row alone exactly when no value matches twice |
| PeopleCsvProperties.NoSelectsNoIndexes | lib/people_csv.rb:55-73 | a header with no qualifying cell selects no position |
| PeopleCsvProperties.NoIdentifierColumnOnlyHeader | lib/people_csv.rb:51-53 | with no identifier column in the header, the output is exactly `Identifier` followed by the header |
| PeopleCsvProperties.OutputIdentifiersPresent | lib/people_csv.rb:84-86 | every row after the header begins with a non-nil identifier cell, and that cell is the value the ordering and grouping properties speak of |
| PeopleCsvProperties.OutputInFirstSeenOrder | lib/people_csv.rb:84-87 | groups appear in the order their value was first met, scanning index by index and then row by row |
| PeopleCsvProperties.OutputGroupsContiguous | lib/people_csv.rb:84-88 | the rows of one group are adjacent in the output |
| PeopleCsvProperties.NeverAppended | lib/people_csv.rb:133-134 | a value that no selected cell holds never becomes a key |
| PeopleCsvProperties.DisjointKeys | lib/people_csv.rb:114-116 | scans of positions that share no value create no common key |
| PeopleCsvProperties.CombinedDecomposes | lib/people_csv.rb:37 | when the email and phone columns share no value, the combined body is the email body followed by the phone body |
| PeopleCsvExamples.GuessBySameEmail | spec/lib/people_csv_spec.rb:17-32 | on the test table, :same_email yields the header, then Take and Takehiro under take@example.com |
| PeopleCsvExamples.GuessBySamePhone | spec/lib/people_csv_spec.rb:34-51 | on the test table, :same_phone yields Take and Dave under 09011111111, then David and Takehiro under 09022222222 |
| PeopleCsvExamples.GuessBySameEmailOrPhone | spec/lib/people_csv_spec.rb:53-72 | on the test table, the combined type yields the email groups followed by the phone groups |
| PeopleCsvExamples.CombinedMergesSharedValue | lib/people_csv.rb:36-37 | on a table where one row's phone equals another row's email, neither single type groups anything, yet the combined type groups both rows under that value |

## Left out

- The command-line front end (bin/same_person_guesser.rb) is not part of this model. It parses arguments, reads and writes CSV files, and derives the output file name. Its check of the mode string repeats the membership test in `ParseMatchingType`.
- grouping.rb is a stale batch script and is not part of this model. It calls `PeopleCSV#group_by_matching_type` (grouping.rb:13), a method that no longer exists, so it fails with a NoMethodError after reading its first input and before writing anything.
- examples/process_examples.rb is a batch driver that only reads input files, calls the core and writes output files. It is not part of this model.
- CSV parsing, such as whether an empty field reads as nil or as an empty string, is not modelled. The table is taken as given, with `Option<string>` cells.
- The matching type is a Ruby symbol. The model takes the symbol's name as a string.
- `PeopleCSV < Array` and `GroupedPeople < Hash` are subclasses in Ruby. The model uses a sequence of rows and a class with an explicit key order and a map.
- The trailing `super` in `GroupedPeople#initialize` runs after grouping and is not modelled. On Ruby 3.1 to 3.3 it hands the keyword arguments to `Hash#initialize`, which uses them only as the hash's default value, and nothing reads that default. On Ruby versions whose `Hash#initialize` accepts only a `capacity:` keyword, the call would raise `ArgumentError` instead. The source does not pin a Ruby version, so the model follows the older behaviour.
- PeopleCsv.GuessedByMatchingType: on an empty table with a valid type, Ruby fails with a NoMethodError when it iterates the nil header. The model reports this as `Err(MissingHeaderRow)` and does not distinguish exception classes further.
- Grouping.GroupedPeople.DeleteNonGroupedData: Ruby deletes entries from the hash while iterating it. The model walks a snapshot of the key order, deletes from a local copy and stores the copy when the walk is done. No caller can observe the intermediate states.
- PeopleCsv.EmitGroups: the nested `each` loops of `guess_by_indexes` are placed in a method of their own. Rows are appended to a fresh result list, as in the source.
- Cells are values, so sharing between the input and the output is not modelled. Each output row is a new array (lib/people_csv.rb:86). Its first cell, the identifier, is the hash key that `grouped_people.each` yields (lib/people_csv.rb:84). Ruby's `Hash#[]=` stored that key as a frozen copy of the input's unfrozen string (lib/people_csv.rb:138), so mutating it in place raises FrozenError and cannot reach the input. The other cells are the input's own objects: the header cells after `Identifier` (lib/people_csv.rb:52) and every cell of the person row in a body row. A caller that mutates one of those in place (for example with `upcase!`) also changes the input table, and value semantics cannot express that.
