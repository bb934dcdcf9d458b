# WTU annotation engine, modelled in Dafny

This project models the annotation engine of WTU, a tool that annotates web tables. A table record is
a column-major grid of strings (`relation`) overlaid with a map from region keys to annotation lists.
The keys are `":"` for the whole table, `"c:"` for column c, `":r"` for row r and `"c:r"` for a cell.
Tasks run one after another over each table and append annotations to regions:

- **LiteralNormalization** recognises quantities with units, dates in nine notations and plain numbers.
- **EntityLinking** looks each cell up in a mention index and ranks the entities it finds.
- **LiteralLinking** matches the normalized literals of a row against the properties of the row's linked entities.
- **ClassLinking** looks up the header row in an index of class names.

The model also covers the `URI` helper with its fixed prefix table, the validation of task descriptors
and the run-until-falsy output rule of the driver `wtu.py`, and the column property vote of the
evaluation script `property_linking.py`.

Module by module:

- `Common`: `Option` and `Result`. Every Python exception the modelled code can raise is an `Error` value.
- `Text`: decimal formatting and parsing, ASCII lower-casing and whitespace runs.
- `Uri` (`wtu/util.py`): URI parsing and the short and long forms.
- `Annotations`: annotation records and `find_annotations`.
  - A record is an envelope: `source`, `task` and `type`, each of which may be absent.
  - A closed `Body` variant holds each task's own keys.
- `Tables` (`wtu/table.py`): the record as a `class Table`, described below.
- `Dates`, `Units`, `Numbers` and `LiteralNormalization` (`wtu/task/literalnormalization.py`):
  - each regular expression is written as its own hand-coded recogniser;
  - `run` is the method that appends their hypotheses to the cells.
- `EntityLinking`, `LiteralLinking` and `ClassLinking`: the other three tasks.
  - Each backend's index is given as a map.
  - Each task's `run` is a method on the `Table`.
  - Each method is proved against a function that states what the loop computes.
- `Pipeline` (`wtu.py`): the descriptor loop, the loop over scheduled tasks with its `for ... else`, and the handling of one input line.
- `PropertyLinking` (`property_linking.py`): `naiveMaximum`, the gold-URI lookup, the per-column verdict and the counters.

The `Table` class:

- It keeps the grid as constants and the annotation map as its one mutable field.
- Reading a region creates its key lazily, and appending changes that region's list only.
- Region keys are proved injective, so appends to one region leave every other region as it was.

Behaviour worth knowing, which the model states as lemmas:

- The long-form round trip of `URI.parse` fails when the suffix repeats the prefix IRI, because `str.replace` removes every occurrence (`Uri.ParseLongDropsRepeatedIri`).
- The `numeric` branch of `match_literal` never matches anything (`LiteralLinking.NumericNeverMatches`).
- A date hypothesis without month or day raises when formatted (`LiteralLinking.DateNeedsAllParts`).
- A record whose columns are not all as long as the first fails with the first scheduled task's exception: IndexError at the first missing cell, or an EntityLinking error of an earlier cell (`Pipeline.ShortColumnError`).
- Run on a table with a column shorter than the first, LiteralLinking raises IndexError at the first row that lacks a cell, unless an earlier lookup raised; a run that raises nothing had every cell (`LiteralLinking.LinkInNeedsFullColumns`, `LiteralLinking.ShortColumnExample`).
- `LanguageDetection.run` returns `None`, so a schedule containing it never outputs a table (`Pipeline.LanguageDetectionSuppressesOutput`).
- The annotations that `LiteralLinking` writes have no `task` key. `naiveMaximum` filters by task, so it raises `KeyError('task')` on any column that holds one of them (`PropertyLinking.LinkAnnotationsRaise`).
- Its vote therefore only ever counts annotations carrying task `LiteralLinking` and a `property_uri` key.
- In `property_linking.py` a column with a gold URI that is shorter than the first column raises IndexError at its first missing cell, unless an earlier cell raises KeyError('task') first; a short column without a gold URI is only counted (`PropertyLinking.ShortGoldColumnRaises`).

Where the design documentation of the system describes more than the code does, the model follows the code:

- Numbers: one hypothesis per string. `,` is read as the decimal point, and a second separator rejects the string.
- Mentions are not normalised, there is no fuzzy fallback and duplicate entities are not aggregated.
- Header cells are not excluded from entity linking.
- There are no `plain` annotations.
- Literal linking matches by equality only.
- Annotations need not carry a `task` key.

## Model

| member | source | states |
|---|---|---|
| Uri.PrefixIndex | wtu/util.py:2-9 | a prefix is found exactly when it is one of the six short names of the table, at its position |
| Uri.Make | wtu/util.py:11-17 | the constructor succeeds exactly for a known prefix, keeping prefix and suffix unchanged; otherwise it raises "Unknown prefix" |
| Uri.FindIri | wtu/util.py:22-27 | the search returns the first table entry whose IRI starts the string, or reports that none does |
| Uri.Parse | wtu/util.py:20-37 | every parsed URI has a known prefix |
| Uri.IrisPrefixFree | wtu/util.py:2-9 | no IRI of the table starts another, so at most one entry matches an http:// string |
| Uri.ParseShortRoundTrip | wtu/util.py:29-43 | for a known prefix, parsing the short form gives the URI back, whatever the fallback |
| Uri.FindIriOfLong | wtu/util.py:21-25 | the long form starts with http:// and is found under its own prefix |
| Uri.RemoveAllAbsent | wtu/util.py:24 | `replace` leaves a string without the pattern unchanged |
| Uri.ParseLongRoundTrip | wtu/util.py:20-48 | parsing the long form gives the URI back when the suffix does not contain the prefix's IRI |
| Uri.ParseLongDropsRepeatedIri | wtu/util.py:24 | one example: the suffix "A" followed by the dbr IRI comes back as "A", because every occurrence of the IRI is removed |
| Uri.ParseUnknownIri | wtu/util.py:26-27 | an http:// string no IRI starts raises "Unknown prefix in" |
| Uri.ParseFallback | wtu/util.py:29-37 | a non-http string whose text before its first ':' is no known prefix (including a string without ':') becomes URI(fallback, whole string), or raises "Ambiguous URI" without a fallback |
| Uri.ParseCurie | wtu/util.py:29-37 | a non-http string that parses has a known prefix |
| Text.FormatInt | wtu/table.py:127 | `'{:d}'` gives a leading '-' exactly for negative numbers, followed by the decimal digits of the absolute value, with no leading zero after the '-' |
| Text.FormatIntInjective | wtu/table.py:127 | different integers format differently |
| Text.Pad2 | wtu/task/literallinking.py:35 | `'{:02d}'` zero-fills one-digit values to two characters and leaves larger ones as they are |
| Text.FirstIndexOf | wtu/util.py:29-30 | the split point of `split(':', 1)`: the first ':' if there is one |
| Text.Lower | wtu/task/classlinking.py:53 | lower-casing maps each character on its own and keeps the length |
| Text.LowerIdempotent | wtu/task/classlinking.py:50-53 | lower-casing twice is lower-casing once |
| Annotations.FindAnnotations | wtu/table.py:63-70 | raises exactly when some record lacks a key that a given filter reads; otherwise the result is the order-preserving filter |
| Annotations.FindAnnotationsFirstError | wtu/table.py:63-70 | the error raised is that of the first record that makes a filter raise |
| Annotations.FilterIsSubsequence | wtu/table.py:63-70 | the filter keeps exactly the matching records, each as often as it occurs, and is no longer than the list |
| Annotations.FindWithoutFilters | wtu/table.py:63-70 | with no filter the whole list is returned |
| Annotations.FindBySourceTotal | wtu/table.py:63-70 | filtering by source never raises on records that all carry a source |
| Annotations.FilterAppend | wtu/table.py:63-70 | filtering distributes over concatenation |
| Tables.KeyShape | wtu/table.py:127 | every key is column part, ':', row part, and the column part holds no ':' |
| Tables.KeyInjective | wtu/table.py:120-204 | distinct regions (table, column, row, cell) have distinct keys |
| Tables.Touch | wtu/table.py:125-134 | reading a key adds it only if absent and never replaces an existing list |
| Tables.AppendAllKeys | wtu/table.py:125-134 | a sequence of appends creates exactly the keys appended to |
| Tables.AppendAllListed | wtu/table.py:125-134 | for distinct keys, each key ends with its old list followed by its own additions |
| Tables.AppendAllUnlisted | wtu/table.py:125-134 | keys not appended to keep their lists |
| Tables.AppendAllGet | wtu/table.py:125-134 | every key ends with its old list followed by everything appended under it, in order |
| Tables.GatheredFrom | wtu/table.py:125-134 | whatever a key gains was appended under that key |
| Tables.GatheredHas | wtu/table.py:125-134 | everything appended under a key is gained by it |
| Tables.TouchAll | wtu/table.py:125-134 | reading keys adds exactly those keys and changes no list |
| Tables.Compact | wtu/table.py:31-39 | `dump` keeps exactly the regions with a non-empty list, each unchanged |
| Tables.CompactIdempotent | wtu/table.py:31-39 | a second `dump` changes nothing |
| Tables.ColumnCells | wtu/table.py:145-147 | a column yields (col, r) for each row in order |
| Tables.RowCells | wtu/table.py:180-182 | a row yields (c, row) for each column in order, each once |
| Tables.CellRegions | wtu/table.py:120-123 | `cells()` yields exactly the cells of the grid, numCols * numRows of them |
| Tables.CellRegionsOrdered | wtu/table.py:120-123 | the enumeration is column-major |
| Tables.CellRegionsDistinct | wtu/table.py:120-123 | no cell is yielded twice |
| Tables.GridContents | wtu/table.py:120-134 | the contents of the first numCols columns' first numRows cells, column-major: entry i is relation[c][r] for the i-th cell (c, r) |
| Tables.Select | wtu/table.py:89-93 | iteration yields exactly the elements on which every condition holds, keeping their order |
| Tables.SelectNoConditions | wtu/table.py:89-93 | without conditions every element is yielded |
| Tables.WhereConjoins | wtu/table.py:136-137 | `where` conjoins: selecting with old and new conditions is selecting with the new ones from the old selection |
| Tables.CellKeys | wtu/table.py:120-134 | the cell keys in iteration order are distinct |
| Tables.CellKeysMember | wtu/table.py:120-134 | a region's key is a cell key exactly when the region is a cell of the grid |
| Tables.RegionsAnnotated | wtu/table.py:125-134 | appending outcomes to distinct regions extends each with its own outcome and leaves every other key unchanged |
| Tables.CellFoldEffect | wtu/table.py:120-134 | appending every cell's outcome extends each cell by what was made of its content, and nothing else changes |
| Tables.Table.constructor | wtu/table.py:5-12 | the record keeps its annotation map or gets an empty one; numCols is len(relation) and numRows is len(relation[0]); the columns are not checked, and the table is valid exactly when no column is shorter than the first |
| Tables.Table.RowContent | wtu/table.py:196-204 | row data is `[col[r] for col in relation]` |
| Tables.Table.Read | wtu/table.py:22-29 | reading a region returns its list and creates the key only if absent |
| Tables.Table.Append | wtu/table.py:125-134 | appending to a region's list extends that region and no other |
| Tables.Table.CellContents | wtu/table.py:125-134 | each cell's content is relation[c][r], in iteration order |
| Tables.Table.AnnotateEach | wtu/table.py:125-134 | the append loop either appends every outcome to its region or stops at the first failure, having created the failing region |
| Tables.Table.AnnotateCells | wtu/table.py:120-134 | a loop over `cells()` extends each cell by its outcome and nothing else, or stops at the first failure |
| Tables.Table.Dump | wtu/table.py:31-39 | `dump` replaces the map by its compaction and returns relation and map |
| Dates.MonthNumber | wtu/task/literalnormalization.py:6-31 | a month name maps to a month 1..12 |
| Dates.YearValue | wtu/task/literalnormalization.py:34 | a year is read from exactly four digits |
| Dates.MonthValue | wtu/task/literalnormalization.py:33 | a numeric month is in 0..12 (the pattern admits 0 and 00) |
| Dates.DayValue | wtu/task/literalnormalization.py:32 | a day is in 1..31 |
| Dates.GapRun | wtu/task/literalnormalization.py:126 | the `[ /-]+` gap consists of spaces, slashes and dashes |
| Dates.MatchYearMonthDay | wtu/task/literalnormalization.py:44-56 | a YYYY-MM-DD match is a well-formed hypothesis of notation 0 |
| Dates.MatchNameDayYear | wtu/task/literalnormalization.py:57-69 | a "Mon DD, YYYY" match is well formed, with the named month's number |
| Dates.MatchDayMonthYear | wtu/task/literalnormalization.py:70-82 | a DD.MM.YYYY match is well formed |
| Dates.MatchMonthDayYear | wtu/task/literalnormalization.py:83-95 | an MM.DD.YYYY match is well formed |
| Dates.MatchDayNameYear | wtu/task/literalnormalization.py:96-108 | a "DD. Mon YYYY" match is well formed |
| Dates.MatchNameYear | wtu/task/literalnormalization.py:109-119 | a "Mon YYYY" match is well formed and has no day |
| Dates.MatchMonthYear | wtu/task/literalnormalization.py:120-130 | an "MM YYYY" match is well formed and has no day |
| Dates.MatchYearName | wtu/task/literalnormalization.py:131-141 | a "YYYY Mon" match is well formed and has no day |
| Dates.MatchYearMonth | wtu/task/literalnormalization.py:142-152 | a "YYYY MM" match is well formed and has no day |
| Dates.Match | wtu/task/literalnormalization.py:43-153 | the i-th notation's match is a well-formed hypothesis tagged with notation i |
| Dates.Candidates | wtu/task/literalnormalization.py:155-172 | every one of the nine notations is tried on the string, in list order |
| Dates.Found | wtu/task/literalnormalization.py:155-172 | the hypotheses are the matches, in notation order, and none is lost |
| Dates.Parse | wtu/task/literalnormalization.py:155-172 | `parse` returns only matching notations' hypotheses, at most nine, in notation-list order |
| Dates.ParseFinds | wtu/task/literalnormalization.py:155-172 | every matching notation contributes its hypothesis |
| Dates.YearMonthDayComplete | wtu/task/literalnormalization.py:44-56 | any year, month, day joined by any two of / . - matches YYYY-MM-DD with those values |
| Dates.DayMonthYearComplete | wtu/task/literalnormalization.py:70-82 | any day, month, year joined by any two of / . - matches DD.MM.YYYY |
| Dates.MonthDayYearComplete | wtu/task/literalnormalization.py:83-95 | any month, day, year joined by any two of / . - matches MM.DD.YYYY |
| Dates.NameDayYearComplete | wtu/task/literalnormalization.py:57-69 | any month name, whitespace, a day, `\s*,?\s+` and a year match "Mon DD, YYYY" with that year, the name's month, that day and the name |
| Dates.DayNameYearComplete | wtu/task/literalnormalization.py:96-108 | any day with an optional '.', whitespace, a month name, whitespace and a year match "DD. Mon YYYY" with those values |
| Dates.NameYearComplete | wtu/task/literalnormalization.py:109-119 | any month name, `,?\s+` and a year match "Mon YYYY" with those values and no day |
| Dates.MonthYearComplete | wtu/task/literalnormalization.py:120-130 | any month with an optional '.', a run of ' ', '/' and '-' and a year match "MM YYYY" |
| Dates.YearNameComplete | wtu/task/literalnormalization.py:131-141 | any year, whitespace and a month name match "YYYY Mon" |
| Dates.YearMonthComplete | wtu/task/literalnormalization.py:142-152 | any year, a run of ' ', '/' and '-', a month and an optional '.' match "YYYY MM" |
| Dates.AmbiguousNumericDate | wtu/task/literalnormalization.py:70-95 | a string such as 01/02/2019 yields both the DD.MM.YYYY and the MM.DD.YYYY reading |
| Units.DataTypeNamed | wtu/task/literalnormalization.py:191-245 | each unit's `data_type` string is "dbo:" followed by the unit's name |
| Units.DataTypeInjective | wtu/task/literalnormalization.py:191-245 | no two units share a data type |
| Units.ScaleByFactor | wtu/task/literalnormalization.py:262 | the normalized value is the value times the unit's factor |
| Units.ValueOf | wtu/task/literalnormalization.py:175 | the matched number is never negative |
| Units.IndexOf | wtu/task/literalnormalization.py:180-253 | every unit has its position in the quantity/unit table |
| Units.AttemptYields | wtu/task/literalnormalization.py:259-269 | a hypothesis comes from a match of its unit and carries the matched value and value times factor |
| Units.Found | wtu/task/literalnormalization.py:255-270 | the hypotheses are the matches, in table order, and none is lost |
| Units.Parse | wtu/task/literalnormalization.py:255-270 | every hypothesis comes from its unit's pattern matching the content, in table order |
| Units.ParseSound | wtu/task/literalnormalization.py:259-269 | each hypothesis has value_normalized = value * factor of the unit that matched |
| Units.ParseFinds | wtu/task/literalnormalization.py:255-270 | every matching unit contributes a hypothesis |
| Units.SpellingNamesOneUnit | wtu/task/literalnormalization.py:180-253 | a unit spelling belongs to one unit only |
| Units.AtMostOneHypothesis | wtu/task/literalnormalization.py:255-270 | no string matches two unit patterns, so there is at most one unit hypothesis |
| Units.ValueOfText | wtu/task/literalnormalization.py:175 | the number before the unit is read as digits with an optional decimal fraction |
| Units.ParseSingle | wtu/task/literalnormalization.py:255-270 | a string matching one unit yields exactly that unit's hypothesis |
| Units.ParseComplete | wtu/task/literalnormalization.py:185-245 | a number, optional whitespace and a unit spelling is recognised as that unit with that value |
| Units.WrittenUnitMatches | wtu/task/literalnormalization.py:185-245 | such a string matches its unit's pattern and has the written value |
| Numbers.Decompose | wtu/task/literalnormalization.py:287 | a recognised numeral is well formed and writes back to the same text |
| Numbers.DecomposeText | wtu/task/literalnormalization.py:287 | every well-formed numeral is recognised as itself |
| Numbers.Reassemble | wtu/task/literalnormalization.py:287 | the sign, mantissa and exponent parts read off a string form a well-formed numeral that writes back to the string |
| Numbers.Parse | wtu/task/literalnormalization.py:289-294 | the parser returns a value exactly when the text (before a final newline) is the written form of some well-formed numeral, and then that numeral's value with ',' as decimal point |
| Numbers.ParseNumeral | wtu/task/literalnormalization.py:289-294 | parsing a written numeral gives its value |
| Numbers.SecondSeparatorRejected | wtu/task/literalnormalization.py:287 | a second separator rejects the string |
| Numbers.ThousandsSeparatorsRejected | wtu/task/literalnormalization.py:287 | one example: "1,234,567" is not a number |
| Numbers.DecimalCommaAccepted | wtu/task/literalnormalization.py:292 | one example: "1,5" is 1.5 |
| LiteralNormalization.Normalize | wtu/task/literalnormalization.py:305-336 | every annotation made for a cell has source LiteralNormalization and no task |
| LiteralNormalization.FirstFound | wtu/task/literalnormalization.py:305-336 | the chosen hypotheses all have that envelope |
| LiteralNormalization.FirstFoundOneKind | wtu/task/literalnormalization.py:305-336 | the first non-empty kind is chosen, so the annotations are at most nine and of one kind |
| LiteralNormalization.NormalizeOneKind | wtu/task/literalnormalization.py:305-336 | a cell gets at most nine annotations, all of one type |
| LiteralNormalization.UnitTakesPrecedence | wtu/task/literalnormalization.py:307-315 | a unit hypothesis suppresses dates and numbers, and is appended with its value, normalized value and unit |
| LiteralNormalization.DatesWhenNoUnit | wtu/task/literalnormalization.py:318-326 | without a unit hypothesis annotation i is the `date` annotation of date hypothesis i, in notation order, carrying its year, month, day and month name |
| LiteralNormalization.NumberWhenNothingElse | wtu/task/literalnormalization.py:329-336 | otherwise one `numeric` annotation is appended exactly when the number parses; a cell matching nothing gets nothing |
| LiteralNormalization.Run | wtu/task/literalnormalization.py:303-338 | `run` appends each cell's annotations after its old ones, changes no other key and returns True |
| EntityLinking.ParseInt | wtu/task/entitylinking.py:80 | `int()` succeeds exactly on an optional sign and ASCII digits, and raises ValueError otherwise (other forms `int()` accepts are listed under Left out) |
| EntityLinking.ParseFormatInt | wtu/task/entitylinking.py:80 | `int()` reads back any formatted integer |
| EntityLinking.ParseFrequencies | wtu/task/entitylinking.py:79-82 | the conversion succeeds exactly when every frequency parses, keeping URIs and order |
| EntityLinking.ParseFrequenciesFirstError | wtu/task/entitylinking.py:79-82 | a failure is the ValueError of the first malformed frequency |
| EntityLinking.Query | wtu/task/entitylinking.py:76-86 | an unknown mention gives []; a known one gives its rows in file order, or raises on a malformed frequency |
| EntityLinking.Insert | wtu/task/entitylinking.py:32-36 | inserting into a descending list keeps it descending |
| EntityLinking.InsertContents | wtu/task/entitylinking.py:32-36 | inserting adds exactly the candidate and its frequency |
| EntityLinking.InsertStable | wtu/task/entitylinking.py:32-36 | the candidate goes before the others of its frequency, whose order is kept |
| EntityLinking.Rank | wtu/task/entitylinking.py:32-36 | the sort is descending by frequency and keeps the length |
| EntityLinking.RankContents | wtu/task/entitylinking.py:32-36 | the sort is a permutation and keeps the frequency sum |
| EntityLinking.RankStable | wtu/task/entitylinking.py:32-36 | candidates of equal frequency keep the backend's order |
| EntityLinking.RankUnique | wtu/task/entitylinking.py:32-36 | any descending list keeping each frequency's order is the sort's result, so re-sorting a ranked list changes nothing |
| EntityLinking.SortedUnique | wtu/task/entitylinking.py:32-36 | two descending lists with the same candidates per frequency are equal |
| EntityLinking.Take | wtu/task/entitylinking.py:36 | `[:top_n]` is a prefix, Python slicing included |
| EntityLinking.Annotate | wtu/task/entitylinking.py:44-53 | one `resource` annotation per retained candidate, in order |
| EntityLinking.Link | wtu/task/entitylinking.py:29-53 | every annotation made has type resource, source EntityLinking and no task |
| EntityLinking.LinkCount | wtu/task/entitylinking.py:32-44 | a cell receives min(top_n, number of results) annotations (Python slicing for negative top_n); an unknown mention receives none |
| EntityLinking.LinkRanked | wtu/task/entitylinking.py:32-52 | the i-th annotation is the i-th candidate of the stable sort, scored by its frequency over the sum of all results |
| EntityLinking.LinkFails | wtu/task/entitylinking.py:39-46 | a ZeroDivisionError happens exactly when something is retained and all frequencies sum to zero |
| EntityLinking.ScoresOfAnnotate | wtu/task/entitylinking.py:44-53 | the retained scores sum to the retained frequencies over the total |
| EntityLinking.ScoresAtMostOne | wtu/task/entitylinking.py:39-53 | with non-negative frequencies the retained scores sum to at most 1 |
| EntityLinking.Run | wtu/task/entitylinking.py:23-55 | `run` appends each cell's links after its old annotations and changes nothing else, or stops at the first exception; it returns True |
| LiteralLinking.Query | wtu/task/literallinking.py:110-117 | the backend returns the entity's rows in file order, or [] for an unknown entity |
| LiteralLinking.FloatValue | wtu/task/literallinking.py:28 | a literal with ',' is not a float |
| LiteralLinking.Matching | wtu/task/literallinking.py:39-50 | the matching URIs are those of the properties whose literal meets the criterion, no more than there are properties |
| LiteralLinking.MatchingAppend | wtu/task/literallinking.py:39-50 | the matches of two runs of backend rows are the first run's matches followed by the second's: the backend's order is kept and a row listed twice matches twice |
| LiteralLinking.MatchingSnoc | wtu/task/literallinking.py:39-50 | one more backend row adds its URI at the end exactly when its literal meets the criterion |
| LiteralLinking.MatchLiteral | wtu/task/literallinking.py:21-52 | every URI returned is the URI of some property |
| LiteralLinking.NumericNeverMatches | wtu/task/literallinking.py:25-32 | a numeric hypothesis matches nothing |
| LiteralLinking.DateMatches | wtu/task/literallinking.py:34-41 | a full date matches exactly the properties whose literal is Y-MM-DD |
| LiteralLinking.DateNeedsAllParts | wtu/task/literallinking.py:35-37 | a date hypothesis lacking year, month or day raises when formatted |
| LiteralLinking.QuantityMatches | wtu/task/literallinking.py:43-50 | a quantity matches exactly the properties whose literal parses to its normalized value |
| LiteralLinking.OtherKindsMatchNothing | wtu/task/literallinking.py:21-52 | any other type matches nothing |
| LiteralLinking.DateTextPadded | wtu/task/literallinking.py:35-37 | one example of zero-padded month and day: 2019, 2, 1 gives "2019-02-01" |
| LiteralLinking.RoleIn | wtu/task/literallinking.py:62-71 | a cell with EntityLinking annotations is never a literal cell |
| LiteralLinking.RoleOf | wtu/task/literallinking.py:61-71 | the same, read from the cell's key in the store |
| LiteralLinking.Roles | wtu/task/literallinking.py:61-71 | the row's cells are classified column by column |
| LiteralLinking.SplitFails | wtu/task/literallinking.py:61-71 | the partition fails exactly when a cell's lookup raises, with the first such error |
| LiteralLinking.SplitSound | wtu/task/literallinking.py:61-71 | the partition lists the entity cells and the literal cells, each in column order |
| LiteralLinking.FirstRoles | wtu/task/literallinking.py:61-71 | the first listed entity and literal cells have those roles |
| LiteralLinking.CollectFails | wtu/task/literallinking.py:75-89 | a nested loop fails exactly when one of its bodies raises, with the first error |
| LiteralLinking.CollectMember | wtu/task/literallinking.py:75-89 | a nested loop produces exactly what its bodies produce |
| LiteralLinking.CollectFlatten | wtu/task/literallinking.py:75-89 | a nested loop that raises nothing appends what its bodies produce, body after body, each in its own order, repeats kept |
| LiteralLinking.EntityAnnotationLinks | wtu/task/literallinking.py:77 | an EL annotation without `uri` raises KeyError |
| LiteralLinking.HypothesisLinks | wtu/task/literallinking.py:79-89 | the innermost loop raises exactly when `match_literal` raises, with its exception; otherwise its k-th link is the `property` annotation for the k-th URI `match_literal` returns, so there is one link per returned URI, in order and with repeats |
| LiteralLinking.HypothesisLinksMember | wtu/task/literallinking.py:79-89 | a link is made for an LN annotation exactly when its URI is one `match_literal` returns, and it references that annotation's position among its cell's LN annotations |
| LiteralLinking.LiteralCellsMember | wtu/task/literallinking.py:78-89 | the links for one EL annotation are those of its matches over all literal cells |
| LiteralLinking.EntityAnnotationMember | wtu/task/literallinking.py:76-89 | the links of one EL annotation are exactly the matches of its entity's properties |
| LiteralLinking.EntityCellMember | wtu/task/literallinking.py:75-89 | the links of an entity cell are those of its EL annotations |
| LiteralLinking.RowLinksMember | wtu/task/literallinking.py:75-89 | as a set, a row's links are those some (EL annotation, LN annotation, matching property) justifies; their order and repeats follow from `CollectFlatten` applied to each of the four loops and from `HypothesisLinks` |
| LiteralLinking.RowAppendsMember | wtu/task/literallinking.py:73-89 | as a set, a row's links are the justified ones between its entity cells and its literal cells; order and repeats as for `RowLinksMember` |
| LiteralLinking.RowAppendsTargets | wtu/task/literallinking.py:78-84 | links go only to literal cells, which have no EntityLinking annotation |
| LiteralLinking.JustifiedTarget | wtu/task/literallinking.py:81 | a justified link goes to one of the literal cells |
| LiteralLinking.RowNeedsBoth | wtu/task/literallinking.py:74 | a row without an entity cell or without a literal cell gets no links |
| LiteralLinking.RowAppendsInRow | wtu/task/literallinking.py:78-84 | every link targets a literal cell of the row |
| LiteralLinking.AppendLinks | wtu/task/literallinking.py:56-89 | appending a row's links creates the row's keys and extends each key by the links addressed to it |
| LiteralLinking.GatheredLinks | wtu/task/literallinking.py:81-89 | a key gains exactly the links addressed to its cell |
| LiteralLinking.RowStepEffect | wtu/task/literallinking.py:56-89 | one row's pass extends each cell by its links, and creates the row's keys |
| LiteralLinking.LinksAdd | wtu/task/literallinking.py:81-89 | old lists are kept as prefixes; what is added is exactly the links for that cell |
| LiteralLinking.RowStepKeepsOtherCells | wtu/task/literallinking.py:78-89 | cells that are not literal cells keep their lists |
| LiteralLinking.RowStepFrame | wtu/task/literallinking.py:56-89 | one row's pass changes no key outside the row |
| LiteralLinking.RowStepAdds | wtu/task/literallinking.py:56-89 | one row's pass only appends, and what it appends to a key is exactly that key's links |
| LiteralLinking.RowLoopStops | wtu/task/literallinking.py:54-91 | the first exception ends the loop over rows |
| LiteralLinking.RowLoopByRow | wtu/task/literallinking.py:54-91 | when each row pass stays in its row and reads only its row, the loop leaves each row as its own pass makes it |
| LiteralLinking.RowStepLocal | wtu/task/literallinking.py:56-89 | a row's outcome depends only on its own cells' lists |
| LiteralLinking.RowAppendsLocal | wtu/task/literallinking.py:56-89 | the links of a row depend only on its own cells' lists |
| LiteralLinking.LinkRowsByRow | wtu/task/literallinking.py:54-91 | after all rows, each row's cells are as that row's pass alone makes them from the initial store |
| LiteralLinking.LinkRowsUntouched | wtu/task/literallinking.py:54-91 | keys that are not cells of the grid are never changed |
| LiteralLinking.PartitionFails | wtu/task/literallinking.py:61-71 | an exception while partitioning ends the row with it |
| LiteralLinking.LinksFail | wtu/task/literallinking.py:74-89 | an exception while linking ends the row with it |
| LiteralLinking.RowSucceeds | wtu/task/literallinking.py:56-89 | a successful row reads its cells and appends its links |
| LiteralLinking.FirstMissingFrom | wtu/table.py:128-132 | the first column from `c` on without an entry for the row; every column before it has one |
| LiteralLinking.FirstMissing | wtu/table.py:128-132 | the first column without an entry for the row, or the column count when there is none |
| LiteralLinking.PartitionIn | wtu/task/literallinking.py:61-71 | on a row with an entry in every column the cell loop is `Partition`; a row with a missing entry always raises |
| LiteralLinking.RowStepIn | wtu/task/literallinking.py:56-89 | a row with an entry in every column is `RowStep`; any other row raises the cell loop's exception |
| LiteralLinking.RowLoopSame | wtu/task/literallinking.py:54-91 | row loops whose passes agree on the rows they visit agree |
| LiteralLinking.LinkInFull | wtu/task/literallinking.py:54-91 | on a grid whose columns all reach the last row, the loop over the grid is `LinkRows` |
| LiteralLinking.LinkInNeedsFullColumns | wtu/table.py:128-132 | a run that raises nothing met no missing cell: every column reaches the last row |
| LiteralLinking.MissingCellRaises | wtu/table.py:128-132 | a row whose cells before the first missing one are looked up without exception raises IndexError with the row index |
| LiteralLinking.ShortColumnExample | wtu/table.py:128-132 | one example: a second column one entry short raises IndexError(1) after the first row was read |
| LiteralLinking.RolesPrefix | wtu/task/literallinking.py:61-71 | the roles of the first cells of a row are a prefix of the roles of all of them |
| LiteralLinking.PartitionMissing | wtu/table.py:128-132 | the cell loop reaching a missing cell with every earlier cell sorted raises IndexError |
| LiteralLinking.PartitionStops | wtu/task/literallinking.py:61-71 | a lookup that raises before any missing cell ends the cell loop with its exception |
| LiteralLinking.LinkInNext | wtu/task/literallinking.py:54-91 | the loop over the grid performs one more row pass on the store the earlier rows left |
| LiteralLinking.LinkInFails | wtu/task/literallinking.py:54-91 | an exception in one row is the exception of the whole run |
| LiteralLinking.ReadRole | wtu/task/literallinking.py:61-71 | a cell's role is read from its own list |
| LiteralLinking.CellRoleOf | wtu/task/literallinking.py:63-71 | the two lookups of a cell give its role |
| LiteralLinking.PartitionRow | wtu/task/literallinking.py:57-71 | the cell loop reads the row's cells in column order and computes the partition, creating the row's keys; a cell without an entry in the grid raises IndexError (wtu/table.py:128-132) once the cells before it were sorted |
| LiteralLinking.AppendLinksTo | wtu/task/literallinking.py:81-89 | the append loop appends each link to its cell in order |
| LiteralLinking.LinkRow | wtu/task/literallinking.py:56-89 | one iteration of the row loop over the table's grid is `RowStepIn`: the row's pass, or its exception |
| LiteralLinking.Run | wtu/task/literallinking.py:54-91 | on any table, including one with a column shorter than the first, `run` is the loop over all rows of the grid (`LinkIn`), or its first exception; it returns True |
| ClassLinking.Entry | wtu/task/classlinking.py:50 | a row's entry is the short form of `URI.parse(uri, 'dbo')`, and exists exactly when that parses |
| ClassLinking.BuildIndex | wtu/task/classlinking.py:43-50 | the constructor loop builds the index, or raises the first parse error |
| ClassLinking.IndexedStops | wtu/task/classlinking.py:48-50 | a parse error in a row ends the construction with it |
| ClassLinking.IndexedByOk | wtu/task/classlinking.py:48-50 | the fold succeeds exactly when every row's entry does |
| ClassLinking.IndexedOk | wtu/task/classlinking.py:48-50 | the index exists exactly when every row's URI parses |
| ClassLinking.IndexedByKeys | wtu/task/classlinking.py:48-50 | the fold's keys are the lower-cased mentions |
| ClassLinking.IndexedKeys | wtu/task/classlinking.py:48-50 | the index's keys are exactly the lower-cased mentions |
| ClassLinking.IndexedByLast | wtu/task/classlinking.py:48-50 | a key holds the entry of the last row with that mention |
| ClassLinking.IndexedLast | wtu/task/classlinking.py:48-50 | later rows overwrite earlier ones: a mention holds the short URI of its last row, in any case |
| ClassLinking.Query | wtu/task/classlinking.py:52-58 | the lookup finds the lower-cased mention, or gives None |
| ClassLinking.QueryIgnoresCase | wtu/task/classlinking.py:52-56 | looking up a mention in any case gives the same answer |
| ClassLinking.Classify | wtu/task/classlinking.py:26-34 | an unknown mention adds nothing; a found one adds one annotation with source preprocessing, task ClassLinking and type class |
| ClassLinking.ClassifyIndexed | wtu/task/classlinking.py:26-50 | a header cell matching a row's mention gains the long form of that row's class URI |
| ClassLinking.ClassifyFound | wtu/task/classlinking.py:28-33 | a stored short URI parses back to its URI, so `class_uri` is its long form |
| ClassLinking.PyIndex | wtu/table.py:132 | a list index works from either end and raises outside the list |
| ClassLinking.Run | wtu/task/classlinking.py:20-36 | on any table, whatever its column lengths: without a header index, or with -1, nothing changes; otherwise each header cell gains its annotation and nothing else changes, or the first exception stops the loop; it returns True |
| Pipeline.InvalidLength | wtu.py:46-55 | "Invalid task" is raised exactly for descriptors of length 0 or more than 2 |
| Pipeline.LoneNamePadded | wtu.py:47-48 | a lone name is treated as if it had an empty options object |
| Pipeline.LoneKnownName | wtu.py:36-52 | LanguageDetection or LiteralNormalization alone is scheduled with no options |
| Pipeline.LoneEntityLinkingRaises | wtu/task/entitylinking.py:16 | EntityLinking alone raises TypeError: `backend` has no default |
| Pipeline.Construct | wtu.py:51 | the constructor call succeeds exactly when every keyword is a parameter of the task's `__init__` and every required one is given; otherwise TypeError |
| Pipeline.DescribeAccepts | wtu.py:50-52 | a two-element descriptor is scheduled exactly when it names a known task whose constructor takes its options, including every required one |
| Pipeline.ScheduleInOrder | wtu.py:45-55 | the schedule exists exactly when every descriptor is valid, and lists them in order |
| Pipeline.ScheduleFirstError | wtu.py:45-55 | a failing schedule fails with the first invalid descriptor's error |
| Pipeline.ScheduleStops | wtu.py:45-55 | an invalid descriptor ends the loop |
| Pipeline.ScheduleTasks | wtu.py:45-55 | the descriptor loop computes the schedule |
| Pipeline.DescribeFull | wtu.py:50-52 | unpacking a two-element descriptor builds the described task |
| Pipeline.PaddingKeepsMeaning | wtu.py:46-50 | padding a valid descriptor does not change what it describes |
| Pipeline.RunLanguageDetection | wtu/task/languagedetection.py:13-60 | LanguageDetection appends to the table's own list and returns a falsy value |
| Pipeline.RunTask | wtu.py:72-74 | each task returns what its `run` can return: True, None, or an exception; a cell task returns True exactly when no cell content makes it raise, and otherwise raises the failure of the first cell that does; a True from a cell task means each cell gained its outcome, and LanguageDetection appends to the table's list |
| Pipeline.FirstFailure | wtu.py:72-74 | the first failing outcome, if any; none exactly when every outcome succeeds |
| Pipeline.FirstFailureAt | wtu.py:72-74 | the failure of the first step that raises is the first failure |
| Pipeline.TaskEffectOnCells | wtu.py:72-74 | a cell task that raises nothing extends each cell by its outcome and changes no other key |
| Pipeline.ForElseOutputs | wtu.py:72-77 | the table is output exactly when every task returned True |
| Pipeline.ForElseFirst | wtu.py:72-74 | otherwise the loop ends with the first value that is not True |
| Pipeline.ForElseSnoc | wtu.py:72-77 | one more True keeps the loop going |
| Pipeline.RunTasks | wtu.py:72-77 | tasks run in order until the first falsy value or exception; a schedule of cell tasks none of which raises returns True; an exception is that of the first task to raise, after cell tasks that raised nothing; when all return True, none raised and the map is the effect of each task in turn |
| Pipeline.EffectsNext | wtu.py:72-74 | running one more task applies its effect to the map the earlier tasks left |
| Pipeline.RaisedFirst | wtu.py:72-74 | a task that raises after True from every task before it is the first to raise |
| Pipeline.LanguageDetectionSuppressesOutput | wtu.py:72-77 | a schedule with LanguageDetection never outputs |
| Pipeline.NormalizationOnlyOutputs | wtu.py:72-77 | a schedule of LiteralNormalization tasks runs them all and outputs |
| Pipeline.FirstShortColumn | wtu/table.py:11-12 | the first column shorter than the first one, if any; every column before it is long enough |
| Pipeline.BeforeMissing | wtu/table.py:120-132 | the contents `cells()` reads before the first missing cell: every cell of the earlier columns, column-major, then the short column's own entries |
| Pipeline.ShortColumnError | wtu/table.py:120-132 | LanguageDetection and LiteralNormalization raise IndexError at the missing cell; EntityLinking raises the error of the first cell before it that fails, or IndexError when none does |
| Pipeline.LinkFailureBeforeMissingCell | wtu/task/entitylinking.py:80 | one example: a count "zz" in the first cell raises ValueError before the empty second column is reached |
| Pipeline.ProcessLine | wtu.py:62-81 | a line without a non-empty relation is skipped; with no tasks the compacted input is output; with a column shorter than the first, the first task's exception (`ShortColumnError`) ends the run; an output comes from a schedule without LanguageDetection in which no task raised, and its map is the compaction of each task's effect in turn on the record's map; on a well-shaped table, a schedule without LanguageDetection in which no task raises on the table's cells is output, and an exception is that of the first task to raise (`FirstRaise`): the failure of its first failing cell, after cell tasks that raised nothing |
| PropertyLinking.PropertyUriOf | property_linking.py:27 | reading `property_uri` succeeds exactly on annotations carrying one, else KeyError |
| PropertyLinking.CellLists | property_linking.py:20 | the column's cells' lists, row by row |
| PropertyLinking.FindByTaskRaises | property_linking.py:21 | filtering by task can only raise KeyError('task') |
| PropertyLinking.LinkedIn | property_linking.py:19-22 | collecting can only fail with KeyError('task') |
| PropertyLinking.LinkedInRaises | property_linking.py:19-22 | collecting fails exactly when some annotation of the column's cells has no task |
| PropertyLinking.LinkedInMembers | property_linking.py:19-22 | the collected annotations are exactly those with task LiteralLinking in some cell |
| PropertyLinking.UrisOf | property_linking.py:25-28 | reading the URIs can only fail with KeyError('property_uri') |
| PropertyLinking.UrisOfValues | property_linking.py:25-28 | it succeeds exactly when every annotation has a property_uri, giving them in order |
| PropertyLinking.FirstSeen | property_linking.py:31-36 | the counter's keys are exactly the URIs seen |
| PropertyLinking.FirstSeenOrdered | property_linking.py:31-36 | the keys are distinct and in order of first occurrence |
| PropertyLinking.Counts | property_linking.py:31-36 | each URI's count is its number of occurrences |
| PropertyLinking.CountNext | property_linking.py:31-36 | one more URI increments its count or inserts it with 1 |
| PropertyLinking.MaxByCount | property_linking.py:42 | `max(counter, key=counter.get)` gives a key of maximal count, the first such in key order |
| PropertyLinking.WinnerMostFrequent | property_linking.py:41-46 | the vote is '' without URIs, and otherwise a URI of maximal count |
| PropertyLinking.WinnerFirstAmongTies | property_linking.py:31-42 | among URIs of maximal count the first encountered wins |
| PropertyLinking.VoteWithoutLinks | property_linking.py:41-46 | a column without LiteralLinking annotations votes '' |
| PropertyLinking.VoteProposed | property_linking.py:16-48 | a non-empty vote is the property_uri of some LiteralLinking annotation in the column, and no URI occurs more often |
| PropertyLinking.LinkAnnotationsRaise | property_linking.py:21 | an annotation written by LiteralLinking, which has no task key, makes the vote raise KeyError('task') |
| PropertyLinking.NaiveMaximum | property_linking.py:16-48 | `naiveMaximum` computes the vote, raising IndexError at a missing cell of a short column, and on success only creates the column's cell keys |
| PropertyLinking.Collected | property_linking.py:19-22 | on a short column the first loop raises IndexError at its first missing row exactly when every record of the earlier cells has a task, and KeyError('task') otherwise; on a full column it is the collection |
| PropertyLinking.ColumnVote | property_linking.py:16-48 | the vote on a full column, and the first loop's exception on a short one |
| PropertyLinking.CollectStops | property_linking.py:20-22 | a raising filter on a cell before the first missing one raises KeyError('task') |
| PropertyLinking.CollectLinked | property_linking.py:19-22 | the first loop collects the LiteralLinking annotations, creating each cell's key before reading its content, which raises IndexError past the column's end |
| PropertyLinking.CollectUris | property_linking.py:25-28 | the second loop reads their URIs |
| PropertyLinking.CountUris | property_linking.py:31-36 | the third loop builds the counter, keys in first-seen order |
| PropertyLinking.GoldRaises | property_linking.py:79-82 | the gold lookup raises exactly when an annotation lacks task, has task PropertyLinking but no source, or is a gold-v2 PropertyLinking record without property_uri |
| PropertyLinking.GoldIsLast | property_linking.py:79-82 | the gold URI is that of the last gold-v2 PropertyLinking annotation, or '' if there is none |
| PropertyLinking.GoldStops | property_linking.py:79-82 | the first exception ends the gold loop |
| PropertyLinking.GoldIn | property_linking.py:79-82 | the gold loop computes the gold URI |
| PropertyLinking.VerdictMeaning | property_linking.py:88-109 | no gold gives no-gold; a column with gold gets a verdict only when none of its cells is missing, and then same if the vote equals gold, no-LL if it is '', other otherwise |
| PropertyLinking.ColumnStepEffect | property_linking.py:88-97 | the column's list gains an evaluation annotation exactly when there is gold and the vote is non-empty; no other list changes |
| PropertyLinking.ColumnStepFrame | property_linking.py:94-97 | a column's pass changes no other key's list |
| PropertyLinking.EvaluateColumn | property_linking.py:78-109 | one iteration of the column loop is the column's pass, given the column's length |
| PropertyLinking.ColumnLocal | property_linking.py:78-109 | a column's verdict and evaluation depend only on that column's lists |
| PropertyLinking.Columns | property_linking.py:72-109 | the column loop gives one verdict per column |
| PropertyLinking.ColumnsStop | property_linking.py:72-109 | an exception in one column ends the loop |
| PropertyLinking.ColumnsFrame | property_linking.py:72-109 | later columns change only their own keys |
| PropertyLinking.ColumnsByColumn | property_linking.py:72-109 | when each column pass stays in and reads only its own column, each verdict and column list is that of the column's own pass |
| PropertyLinking.EvaluateByColumn | property_linking.py:72-109 | each column's verdict and list are as its own pass makes them from the initial store |
| PropertyLinking.JudgingLocal | property_linking.py:72-109 | a column's pass changes only its own list and reads only its own lists |
| PropertyLinking.ShortGoldColumnRaises | property_linking.py:94 | a column with a gold URI and a missing cell ends the evaluation with the first loop's exception, once the earlier columns pass |
| PropertyLinking.ShortGoldColumnExample | property_linking.py:94 | one example: a gold column one entry short raises IndexError at its missing row |
| PropertyLinking.EvaluateNext | property_linking.py:72-109 | one more column of the loop is the column step on the store the earlier columns left |
| PropertyLinking.Count | property_linking.py:63-109 | the counters count the verdicts of each kind, and they add up to the number of columns |
| PropertyLinking.EvaluateTable | property_linking.py:63-109 | the per-table loop, over a table whose columns may be shorter than the first, computes the column verdicts and counts them, or raises the first exception |

## Left out

- Standard input and output, JSON parsing and serialisation, configuration files, printing, `KeyboardInterrupt` handling and the exit codes of `wtu.py` and `property_linking.py`.
  - A line of input is given already parsed (`Pipeline.Line`).
  - The printed messages and the program-wide totals of `property_linking.py` are not modelled.
  - The per-table counters are (`PropertyLinking.Tally`).
- The CSV backend constructors of EntityLinking and LiteralLinking read files; their indexes are given as maps.
  - `defaultdict` inserting an empty list on a missed lookup changes no result and is not modelled.
  - Malformed rows of the index files are not modelled either.
  - ClassLinking's constructor loop is modelled, over rows given as a sequence.
- Task and backend registries and `**kwargs` construction are reflection. The model uses a fixed set of task values (`Pipeline.Task`) with option values as strings.
- LanguageDetection ranks languages with nltk's tokenizer and stop-word corpora, which are not part of this model. Its annotations are a parameter of `Pipeline.RunLanguageDetection`; only its missing `return` is modelled.
- Floating point is modelled as exact reals: `float()` parsing, the unit factors `1e3`, `1e-2` and `1e-3`, and the score divisions. IEEE rounding is not modelled.
- LiteralLinking.FloatValue: reads only the numerals of the literal-normalization pattern, with '.' as separator, a subset of what Python's `float()` accepts. It rejects a point with no digit after it, whether at the end ("5.") or directly before an exponent ("5.e3", which `float()` reads as 5000.0 and which can therefore equal a `value_normalized` of 5000). It also rejects surrounding whitespace other than one final newline, underscores between digits, decimal digits outside ASCII (such as Arabic-Indic or full-width digits), `inf` and `nan`, all of which `float()` accepts. A literal written in one of these forms never matches a quantity in the model.
- `str.lower()` is modelled on ASCII letters only.
- EntityLinking.ParseInt: accepts an optional sign followed by ASCII digits only. Python's `int()` also accepts decimal digits outside ASCII (such as Arabic-Indic "١٢" or full-width "１２"), surrounding whitespace and underscores between digits; on a frequency written in one of these forms the model raises ValueError where the source reads a number.
- Tables.Table.constructor: an empty `relation`, on which `Table.__init__` raises IndexError at `len(relation[0])` (wtu/table.py:12), is excluded. `wtu.py` never builds such a table (it skips an empty `relation`), but `property_linking.py` constructs one unguarded and aborts with that IndexError; the model does not state that abort.
- Python dictionaries are modelled as maps. Insertion order matters only for the counter in `naiveMaximum`, where it is kept as a separate key list.
- Annotations are typed records, not open dictionaries. A record that carries both `uri` and `property_uri`, or other task-specific keys that no modelled code reads, cannot be written.
- `headerRowIndex` is modelled as an optional integer; a JSON `null` value is not modelled.
- An exception inside a task ends the whole run of `wtu.py`, so no table is printed after it. `property_linking.py` likewise aborts on an exception that is not a JSON decoding error.
- LiteralLinking.Run: after an exception, including the IndexError of a missing cell, the annotation map is not stated. The model also computes all of a row's links before appending them, while the source appends each link inside its nested loops; the map after a run without exceptions is the same.
- PropertyLinking.EvaluateTable: after an exception the annotation map is not stated; the evaluation of the record ends there.
- Pipeline.ProcessLine: for a grid with a short column the exception is stated, but the annotations made before it are not, since the run ends there.
