# Vehicle scoring pipeline (convoy.py), modelled in Dafny

`convoy.py` takes a vehicle manifest through a batch pipeline:

- **Cleaning.** It deletes every non-digit from each cell, reads the cell as a 64-bit integer, and counts the cells that needed correcting.
- **Scoring.** It scores each vehicle from fuel consumption, engine capacity and maximum load over a fixed 450 km route.
- **Storing.** It replaces the `convoy` table of an SQLite store with the first five columns of the scored rows.
- **Exporting.** It reads the table back and splits the records by score:
  - score above 3 goes to a JSON document;
  - score below 4 goes to an XML document.
- **Reporting.** It reports every count with exact singular or plural wording.

The model has one module per component:

| module | file | models |
|---|---|---|
| `Decimal` | decimal.dfy | digit strings: their value (`Value`) and the text of a count (`Show`), with the round trip |
| `Cells` | cells.dfy | deleting non-digits, converting a cell (`None` when the conversion raises), the correction count |
| `Scoring` | scoring.dfy | the score rule in exact integer form: stops = (450·fc) div (100·ec); burned ≤ 230 ⇔ 450·fc ≤ 23000 |
| `FileNames` | filenames.dfy | `split('.')`, base name and extension, removing `[CHECKED]` |
| `Store` | store.dfy | class `ConvoyTable`; `ReplaceAll` drops, recreates and inserts row by row; `ReadAll` reads it back |
| `Export` | export.dfy | the partition, the JSON and XML documents as structured values, the count messages |
| `Pipeline` | pipeline.dfy | the scored frame and the three paths: export a store, ingest a spreadsheet, or ingest delimited text |

A run ends in one of two ways. It completes with both documents and every message, or it raises. When it raises, `Pipeline.Outcome.Failed` records the messages printed before that point. A conversion or scoring step that raises is `None`.

Facts about the code's behaviour that the model relies on:

- **Which characters are deleted.** Every non-digit is deleted (`"1a2"` reads 12, `"-5"` reads 5). The code does not keep only one contiguous digit run.
- **The `[CHECKED]` marker.** Cells are always cleaned. The marker only drops out of the store name; it does not switch cleaning off.
- **Score range.** The score is 1 to 6, never 0, because the burn term always adds at least 1.
- **Read-back order.** The first column is `INTEGER PRIMARY KEY`, so it is SQLite's row id. A duplicate key is refused, and `SELECT *` returns rows in ascending key order. The table is therefore kept in key order. It equals insertion order exactly when the input keys ascend, and `ReplaceAll` proves that case.
- **Engine capacity 0.** The code does not report an explicit error; `trunc` raises on an infinite or undefined quotient. The model gives `None`.
- **An existing "score" column.** Line 87 overwrites it in place, so the frame keeps its width. A frame with fewer than five columns fails at line 97, after the old table has been dropped. Only the first five columns are stored.
- **Column names.** SQLite compares column names without regard to the case of ASCII letters, so "Score" and "score" clash when the table is created.
- **A failed store write.** The drop and the create take effect at once. The inserts are never committed when a key repeats, so the run leaves an empty table.
- **The spreadsheet path.** A spreadsheet input is cleaned, scored and stored like delimited text. Line 110 then raises, because `count` is never assigned on that path, after the line count has been printed.

## Model

| member | source | states |
|---|---|---|
| Decimal.ValueShow | convoy.py:83 | reading back the decimal text of a number gives the number |
| Decimal.ShowIsOne | convoy.py:33-36 | the text of a count is "1" exactly when the count is 1 |
| Cells.StripNonDigits | convoy.py:82 | the cleaned cell consists of digits only and is never longer than the cell |
| Cells.StripConcat | convoy.py:82 | cleaning works character by character: cleaning a concatenation concatenates the cleaned parts |
| Cells.StripIsSubsequence | convoy.py:82 | the cleaned cell is a subsequence of the cell (order kept) |
| Cells.StripCounts | convoy.py:82 | every digit character occurs in the cleaned cell as often as in the cell, and no other character occurs |
| Cells.StripChangesIff | convoy.py:77-82 | cleaning leaves a cell unchanged exactly when it has no `\D` match; otherwise the cell gets strictly shorter |
| Cells.StripIdempotent | convoy.py:82 | cleaning twice is cleaning once |
| Cells.StripEmptyIff | convoy.py:82-83 | nothing is left after cleaning exactly when the cell has no digit |
| Cells.CleanCell | convoy.py:82-83 | a cell converts exactly when it has a digit and its digits' value fits in an int64; the value is that of the digits |
| Cells.CleanCellOfNumber | convoy.py:77-83 | a cell holding the decimal text of n converts to n and is not counted as corrected |
| Cells.NoiseAroundNumber | convoy.py:77-83 | digit-free noise before and after a number is dropped; the cell is counted as corrected exactly when there is noise |
| Cells.CleanCellNoiseExamples | convoy.py:82-83 | "12kg" converts to 12 and "--5--" to 5 |
| Cells.CleanCellJoinExamples | convoy.py:82-83 | "1a2" converts to 12 and "-5" to 5 |
| Cells.CleanCellNoDigitsExample | convoy.py:82-83 | "kg" does not convert |
| Cells.CleanRow | convoy.py:82-83 | a row converts exactly when each of its cells does, cell by cell |
| Cells.CleanRows | convoy.py:82-83 | the frame converts exactly when each row does, row by row |
| Cells.RowCorrections | convoy.py:77 | a row's count of cells with a `\D` match is at most its number of cells |
| Cells.CorrectedCells | convoy.py:77-78 | the correction count is at most the number of cells |
| Cells.CorrectedCellsAreChanges | convoy.py:77-78 | the correction count equals the number of cells that cleaning changes, and is at most the number of cells |
| Cells.CorrectedCellsZeroIff | convoy.py:77-78 | the count is 0 exactly when every cell is already a digit string |
| Scoring.Score | convoy.py:124-135 | for ec > 0 the score lies in 1..6 |
| Scoring.StopsPointsMeaning | convoy.py:130-132 | stops term: 2 when 450·fc < 100·ec, 1 when 100·ec ≤ 450·fc < 200·ec, 0 otherwise |
| Scoring.BurnPointsMeaning | convoy.py:130-133 | burn term: 2 exactly when 450·fc ≤ 23000, else 1 |
| Scoring.ScoreMonotoneInLoad | convoy.py:134 | raising the maximum load never lowers the score |
| Scoring.ScoreAntitoneInFuel | convoy.py:130-134 | with ec fixed, raising fuel consumption never raises the score |
| Scoring.ScoreMonotoneInCapacity | convoy.py:128-132 | with fc fixed, a larger engine capacity never lowers the score |
| Scoring.ScoreExamples | convoy.py:124-135 | (10, 100, 25) scores 6 and (100, 100, 20) scores 3 |
| FileNames.Split | convoy.py:13 | `split('.')` gives at least one field and no field contains '.' |
| FileNames.JoinSplit | convoy.py:13 | joining the fields with '.' gives the name back |
| FileNames.BaseAndExtension | convoy.py:13 | a base name and an extension exist exactly when the name contains '.'; both are dot-free |
| FileNames.BaseAndExtensionOf | convoy.py:13 | "b.e" followed by nothing or by a dotted suffix gives base b and extension e |
| FileNames.RemoveMarker | convoy.py:93 | removing the marker never lengthens the name and introduces no character |
| FileNames.RemoveMarkerAbsent | convoy.py:93 | a name without "[CHECKED]" is unchanged |
| FileNames.RemoveMarkerAppended | convoy.py:93 | removing from name + "[CHECKED]" gives what removing from the name gives |
| FileNames.RerunSameStore | convoy.py:90-94 | the store name computed from a base name with "[CHECKED]" appended equals the one computed from the base name |
| FileNames.StoreName | convoy.py:93-94 | for a dot-free base name, the store file name splits back into the base name without "[CHECKED]" and the extension "s3db" |
| FileNames.CheckedName | convoy.py:90 | for a dot-free base name, the side file's name splits into the base name plus "[CHECKED]" and the extension "csv" |
| FileNames.SplitsAt | convoy.py:13 | a dot-free name followed by one dotted extension splits back into the two |
| Store.CaseClash | convoy.py:97 | "Score" and "score" cannot both be column names |
| Store.RowsOf | convoy.py:98-99 | row i of the inserted tuples holds the i-th value of every column (transposition) |
| Store.InsertByKeyAdds | convoy.py:99 | an insert adds exactly the new row |
| Store.InsertByKeyAscending | convoy.py:97-99 | an insert keeps the rows in ascending primary-key order |
| Store.AscendingUnique | convoy.py:98-99 | two key-ordered sequences of the same rows are equal |
| Store.Zip | convoy.py:22 | `dict(zip(...))` has exactly the column names as keys |
| Store.ZipLookup | convoy.py:22 | a name that occurs once maps to the value at its position |
| Store.Records | convoy.py:19-22 | one record per row, keyed by exactly the column names, column k mapping to the row's k-th value |
| Store.ReadBack | convoy.py:19-22 | reading back the tuples of the column-major data maps column k of record i to the i-th value of input column k |
| Store.ConvoyTable.DropIfExists | convoy.py:96 | afterwards there is no table and no row |
| Store.ConvoyTable.Create | convoy.py:97 | succeeds exactly when no table exists and the names are distinct ignoring ASCII case, leaving an empty table with those columns; otherwise nothing changes |
| Store.ConvoyTable.Insert | convoy.py:99 | succeeds exactly when the key is new; the row is then added in key order, and otherwise nothing changes |
| Store.ConvoyTable.ReplaceAll | convoy.py:96-100 | succeeds exactly when the names (ignoring ASCII case) and the keys are distinct; then the table holds exactly the new rows (as a multiset), one per input row, nothing from before, in input order when the keys ascend. On clashing names no table is left, and on a repeated key an empty one |
| Store.ConvoyTable.ReadAll | convoy.py:19-22 | one record per stored row, whose keys are exactly the column names, each mapping to the row's value in that column |
| Export.WithoutScore | convoy.py:26-29 | the record keeps every key except "score", with its value |
| Export.HighScores | convoy.py:24-27 | no longer than the input, and no output record has a "score" key |
| Export.LowScores | convoy.py:25-29 | no longer than the input, and no output record has a "score" key |
| Export.PartitionSizes | convoy.py:24-25 | each record is high or low, never both, so the group sizes add up to the number of records |
| Export.HighAppend | convoy.py:24-27 | the high group keeps the store order (it splits where the records split) |
| Export.LowAppend | convoy.py:25-29 | the low group keeps the store order |
| Export.HighMembers | convoy.py:24-27 | x is in the high group exactly when x is a record with score > 3 with only "score" removed |
| Export.LowMembers | convoy.py:25-29 | x is in the low group exactly when x is a record with score < 4 with only "score" removed |
| Export.HighDocument | convoy.py:28-32 | the JSON document is an object whose only key is "convoy", even for an empty group |
| Export.HighDocumentRoundTrip | convoy.py:28-32 | reading the JSON document back gives the high records, in order |
| Export.LowDocument | convoy.py:37-43 | the literal `<convoy></convoy>` is written exactly when the low group is empty; otherwise the rendering has root "convoy" and rows "vehicle" |
| Export.LowDocumentRoundTrip | convoy.py:37-43 | the XML export holds exactly the low records, in order, and none when empty |
| Export.CountedWording | convoy.py:33-36 | a count message starts "1 \<noun\> was " exactly when the count is 1; otherwise it reads "\<n\> \<noun\>s were " |
| Export.Counted | convoy.py:106-117 | a count message begins with the decimal count and the noun, and ends with the rest of the sentence |
| Export.SavedMessage | convoy.py:33-47 | "1 vehicle was" exactly when one vehicle is saved |
| Export.LinesMessage | convoy.py:105-109 | "1 line was" exactly when one line is added |
| Export.CorrectedMessage | convoy.py:110-113 | a message exists exactly when the count is at least 1; it reads "1 cell was" exactly for 1 |
| Export.InsertedMessage | convoy.py:114-117 | "1 record was" exactly when one record is inserted |
| Export.IngestMessages | convoy.py:110-117 | the correction message first and only when the count is at least 1, the inserted-records message last |
| Export.ExportRecords | convoy.py:16-48 | the JSON reads back as the high group, the XML holds the low group (the literal when empty), and both messages report the group sizes |
| Pipeline.Find | convoy.py:127-129 | a column is found exactly when the header has it, at a position holding that name |
| Pipeline.ScoreColumn | convoy.py:124-135 | scoring succeeds exactly when no engine capacity is 0; each score is the row's score and lies in 1..6 |
| Pipeline.ScorePosition | convoy.py:87 | the "score" column sits where the header has it, or after the header when it has none |
| Pipeline.ScoredColumns | convoy.py:87-88 | the header is kept as a prefix, and "score" is at the score position; one column more exactly when the header had none |
| Pipeline.WithScores | convoy.py:87-89 | one column per scored name: the scores at the score position, every other column as cleaned |
| Pipeline.ScoredFrame | convoy.py:86-89 | exactly when the three scored columns exist and no engine capacity is 0: the columns are the header with "score" appended unless present, every other column keeps the cleaned values, and the score column holds each row's score, in 1..6 |
| Pipeline.Prepared | convoy.py:82-89 | cleaning and scoring succeed exactly when every cell converts and the frame scores; the result is the scored frame of the cleaned cells, whose every column other than "score" holds each cell's converted value |
| Pipeline.Stored | convoy.py:97-99 | the five columns written are the first five of the frame, in order |
| Pipeline.WriteStore | convoy.py:82-101 | a failure before line 96 leaves the store unchanged; a frame with fewer than five columns or clashing names leaves no table, and a repeated key an empty table with the new columns; the write succeeds exactly when the frame exists, has five columns, and its names and keys are distinct, and the table then holds exactly the frame's tuples |
| Pipeline.Report | convoy.py:110-117 | the correction message first, and only when a cell was corrected; the inserted-records message for one record per input row last |
| Pipeline.IngestExport | convoy.py:110-118 | the exports of the records read back, with the ingestion report before the export messages |
| Pipeline.StoredScoreColumn | convoy.py:87-97 | when "score" is at one of the first five positions, it is among the stored column names |
| Pipeline.StoredScore | convoy.py:87-97 | when "score" is among the first five columns, every record read back has a score |
| Pipeline.ExportStore | convoy.py:60-66 | a store input is exported exactly when its table exists and every record has a score; a failure prints nothing |
| Pipeline.IngestText | convoy.py:75-118 | a failure before the store is written prints nothing; before line 96 it changes nothing, and after it the store is left as `WriteStore` states (no table, or an empty one); the store is rewritten exactly when the frame is accepted, and then holds exactly its tuples; the run then completes exactly when every record read back has a score (always when "score" is among the first five columns), with the ingestion report before the exports; otherwise it fails after printing the report |
| Pipeline.IngestSpreadsheet | convoy.py:67-110 | never completes; when the frame is accepted the store holds its tuples and only the line count was printed; otherwise nothing was printed, and a failed write leaves the store as `WriteStore` states |
| Pipeline.SpreadsheetParser | convoy.py:51-118 | a name without '.' fails and changes nothing; a store input leaves the store unchanged and is exported exactly when its table exists and is scored; a spreadsheet input rewrites the store and fails after the line count; any other input follows the delimited-text path; on both rewriting paths a failed write leaves no table or an empty one, as `WriteStore` states |

## Left out

- Command line, file reading and writing, and printing (convoy.py:8-12, 31-32, 39-43, 103-104): the header and cells come in as parameters. The messages are returned as strings, and the documents as structured values.
- pandas type inference (convoy.py:69, 76): every cell is taken as text, as `dtype=str` makes it for a spreadsheet. `read_csv` reads a column without non-digit text as numbers or booleans, and the model does not follow it:
  - a manifest whose cells are all numeric makes `.str` raise at line 77;
  - a header-only file fails at line 78;
  - "-5" and "1.5" in a numeric column become -5 and 1, and are not counted as corrected;
  - "True" and "False" in a boolean column become 1 and 0.
- Cells.StripNonDigits: takes only '0' to '9' as digits. Python's `\D` on text also keeps every other Unicode decimal digit, such as "١٢", which `astype('int64')` then reads.
- Store.ConvoyTable.Create: the column names are spliced into the SQL text unquoted (convoy.py:97), so a name that is not a plain identifier, such as one with a space or an SQL keyword, makes the statement fail. The model only checks that the names are distinct.
- Store.ConvoyTable.ReplaceAll: inherits the naming limit of `Create`.
- The spreadsheet's CSV copy (convoy.py:70) is not modelled.
- The side file written at convoy.py:86-91 is not modelled. Its content includes the score column, because `checked_mf` is the same object as `my_df`, and it has no header line. A second run on it therefore does not reproduce the first run's store.
- The first store connection (convoy.py:52-57) and the error messages printed in the `except` branches before `exit()` are not modelled. `Failed` records only the report lines printed before the failure.
- JSON key order and the exact JSON and XML text (convoy.py:32, 37): the documents are structured values. Only the empty XML literal is exact.
- Scoring.Score: uses unbounded integers and exact division. The source computes `450 * fc` in int64, which wraps around above about 2·10^16, and then divides floats, which can round. Neither effect is modelled.
