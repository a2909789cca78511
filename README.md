# LeoFS bucket calculation and gateway log merging, in Dafny

This project models two small LeoFS tools and proves properties of them.

- **`bucket_calc.py`** registers gateway access-log lines into a MySQL table `leofs_keys`. The table is keyed by object path and holds the bucket, the size and the unix time of each object.
  - Registration follows per-path last-writer-wins rules. A newer PUT replaces the size or adds to it, depending on field 3. A DELETE at least as new as the row removes it. Stale lines are ignored. A line for a path with no row inserts one, whatever its operation.
  - The tool then reports, per bucket, the number of objects and their total size in GiB.
- **`log_merger.py`** pools several gateway logs and keeps the `[PUT]` and `[DELETE]` lines. It sorts them as Python sorts `(timestamp, line)` tuples and writes them out.

The modules follow the source:

- `Text` (`text.dfy`) holds the string operations both tools rely on:
  - `str.split`;
  - the substring test `sub in s`;
  - Python's string order;
  - decimal numerals, both as a `bigint` column reads them and as `str(n)` writes them back.
- `BucketCalc` (`bucket_calc.dfy`) holds the registration half of `bucket_calc.py`.
  - `Apply` and `ApplyAll` specify the effect of one line and of a batch on a `map<string, Record>`.
  - The class `KeyStore` holds that map as a field. Its methods are the SQL statements the tool sends, each a point operation on the map. `KeyStore.Regist` is the `regist_log` loop, proved against `ApplyAll`.
- `BucketReport` (`bucket_report.dfy`) holds the read-only queries of `analyze_log` (distinct buckets, `count(*)`, `sum(size)`) and the truncating GiB division.
- `LogMerger` (`log_merger.dfy`) holds `extract_timestamp`, the PUT/DELETE filter, an in-place insertion sort of the `(timestamp, line)` pairs on an array, and the output loop (`Merge`).
- `LogMergerExample` (`log_merger_example.dfy`) replays the example from the merger's help text.

Details of how the model reads the source:

- **Field positions.** A split line is read as the code reads it: operation in field 0, bucket 1, path 2, flag 3, size 4, unix timestamp 6.
  - In the gateway's log, date, time and zone together form the single tab field 5. Field 6 is therefore the unix clock.
  - The help text's result at log_merger.py:55-57 depends on this. If date, time and zone were separate fields, field 6 would hold the time of day. Then `23:59:04.131844` would sort before `23:59:04.87913`, and the DELETE line would come out last instead of second.
- **String comparisons.** Timestamps and the flag are compared as strings, exactly as the code compares them. The stored `unix_t` is a `bigint`, turned back into text with `str` before each comparison. `Text.LexLtIsNumericLt` shows when that string order agrees with numeric order.

## Model

| member | source | states |
|---|---|---|
| `Text.Split` | bucket_calc.py:118 | `str.split` yields at least one piece, and no piece contains the separator |
| `Text.JoinSplit` | log_merger.py:36 | joining the pieces of a split with the separator gives the original line back |
| `Text.SplitJoin` | log_merger.py:36 | splitting a join of separator-free fields gives exactly those fields, so field i of such a line is the i-th field |
| `Text.ContainsIffOccurs` | bucket_calc.py:125 | `sub in s` holds exactly when `sub` occurs at some position of `s` |
| `Text.Contains` | bucket_calc.py:125 | Python's `sub in s`: `sub` is a prefix of `s` or of one of its suffixes |
| `Text.NotContainsPastHead` | log_merger.py:73 | a line whose only `[` is its first character contains `[PUT]` or `[DELETE]` only as a prefix |
| `Text.LexLt` | log_merger.py:75 | Python's `<` on `str`: the first differing character decides, and a proper prefix comes first |
| `Text.LexLe` | bucket_calc.py:132 | Python's `<=` on `str`: equal, or `<` |
| `Text.LexLtIrreflexive` | log_merger.py:75 | Python's `<` on strings is irreflexive |
| `Text.LexLtAsymmetric` | log_merger.py:75 | Python's `<` on strings is asymmetric |
| `Text.LexLtTransitive` | log_merger.py:75 | Python's `<` on strings is transitive |
| `Text.LexLtTotal` | log_merger.py:75 | any two different strings are ordered one way or the other |
| `Text.LexLtAfterPrefix` | log_merger.py:75 | putting a common prefix before two strings keeps their order |
| `Text.ToDecimal` | bucket_calc.py:126 | `str(n)` of a stored `bigint` is a digit string without leading zeros, and starts with `0` only for 0 |
| `Text.Value` | bucket_calc.py:128 | the number a digit string denotes once it is written into a `bigint` column |
| `Text.ValueOfToDecimal` | bucket_calc.py:126 | reading back what `str(n)` wrote gives `n` |
| `Text.ToDecimalOfValue` | bucket_calc.py:128 | a canonical digit string stored in a `bigint` column comes back unchanged through `str` |
| `Text.LexLtIsNumericLt` | log_merger.py:32-36 | for digit strings of equal length, string `<` holds exactly when the numbers compare `<` |
| `Text.LexLeIsNumericLe` | bucket_calc.py:132 | for digit strings of equal length, string `<=` holds exactly when the numbers compare `<=` |
| `BucketCalc.SplitLines` | bucket_calc.py:118 | the batch has one split line per log line; each split line has at least one field, no field holds a tab, and joining the fields with tabs gives the log line back |
| `BucketCalc.WellFormed` | bucket_calc.py:122-135 | at least seven fields, with fields 4 and 6 written in digits: enough for the loop body to read every field it may read without an `IndexError` and for the `bigint` columns to accept the size and the stamp (stronger than the source needs; see "Left out") |
| `BucketCalc.IsPut` | bucket_calc.py:125 | `"PUT" in b[0]`: `PUT` occurs at some position of the operation field |
| `BucketCalc.IsDelete` | bucket_calc.py:131 | `"DELETE" in b[0]`: `DELETE` occurs at some position of the operation field |
| `BucketCalc.IsReplace` | bucket_calc.py:127 | `b[3] <= "1"`: the flag is `1`, is empty, or starts with a character before `1` |
| `BucketCalc.Apply` | bucket_calc.py:121-135 | the table after one pass of the loop body. A path with no row gets one. Otherwise a PUT with `b[6] > str(unix_t)` updates the row (`update_log` when `b[3] <= "1"`, else `update_add_log`). A DELETE with `b[6] >= str(unix_t)` removes the row. Anything else leaves the table as it was |
| `BucketCalc.ApplyAll` | bucket_calc.py:121-135 | the table after `for b in buff`: `Apply` folded over the lines in order |
| `BucketCalc.KeyStore.constructor` | bucket_calc.py:68-73 | `CREATE TABLE IF NOT EXISTS` against an empty database yields an empty table |
| `BucketCalc.KeyStore.SelectUnixT` | bucket_calc.py:97-99 | `SELECT unix_t ... WHERE path = %s` returns a value exactly when the path has a row, and then it is that row's `unix_t` |
| `BucketCalc.KeyStore.Insert` | bucket_calc.py:76-79 | `INSERT` adds the row (path, bucket, size, unix_t) for a path that has none, and changes nothing else |
| `BucketCalc.KeyStore.Update` | bucket_calc.py:82-84 | `UPDATE ... SET size, unix_t` overwrites both and keeps the bucket; an absent path changes nothing |
| `BucketCalc.KeyStore.UpdateAdd` | bucket_calc.py:87-89 | `UPDATE ... SET size = size + %s` adds to the size, overwrites `unix_t` and keeps the bucket; an absent path changes nothing |
| `BucketCalc.KeyStore.Delete` | bucket_calc.py:92-94 | `DELETE ... WHERE path = %s` removes that path's row, if any, and nothing else |
| `BucketCalc.KeyStore.RegistLine` | bucket_calc.py:122-135 | one pass of the loop body leaves the table as `Apply` of the old table and the line |
| `BucketCalc.KeyStore.Regist` | bucket_calc.py:117-136 | after `regist_log` the table is the fold of `Apply` over the split lines, in file order |
| `BucketCalc.ApplyToAbsentPath` | bucket_calc.py:122-135 | a line for a path with no row, whatever its operation (GET and DELETE included), inserts `(b[1], b[4], b[6])` under `b[2]` and adds only that key |
| `BucketCalc.ApplyNewerPut` | bucket_calc.py:125-130 | a PUT newer than the stored stamp keeps the keys and the bucket and sets `unix_t` to `b[6]`; with `b[3] <= "1"` it sets the size to `b[4]`, otherwise it adds `b[4]` to it |
| `BucketCalc.ApplyStalePut` | bucket_calc.py:125-126 | a PUT whose stamp is not greater than the stored one leaves the table unchanged |
| `BucketCalc.ApplyDelete` | bucket_calc.py:131-133 | a DELETE removes the row exactly when `b[6] >= str(unix_t)`, removes nothing else, and otherwise changes nothing |
| `BucketCalc.ApplyOtherOperation` | bucket_calc.py:121-135 | a line that is neither PUT nor DELETE, for a path that has a row, changes nothing |
| `BucketCalc.ApplyFrame` | bucket_calc.py:121-135 | a line changes only the row of its own path |
| `BucketCalc.ApplyNeverLowersStamp` | bucket_calc.py:126 | with equal-width stamps, a row that survives a line never gets an older `unix_t`, and a PUT changes the table exactly when its stamp is numerically newer |
| `BucketCalc.StampRegressesAcrossWidths` | bucket_calc.py:126 | across a change in digit count the string test misorders stamps: a PUT stamped 99 overwrites a row stamped 100 |
| `BucketCalc.ReplayWithLeadingZeroCountsTwice` | bucket_calc.py:126-130 | a size-adding PUT stamped `00`, registered twice from an empty table, leaves size 10; registered once, size 5 |
| `BucketCalc.ApplyAllFrame` | bucket_calc.py:121-135 | the rows of paths no line of the batch mentions are untouched by the whole batch |
| `BucketCalc.PutBatchKeys` | bucket_calc.py:121-135 | a batch of PUTs removes no row: the keys afterwards are the old keys plus every path the batch mentions |
| `BucketCalc.PutBatchDominates` | bucket_calc.py:121-130 | after a batch of PUTs with `str`-style stamps, every path the batch mentions has a row whose stamp is not older than any of its lines |
| `BucketCalc.DominatedBatchIsNoOp` | bucket_calc.py:126 | a batch of PUTs replayed onto a table that already dominates it changes nothing |
| `BucketCalc.ReplayDeleteOfAbsentPathRemovesRow` | bucket_calc.py:122-135 | a DELETE for a path with no row inserts the row `(bk, 5, 20)`; registering the same line again removes it, so replay is not a no-op once DELETE lines are involved |
| `BucketCalc.ReplayPutBatchIsNoOp` | bucket_calc.py:121-135 | registering a batch of PUT lines twice gives the same table as registering it once, so no size is counted twice |
| `BucketReport.BucketPaths` | bucket_calc.py:107-114 | the rows `WHERE bucket = %s` selects are rows of the table |
| `BucketReport.Buckets` | bucket_calc.py:102-104 | `SELECT DISTINCT bucket`: the set of buckets of the stored rows |
| `BucketReport.ObjectCount` | bucket_calc.py:112-114 | `SELECT count(*) ... WHERE bucket = %s`: the number of rows of that bucket |
| `BucketReport.SumSizes` | bucket_calc.py:107-109 | the sum of the sizes of the rows at a set of paths |
| `BucketReport.SizeSum` | bucket_calc.py:107-109 | `SELECT sum(size) ... WHERE bucket = %s`: the sum of the sizes of the rows of that bucket |
| `BucketReport.ToGiB` | bucket_calc.py:150 | `bytes / 1024 / 1024 / 1024`, each division truncating |
| `BucketReport.Report` | bucket_calc.py:145-150 | the printed report as numbers: for each distinct bucket, its object count and its size in whole GiB |
| `BucketReport.SumSizesRemove` | bucket_calc.py:107-109 | `sum(size)` is the same whichever row is added last |
| `BucketReport.SumSizesAgree` | bucket_calc.py:107-109 | `sum(size)` over a set of paths depends only on those rows' sizes |
| `BucketReport.SizeSumCoversEachRow` | bucket_calc.py:107-109 | no row is bigger than its bucket's `sum(size)` |
| `BucketReport.ToGiBIsOneDivision` | bucket_calc.py:150 | `/ 1024 / 1024 / 1024` with truncation is the floor of division by 1024^3 |
| `BucketReport.ReportLines` | bucket_calc.py:145-150 | the report lists exactly the buckets some row has; each line's object count is the number of rows of that bucket (at least one), and its size is their `sum(size)` divided by 1024^3, rounded down |
| `BucketReport.AddRowCounts` | bucket_calc.py:102-114 | a new row adds one object and its size to its own bucket, and nothing to any other |
| `BucketReport.RemoveRowCounts` | bucket_calc.py:102-114 | removing a row takes one object and its size off its own bucket, and nothing off any other |
| `BucketReport.RegisterNewPath` | bucket_calc.py:134-135 | registering a line for a path with no row adds one object and the line's size to the line's bucket |
| `BucketReport.RegisterDelete` | bucket_calc.py:131-133 | a DELETE that removes a row takes one object and that row's size off the row's bucket |
| `LogMerger.ExtractTimestamp` | log_merger.py:31-36 | the timestamp is one whole tab field (it contains no tab) |
| `LogMerger.HasTimestamp` | log_merger.py:36 | the line has at least seven tab fields, so `line.split('\t')[6]` does not raise `IndexError` |
| `LogMerger.ExtractTimestampOfFields` | log_merger.py:31-36 | for a line built from tab-free fields, at least seven of them, the extracted timestamp is field 6 |
| `LogMerger.IsUpdate` | log_merger.py:73 | `"[PUT]" in l or "[DELETE]" in l` on the whole line |
| `LogMerger.Updates` | log_merger.py:72-73 | every line the filter keeps is an input line containing `[PUT]` or `[DELETE]` |
| `LogMerger.Mergeable` | log_merger.py:72-73 | every line the comprehension keeps has field 6, so building `tupledlist` does not raise `IndexError`; other lines may be of any shape |
| `LogMerger.UpdatesExact` | log_merger.py:72-73 | each PUT or DELETE line is kept exactly as often as it occurs in the input, and no other line is kept |
| `LogMerger.NoUpdatesKeepsNothing` | log_merger.py:72-73 | input with no PUT or DELETE line, the empty input included, keeps nothing |
| `LogMerger.Tupled` | log_merger.py:72-73 | `tupledlist` pairs each kept line, in order, with its own timestamp |
| `LogMerger.Keyed` | log_merger.py:72 | the tuple `(extract_timestamp(l), l)` of one line |
| `LogMerger.EntryLe` | log_merger.py:75 | Python's `<=` on `(timestamp, line)` tuples: the timestamp is `<`, or it is equal and the line is `<=` |
| `LogMerger.MergeOrdered` | log_merger.py:75-77 | the written lines are in the order of their tuples: consecutive timestamps are `<=`, and equal timestamps have lines in `<=` order |
| `LogMerger.EntryLeTotal` | log_merger.py:75 | any two `(timestamp, line)` tuples are ordered one way or the other |
| `LogMerger.SwapDown` | log_merger.py:75 | exchanging two neighbouring pairs changes nothing else and keeps the same pairs |
| `LogMerger.InsertDown` | log_merger.py:75 | moving one pair down over the larger pairs before it extends the sorted prefix by one and keeps the same pairs |
| `LogMerger.SortEntries` | log_merger.py:75 | `tupledlist.sort()` leaves the array in non-decreasing tuple order and a permutation of its old contents |
| `LogMerger.Lines` | log_merger.py:76-77 | the `sortedlist[1]` of each pair, in the order of the pairs, which is what the output loop writes |
| `LogMerger.LinesOfPermutation` | log_merger.py:76-77 | rearranging the pairs rearranges their lines the same way |
| `LogMerger.SortedPairsGiveMergedLines` | log_merger.py:75-77 | writing out the lines of the sorted pairs gives exactly the PUT and DELETE lines, in merge order |
| `LogMerger.PairOrderIsLineOrder` | log_merger.py:75 | tuple order on pairs is timestamp order on their lines, with ties broken by the line text |
| `LogMerger.LineLe` | log_merger.py:75-77 | the order in which the output loop writes two lines: the order of their `(extract_timestamp(l), l)` tuples |
| `LogMerger.LineLeTransitive` | log_merger.py:75 | the merge order on lines is transitive |
| `LogMerger.LineLeAntisymmetric` | log_merger.py:75 | two lines ordered both ways by the merge order are the same line |
| `LogMerger.Merge` | log_merger.py:72-77 | the output is exactly the input's PUT and DELETE lines, as a multiset; consecutive lines have non-decreasing timestamps, and equal timestamps are ordered by line text; no update line in the input means empty output |
| `LogMerger.MergeOrderUnique` | log_merger.py:75 | two merge-ordered arrangements of the same lines are equal, so the output does not depend on input order |
| `LogMergerExample.UpdateLine` | log_merger.py:72-73 | a tab-joined `[PUT]` or `[DELETE]` line is kept, and its timestamp is its field 6 |
| `LogMergerExample.GetLine` | log_merger.py:72-73 | a `[GET]` line with no other `[` is dropped |
| `LogMergerExample.ThreeUpdatesThenGet` | log_merger.py:43-57 | of three update lines followed by a GET line, the filter keeps exactly the three update lines |
| `LogMergerExample.ThreeUpdatesOrdered` | log_merger.py:55-57 | three update lines with increasing timestamps are in merge order |
| `LogMergerExample.HelpExampleStamps` | log_merger.py:44-48 | the example's timestamps 1427813883825366, 1427813944087985 and 1427813944131908 increase as strings |
| `LogMergerExample.MergeHelpExample` | log_merger.py:43-57 | merging access.1.log with access.2.log yields the PUT, DELETE and PUT lines in that order, and the GET line is dropped |

## Left out

- The `DB` class (bucket_calc.py:32-65) is not modelled: the MySQL connection, reconnect-and-retry inside `query`, and commit/close. It is I/O against a foreign library. `KeyStore` holds the table in memory instead.
- `KeyStore.SelectUnixT` models the `fetchall()`-then-iterate idiom at bucket_calc.py:123-124 as a lookup of the stored `unix_t`. The behaviour of a MySQLdb cursor iterated after `fetchall()` depends on library internals the source does not show.
- MySQL conversions and collation are not modelled:
  - `varchar(255)` truncation of long paths and buckets;
  - the default collation, which compares paths and buckets without regard to case or trailing spaces, so `SELECT DISTINCT bucket` and `WHERE bucket = %s` may merge buckets that differ only in those;
  - `bigint` overflow;
  - non-strict coercion of non-numeric text to 0.
  Paths are compared exactly, and sizes and stamps are unbounded naturals.
- `fileinput` reading, `argparse`, `main` in both tools and the writing of output are I/O and CLI plumbing, and are not modelled. The log is given as a sequence of lines, and the merger's output is a returned sequence of lines.
- The fixed-width table text of `analyze_log` (bucket_calc.py:142-151) is presentation only. Only the numbers on each line are modelled (`BucketReport.Report`).
- `BucketReport.SizeSum` uses an exact sum. The Decimal arithmetic of the `sum(size)` result followed by `%d` is modelled as truncating integer division, which agrees with it for non-negative sums.
- Python exceptions on malformed input become preconditions:
  - a merger line containing `[PUT]` or `[DELETE]` must have at least seven tab fields, which is exactly when `extract_timestamp` does not raise (`LogMerger.Mergeable`);
  - a reconciler line must have at least seven tab fields, with a size and a stamp written in digits (`BucketCalc.WellFormed`). This is stronger than what the source needs, as the next lines say.
- `BucketCalc.WellFormed` demands seven fields of every line, but bucket_calc.py:122-135 raises on a short line only in three cases: a PUT or DELETE line for a stored path (it reads `b[6]`), any line for an absent path (the insert reads `b[1]`, `b[4]` and `b[6]`), and any line with fewer than three fields (`b[2]`). A line that splits into `["[GET]", "b", "p"]`, for a stored path `p`, reads only `b[2]` and `b[0]`, raises nothing and changes nothing, yet the model does not accept it. The precondition is kept state-independent so that a batch can be checked line by line, without knowing the table.
- `BucketCalc.Apply` and `BucketCalc.KeyStore.RegistLine` have the same precondition and therefore do not describe the three-to-six-field lines above. For every line they do accept, they follow the source branch for branch.
- `BucketCalc.KeyStore.Regist` over-requires. Its precondition demands at least seven fields, and digit-string size and stamp fields, on every line. The source never reads field 6 of a non-PUT, non-DELETE line for a stored path, and never writes the fields of a GET for an existing path or of a stale PUT to the table. The digit demand comes from modelling rows with `nat` sizes and stamps; the seven-field demand comes from `BucketCalc.WellFormed`.
- `BucketCalc.ApplyNeverLowersStamp` is stated only for stamps of equal width. Across a change in the number of digits the string comparison in the source lets a numerically older PUT win, as `BucketCalc.StampRegressesAcrossWidths` shows.
- `BucketCalc.ReplayPutBatchIsNoOp` is stated for batches of PUT lines only, because the source is not idempotent on DELETE lines. A DELETE for a path with no row inserts a row (bucket_calc.py:135), and its replay removes that row, since its stamp is `>=` the stored one. `BucketCalc.ReplayDeleteOfAbsentPathRemovesRow` shows this.
- `BucketCalc.ReplayPutBatchIsNoOp` is also stated only for stamps written as `str` writes them (no leading zeros). A stamp such as `00` is stored as 0 and compared back as `0`. Since `0` sorts before `00` as a string, its replay applies again, as `BucketCalc.ReplayWithLeadingZeroCountsTwice` shows.
- `LogMerger.SortEntries` sorts by insertion sort instead of Python's own sort (Timsort). Both give the same array: `LogMerger.EntryLeTotal` and `LogMerger.LineLeAntisymmetric` make tuple order total and antisymmetric, and `LogMerger.MergeOrderUnique` shows that only one ordered arrangement of the pairs exists.
- `LogMerger.Merge` returns the lines instead of writing them one by one. Python's sort is stable, but stability cannot be observed here: equal tuples are equal lines.
- Lines are modelled as sequences of Unicode characters, while the Python 2 source reads byte strings. For UTF-8 input the two agree on everything used here. UTF-8 byte order is code-point order. The tab byte and the ASCII tags `PUT`, `DELETE`, `[PUT]` and `[DELETE]` cannot occur inside a multibyte sequence.
