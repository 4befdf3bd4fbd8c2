# Coffee processing plant: record files, batch repository and reports

A Dafny model of `coffee_processing_plant_system.py`, a small file-backed record system
for a coffee processing plant. The plant keeps three text files:

- the bean inventory (`bean_inventory.txt`): one batch per line, written as
  `batch_id,date,farmer_id,bean_type,weight_kg,status`;
- the processing records (`processing_records.txt`): one completed stage per line, written as
  `batch_id,process_type,start_date,end_date,weight_after`;
- the operations log (`operations_log.txt`): one line `timestamp,operation,details` per
  mutation.

The program reads batches and records from those files and looks batches up by id. It
appends batches and stages, rewrites the whole inventory to change a batch's status, and
reports an inventory summary, processing yields and the most recent log entries.

## How the model is built

- **Files.** `Store.Files` maps each path to the lines it holds, without line breaks. A path
  that is absent reads as no lines, which is the effect of the readers' `FileNotFoundError`
  branches. Appending text adds the lines of that text (`Text.TextLines`). Text is split at
  `'\n'` only, so a field with an embedded `'\n'` produces more than one line. Python also ends
  a line at a bare `'\r'`, which the model does not; the round-trip lemmas exclude `'\r'`
  from every value written (`Records.SafeField`, `OpLog.SafeLog`).
  `Plant.FileStore.Valid` keeps every stored line free of line breaks, and every writing
  operation preserves it.
- **Text.** `Text` defines Python's `str.strip()`, `str.split(",")` and
  `str.split(",", 2)` over `string`. It also proves that splitting undoes joining.
- **Weights.** `float(text)` becomes `Numbers.ParseFloat`, a partial parse into an exact
  decimal (`Numbers.Decimal`). It fails (`None`) where Python raises `ValueError`. The
  rewrite in `update_batch_status` writes a float back as its repr, e.g. `250.0`; this is
  `Numbers.FloatText`. Sums, ratios and means are taken over `real`.
- **Records.** `Records` has the line parsers, the whole-file reader and the line formatters.
  The reader returns `None` when a kept line has a bad weight, and `OrEmpty` then gives the
  `[]` that the reader's generic `except` returns.
- **Operations as functions.** `Store` defines `AddBatch`, `UpdateStatus` and `RecordStage`
  as functions from the files before to `(result, files after)`. `Analytics` defines the two
  reports. Lemmas state what each operation promises.
- **Operations as the program runs them.** `Plant.FileStore` is a class holding the files.
  Its methods follow the source's loops: the readers' `for line in f` with `append`, the
  `batch_found`/`break` search, the line-by-line rewrite, the dictionary-accumulating
  summary and yield loops, and the log window with its in-place `reverse()`. Each method is
  proved equal to the corresponding specification function.
- **Inputs.** The dictionaries passed to `add_bean_batch` and `record_processing_stage` are
  `map<string, string>`. Each value is the text that `str()` would give for it.
- **Time.** The timestamp from `datetime.now()` is a parameter, `now`.
- **Dictionaries.** A Python dict is kept in insertion order as a list of `(key, value)`
  pairs. `DistinctKeys` states that no key appears twice.

Facts about the code that the model states explicitly:

- One unparseable weight aborts the whole read, and `read_inventory` (or
  `read_processing_records`) returns `[]` (`Records.ReadLinesNone`).
- `update_batch_status` changes only `status` and never `weight_kg` (`Store.SetStatus`).
  Every stage's yield is therefore measured against the weight the batch was added with.
- `add_bean_batch` does not check that the weight is a number. When the six values hold no
  comma, `'\n'` or `'\r'`, the id does not start and the status does not end with white
  space, and the weight is not a number, the batch is still appended. From then on every read of
  the inventory is empty (`Store.AddBadWeight`).
- `record_processing_stage` always updates the status in the default inventory file,
  whatever processing path it is given. It reports success even when no batch has the id
  (`Store.RecordStageUnknownBatch`).
- A processing record whose `batch_id` resolves to a batch of stored weight 0 makes
  `calculate_processing_yields` raise `ZeroDivisionError`, and the outer `except` returns
  `{}` (`Analytics.YieldsZero`). A zero-weight batch that no record refers to has no effect.
- The status rewrite in `update_batch_status` writes back only the batches it read. Blank
  lines, lines with fewer than six fields and every field after the sixth are dropped, and
  each weight is written as its float repr, e.g. `250` becomes `250.0`
  (`Store.UpdateStatusFound`, `Store.RewriteReadBack`).
- `read_recent_logs(0)` returns the entries of every line that has three fields, newest
  first, since `lines[-0:]` is the whole list (`OpLog.Tail`, `OpLog.RecentLogs`).

## Model

| member | source | states |
|---|---|---|
| `Text.Strip` | coffee_processing_plant_system.py:47 | the stripped line has no white space at either end, and it equals the line exactly when the line already had none |
| `Text.Split` | coffee_processing_plant_system.py:48 | `split(",")` gives at least one piece, no piece holds a comma, and joining the pieces with commas gives the line back |
| `Text.TextLines` | coffee_processing_plant_system.py:46 | the lines Python reads from a file's text: none holds `'\n'`, there are none exactly when the text is empty, and joining them with `'\n'` (plus the final `'\n'` the text ends with, if any) gives the text back, so no empty line follows a final line break; `Text.TextLinesOfLine` states that one written line reads back as itself. Only `'\n'` ends a line |
| `Text.TextLinesOfLine` | coffee_processing_plant_system.py:46 | a line without `'\n'`, written with its line break, is read back as exactly that one line |
| `Store.Lines` | coffee_processing_plant_system.py:60-62 | the lines of a file, none when the path is absent, as the `FileNotFoundError` branches return `[]`; in well-formed files no line holds `'\n'`. `Store.AppendText` states what an append adds to them |
| `Text.SplitMax` | coffee_processing_plant_system.py:395 | `split(",", 2)` gives between one and three pieces, only the last may hold commas, and joining them gives the line back |
| `Records.ParseBatchLine` | coffee_processing_plant_system.py:47-57 | one inventory line: skipped when blank or with fewer than six fields, aborting when the weight does not parse, otherwise the batch of its first six fields; a weight read is in canonical float form. `Records.BatchLineCases` and `Records.ExtraBatchFieldsIgnored` state its cases |
| `Records.ParseProcessingLine` | coffee_processing_plant_system.py:81-91 | one processing line, in the same way with five fields; its cases are stated by `Records.ProcessingLineCases` and `Records.ExtraProcessingFieldsIgnored` |
| `Records.ReadLines` | coffee_processing_plant_system.py:44-65 | the reader over a file's lines keeps at most one record per line; `Records.ReadLinesNone`, `Records.ReadLinesConcat` and `Records.ReadLinesRows` state when it fails, that it keeps line order, and where each record comes from |
| `Records.BatchLineCases` | coffee_processing_plant_system.py:47-57 | an inventory line is skipped exactly when it is blank after stripping or has fewer than six comma fields; it aborts the read exactly when it is kept and its fifth field is not a number |
| `Records.ExtraBatchFieldsIgnored` | coffee_processing_plant_system.py:48-57 | two inventory lines that agree on their first six fields are read as the same batch, so fields after the sixth are ignored |
| `Records.ProcessingLineCases` | coffee_processing_plant_system.py:81-91 | a processing line is skipped exactly when it is blank or has fewer than five fields; it aborts the read exactly when it is kept and its weight is not a number |
| `Records.ExtraProcessingFieldsIgnored` | coffee_processing_plant_system.py:82-90 | two processing lines that agree on their first five fields are read as the same record |
| `Records.ReadLinesNone` | coffee_processing_plant_system.py:44-65 | a read fails, and so returns the empty list, exactly when some line of the file has a weight that does not parse |
| `Records.ReadLinesConcat` | coffee_processing_plant_system.py:46-58 | the records of two consecutive runs of lines are those of the first run followed by those of the second, so output order follows line order |
| `Records.ReadLinesRows` | coffee_processing_plant_system.py:46-58 | every record of a successful read is the record of one of the file's lines |
| `Records.InventoryCanonical` | coffee_processing_plant_system.py:55 | every weight read from the inventory is a float value in the canonical form that repr writes |
| `Records.Inventory` | coffee_processing_plant_system.py:33-65 | `read_inventory` on a file's lines: the read, or `[]` when it fails; stated through `Records.ReadLinesNone` and `Plant.FileStore.ReadInventory` |
| `Records.ProcessingRecords` | coffee_processing_plant_system.py:67-98 | `read_processing_records` on a file's lines; stated through `Records.ReadLinesNone` and `Plant.FileStore.ReadProcessingRecords` |
| `Plant.ReadRows` | coffee_processing_plant_system.py:43-58 | the reader loop returns the records of the kept lines in line order, or the empty list as soon as a weight fails to parse |
| `Plant.FileStore.ReadInventory` | coffee_processing_plant_system.py:33-65 | `read_inventory` returns the batches the file's lines describe; a missing file gives none |
| `Plant.FileStore.ReadProcessingRecords` | coffee_processing_plant_system.py:67-98 | `read_processing_records` returns the records the file's lines describe; a missing file gives none |
| `Numbers.ParseFloat` | coffee_processing_plant_system.py:55 | `float(text)` succeeds exactly when the text is a signed decimal with optional surrounding white space; the result has the value the text denotes |
| `Numbers.ParseNumber` | coffee_processing_plant_system.py:55 | the decimal forms `float()` accepts; `Numbers.ParseFloat` and `Numbers.ParseFloatText` state what it reads |
| `Numbers.FloatText` | coffee_processing_plant_system.py:237 | the repr that `f"{w}"` writes for a float weight; `Numbers.ParseFloatText` states that `float()` reads it back as the same float |
| `Numbers.ParseFloatText` | coffee_processing_plant_system.py:235-237 | a float weight written back with `f"{w}"` is read by `float()` as the same float |
| `Store.FindIndex` | coffee_processing_plant_system.py:113-115 | the position found holds the id and no earlier batch has it; there is no position exactly when no batch has the id |
| `Store.FindBatch` | coffee_processing_plant_system.py:111-116 | `find_batch_by_id` gives `None` exactly when no batch has the id, otherwise the first batch in file order with that id |
| `Plant.FindIn` | coffee_processing_plant_system.py:113-116 | the loop returns the first batch with the id, or `None` |
| `Plant.FileStore.FindBatchById` | coffee_processing_plant_system.py:100-119 | the lookup reads the inventory and returns its first batch with the id; an empty or missing file gives `None` |
| `Records.BatchText` | coffee_processing_plant_system.py:148-150 | the line `add_bean_batch` appends; its inverse is stated by `Records.BatchTextRoundTrip` and `Records.BatchTextBadWeight` |
| `Records.ProcessingText` | coffee_processing_plant_system.py:184-186 | the line `record_processing_stage` appends; its inverse is stated by `Records.ProcessingTextRoundTrip` |
| `Records.RewriteText` | coffee_processing_plant_system.py:235-237 | the line the status rewrite writes for one batch; its inverse is stated by `Records.BatchLineRoundTrip` |
| `Records.BatchTextRoundTrip` | coffee_processing_plant_system.py:148-150 | the line `add_bean_batch` writes is a single line. It reads back as the batch the values describe when the values hold no comma, `'\n'` or `'\r'`, the id does not start and the status does not end with white space, and the weight is a number |
| `Records.ProcessingTextRoundTrip` | coffee_processing_plant_system.py:184-186 | the line `record_processing_stage` writes for such values reads back as the record they describe |
| `Records.BatchLineRoundTrip` | coffee_processing_plant_system.py:235-237 | the line the status rewrite writes for a batch reads back as exactly that batch, when its text fields hold no comma, `'\n'` or `'\r'`, its id does not start and its status does not end with white space, and its weight is a float in canonical form |
| `Records.BatchTextBadWeight` | coffee_processing_plant_system.py:148-154 | a batch line written with a non-numeric weight is read as a line that aborts the read |
| `Store.AppendText` | coffee_processing_plant_system.py:153-154 | appending adds the lines of the text at the end of that file and changes no other file |
| `Store.LogOperation` | coffee_processing_plant_system.py:363-370 | `log_operation` appends the line `timestamp,operation,details` to the log file and changes no other file |
| `OpLog.LogText` | coffee_processing_plant_system.py:367 | the line `log_operation` appends; its inverse is stated by `OpLog.LogLineRoundTrip` |
| `Plant.FileStore.LogOperationTo` | coffee_processing_plant_system.py:351-375 | logging returns true and appends the line `timestamp,operation,details` to the given log file, changing no other file (for the default path this is `Store.LogOperation`); it keeps every stored line free of line breaks |
| `Store.AddBatch` | coffee_processing_plant_system.py:122-162 | `add_bean_batch` on the files: a refusal writes nothing, and every stored line stays free of line breaks; `Store.AddBatchOutcome`, `Store.AddThenFind` and `Store.AddBadWeight` state the rest |
| `Store.AddBatchOutcome` | coffee_processing_plant_system.py:133-159 | `add_bean_batch` succeeds exactly when all six keys are present and the id is new. On refusal nothing is written. On success the inventory gains the batch line and the log gains one line, and no other file changes |
| `Store.AddThenFind` | coffee_processing_plant_system.py:140-157 | after adding a batch with safe values to a readable inventory, the inventory reads as before plus the new batch, and a lookup of its id returns that batch |
| `Store.FindAppended` | coffee_processing_plant_system.py:142-154 | a batch appended after batches without its id is the one a lookup of that id finds |
| `Store.AddBadWeight` | coffee_processing_plant_system.py:148-154 | a new batch with a non-numeric weight is still accepted, and afterwards the inventory reads as empty, when its values hold no comma, `'\n'` or `'\r'` and its id and status have no white space at the outer ends |
| `Plant.FileStore.AddBeanBatch` | coffee_processing_plant_system.py:122-162 | the method checks the keys, checks for the id, then appends and logs; its result and new files are those of `Store.AddBatch`, and it keeps every stored line free of line breaks |
| `Store.SetStatus` | coffee_processing_plant_system.py:221-226 | only the first batch with the id gets the new status; every other batch, every other field and the order stay the same |
| `Store.RewriteLines` | coffee_processing_plant_system.py:233-238 | the lines of the rewritten inventory hold no line break; `Store.RewriteReadBack` states that they read back as the batches written |
| `Plant.SetFirstStatus` | coffee_processing_plant_system.py:221-230 | the `batch_found`/`break` loop reports whether a batch has the id and returns the inventory with that batch's status replaced |
| `Store.RewriteReadBack` | coffee_processing_plant_system.py:233-238 | rewriting an inventory of safe batches writes one line per batch and reads back as the same batches in the same order |
| `Plant.FileStore.WriteAll` | coffee_processing_plant_system.py:233-238 | opening for writing and writing each batch's line leaves that file holding exactly those lines and changes no other file |
| `Store.UpdateStatus` | coffee_processing_plant_system.py:204-246 | `update_batch_status` on the files: it succeeds exactly when some batch has the id, a refusal writes nothing, and every stored line stays free of line breaks; `Store.UpdateStatusFound` and `Store.UpdateThenRead` state the rest |
| `Store.UpdateStatusMissing` | coffee_processing_plant_system.py:228-230 | an update of an id no batch has returns false and writes nothing |
| `Store.UpdateStatusFound` | coffee_processing_plant_system.py:216-243 | an update of a present id returns true, replaces the inventory file with the rewritten batches and appends one log line; no other file changes |
| `Store.UpdateThenRead` | coffee_processing_plant_system.py:216-243 | after a successful update of safe batches, the inventory reads back as before with only the first matching batch's status changed |
| `Store.SetStatusFind` | coffee_processing_plant_system.py:221-226 | after the status change, a lookup of the id finds the same batch with the new status |
| `Store.UpdateThenFind` | coffee_processing_plant_system.py:204-243 | a status update followed by a lookup of the same id returns the new status |
| `Plant.FileStore.UpdateBatchStatus` | coffee_processing_plant_system.py:204-246 | the method reads, updates in memory, rewrites and logs; its result and new files are those of `Store.UpdateStatus`, and it keeps every stored line free of line breaks |
| `Store.RecordStageMissing` | coffee_processing_plant_system.py:176-180 | recording with a required key missing returns false and writes nothing |
| `Store.RecordStage` | coffee_processing_plant_system.py:164-202 | `record_processing_stage` on the files: it succeeds exactly when every required key is present, whatever the status update returns; a refusal writes nothing, and every stored line stays free of line breaks; `Store.RecordStageOutcome` states the rest |
| `Store.RecordStageOutcome` | coffee_processing_plant_system.py:182-199 | with every key present, recording returns true and appends exactly the record line. The default inventory becomes what the status update to `process_type` makes of it, and the log ends with the recording |
| `Store.RecordStageUnknownBatch` | coffee_processing_plant_system.py:192-199 | recording a stage for an unknown batch still returns true and keeps the appended record, while the inventory is untouched |
| `Store.RecordThenRead` | coffee_processing_plant_system.py:184-190 | a recorded stage with safe values is read back at the end of the processing records |
| `Plant.FileStore.RecordProcessingStage` | coffee_processing_plant_system.py:164-202 | the method validates, appends, updates the status, ignores that result and logs; its result and new files are those of `Store.RecordStage`, and it keeps every stored line free of line breaks |
| `Analytics.AddWeight` | coffee_processing_plant_system.py:273-275 | adding a weight under a key adds it to that key's value alone and to the sum of the values, and adds the key at the end only when it is new |
| `Analytics.GroupWeights` | coffee_processing_plant_system.py:269-283 | the grouping loop over the inventory; `Analytics.GroupWeightsSpec` states its keys, values and sum |
| `Analytics.GroupWeightsSpec` | coffee_processing_plant_system.py:269-283 | a grouping's keys are the distinct keys of the batches in first-appearance order, each value is the weight of the batches with that key, and the values sum to the total weight |
| `Analytics.Summarize` | coffee_processing_plant_system.py:260-290 | `calculate_inventory_summary` on the inventory read; `Analytics.SummarizeSpec` states what it holds |
| `Analytics.SummarizeSpec` | coffee_processing_plant_system.py:260-290 | the summary is `None` exactly for an empty inventory. Otherwise it holds the number of batches and the total weight, and `bean_types` and `stages` are keyed by exactly the distinct bean types and statuses, each summing to the total weight |
| `Plant.SumWeights` | coffee_processing_plant_system.py:267 | the summing loop returns the total weight of the batches |
| `Plant.GroupWeightsBy` | coffee_processing_plant_system.py:270-283 | the grouping loops build the bean-type and status groupings |
| `Plant.FileStore.CalculateInventorySummary` | coffee_processing_plant_system.py:249-293 | the method returns the summary of the inventory the file holds |
| `Analytics.AddRecord` | coffee_processing_plant_system.py:313-315 | appending a record puts it at the end of its type's group alone, adding the type as a new key only when it is new |
| `Analytics.GroupByProcess` | coffee_processing_plant_system.py:310-315 | the grouping of records by process type; `Analytics.GroupByProcessSpec` states its keys and groups |
| `Analytics.GroupByProcessSpec` | coffee_processing_plant_system.py:310-315 | grouping keeps the distinct process types in first-appearance order, and each group holds exactly the records of its type, in file order |
| `Plant.GroupRecords` | coffee_processing_plant_system.py:310-315 | the grouping loop builds that grouping |
| `Analytics.GroupYieldSpec` | coffee_processing_plant_system.py:324-335 | the per-type loop fails exactly when a resolving record's batch weighs 0. Otherwise it sums the yields of the records whose batch is found and counts exactly those records |
| `Analytics.GroupYield` | coffee_processing_plant_system.py:324-335 | the inner yield loop over one type's records; `Analytics.GroupYieldSpec` states when it fails and what it sums and counts |
| `Plant.SumYields` | coffee_processing_plant_system.py:321-335 | the inner loop returns that sum and count, or fails on a zero weight |
| `Analytics.CountPositive` | coffee_processing_plant_system.py:337 | the count is positive exactly when some record's batch id resolves |
| `Analytics.StatOfSpec` | coffee_processing_plant_system.py:320-343 | a type gets a statistic exactly when no division by zero occurs and some record resolves. Its count is the number of resolving records and its average is their mean yield |
| `Analytics.YieldsZero` | coffee_processing_plant_system.py:332 | a record whose batch weighs 0 makes the whole yields result empty |
| `Analytics.YieldsSpec` | coffee_processing_plant_system.py:306-348 | without a zero weight, a process type is a key exactly when one of its records resolves, no key appears twice, and each entry is the statistic of that type's records; with one, the result is empty |
| `Analytics.Yields` | coffee_processing_plant_system.py:306-348 | `calculate_processing_yields` on the records and inventory read; `Analytics.YieldsSpec` and `Analytics.YieldsZero` state its keys, entries and the empty result |
| `Plant.YieldsFrom` | coffee_processing_plant_system.py:318-345 | the outer loop returns the yields of the records against the inventory |
| `Plant.FileStore.CalculateProcessingYields` | coffee_processing_plant_system.py:295-348 | the method returns the yields of the records the processing file holds against the inventory file |
| `OpLog.ParseLogLine` | coffee_processing_plant_system.py:395-401 | a log line yields an entry exactly when it has at least three fields; timestamp and operation hold no comma, and the three fields rejoined with commas give the stripped line, so `details` keeps later commas |
| `OpLog.Entries` | coffee_processing_plant_system.py:393-402 | the log entries of the lines with three fields, at most one per line, in line order; `OpLog.RecentLogs` and `Plant.ParseEntries` state how they are used |
| `OpLog.LogLineRoundTrip` | coffee_processing_plant_system.py:367-401 | the line `log_operation` writes is one line and reads back as the entry it records, whatever commas the details hold |
| `OpLog.Tail` | coffee_processing_plant_system.py:394 | `lines[-count:]` is a suffix of the lines: the last `count` for a positive count, all for 0, and all but the first `-count` for a negative count |
| `OpLog.Reverse` | coffee_processing_plant_system.py:405 | `reverse()` keeps the length and puts the element at `k` at `n - 1 - k` |
| `OpLog.RecentLogs` | coffee_processing_plant_system.py:388-407 | the result is the entries of the last `count` lines in reverse order, newest first; it has at most `count` entries for a positive count and holds every entry for 0 |
| `OpLog.LatestLog` | coffee_processing_plant_system.py:367-407 | right after an entry is logged, the window of one holds exactly that entry |
| `Plant.ParseEntries` | coffee_processing_plant_system.py:393-402 | the loop keeps the entries of the lines with three fields, in line order |
| `Plant.ReverseEntries` | coffee_processing_plant_system.py:405 | the loop returns the entries last first |
| `Plant.FileStore.ReadRecentLogs` | coffee_processing_plant_system.py:377-413 | the method returns the recent entries of the log file, newest first; a missing file gives none |

## Left out

- `main` and `display_inventory_summary`: console input and output, and percentages printed with float format specifiers.
- `create_sample_data`: it only overwrites the two files with fixed demonstration rows.
- Real file handling: `open`, and the I/O failures caught by the generic `except` blocks. Files are in-memory line lists, and a missing file reads as no lines.
- `Text.TextLines`: Python reads the files in universal-newline mode, where `'\r'` and `'\r\n'` also end a line; the model splits at `'\n'` only. A `'\r'` directly before a `'\n'` is white space that `strip()` removes, so it makes no difference. A `'\r'` inside a value written to a file would end the line when Python reads it back, for example a date `2023\r05` splits a new batch into two short lines that are skipped. The model would keep one line, so every round-trip lemma (`Records.BatchTextRoundTrip`, `Records.ProcessingTextRoundTrip`, `Records.BatchLineRoundTrip`, `Store.AddThenFind`, `Store.RecordThenRead`, `OpLog.LogLineRoundTrip`, `OpLog.LatestLog`) requires values free of `'\r'`.
- `Plant.FileStore.LogOperationTo`: always returns true, because the write failure that makes `log_operation` return false is I/O.
- `Plant.FileStore.AddBeanBatch`, `Plant.FileStore.UpdateBatchStatus`, `Plant.FileStore.RecordProcessingStage`: the false result after an exception during writing is not modelled, for the same reason.
- `datetime.now()`: the timestamp is the parameter `now`. The two log lines of one `record_processing_stage` call share it.
- `Numbers.ParseFloat`: `float()` also accepts exponents, `inf`/`nan`, underscores between digits and non-ASCII digits. These forms are treated as parse failures. The value is kept as an exact decimal, without binary rounding to a double.
- `Numbers.FloatText`: it writes repr's plain positional form. Python switches to exponent notation for magnitudes of 1e16 and above, or below 1e-4, and that is not modelled.
- `Numbers.ParseFloat` and `Numbers.FloatText`: signed zero is lost. `float("-0")` is `-0.0` in Python, and the status rewrite writes it back as `-0.0`; the model reads it as the decimal 0 and writes `0.0`.
- `Store.AppendText`: a file whose last line has no trailing line break cannot be represented, because a file is a list of complete lines. Python's append continues such a last line. For example, if the inventory ends with `B001,2023-05-15,F042,Arabica,250,received` and no line break, then after `add_bean_batch` adds B002 Python reads one eleven-field line: B001 with status `receivedB002`, and a lookup of B002 gives `None`. The model starts a new line instead, so `Store.AddThenFind`, `Store.RecordThenRead` and `OpLog.LatestLog` hold only for files whose last line ends with a line break (every file the program itself writes).
- `Analytics.StatOfSpec`: the average is the exact real mean. `round(avg_yield, 2)` and floating-point division are not modelled.
- `Plant.FileStore.CalculateProcessingYields`: reads the inventory once. The source reads it again for every record, which gives the same batches because nothing writes in between.
- Values of other Python types in the input dictionaries appear only as their `str()` text. For example, an integer id never equals a string id, and that is not modelled. The dynamic-type tests have no counterpart here.
- Concurrency, atomicity and crash safety of the whole-file rewrite are not modelled: all operations are sequential.
- skeleton.py holds only stubs and is not part of this model.
