# mysql2ydb: a verified model of the migration

mysql2ydb copies a MySQL database to YDB table by table. For each table a producer pages through MySQL by
primary-key cursor, a channel of capacity two carries the chunks, and a consumer upserts each chunk and then
saves `(cursor, rows so far)` in a state table. The process can die between any two steps and starts again from
that row, possibly with another batch size. This project models that protocol as a state machine, proves what
holds over all its runs, and models and proves the sequential algorithms it rests on: the printed cursor
condition, the reader, the float64 cursor codec, the size partitioner, the value and type conversion, the
writer with its caches and its transactional path, the DDL printer, batch sizing, and the schema phase of main.

`dafny verify dfyconfig.toml` checks everything.

## Where the code departs from its intent

The model has both versions and a theorem about each.

- Cursor choice. The next cursor is taken from the extra (B+1)-th fetched row, though the comment at
  internal/mysql/reader.go:94 says "last row", and the next query is strictly `>`. `FetchedExtra` is the code,
  `KeptLast` the intent. Completeness holds for `KeptLast` exactly when no saved cursor skips; for `FetchedExtra`
  the lost rows are determined exactly, with and without crashes.
- Argument binding. The composite condition has k(k+1)/2 placeholders and the reader passes k values. `Positional`
  is the code (the driver refuses the query when the counts differ), `Intended` gives each `?` the value of the
  column on its left.
- Backticks. The reader quotes names without doubling backticks. The printed condition is read as meant if and
  only if no key column has one.
- Final checkpoint. The last chunk is saved with cursor `[]`, so a crash before completion is marked starts
  another pass with the old total. `passes` counts passes begun this way that saved again.
- Read errors. A failed read returns without closing the channel, and the consumer's loop does not watch the
  context: the stuck state is proved reachable and the only one without a step.
- Partitioning. The recursion ends if and only if no single row exceeds the limit.
- Display widths. `int(10) unsigned` is normalized to a signed type; values arrive unchanged exactly in the
  signed half.
- Dates. MySQL text that no layout reads, such as a DATETIME(6) zero date or a day with month 00, goes to a date
  column as Text. A date value has the column's type if and only if the text is read.
- Bits and decimals. Their columns are Uint64 and Decimal, and their values are sent as Text. YDB refuses them, so a
  table with such a value, or with an unread date, is never completed.
- Key text. JSON rewrites invalid UTF-8, so a binary key can come back from the state table as another one.
- Memory. The documentation says two chunks per table are in flight; the proved bound is four, each with the
  extra fetched row, which truncating a slice does not release.
- Schema phase. The state table vouches for the user tables, except after a `-force-recreate` that dies inside its
  drop loop and after `-data-only` on an incomplete schema; exactly these steps break it, and no later run without
  `-force-recreate` repairs it.

## Layout

- Data and order: `KeyOrder`, `Values`, `Source`, `Upsert`, `TableSchema`, `Arithmetic`, `Substrings`, `SqlText`.
- The transfer protocol: `Pipeline` (steps, conservation, memory), `Resume` (safety, completeness), `Completion` (runs
  that exist, the exact condition), `SingleProcess` (exact loss), `CrashLoss` (the same over all crashes),
  `CursorRows` (any batch sizes), `Composite`, `Counting`, `StartTable` (targets that are not empty), `Progress`.
- Reading: `CursorCondition`, `ConditionMeaning`, `ChunkReader`. State table: `Float64Cursor`, `MigrationStatus`.
- Writing: `Partition`, `Convert`, `YdbTypes`, `TypeSoundness`, `IntegerFidelity`, `ValueFidelity`, `RowConversion`,
  `StorableRows` (what can be stored at all), `YdbServer`, `TxWrite`, `BulkWriter`.
- Schema and sizing: `ColumnTypes`, `Ddl`, `DdlRoundTrip`, `BatchSize`, `SchemaPhase`.
- `EndToEnd` puts conversion, codec, writer and pipeline together.

## Model

| member | source | states |
|---|---|---|
| `EndToEnd.TablesAreCopiedIffNoKeySkips` | cmd/mysql2ydb/main.go:194-266 | With the kept-last cursor, a table keyed by any number of integer and string columns is exactly the converted source in every completed run, after any crashes, restarts, failed writes and batch sizes, if and only if the state table brings no key back at or above its successor |
| `EndToEnd.IntegerTablesAreCopiedIffKeysKeepApart` | cmd/mysql2ydb/main.go:194-266 | For one integer key column of any MySQL integer type, AUTO_INCREMENT or not, with or without display width: if and only if no key is rounded to or past its successor |
| `EndToEnd.TablesAreCopiedExactly` | cmd/mysql2ydb/main.go:194-266 | Keys of integers within ±2^53 and text that JSON carries unchanged, one column or many: such a table is exactly the converted source whenever it is marked completed |
| `EndToEnd.CodeCopiesTheSurvivors` | internal/mysql/reader.go:44-97 | With the code's cursor, one batch size B and such keys, a completed table is, after any crashes, exactly what writing the rows i with (i+1) mod (B+1) != 0 at once leaves |
| `EndToEnd.CompletableIffStorable` | cmd/mysql2ydb/main.go:239-263 | A table that skips no key can be completed by some run if and only if every cell of every row is storable |
| `EndToEnd.CreatedTablesHaveKeyColumns` | internal/ydb/schema.go:49-83 | In a table made by the printed DDL, integer and string keys, AUTO_INCREMENT ones included, have the key columns that the theorems above ask for |
| `EndToEnd.WriterRefinesWrite` | internal/ydb/writer.go:85-153 | What the writer stores for a chunk is the pipeline's write step for the same rows, and it refuses the same chunks |
| `EndToEnd.FailedWriteLeavesAPart` | internal/ydb/writer.go:85-153 | A failed call leaves a part of the chunk, laid over what the table held, and no other table touched |
| `EndToEnd.WriterMakesAPipelineStep` | cmd/mysql2ydb/main.go:239-252 | A call of the writer for the consumer's chunk is the pipeline's write step if it succeeds and its failing write step if it does not |
| `EndToEnd.KeysStayDistinct` | internal/ydb/writer.go:572-679 | Distinct keys of integer and string columns stay distinct through normalization, DDL type, conversion and YDB's type check, unless repairing invalid UTF-8 makes two texts alike |
| `EndToEnd.KeyArrives` | internal/ydb/writer.go:624-655 | The YDB key of a stored row is, column by column, the MySQL key: the integer in the created type, Int64 for AUTO_INCREMENT and the low 32 bits for an unsigned int with a width, the repaired text or the bytes, optional where YDB describes it so |
| `Pipeline.StepConserves` | cmd/mysql2ydb/main.go:206-263 | Every step of a process keeps, in order, checkpointed ++ consumer's chunk ++ channel ++ still to send; nothing is added, dropped or reordered |
| `Pipeline.ReachableFlow` | cmd/mysql2ydb/main.go:206-263 | In every reachable state those messages are the whole stream from the start cursor, the channel holds at most two, the table is the start table with the written rows upserted, and the total counts them |
| `Pipeline.SavingWrote` | cmd/mysql2ydb/main.go:239-252 | With the kept-last cursor, a process about to checkpoint has written exactly the unbroken stretch of rows from its start to the cursor it saves |
| `Pipeline.DrainedWrote` | cmd/mysql2ydb/main.go:256-263 | Completion is marked only when everything the stream holds has been written |
| `Pipeline.MemoryIsBounded` | cmd/mysql2ydb/main.go:210-246 | In every reachable state a process holds at most four chunks, each of a batch and the extra fetched row |
| `Source.SelectIsSuffix` | internal/mysql/reader.go:42-53 | In key order the rows above a cursor are the suffix behind it |
| `Source.KeptLastStreamIsComplete` | internal/mysql/reader.go:79-101 | Paging by the last kept row delivers every row behind the start, once and in order |
| `Source.StreamBounds` | internal/mysql/reader.go:79-101 | Every chunk has between one and `batch` rows, all of them rows of the table |
| `Upsert.UpsertIdempotent` | internal/ydb/writer.go:138-142 | Sending a batch again changes nothing |
| `Upsert.UpsertIsOverlay` | internal/ydb/writer.go:138-142 | A batch overlays one fixed map, whatever the table held |
| `Resume.StepKeepsSafe` | cmd/mysql2ydb/main.go:239-255 | Every step, crashes and failed or unacknowledged saves included, keeps what checkpoints promise |
| `Resume.CheckpointsAreSafe` | internal/ydb/migration_status.go:122-144 | In every reachable state each source row up to the saved cursor is in the target and the target holds nothing that is not a converted source row |
| `Resume.ReplayChangesNothing` | cmd/mysql2ydb/main.go:239-255 | Writing rows that are already in the target leaves the target as it is |
| `Resume.CompletedIsExact` | internal/ydb/migration_status.go:103-116 | A table marked completed equals the converted source table, for kept-last, injective keys and a codec that does not skip |
| `StartTable.ReachableOver` | cmd/mysql2ydb/main.go:100-148 | The states reachable from a target that already holds a table are those reachable from an empty one with that table underneath |
| `StartTable.CompletedIsExactOver` | internal/ydb/migration_status.go:103-116 | So a completed table is what the target held with the exact copy laid over it, for kept-last, injective keys and a codec that does not skip |
| `StartTable.CheckpointsAreSafeOver` | internal/ydb/migration_status.go:122-144 | And a saved cursor covers the rows up to it, whatever the target held |
| `Completion.FaultFreeRunCompletes` | cmd/mysql2ydb/main.go:213-263 | From an idle process some run reaches completion and writes the stream's rows |
| `Completion.SkipLosesARow` | internal/ydb/migration_status.go:147-187 | A codec that carries one cursor to or past the next key makes some run complete without that row |
| `Completion.CompleteExactlyWhenNoSkip` | cmd/mysql2ydb/main.go:194-266 | Every run that completes makes an exact copy if and only if no saved cursor comes back at or above the next row's key |
| `SingleProcess.UninterruptedOutcome` | cmd/mysql2ydb/main.go:206-263 | In any interleaving, an uninterrupted completed run wrote exactly the rows of sequential paging and recorded their number |
| `SingleProcess.FetchedExtraLosesExactly` | internal/mysql/reader.go:44-97 | The code's cursor with batch B, one uninterrupted process: row i is in the target iff (i+1) mod (B+1) is not 0, and the recorded count is N - N/(B+1) |
| `CrashLoss.CrashesLoseExactly` | internal/mysql/reader.go:44-97 | The code's cursor over all runs with one batch size B, however often the process died: for a codec that resumes behind every row, a completed table holds row i iff (i+1) mod (B+1) is not 0, and nothing else, and records N - N/(B+1) rows for every pass over it |
| `CrashLoss.CopyIsCompleteIffOneBatch` | internal/mysql/reader.go:79-97 | Such a completed copy is complete if and only if N is at most B |
| `CursorRows.OnlyCursorRowsAreLost` | internal/mysql/reader.go:44-97 | The code's cursor over all runs and any batch sizes: for a codec that skips nothing, a completed table lacks at most rows whose key was saved as a cursor in that run |
| `SingleProcess.KeptLastCopiesAll` | internal/mysql/reader.go:79-101 | The same run with the last kept row copies all N rows and records N |
| `SingleProcess.SurvivorCount` | internal/mysql/reader.go:79-97 | The number of rows that survive fetched-extra paging from a position on |
| `Composite.CompositeCompletesIffOnePage` | internal/mysql/reader.go:50-52 | With positional arguments and a composite key some run completes if and only if the table fits into one largest batch |
| `Counting.CountIsPositionPlusPasses` | cmd/mysql2ydb/main.go:240-263 | With such a codec, in every reachable state the saved count is the cursor's position plus N for every extra pass, so a completed count is N iff there was none |
| `Counting.CountsAreExactIffResumeIs` | cmd/mysql2ydb/main.go:240-263 | Every table completed without an extra pass records its number of rows if and only if the codec brings every cursor back to its own row |
| `Progress.HealthyProgress` | cmd/mysql2ydb/main.go:213-258 | A reachable process that is not stuck can always take a step that healthy databases take, a write counting only if its rows convert and have the types of their columns; after a failure has cancelled the shared context, no query and no write to YDB counts as one |
| `Progress.OnlyTheStuckStateBlocks` | cmd/mysql2ydb/main.go:217-241 | A reachable process can only be killed if and only if its producer failed without closing and its consumer waits on the empty channel |
| `Progress.BrokenConsumerExits` | cmd/mysql2ydb/main.go:225-255 | After a consumer failure the process exits at once or after one step of the released producer |
| `Progress.ProcessTerminates` | cmd/mysql2ydb/main.go:213-263 | No process takes more than 5N + 6 steps |
| `Progress.StuckIsReachable` | cmd/mysql2ydb/main.go:217-219 | The stuck state occurs |
| `CursorCondition.BuildCursorCondition` | internal/mysql/reader.go:112-128 | The loops print the text whose parse and meaning are proved below |
| `CursorCondition.TokenizesIffNoBackticks` | internal/mysql/reader.go:112-128 | SQL reads the printed text as the intended tokens if and only if no key column name holds a backtick |
| `ConditionMeaning.ParsePrinted` | internal/mysql/reader.go:112-128 | With AND binding tighter than OR, the text parses to the chain of parts, for any number of columns |
| `ConditionMeaning.PrintedConditionIsKeyOrder` | internal/mysql/reader.go:43-52 | Evaluated with each placeholder bound to its column, the condition holds iff the row key is lexicographically above the cursor, in any order of the key columns |
| `ConditionMeaning.PlaceholderCount` | internal/mysql/reader.go:113-128 | The condition has k(k+1)/2 placeholders |
| `ChunkReader.KeysetQuery` | internal/mysql/reader.go:43-52 | The keyset query answers with the rows behind the cursor, except that positional arguments fail for composite keys |
| `ChunkReader.ReadChunk` | internal/mysql/reader.go:29-102 | The reader as written yields exactly the pipeline's fetched-extra chunk with the cursor taken from the scanned row, and fails exactly when MySQL does or for a composite key with a cursor |
| `ChunkReader.CursorFromRow` | internal/mysql/reader.go:158-170 | Each key column gives its scanned value, a column that was not selected gives nil |
| `Float64Cursor.ReloadedExact` | internal/ydb/migration_status.go:189-223 | int64 to float64 and back is the identity up to 2^53 |
| `Float64Cursor.Float64Properties` | internal/ydb/migration_status.go:198-201 | Rounding is monotone, off by at most half a unit in the last place, and idempotent |
| `Float64Cursor.NoSkipOfIntegers` | internal/ydb/migration_status.go:209-216 | For integer keys the completeness condition says that no key is rounded to or past its successor |
| `Float64Cursor.NoSkipOfText` | internal/ydb/migration_status.go:189-207 | For text keys it says that no key is rewritten by JSON to or past its successor |
| `Float64Cursor.ValidTextResumesExactly` | internal/ydb/migration_status.go:189-223 | Text keys that JSON carries unchanged skip nothing and are counted once |
| `Float64Cursor.ReloadedKeysResume` | internal/ydb/migration_status.go:189-223 | Keys of any width with integers within ±2^53 and text that JSON carries unchanged come back as they were, skip nothing and are counted once |
| `Float64Cursor.SmallKeysResumeExactly` | internal/ydb/migration_status.go:209-216 | Keys within ±2^53 skip nothing and are counted once |
| `Float64Cursor.ResumeSkipsExactly` | internal/ydb/migration_status.go:209-216 | A cursor rounded up skips exactly the keys in (c, round(c)], one rounded down rereads exactly those in (round(c), c] |
| `Float64Cursor.RoundedUpKey` | internal/ydb/migration_status.go:198-216 | 2^53+3 comes back as 2^53+4, 2^53+1 as 2^53 |
| `MigrationStatus.CursorToJson` | internal/ydb/migration_status.go:189-207 | Every element is converted as the codec theorems assume |
| `MigrationStatus.JsonToCursor` | internal/ydb/migration_status.go:209-223 | Every element is converted back, floats to int64 |
| `MigrationStatus.ReloadedCell` | internal/ydb/migration_status.go:189-223 | A key cell saved and loaded is rounded if it is an integer and otherwise text as JSON rewrites it, byte keys included |
| `MigrationStatus.StateTable.SaveProgress` | internal/ydb/migration_status.go:122-144 | The new row is the pipeline's checkpoint, its cursor run through the codec; other tables keep theirs |
| `MigrationStatus.StateTable.MarkTableCompleted` | internal/ydb/migration_status.go:103-116 | The table is completed with its count; other tables keep their checkpoint |
| `MigrationStatus.StateTable.GetProgress` | internal/ydb/migration_status.go:146-187 | Returns the cursor and total that the pipeline starts from, and ok exactly for a checkpoint in progress |
| `MigrationStatus.StateTable.GetCompletedTables` | internal/ydb/migration_status.go:65-101 | Returns exactly the completed tables |
| `Partition.EstimateRowSizeBytes` | internal/ydb/writer.go:233-264 | The loop computes the estimate |
| `Partition.EstimateCoversPayload` | internal/ydb/writer.go:233-264 | The estimate is never below the bytes and text the row carries plus 16 a column |
| `Partition.PartitionRowsBySize` | internal/ydb/writer.go:266-282 | The recursive method computes the partition, for rows that fit |
| `Partition.PartitionEndsIffRowsFit` | internal/ydb/writer.go:266-282 | The recursion ends if and only if no single row exceeds the limit |
| `Partition.PartitionIsSound` | internal/ydb/writer.go:266-282 | The parts concatenate to the rows in order; each is non-empty and within the limit |
| `Partition.PartitionIsCoarse` | internal/ydb/writer.go:266-282 | (parts - 1) * limit is at most total * ceil(log2 n) |
| `Convert.TrimSpace` | internal/ydb/writer.go:1011-1019 | The two loops trim both ends |
| `Convert.TrimLeftDropsBlanks` | internal/ydb/writer.go:1011-1015 | Exactly the longest run of leading blanks goes |
| `Convert.TrimRightDropsBlanks` | internal/ydb/writer.go:1015-1018 | Exactly the longest run of trailing blanks goes |
| `TypeSoundness.ConversionIsTypeSound` | internal/ydb/writer.go:570-679 | For every type key and every value of the driver's kind, conversion fails exactly for NULL in a NOT NULL column, and otherwise the result has exactly the column's type, with at most one Optional layer, if and only if it is NULL, or neither a bit nor a decimal nor date text that no layout reads |
| `TypeSoundness.UnreadDatesAreText` | internal/ydb/writer.go:597-623 | Date text that no layout reads is sent to the date column as Text |
| `TypeSoundness.UntranslatedAreText` | internal/ydb/writer.go:415-425 | Bits and decimals are sent as Text to the Uint64 and Decimal columns created for them |
| `TypeSoundness.SerialIsTypeSound` | internal/ydb/schema.go:54-61 | A value other than NULL reaches an AUTO_INCREMENT column as an Int64 if and only if it is an integer below 2^63 of a column that is not a TINYINT(1) |
| `YdbTypes.FitsTypeMeans` | internal/ydb/writer.go:312-373 | The environment: YDB takes a value for a column if and only if it has the type that the described name stands for, with its Optional layer |
| `StorableRows.CellIsTakenIff` | internal/ydb/writer.go:570-679 | A cell is converted to a value that YDB takes if and only if it is storable: NULL in a nullable column, an integer below 2^63 in a serial one, or neither a bit nor a decimal nor unread date text |
| `StorableRows.ChunkIsWrittenIff` | internal/ydb/writer.go:118-152 | A chunk as the driver delivers it can be written if and only if every shared cell of every row is storable |
| `StorableRows.CreatedTablesAreTyped` | internal/ydb/schema.go:49-63 | In a table made by the printed DDL every column has a type that its MySQL column may be written to |
| `TypeSoundness.InstantsSound` | internal/ydb/writer.go:539-568 | A date keeps its instant at the column's precision; before 1970 it becomes NULL where allowed and 1970-01-01 elsewhere |
| `TypeSoundness.StringsSound` | internal/ydb/writer.go:597-623 | Strings become repaired Text or unchanged bytes as the described column asks, in its Optional layer |
| `TypeSoundness.IntegersSound` | internal/ydb/writer.go:624-655 | An integer in the column's range arrives as the same integer of the column's type |
| `TypeSoundness.IntegersSeen` | internal/ydb/writer.go:681-741 | Substring search in a described type name finds exactly the type's own integer name |
| `TypeSoundness.DatesSeen` | internal/ydb/writer.go:531-537 | Substring search tells Timestamp, Datetime and Date apart, Date being found in Datetime |
| `TypeSoundness.OptionalSeen` | internal/ydb/writer.go:519-530 | `Optional<` is found exactly in optional types |
| `TypeSoundness.NullsSound` | internal/ydb/writer.go:577-591 | NULL becomes the empty Optional of the column's type |
| `TypeSoundness.UntypedDatesNestOptional` | internal/ydb/writer.go:743-799 | Without a described type, a nullable date gets two Optional layers exactly when it is before 1970 |
| `ValueFidelity.TinyintOneIsBoolean` | internal/schema/columns.go:164-165 | A TINYINT(1) value becomes the Bool that tells whether it is not zero |
| `ValueFidelity.FloatsArriveUnchanged` | internal/ydb/writer.go:656-662 | A float of either width arrives as the number it was |
| `ValueFidelity.ZeroDates` | internal/ydb/writer.go:830-838 | The two zero dates without fraction become NULL where the YDB column allows it and 1970-01-01 elsewhere |
| `ValueFidelity.DateTextArrives` | internal/ydb/writer.go:597-610 | Date text that is read keeps its instant at the column's precision; before 1970 it becomes NULL or 1970-01-01 |
| `ValueFidelity.DateTextIsReadIff` | internal/ydb/writer.go:830-868 | Date text is read if and only if, without blanks at the ends, it is empty, one of the two zero dates or fits a layout of its type |
| `ValueFidelity.FractionalZeroDateIsText` | internal/ydb/writer.go:830-868 | The zero date of a DATETIME(6), which fits no layout, is sent as Text |
| `ValueFidelity.FirstLayoutDecides` | internal/ydb/writer.go:839-868 | Layouts are tried in order, the first that fits decides, and failure means that none fits |
| `ValueFidelity.SizedBlobsKeepOnlyText` | internal/schema/columns.go:181-193 | TINYBLOB, MEDIUMBLOB and LONGBLOB bytes survive iff they need no UTF-8 repair |
| `ValueFidelity.BlobsArriveUnchanged` | internal/schema/columns.go:185-187 | BLOB bytes arrive unchanged |
| `IntegerFidelity.SpelledNormalizes` | internal/schema/columns.go:154-168 | The ten integer types without display width normalize to their signedness and width class |
| `IntegerFidelity.IntegersArriveUnchanged` | internal/ydb/writer.go:681-741 | Every value of such a column arrives as the same integer, through normalization, DDL type and coercion |
| `IntegerFidelity.SerialsArriveUnchanged` | internal/ydb/schema.go:54-61 | An AUTO_INCREMENT value arrives unchanged iff it is below 2^63 |
| `IntegerFidelity.WidthsNormalize` | internal/schema/columns.go:154-168 | A display width makes an unsigned type normalize to the signed one |
| `IntegerFidelity.WidthsLoseTheUpperHalf` | internal/schema/columns.go:154-168 | Then a value arrives unchanged iff the signed type holds it; an int above that arrives as n - 2^32 |
| `IntegerFidelity.UnsignedCoercionClamps` | internal/ydb/writer.go:681-712 | Coercion of any int64 to Uint32 or Uint64 is a monotone clamp, the identity exactly in range |
| `IntegerFidelity.LabelsMayPassForIntegers` | internal/schema/columns.go:154-195 | A type with a text prefix normalizes to text iff it does not contain "int unsigned" |
| `IntegerFidelity.AnEnumTakenForAnInteger` | internal/schema/columns.go:158-161 | `enum('int unsigned')` is taken for an unsigned int |
| `RowConversion.MetaByNameLower` | internal/ydb/writer.go:287-290 | The loop builds the lower-case column index |
| `RowConversion.ByLowerFinds` | internal/ydb/writer.go:287-290 | A name is found iff some column has it up to case, and then with such a column |
| `RowConversion.SharedColumns` | internal/ydb/writer.go:203-217 | The loop selects the described columns and types that MySQL shares |
| `RowConversion.SharedTypeIsDescribed` | internal/ydb/writer.go:210-217 | A shared column keeps its described type |
| `RowConversion.ConvertRows` | internal/ydb/writer.go:121-137 | The nested loops convert a chunk or return the first error |
| `RowConversion.RowsConcat` | internal/ydb/writer.go:327-344 | Converting in parts and converting whole agree, errors included |
| `RowConversion.RowHasColumns` | internal/ydb/writer.go:122-136 | A converted row has, for every shared column, that column's cell converted |
| `RowConversion.ConvertedRowsHaveKeys` | internal/ydb/writer.go:155-157 | After the key check no write lacks a key column |
| `YdbServer.Server.DescribeTable` | internal/ydb/writer.go:172-184 | The environment: the fixed description or a failure |
| `YdbServer.Server.BulkUpsert` | internal/ydb/writer.go:138-152 | The environment: all rows, or a failure after any part of them; on a table that rejects bulk upserts, a refusal or any other failure, and for a value that has not its column's type a failure, all without effect |
| `YdbServer.Tx.Exec` | internal/ydb/writer.go:345-358 | The environment: statements are staged, the committing one publishes them all, aborts and unknown outcomes included; a value that has not its column's type fails without effect |
| `TxWrite.WrittenInParts` | internal/ydb/writer.go:323-359 | Writing a chunk in parts is writing it whole |
| `TxWrite.WrittenTwice` | internal/ydb/writer.go:326-364 | A retried transaction changes nothing more |
| `TxWrite.Attempt` | internal/ydb/writer.go:326-360 | One attempt publishes all the rows with its last statement or changes nothing |
| `TxWrite.DoTx` | internal/ydb/writer.go:326-364 | Over any aborts, retries and unknown commits: success stores all the rows, failure all or none |
| `TxWrite.WriteChunkTx` | internal/ydb/writer.go:284-366 | The same for the whole path, partition and description included |
| `RowConversion.NoMissingKeys` | internal/ydb/writer.go:185-194 | No key is missing iff every key column has a MySQL column up to case |
| `BulkWriter.CachedColumnsMean` | internal/ydb/writer.go:195-226 | A cache entry: exactly the described columns MySQL has up to case, each with a type, every key column among them |
| `BulkWriter.BulkUpsertWriter.CheckYDBKeyColumns` | internal/ydb/writer.go:155-231 | Success adds a correct cache entry, failure and a cached table change nothing, the tx-only set grows by this table at most |
| `BulkWriter.BulkUpsertWriter.SendBulk` | internal/ydb/writer.go:116-152 | One BulkUpsert; a refusal leaves the table alone and is remembered |
| `BulkWriter.BulkUpsertWriter.WriteChunk` | internal/ydb/writer.go:82-153 | Success by bulk, forced, cached or fallback transaction has the same effect; a failed transaction is all or nothing, a failed bulk write leaves a part; caches stay right, sets only grow, no table with a sync index is ever bulk upserted and none that refused is asked again |
| `Ddl.IndexEqualsPK` | internal/ydb/schema.go:96-106 | True iff the column lists are equal |
| `Ddl.BuildCreateTableDDL` | internal/ydb/schema.go:49-83 | The loops print the statement whose parse is proved below |
| `Ddl.RenderDdl` | internal/ydb/schema.go:51-83 | The printed text is the rendering of its lexemes |
| `DdlRoundTrip.DdlSpaced` | internal/ydb/schema.go:51-83 | No two lexemes run together |
| `DdlRoundTrip.DdlRoundTrip` | internal/ydb/schema.go:51-106 | For all identifiers the statement parses back to the path, the columns with types, the indexes and the key, in order, if there is a primary key and no index without columns; otherwise it does not parse |
| `DdlRoundTrip.ColumnsInOrder` | internal/ydb/schema.go:54-63 | One item a column, in order, BigSerial or the mapped type |
| `DdlRoundTrip.IndexesButTheKey` | internal/ydb/schema.go:65-75 | Of the indexes, exactly those not on the key columns |
| `SqlText.TokenizeName` | internal/ydb/schema.go:85-87 | A quoted name followed by anything but a backtick is read back exactly |
| `SqlText.TokenizeRender` | internal/ydb/schema.go:85-87 | Well-spaced lexemes are read back as their tokens |
| `BatchSize.BatchSizeForTable` | cmd/mysql2ydb/main.go:306-356 | The result is the least of the configured, network and memory limits that apply |
| `BatchSize.BatchIsPositiveAndCapped` | cmd/mysql2ydb/main.go:310-356 | With positive configuration it is in 1..min(config, maxChunkRows) |
| `BatchSize.ChunkFitsTheNetworkIffARowDoes` | cmd/mysql2ydb/main.go:319-331 | batch * average is at most 125 MiB iff the average row is |
| `BatchSize.FourChunksFitAThirdOfRam` | cmd/mysql2ydb/main.go:341-351 | Where the floor of 1000 rows does not decide, 12 * batch * average is at most the free RAM |
| `BatchSize.WorkerStaysNearAThirdOfRam` | cmd/mysql2ydb/main.go:204-246 | In every reachable state the rows a worker holds take, at average size, at most a third of the free RAM plus the four extra rows |
| `SchemaPhase.StepKeepsSoundExactly` | cmd/mysql2ydb/main.go:100-148 | A statement or crash breaks "the state table vouches for all tables" exactly when it is a crash inside a drop loop that has begun or the state table of a -data-only run on an incomplete schema |
| `SchemaPhase.TransfersFindEveryTable` | cmd/mysql2ydb/main.go:118-138 | Over runs without these, every transfer finds all listed tables with their sequences |
| `SchemaPhase.LostStaysLost` | cmd/mysql2ydb/main.go:100-148 | A table that the state table vouches for and that is not there stays missing over all runs without -force-recreate |
| `SchemaPhase.InterruptedDropIsNeverRepaired` | cmd/mysql2ydb/main.go:104-116 | After such a crash the dropped tables are missing, and the state table vouches for them, in every later state until a -force-recreate |
| `SchemaPhase.DataOnlyFirstIsNeverRepaired` | cmd/mysql2ydb/main.go:145-148 | So are, after -data-only created the state table, the tables that did not exist |
| `SchemaPhase.ADroppedTableIsTransferred` | cmd/mysql2ydb/main.go:104-116 | Such a crash can happen from any finished schema, and the next ordinary run reaches the transfer without the dropped table |
| `SchemaPhase.ATableNeverCreatedIsTransferred` | cmd/mysql2ydb/main.go:145-148 | So does an ordinary run after -data-only on an empty database |
| `KeyOrder.KeyLessTotal` | internal/mysql/reader.go:43 | Exactly one of below, equal, above holds for two keys |
| `KeyOrder.KeyLessTransitive` | internal/mysql/reader.go:43 | The key order is transitive |

## Left out

- MySQL and YDB clients, sessions, TLS, authentication and connection strings: the source is a sorted sequence, the target and the state table are maps, and calls are steps that succeed, fail or end unknown.
- Changes to the source during a run, and collations: keys are integers or strings in binary order, strict and static. Key columns of other kinds (floats, times) are not keys here; the connection string sets no parseTime, so dates arrive as text.
- Tables without a primary key, with the LIMIT/OFFSET fallback of internal/mysql/reader.go:54-67: their CREATE TABLE does not parse, which `DdlRoundTrip.DdlRoundTrip` states.
- LoadTableMeta, TableSize, TableNames and the loading of indexes: the table structure and its statistics are inputs.
- resolveTables, the completed set and the pending list of main: filters over names that add only easy members.
- Interleaving of different tables: each table's run is modelled alone, and calls of one writer follow one another; the writer's mutex guards per-table entries only.
- Width of counters: row counts and totals are unbounded, so wrap-around of int and uint64 totals is not modelled.
- time.Parse, strings.ToLower, strings.ToValidUTF8 and the text and times that JSON writes: parameters; JSON carries finite floats unchanged; instants are microseconds in UTC. What an out-of-range float becomes as an int64 is a parameter, since Go leaves it to the platform.
- The query text of the transactional path and the debug output of parameter types: its DECLARE repeats the column names and described types that the model passes on as values.
- The cache of text columns (ydbColumnIsText), which nothing reads, and the branch for missing cached columns, which a checked table never takes.
- The YDB columns that MySQL lacks: the tables of the model are restricted to the columns the tool writes.
- Progress display, logging, memory probing, flags and configuration files.
- path.Join cleaning: a path is the database, a slash and the name.
- Partition.EstimateRowSizeBytes: the factor 1.15 is applied in exact reals, so the estimate can differ from float64 by one unit a string; big integers and unknown types do not come from this driver.
- Partition.PartitionRowsBySize: requires that every row fits, since the code does not return otherwise; `Partition.PartitionEndsIffRowsFit` states exactly that.
- BulkWriter.BulkUpsertWriter.WriteChunk: requires fitting rows only where a transaction is possible, for the same reason, and that a table keeps the MySQL structure it was checked against.
- TypeSoundness.ConversionIsTypeSound: leaves out AUTO_INCREMENT columns, whose type is not the mapped one; `TypeSoundness.SerialIsTypeSound` covers them.
- StorableRows.ChunkIsWrittenIff: integers are in the range of the column's type key; those of an unsigned column with a display width can exceed it, which `IntegerFidelity.WidthsLoseTheUpperHalf` covers.
- YdbTypes.FitsTypeMeans: YDB compares types by name and layer; conversions between types on YDB's side are not modelled.
- CrashLoss.CrashesLoseExactly: one batch size over all restarts; after a restart with another one the lost rows are at other positions, and `CursorRows.OnlyCursorRowsAreLost` says which they can be.
- Counting.CountIsPositionPlusPasses: a crash between the final checkpoint and the next save begins no new count.
