# bulk_load_timescaledb, modelled in Dafny

This project models the core of `bulk_load_timescaledb`, the tool that
reads benchmark data from standard input and bulk-loads it into
TimescaleDB. The model covers four parts of `cmd/bulk_load_timescaledb/main.go`:

- **Header phase.** The input starts with header lines of the form
  `hypertable,field,field,...`, ended by an empty line. With loading
  enabled, `initBenchmarkDB` drops and recreates the `benchmark` database and,
  when hypertables are made, installs the extension. Each header line then
  becomes a `CREATE TABLE`, its `CREATE INDEX` statements from the tag and
  field index policies, and optionally a `create_hypertable` call. With
  loading disabled, `main` only skips the header.
  (`schema.dfy`, module `Schema`)
- **The reader (`scan`).** Every data line is split at its first comma into
  a hypertable name and a row. Rows are gathered per hypertable. Every
  `itemsPerBatch` lines, counted across all hypertables, one batch per
  hypertable is sent, and the rest goes out at end of input. A line without
  a comma stops the run. (`batching.dfy`, module `Batching`)
- **The worker (`processBatches`).** Each row is split on commas and its
  fields are counted. The first field is parsed as a nanosecond Unix
  timestamp and split into seconds and nanoseconds with Go's truncating `/`
  and `%`. After each batch, the shared row and column counters grow.
  (`loading.dfy`, module `Loading`)
- **`main`.** It runs the header phase, then the reader and the worker,
  and reports the rows read and the columns counted. In Go the worker runs
  alongside the reader; the worker is modelled as running after the reader
  has finished. (`pipeline.dfy`, module `Pipeline`)

Two supporting modules model the Go library calls the loader depends on:

- `gostrings.dfy` models `strings.Split`, `strings.SplitN(…, 2)` and
  `strings.Join`.
- `strconv.dfy` models `strconv.ParseInt(s, 10, 64)` and
  `strconv.FormatInt`, with the 64-bit limits written out.

`results.dfy` holds the `Option` and `Result` types.

How the model is stated:

- The reader's map iteration order is unspecified in Go, so the model picks
  it arbitrarily. The reader is specified by `Arranged`: the output is one
  flush per chunk of `max(itemsPerBatch, 1)` consecutive records, and each
  flush sends every hypertable of its chunk exactly once, with that chunk's
  rows in input order.
- The header loop is specified by `DescribeAll` and `AllStatements`.
- The worker is specified by `Convert`, `Weight` and `BatchesWeight`.

Behaviour worth noting:

- **Which flag runs the schema phase.** `main` runs `initBenchmarkDB` when
  `doLoad` is set (main.go:74-83). `makeHypertable` only controls the
  extension statements and `create_hypertable`. The model's `HeaderPhase`
  therefore branches on `doLoad`.
- **Spacing of the time-first index.** A `TIME-VALUE` index is written
  `(time, field)`, with a space (main.go:287). A `VALUE-TIME` index is
  written `(field,time)`, without one (main.go:289). `IndexDef` keeps
  both spellings.
- **Empty first field.** Any empty field is skipped, including the first
  one (main.go:272-274). When the first field is empty, the table has no
  TEXT column and its partitioning field is empty (`ColumnsMeaning`,
  `Partitioning`).
- **Comma-less data line.** For a line without a comma, the code indexes
  `parts[1]` out of range and panics, after counting the line
  (main.go:142-147). The model returns `MissingComma`.

## Model

| member | source | states |
|---|---|---|
| GoStrings.SplitFirst | cmd/bulk_load_timescaledb/main.go:144 | `strings.SplitN(line, ",", 2)`: one piece exactly when the line has no comma; otherwise a comma-free head, then the rest, which rejoin to the line |
| GoStrings.Split | cmd/bulk_load_timescaledb/main.go:201 | `strings.Split` gives at least one piece, and no piece contains the separator |
| GoStrings.JoinSplit | cmd/bulk_load_timescaledb/main.go:201 | joining the pieces of a split with the separator restores the string |
| GoStrings.SplitJoin | cmd/bulk_load_timescaledb/main.go:264 | splitting a join of separator-free pieces gives the pieces back |
| GoStrings.SplitCount | cmd/bulk_load_timescaledb/main.go:201-203 | a split has exactly one more piece than the string has separators |
| GoStrings.SplitAt | cmd/bulk_load_timescaledb/main.go:201 | the first separator at position i splits off the text before it |
| GoStrings.SplitWhole | cmd/bulk_load_timescaledb/main.go:284 | a policy string without a comma is a single token |
| GoStrings.SplitThree | cmd/bulk_load_timescaledb/main.go:264 | `a,b,c` with comma-free pieces splits into `[a, b, c]` |
| Strconv.ScanUintMeaning | cmd/bulk_load_timescaledb/main.go:207 | the base-10 digit loop succeeds exactly on all-digit strings whose value fits in 64 unsigned bits, and returns that value |
| Strconv.ParseIntMeaning | cmd/bulk_load_timescaledb/main.go:207 | `strconv.ParseInt(value, 10, 64)` succeeds exactly on an optionally signed digit string that denotes an int64, and returns that number |
| Strconv.FormatNatValue | cmd/bulk_load_timescaledb/main.go:310 | the decimal digits `%v` prints for a natural number denote it |
| Strconv.ParseFormat | cmd/bulk_load_timescaledb/main.go:207 | parsing the decimal form of any int64 gives it back |
| Batching.ParseLine | cmd/bulk_load_timescaledb/main.go:144-147 | a data line fails exactly when it has no comma; otherwise it is a comma-free hypertable name, a comma, and the row |
| Batching.ParseLineOf | cmd/bulk_load_timescaledb/main.go:144-147 | `h,row` with a comma-free `h` is read as hypertable `h` and row `row` |
| Batching.RecordsMeaning | cmd/bulk_load_timescaledb/main.go:141-147 | the k-th record is the k-th data line split at its first comma |
| Batching.RecordsUnique | cmd/bulk_load_timescaledb/main.go:141-147 | records that match the lines one by one are the records of the lines |
| Batching.ChunksAppend | cmd/bulk_load_timescaledb/main.go:149-157 | after whole batches, the next flush adds exactly one more chunk of consecutive lines |
| Batching.ChunksShape | cmd/bulk_load_timescaledb/main.go:149-169 | the flush points cut the input into consecutive chunks that lose and repeat nothing; every chunk is non-empty and at most one batch long, and all but the last are exactly one batch long |
| Batching.AccumulateSnoc | cmd/bulk_load_timescaledb/main.go:147 | `batch[h] = append(batch[h], row)`: the row goes to the end of its hypertable's entry, and the entry is created when missing |
| Batching.AccumulateGrouped | cmd/bulk_load_timescaledb/main.go:138-147 | the accumulator holds exactly the hypertables read, each with its rows in input order |
| Batching.GroupedEntries | cmd/bulk_load_timescaledb/main.go:147-152 | every accumulated entry is non-empty and no longer than the lines that built it |
| Batching.EnumeratesAll | cmd/bulk_load_timescaledb/main.go:151-153 | a flush sends every hypertable of the accumulator |
| Batching.Flush | cmd/bulk_load_timescaledb/main.go:151-153 | `for hypertable, rows := range batch` sends each entry once, with its rows, in some order |
| Batching.FlushesRowsFor | cmd/bulk_load_timescaledb/main.go:141-169 | for each hypertable, the rows sent over all flushes are its rows in input order |
| Batching.FlushesWeight | cmd/bulk_load_timescaledb/main.go:141-169 | any per-row count summed over the batches sent equals its sum over the rows read |
| Batching.FlushesBatchSizes | cmd/bulk_load_timescaledb/main.go:149-169 | every batch sent is non-empty and no longer than its flush's chunk |
| Batching.SingleFlush | cmd/bulk_load_timescaledb/main.go:150-153 | flushing after one line sends that line's row as one batch |
| Batching.FlushesSingles | cmd/bulk_load_timescaledb/main.go:149-157 | with one line per flush, the batches are the lines, one each, in input order |
| Batching.ScanWeight | cmd/bulk_load_timescaledb/main.go:137-177 | what the reader sends carries the same per-row totals as the rows it read |
| Batching.ScanGuarantees | cmd/bulk_load_timescaledb/main.go:137-177 | the reader's batches give each hypertable its rows in input order and hold as many rows as lines read; every batch has between 1 and `max(itemsPerBatch,1)` rows; an `itemsPerBatch` of 1 or less sends every line alone |
| Batching.CountWeight | cmd/bulk_load_timescaledb/main.go:221 | counting one per row gives the number of rows |
| Batching.TotalRowsWeight | cmd/bulk_load_timescaledb/main.go:221 | the row counter's total over batches is their summed lengths |
| Batching.Reader.constructor | cmd/bulk_load_timescaledb/main.go:138-140 | the reader starts with an empty accumulator, `n == 0`, no lines read and nothing sent |
| Batching.Reader.ReadLine | cmd/bulk_load_timescaledb/main.go:141-157 | one loop pass counts the line and fails exactly when it has no comma; otherwise it records the line's record and keeps the reader's invariant; batches already sent stay a prefix of what is sent |
| Batching.Reader.Append | cmd/bulk_load_timescaledb/main.go:142-149 | the row is appended under its hypertable, `n` and `linesRead` grow by one, and a flush is due exactly when `n` reaches the batch limit; nothing is sent |
| Batching.Reader.FlushBatch | cmd/bulk_load_timescaledb/main.go:150-156 | the pending records go out as one more chunk, sent after the earlier batches as one batch per entry of the old accumulator; the accumulator and `n` are reset |
| Batching.Reader.Finish | cmd/bulk_load_timescaledb/main.go:164-169 | at end of input what is left is flushed after the batches already sent, and everything read has been sent in chunks |
| Batching.Scan | cmd/bulk_load_timescaledb/main.go:137-177 | `scan` fails exactly when a data line lacks a comma, naming the first such line; otherwise it returns `linesRead == |lines|` and batches arranged by chunks, with per-hypertable order, the row total and the batch-size bounds |
| Loading.SplitTimestamp | cmd/bulk_load_timescaledb/main.go:210-211 | seconds and nanoseconds recombine to the timestamp; the nanoseconds lie strictly within one second and share the timestamp's sign; an int64 timestamp gives int64 seconds |
| Loading.SplitTimestampUnique | cmd/bulk_load_timescaledb/main.go:210-211 | truncating division is the only split with those properties |
| Loading.FieldCount | cmd/bulk_load_timescaledb/main.go:201-203 | `len(strings.Split(line, ","))` is the row's comma count plus one |
| Loading.ConvertMeaning | cmd/bulk_load_timescaledb/main.go:201-215 | a row converts exactly when its first field parses as an int64; its values are then that instant followed by the other fields as text, one per field |
| Loading.ConvertFieldsMeaning | cmd/bulk_load_timescaledb/main.go:204-215 | the same, stated for the fields a row splits into |
| Loading.NonNumericTimestamp | cmd/bulk_load_timescaledb/main.go:206-209 | a row starting with a character that is not a digit, a sign or a comma fails with a syntax error |
| Loading.ConvertRendered | cmd/bulk_load_timescaledb/main.go:201-215 | a row written as an int64 timestamp and comma-free fields is read back as that instant and those fields, one column per field |
| Loading.ConvertRow | cmd/bulk_load_timescaledb/main.go:202-215 | the `for ind, value := range sp` loop fills the values, or fails on the first field as `ParseInt` does |
| Loading.RowsStep | cmd/bulk_load_timescaledb/main.go:203 | each row adds its field count to `columnCountWorker` |
| Loading.BatchesStep | cmd/bulk_load_timescaledb/main.go:220-221 | each batch adds its row count and its field count to the shared counters |
| Loading.Counters.constructor | cmd/bulk_load_timescaledb/main.go:36-37 | the shared counters start at zero |
| Loading.Worker.constructor | cmd/bulk_load_timescaledb/main.go:184 | a worker starts with `columnCountWorker == 0` |
| Loading.Worker.CopyRows | cmd/bulk_load_timescaledb/main.go:200-219 | the rows of a batch are converted in order, and the call fails exactly when one does not convert, naming the first such row; on success `columnCountWorker` grew by the batch's field count |
| Loading.Worker.ProcessBatch | cmd/bulk_load_timescaledb/main.go:185-222 | a dry run does nothing; otherwise every row is converted, or the first bad one is named; on success the row counter grows by the batch length, the column counter by its field count, and `columnCountWorker` is reset |
| Loading.Worker.ProcessBatches | cmd/bulk_load_timescaledb/main.go:185-243 | over all batches, the worker fails exactly when loading is on and some row does not convert, naming the first; otherwise both counters grow by the totals over all batches, or stay put in a dry run |
| Schema.IndexDef | cmd/bulk_load_timescaledb/main.go:285-292 | a token fails exactly when it is not empty, `TIME-VALUE` or `VALUE-TIME`, and the error names it; the empty token gives no index; the two known tokens give `(time, f)` and `(f,time)` |
| Schema.TokensFailurePersists | cmd/bulk_load_timescaledb/main.go:290-291 | once a policy token is unknown, later tokens do not change the outcome |
| Schema.TokensMeaning | cmd/bulk_load_timescaledb/main.go:284-297 | a policy fails exactly when one of its tokens is unknown, with the first such token; otherwise it gives one `CREATE INDEX ON table` statement per non-empty token |
| Schema.IndexesFailurePersists | cmd/bulk_load_timescaledb/main.go:271-299 | once a field's policy has failed, later fields do not change the outcome |
| Schema.IndexesMeaning | cmd/bulk_load_timescaledb/main.go:271-299 | a header line fails exactly when some non-empty field within `fieldIndexCount` has a policy with an unknown token |
| Schema.ColumnsMeaning | cmd/bulk_load_timescaledb/main.go:271-283 | the columns are the non-empty fields, in order; only the first field's column is TEXT, and all others are DOUBLE PRECISION |
| Schema.EmptyPrefix | cmd/bulk_load_timescaledb/main.go:272-274 | when no field before position j is kept, the first field is empty |
| Schema.OneTokenPolicy | cmd/bulk_load_timescaledb/main.go:283-297 | an indexed field whose policy is one known token gets exactly that token's index |
| Schema.TagAndField | cmd/bulk_load_timescaledb/main.go:264-299 | `t,tag,field` under tag policy `VALUE-TIME` and field policy `TIME-VALUE` describes a TEXT tag column that partitions the table, a DOUBLE PRECISION field column, and the indexes `(tag,time)` and `(time, field)` |
| Schema.TokensStep | cmd/bulk_load_timescaledb/main.go:284-297 | one more known token adds its index, if any |
| Schema.IndexesStep | cmd/bulk_load_timescaledb/main.go:283-298 | one more kept field adds its indexes or fails as its policy does |
| Schema.PolicyIndexes | cmd/bulk_load_timescaledb/main.go:284-297 | the token loop yields the policy's index statements or its first unknown token |
| Schema.FieldIndexStatements | cmd/bulk_load_timescaledb/main.go:283-298 | a field beyond `fieldIndexCount` gets no index; otherwise it gets its policy's indexes |
| Schema.DeriveTable | cmd/bulk_load_timescaledb/main.go:264-299 | one header line, split on commas, yields the table `Describe` specifies, or its failure |
| Schema.KeptField | cmd/bulk_load_timescaledb/main.go:283-298 | a kept field appends its column; its indexes are appended, or its failure decides the whole header line |
| Schema.FieldsTable | cmd/bulk_load_timescaledb/main.go:266-299 | the loop over a header line's fields, with empty fields skipped but keeping their positions, yields the columns, partitioning field and indexes `TableOf` specifies, or the first unknown index type |
| Schema.HeaderCount | cmd/bulk_load_timescaledb/main.go:259-262 | the header is the lines before the first empty line |
| Schema.HeaderEnd | cmd/bulk_load_timescaledb/main.go:78-82 | the data starts right after the empty line that ends the header when there is one, and at end of input otherwise |
| Schema.HeaderCountAt | cmd/bulk_load_timescaledb/main.go:259-262 | the first empty line fixes the header count |
| Schema.HeaderCountAbove | cmd/bulk_load_timescaledb/main.go:259-262 | a non-empty line that follows only header lines is in the header |
| Schema.SkipHeader | cmd/bulk_load_timescaledb/main.go:77-82 | the dry run's header skip stops where the data starts |
| Schema.DescribeAllFailurePersists | cmd/bulk_load_timescaledb/main.go:290-291 | once a header line has failed, later header lines do not change the outcome |
| Schema.DescribeAllStep | cmd/bulk_load_timescaledb/main.go:259-299 | one more header line adds its table or fails as that line does |
| Schema.AllStatementsSnoc | cmd/bulk_load_timescaledb/main.go:300-311 | one more table adds its statements after those of the earlier tables |
| Schema.HeaderFailure | cmd/bulk_load_timescaledb/main.go:259-299 | a failing header line makes the whole header fail with its error |
| Schema.HeaderSuccess | cmd/bulk_load_timescaledb/main.go:259-311 | a succeeding header line adds its table and its statements |
| Schema.TableSql | cmd/bulk_load_timescaledb/main.go:300-311 | one table's statements are `CREATE TABLE`, then each index, then `create_hypertable` when hypertables are made |
| Schema.CreateTables | cmd/bulk_load_timescaledb/main.go:259-312 | the header loop yields the tables and statements the header describes and consumes the ending empty line, or fails as the first bad header line does |
| Schema.InitBenchmarkDB | cmd/bulk_load_timescaledb/main.go:245-312 | `initBenchmarkDB` first executes the database and extension statements, then the header's statements, and fails exactly when the header does |
| Pipeline.DataLines | cmd/bulk_load_timescaledb/main.go:73-96 | the data lines are everything after the header |
| Pipeline.WeightZero | cmd/bulk_load_timescaledb/main.go:185-222 | a per-row count sums to zero exactly when it is zero on every row |
| Pipeline.AllConvertBad | cmd/bulk_load_timescaledb/main.go:185-222 | every row of the batches converts exactly when the count of bad rows is zero |
| Pipeline.LoadableBatches | cmd/bulk_load_timescaledb/main.go:96-100 | batches carrying the data rows can all be loaded exactly when the data rows can |
| Pipeline.BatchesCarryData | cmd/bulk_load_timescaledb/main.go:96-103 | what the worker counts over the reader's batches equals the count over the data rows, and the batches load exactly when the rows do |
| Pipeline.HeaderPhase | cmd/bulk_load_timescaledb/main.go:73-83 | with `doLoad` the header becomes the schema and can fail; without it the header is only skipped; either way the data starts at the header's end |
| Pipeline.LoadData | cmd/bulk_load_timescaledb/main.go:85-103 | the run fails on a comma-less data line or, when loading, on a row that does not convert; otherwise it reads every line and counts every row and field, or counts nothing in a dry run |
| Pipeline.Run | cmd/bulk_load_timescaledb/main.go:72-109 | `main` fails with a schema, scan or load error exactly when the header, a data line or a row is bad, checked in that order (header, then every data line, then the rows); otherwise the summary gives the statements executed, the lines read, and the rows and columns loaded |
| Pipeline.SameTableBatchOfOne | cmd/bulk_load_timescaledb/main.go:137-157 | two lines for one hypertable with batch size one go out as two single-row batches in input order, two rows in all |
| Pipeline.TwoLinesBatchOfOne | cmd/bulk_load_timescaledb/main.go:137-157 | the two `cpu` lines `cpu,1000000000,host1,0.5` and `cpu,2000000000,host1,0.6` with batch size one give two single-row batches |
| Pipeline.NotANumber | cmd/bulk_load_timescaledb/main.go:206-209 | the row `notanumber,host1,0.5` fails with a syntax error |

## Left out

- Goroutines, `batchChan`, `inputDone` and `workersGroup` are not modelled
  (main.go:85-100). The reader is modelled as finishing before one worker
  takes the batches in the order they were sent. With several workers, Go
  may load batches in a different order. The counters' totals do not
  depend on that order, but which bad row is reported first can.
- Pipeline.Run: which error stops a run is not always Go's, even with one
  worker. In Go the worker runs alongside `scan` (main.go:88-96) and
  `batchChan` holds only `workers` batches (main.go:85). So a bad timestamp
  in an early batch can panic the worker (main.go:206-208) before the
  reader reaches a comma-less line further on. `Run` checks every data line
  for a comma before loading any row, so it reports `ScanFailed` there.
  For example: one worker, batch size 1, a bad timestamp on the first data
  line and a comma-less line 1000 lines later. Go fails with the parse
  error, and `Run` returns `ScanFailed`. The "in that order" of the `Run`
  row holds for this sequential model only.
- The `workers` flag is left out because the model has one worker.
- `report` and the rate summary are not modelled (main.go:104-133): they
  need clocks and floating point.
- `time.Unix(...).Format(...)` is not modelled (main.go:211). A timestamp
  stays a `(seconds, nanoseconds)` pair.
- Database I/O is not modelled: connections, transactions, `COPY`,
  `stmt.Exec`, `stmt.Close` and `tx.Commit`, and their failures. Statements
  are modelled as the SQL text executed, in order. Rows are modelled as the
  values handed to `COPY`.
- The `logBatches` timing output is not modelled (main.go:235-239): it only
  prints.
- Flag parsing is not modelled (main.go:53-70). The options are
  parameters, and `Schema.Defaults` records the declared defaults.
- `bufio.Scanner` is not modelled: its line splitting, its 64 KiB token
  limit and `scanner.Err()` (main.go:160-162). The input is a sequence of
  lines that are already split.
- Batching.Scan: the 64-bit wrap-around of `linesRead` and of the shared
  counters is not modelled, because no input of realistic size reaches it.
- Pipeline.Run: when a run fails, the model does not report the
  statements, batches or rows already executed before the panic.
- Loading.Worker.ProcessBatch: the transaction's rows (`stmt.Exec`) are
  returned. The shared counters grow only for a batch that succeeds and
  stay unchanged when a row fails, as in the source. After a failing row,
  `columnCountWorker` is left unspecified because the process panics.
