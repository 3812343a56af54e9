# Device inventory ingest and query service, modelled in Dafny

The service takes an uploaded CSV export of a device inventory and loads it
into a PostgreSQL table. It also answers paginated, filtered queries over
that table. The repository holds two revisions of the same core:

- `main.go`, a single-file service.
- The `handlers/` package.

Both revisions share the same pipeline:

- A producer goroutine reads the CSV file record by record. It skips read errors, stops at EOF, counts every forwarded record in `totalRows`, and pushes it on a channel.
- A fixed pool of workers decodes records into devices. Main has 25 workers; handlers has 20.
- Each worker collects devices into batches of 500 and flushes the final partial batch at the end.
- Each batch is written with one bulk insert.
- `processedRows` counts the rows of every batch that was committed.
- In `main.go`, a failed insert is retried up to three times, with sleeps of 2, 4 and 8 seconds. It also sleeps after the last failure.
- The database connection is retried five times, with sleeps of 3, 9, 27, 81 and 243 seconds.
- `handlers/process.go` inserts each batch once. It drops a record whose price does not parse. `main.go` keeps such a record with the value ParseFloat returns alongside its error: 0 for a syntax error, plus or minus infinity for a value out of range.

The entries handler works as follows:

- It reads `page`, `deviceType`, `deviceName`, `os`, `brand` and `idRange`.
- It raises the page to at least 1.
- It adds an equality condition for each non-empty filter.
- It adds `id BETWEEN a AND b` when `idRange` splits on `-` into exactly two parts.
- It asks for 100 devices ordered by id, after skipping `(page - 1) * 100` of them.
- If the fetch fails, it answers 500.

## Files

| file | contents |
|---|---|
| `wrappers.dfy` | `Option` |
| `models.dfy` | the `Device` record; a price is kept as its float64 bit pattern |
| `strconv.dfy` | Go's `strconv.Atoi` on 64-bit `int` (a value and an ok flag), and `Itoa` with the round trip |
| `csv.dfy` | what the producer sees of `encoding/csv`: a sequence of read outcomes; the records forwarded before EOF |
| `batching.dfy` | the batches a worker flushes: `Batches` as a reference, and the worker's buffer as a left fold `Accumulate` |
| `store.dfy` | the database as a class whose `Create` succeeds or fails by an outcome oracle; the retry policy `Retry`; a run of batch inserts `InsertAll` |
| `pool.dfy` | how the channel deals records to workers (an assignment of record index to worker), and what all workers together commit |
| `main_ingest.dfy` | `main.go`'s pipeline as a class with the two counters and the sleeps taken, and `initDB` |
| `handlers_ingest.dfy` | `handlers/process.go`'s pipeline, with the price check and the single attempt |
| `entries.dfy` | the entries handler shared by `handlers/entries.go` and `main.go`, with the query it builds and what the database does with it |

Each pipeline is a class:

- `Pipeline` keeps `totalRows`, `processedRows` and, for `main.go`, `sleeps`.
- It also keeps a ghost log `calls` of the batches handed to `insertBatch`.
- Its invariant `Valid()` says that the database's rows, its attempt count, `processedRows` and the sleeps are exactly what `InsertAll` gives for the logged batches.
- `ProcessChunk` is the worker's loop over its records: it appends to a buffer and flushes at 500 (in `main_ingest.dfy` the append and flush are the method `Push`). It is proved to hand over exactly `Batches(decoded records, 500)`.
- `ProcessFile` runs the producer and then the 25 or 20 workers, one after another.
- `ProcessFile` is proved to meet these properties for every assignment of records to workers:
  - `processedRows` grows by at most as much as `totalRows`.
  - With a store that never fails, the committed rows are exactly the decoded records, as a multiset. For `main.go` that is every data record. For `handlers/process.go` it is the records whose price parses.

## Model

| member | source | states |
|---|---|---|
| Strconv.Atoi | handlers/entries.go:17 | the value is in the 64-bit range; ok exactly when the text is a decimal in range, and then the value is that decimal; when the digits after the sign overflow a uint64, the bound of the sign whatever follows them; 0 for any other text that is not a decimal; the nearest bound for a decimal out of range |
| Strconv.ScanDigitsValue | handlers/entries.go:17 | reading digits left to right, ten times the value so far plus the next digit, gives the decimal value of a string of digits |
| Strconv.OverflowWhateverFollows | main.go:211 | digits whose value exceeds the largest uint64 give the largest int with an error, and after a minus sign the smallest, whatever text follows them |
| Strconv.NatDigitsValue | main.go:211 | the decimal digits of a natural are non-empty, all digits, unsigned, and denote it |
| Strconv.AtoiItoa | main.go:211 | Atoi reads every 64-bit integer's decimal form back as itself, without error |
| Csv.EofIndex | main.go:134-139 | the index of the first EOF: no EOF before it, an EOF at it unless there is none |
| Csv.RowsCount | handlers/process.go:52-62 | the records among the outcomes number RowCount, at most the outcomes |
| Csv.ForwardedBeforeEof | main.go:133-147 | the producer forwards exactly the records before the first EOF, in order, skipping read errors; their number is the records before EOF |
| Csv.Encode | main.go:160-172 | a device's CSV row has the 11 columns the decoder reads |
| Batching.FlattenBatches | main.go:175-187 | the batches, concatenated, are the worker's devices in order: none lost, none repeated |
| Batching.BatchSizes | main.go:157-181 | every batch is non-empty and at most 500 long; every batch but the last is exactly 500 long |
| Batching.FullBatch | main.go:178-181 | a full batch is flushed as it stands and batching resumes after it |
| Batching.FullBatches | main.go:178-181 | full batches followed by a rest batch as themselves followed by the rest's batches |
| Batching.AccumulateShape | main.go:175-181 | the buffer holds fewer than 500 devices; the flushed batches are full; flushed then buffered is the input |
| Batching.AccumulateBatches | main.go:175-187 | flushing the non-empty remainder after the loop gives exactly `Batches` of the input |
| Batching.AccumulateStep | main.go:175-181 | one step of the worker's loop in terms of the prefix processed so far |
| Batching.AccumulateDone | main.go:184-187 | after the last record the flushed batches and the final flush are `Batches` of the input |
| Store.Database.Create | main.go:195 | the outcome of call number `attempts` decides success; the count grows by one; rows are appended on success only |
| Store.Database.constructor | main.go:49 | an empty table, no calls yet, the given outcome oracle |
| Store.RetryAdvance | main.go:194-205 | the retry loop's invariant survives a failed attempt |
| Store.RetryBounds | main.go:194-207 | at most maxRetries attempts, at least one; a success sleeps once per earlier failure; total failure uses every attempt and sleeps after each |
| Store.RetryStopsAtFirstSuccess | main.go:194-200 | success exactly when one of the allowed attempts succeeds; the last attempt made is the first that succeeds; every earlier one failed |
| Store.RetryWaits | main.go:192-204 | the i-th sleep is the first interval times factor to the i |
| Store.InsertAllBound | main.go:197 | the rows committed over a run of batches are at most the rows offered |
| Store.InsertAllNoFailure | main.go:195-199 | with a store that never fails every batch commits on its first attempt, in order, with no sleep |
| Store.InsertAllConcat | main.go:184-187 | a run over two lists of batches is the first run followed by the second from where the first left the store |
| Pool.Received | main.go:159 | a worker receives at most the records sent |
| Pool.SomesAppend | handlers/process.go:80-83 | the devices decoded from two stretches of records are those of the first followed by those of the second |
| Pool.SomesLength | handlers/process.go:80-83 | dropping records leaves at most as many devices as records |
| Pool.ReceivedSplit | main.go:127-130 | the devices of workers below w + 1 are those below w together with worker w's, as multisets |
| Pool.AddWorker | main.go:127-130 | adding worker w's devices to those of the workers below it gives those of the workers below w + 1 |
| Pool.ReceivedBelowAll | main.go:144 | when every record goes to one of the W workers, together they receive every record |
| Pool.ReceivedBelowNone | main.go:127 | no worker below 0 receives anything |
| Pool.PerWorker | main.go:127-130 | one group of devices per worker |
| Pool.PerWorkerPartition | main.go:127-130 | the workers' groups together hold exactly the devices decoded from what the workers below W received, as a multiset |
| Pool.AllBatchesExactlyOnce | main.go:153-188 | the batches of all workers, concatenated, are their devices; every batch holds 1 to 500 devices |
| Pool.Committed | main.go:143-144 | the rows committed are at most the devices decoded and those at most the records forwarded; a store that never fails commits exactly the decoded devices, as a multiset |
| Pool.WorkerCountIrrelevant | main.go:124 | with a store that never fails, what is committed does not depend on the number of workers or how the channel deals records |
| MainIngest.ParseInt | main.go:210-213 | the id of a record: its decimal value when in range; the bound of the sign when its leading digits overflow a uint64, whatever follows; 0 for any other text that is not a decimal; the nearest bound for a decimal out of range |
| MainIngest.ParseIntItoa | main.go:210-213 | every 64-bit id written in decimal is read back as itself |
| MainIngest.DecodeEncode | main.go:160-173 | the row of a device decodes back to that device, whatever the price parse reports as an error |
| MainIngest.Accepted | main.go:159-175 | one outcome per record, and as many devices as records: none is rejected |
| MainIngest.AcceptedAll | main.go:159-175 | every record is decoded and kept, in order |
| MainIngest.AcceptedAt | main.go:159-175 | device i is the decoding of record i |
| MainIngest.AcceptedAppend | main.go:159-175 | decoding two stretches of records is decoding each |
| MainIngest.ReceivedAccepted | main.go:159-173 | a worker decodes exactly the records it receives |
| MainIngest.Pipeline.constructor | main.go:35-40 | both counters zero, no sleeps, no batches logged, the store as given |
| MainIngest.Pipeline.Produce | main.go:133-147 | the records pushed are those before EOF, error outcomes skipped; totalRows grows by their number; nothing else changes |
| MainIngest.Pipeline.InsertBatch | main.go:190-208 | the batch is tried as the retry policy says: the store's attempts, rows and processedRows move by the retry's outcome, the sleeps by its waits; the invariant is kept |
| MainIngest.Pipeline.Push | main.go:175-181 | the device is appended to the buffer; a buffer that reaches 500 is handed to `insertBatch` and emptied, a shorter one is kept; the invariant is kept |
| MainIngest.Pipeline.ProcessChunk | main.go:153-188 | the worker hands `insertBatch` exactly `Batches` of its decoded devices, in order; the invariant ties everything else to those calls |
| MainIngest.Pipeline.ProcessFile | main.go:108-151 | header failure starts nothing; otherwise totalRows counts the data records, the store, processedRows and sleeps are the run of every worker's batches, processedRows grows by at most totalRows, and a store that never fails commits every data record, as a multiset, with processedRows equal to totalRows |
| MainIngest.InitDB | main.go:42-60 | connection is attempted as the connect policy says: connected, attempts and sleeps are that retry's |
| MainIngest.ConnectOutcome | main.go:45-60 | connected exactly when one of the first five attempts succeeds; total failure tries five times and sleeps 3, 9, 27, 81 and 243 seconds; a success after k failures sleeps the first k of them |
| MainIngest.InsertOutcome | main.go:191-207 | a batch commits exactly when one of three attempts succeeds; total failure sleeps 2, 4 and 8 seconds; a success after k failures sleeps the first k of them |
| HandlersIngest.ParseInt | handlers/process.go:121-128 | the id of a record: its decimal value when Atoi accepts it, 0 on any error |
| HandlersIngest.ParseIntsDiffer | handlers/process.go:121-128 | the two revisions' parseInt differ exactly where Atoi reports a range error: on decimals outside the 64-bit range and on text whose leading digits overflow a uint64 |
| HandlersIngest.DecodeEncode | handlers/process.go:79-97 | the row of a device whose price text parses to its price decodes back to that device |
| HandlersIngest.Checked | handlers/process.go:78-99 | one outcome per record |
| HandlersIngest.ValidRecordsAll | handlers/process.go:79-83 | when every price parses, no record is dropped |
| HandlersIngest.BadPriceScenario | handlers/process.go:79-83 | a header and three rows, one with a bad price: three data records, two of them kept |
| HandlersIngest.CheckedValid | handlers/process.go:78-99 | the devices are the decodings of the records whose price parses, in order; a record is kept exactly when it was received and its price parses |
| HandlersIngest.CheckedAppend | handlers/process.go:78-99 | checking two stretches of records is checking each |
| HandlersIngest.CheckedStep | handlers/process.go:79-99 | one step of the worker's loop: a record with a bad price is skipped, any other adds the next device |
| HandlersIngest.CheckedDone | handlers/process.go:78-105 | after the last record every valid record has been decoded |
| HandlersIngest.ReceivedChecked | handlers/process.go:78-97 | a worker checks exactly the records it receives |
| HandlersIngest.Pipeline.constructor | handlers/process.go:19-22 | both counters zero, no batches logged, the store as given |
| HandlersIngest.Pipeline.Produce | handlers/process.go:50-64 | the records pushed are those before io.EOF, error outcomes skipped; totalRows grows by their number; nothing else changes |
| HandlersIngest.Pipeline.InsertBatch | handlers/process.go:112-119 | one attempt: on success the rows are stored and processedRows grows by the batch size, on failure nothing but the attempt count changes |
| HandlersIngest.Pipeline.ProcessChunk | handlers/process.go:72-110 | the worker hands `insertBatch` exactly `Batches` of the devices whose price parses, in order |
| HandlersIngest.Pipeline.ProcessFile | handlers/process.go:24-70 | header failure starts nothing; otherwise totalRows counts the data records, the store and processedRows are the run of every worker's batches, processedRows grows by at most totalRows, and a store that never fails commits exactly the devices whose price parses, as a multiset, with processedRows equal to their number |
| Entries.Page | handlers/entries.go:17-26 | the page is at least 1 and at most the largest int; text whose leading digits overflow a uint64 gives the largest int, or page 1 after a minus sign; any other text that is not a decimal and any decimal below 1 give page 1; a decimal in range gives itself; a larger one the largest int |
| Entries.PageItoa | main.go:216-225 | every positive page number written in decimal is that page |
| Entries.Offset | handlers/entries.go:28-29 | the offset is a non-negative multiple of 100 that skips page - 1 pages |
| Entries.Wrap64 | main.go:228 | Go's int result: in the 64-bit range, equal to the exact value when that fits, and congruent to it modulo 2 to the 64 |
| Entries.OffsetAgrees | handlers/entries.go:29 | for every page whose offset fits in an int the handler's offset is the intended one |
| Entries.OffsetOverflows | main.go:228 | page 92233720368547760 fits in an int, and its offset as computed is negative |
| Entries.OffsetWrapsToFirstPage | main.go:228 | page 4611686018427387905 fits in an int, its offset as computed is exactly 0, and so it is served the rows of page 1 |
| Entries.Split | handlers/entries.go:47 | `strings.Split` has at least one part |
| Entries.SplitJoin | handlers/entries.go:47 | joining the parts with the separator gives the string back |
| Entries.SplitCount | handlers/entries.go:47-48 | there is one part more than separators, and no part holds the separator |
| Entries.SplitNone | handlers/entries.go:47 | a string without the separator is one part |
| Entries.SplitFirst | handlers/entries.go:47 | a separator-free prefix and the separator split off as the first part |
| Entries.CountAppend | handlers/entries.go:47-48 | separators of a concatenation are those of each part |
| Entries.CountNone | handlers/entries.go:47-48 | a string without the separator counts none |
| Entries.IdRange | handlers/entries.go:46-53 | a range is used only for a non-empty parameter with exactly two parts; its bounds are Atoi's values, which lie in the 64-bit range |
| Entries.IdRangeApplies | handlers/entries.go:46-48 | the range is used exactly when the parameter holds a single `-` |
| Entries.NoDash | handlers/entries.go:47-48 | a natural's decimal digits hold no `-` |
| Entries.IdRangeItoa | handlers/entries.go:46-51 | two non-negative ids written `a-b` give the range from a to b |
| Entries.IdRangeNegative | handlers/entries.go:46-48 | a negative start id makes three parts, so the range is ignored |
| Entries.MatchesAppend | handlers/entries.go:34-51 | chained Where clauses are conjunctive |
| Entries.MatchesWhen | handlers/entries.go:34-45 | a filter that is not used constrains nothing; a used filter is its condition |
| Entries.ConditionsWanted | handlers/entries.go:34-53 | the query's conditions hold of a device exactly when it meets every non-empty filter and the usable id range |
| Entries.BuildQuery | handlers/entries.go:17-53 | limit 100; the offset `(page - 1) * 100` of the clamped page in 64-bit int arithmetic, which is the rows of the pages before it whenever that fits in an int; conditions in the handler's order, selecting exactly the wanted devices |
| Entries.Filter | handlers/entries.go:55 | the rows returned are exactly the rows of the table meeting every condition, no more of them than the table holds |
| Entries.Insert | handlers/entries.go:32 | inserting adds one row |
| Entries.SortById | handlers/entries.go:32 | ordering keeps the number of rows |
| Entries.InsertBound | handlers/entries.go:32 | inserting keeps a lower bound on the ids |
| Entries.ConsSorted | handlers/entries.go:32 | a smallest id can go in front of an ordered sequence |
| Entries.InsertPerm | handlers/entries.go:32 | inserting adds exactly the one row |
| Entries.InsertSorted | handlers/entries.go:32 | inserting keeps id order |
| Entries.SortByIdSorted | handlers/entries.go:32 | `Order("id ASC")` orders by id |
| Entries.SortByIdPerm | handlers/entries.go:32 | `Order("id ASC")` loses and adds no row |
| Entries.SortByIdSpec | handlers/entries.go:32 | `Order("id ASC")` returns the same rows, ordered by id |
| Entries.Window | handlers/entries.go:32 | at most `limit` rows; a non-negative offset starts the page at that row; an offset of zero or less starts at the first |
| Entries.WindowSorted | handlers/entries.go:32 | a page of ordered rows is ordered and draws only on them |
| Entries.FindSound | handlers/entries.go:32-55 | the database answers with at most 100 rows of the table, each meeting every condition, in id order |
| Entries.Selected | handlers/entries.go:34-55 | the selected rows are exactly the table's wanted devices |
| Entries.PagesTile | handlers/entries.go:28-32 | pages 1 to k, one after another, are the first k times 100 ordered rows: none skipped, none shown twice |
| Entries.PageOf | handlers/entries.go:28-32 | ordered row i is shown at position i mod 100 of page i / 100 + 1 |
| Entries.FirstPageComplete | main.go:227-231 | when at most 100 devices are wanted, page 1 shows all of them |
| Entries.GetFilteredEntries | handlers/entries.go:15-60 | a failed fetch answers 500 with no devices; otherwise 200 with the wanted devices in id order from the offset the handler computes, which is the clamped page whenever its offset fits in an int; at most 100, each from the table and wanted |
| Entries.TypeFilterScenario | main_test.go:163-190 | two devices of types Type1 and Type2: page 1 of deviceType Type1 is the first device alone |

`main.go:215-262` is the same handler as `handlers/entries.go:15-69`, line for line, so the `Entries` members model both.

## Left out

- Concurrency: the goroutines, the channel with its 1000 slots, the WaitGroup and the atomic adds. The producer runs to completion first. Then the workers run one after another, each on the records an arbitrary assignment deals it. The properties are proved for every assignment and every worker count. Interleavings of store calls between workers are not modelled, so a failure pattern is tied to the sequential order of calls.
- The outcome oracle: a store call succeeds or fails by its position in the whole run, given as `outcome`. A transient failure is thus any failure pattern.
- PostgreSQL and GORM: `Create` is a table append; `Find` is filter, order by id and a page window.
- `Store.Database.Create`: GORM treats a zero integer primary key as unset, so a device with id 0 (a malformed id in `main.go`) gets an id the database assigns. The model appends it with id 0, and the `db.rows` multiset contracts of both `ProcessFile`s hold only under that plain append.
- The query builder's handling of the offset is an assumption: for an offset that is not positive it writes no OFFSET clause, which `Window` models as skipping nothing.
- Duplicate ids and a failed insert that partly succeeds are not modelled.
- `time.Sleep` is not performed; each sleep's length in seconds is recorded in `sleeps`, or returned by `InitDB`.
- `time.Now` and the elapsed-time logs are not modelled.
- `strconv.ParseFloat` is a parameter `parseFloat` returning a value and an ok flag, because floating-point parsing is not modelled. Prices are bit patterns compared for equality. The test scenario writes 100.0 and 200.0 as their IEEE-754 patterns.
- A record narrower than 11 fields makes the Go worker panic on `record[10]`. The model's records always have at least 11 fields.
- encoding/csv's own parsing (quoting, field-count checks) is not modelled. It shows up only as the `Row`, `ReadError` and `Eof` outcomes.
- `Csv.Forwarded`: the outcomes are a finite sequence, and running out of them counts as EOF. A reader that keeps returning a non-EOF error forever cannot be represented; on it the Go producer loops of `main.go:140-141` and `handlers/process.go:57-59` `continue` without end.
- `main.go` stops at an error whose text is "EOF", and `handlers/process.go` stops at `io.EOF`. Both are the `Eof` outcome.
- A Fatal exit (header unreadable, no connection after five attempts) is not modelled as process exit. `ProcessFile` returns `started == false` with no data processed. `InitDB` returns `connected == false`. The file-open failure before the header is left out.
- `AutoMigrate`, the connection pool settings, `uploadHandler`, the server set-up, the logger and `config` are not modelled. They are I/O or configuration.
- JSON encoding of the answer is not modelled, and neither is its 500 when encoding fails after the header was written.
- `totalRows` and `processedRows` are unbounded integers; int64 wrap-around of the counters is not modelled.
- The counters are package-level variables that are never reset, so two uploads add up. The model starts each `Pipeline` at 0. `ProcessFile`'s contract is stated as growth from the old values.
- `Entries.Page`: the page is read through 64-bit Atoi as the source does. A page above the largest int is the largest int, and so is one whose leading digits overflow a uint64 before any later character.
- `Strconv.Atoi` covers optional sign and decimal digits only. The Go function's error values are reduced to an ok flag. Its cut-off for overflow, ParseUint's, is stated through the whole run of leading digits; since the value read only grows from one digit to the next, that is the same as Go's stop at the first digit that takes it past the largest uint64.
- `handlers/process.go`'s `fmt.Errorf` in `parseInt` has no effect and is not modelled.
- `idRange`: with `_` for the dropped error, a bound that is not a number is 0, and an out-of-range bound is clamped to the nearest 64-bit limit, as Atoi returns it. So a bound is not 0 on every error; the model follows the code.

## Findings

| source | as written | input that shows it | evidently intended | confidence | as-written member | corrected member |
|---|---|---|---|---|---|---|
| main.go:228 | `offset := (page - 1) * limit` in 64-bit `int`, with `page` any positive int Atoi accepts | `page=92233720368547760` gives an offset of -9223372036854775716 | the offset of page p is (p - 1) * 100, never negative, so that page p starts after the first (p - 1) * 100 rows | not executed | Entries.OffsetAsWritten (shown by Entries.OffsetOverflows and Entries.OffsetWrapsToFirstPage) | Entries.Offset (Entries.PagesTile, Entries.PageOf) |

The same line appears as `handlers/entries.go:29`. `Entries.BuildQuery` and `Entries.GetFilteredEntries` compute the offset as written, so they serve the wrapped page: page 4611686018427387905 gets the rows of page 1. Their contracts also state that, whenever `(page - 1) * 100` fits in an int, the offset and page are those of the corrected `Entries.Offset`, on which `Entries.PagesTile` and `Entries.PageOf` are proved.
