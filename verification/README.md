# FlowX core, modelled in Dafny

FlowX is a FastAPI service. It takes an uploaded Excel or CSV file and a rule set stored as JSON. It validates every row against the rules, splits the rows into chunks of 5000 and validates up to four chunks at a time. It then writes a colour-coded Excel report and a JSON report and records the audit's progress and outcome. Around this pipeline sit several smaller parts:

- bearer-token authentication against Azure or Cognito providers;
- a two-tier token cache, held in memory and in Redis;
- a health-metrics probe;
- a log-tail endpoint;
- a few configuration helpers.

This project models those parts and proves properties of the model. It has one Dafny module per component:

| module | models |
|---|---|
| `Text`, `Dicts`, `Values` | ASCII lower/strip, `str.split`, `str.join`, substring search, insertion-ordered dictionaries, cell values, and the Python built-ins the code relies on (`int()`, `float()`, `Decimal`, `fromisoformat`, `re.compile`, `re.match`) as an oracle |
| `RecordSources` | the CSV and Excel readers: the header row lower-cased and stripped, one dictionary per data row, missing cells `None` |
| `RulePrep` | `prep_rules_from_dict`: field names, unique columns and mode lower-cased, patterns compiled |
| `DuplicateIndex` | `build_duplicate_index`: key tuple to (count, first 1-based row) |
| `Validator` | `_validate_row` and `validate_chunk` |
| `Chunking`, `ChunkedValidation` | the chunk list, the batches of four, the workers that finish in any order, the sort by start index and the merge |
| `ResultWriter` | `_write_workbook_bytes` and `write_validated_excel_stream`: cells, the conditional-format range and colours, the column widths |
| `Pipeline` | `run_excel_validation_pipeline` as a trace of status updates, uploads and published events |
| `TokenCache` | the `TokenCache` class, with Redis as a second dictionary |
| `AuthFactory`, `AuthValidate` | the provider cache and the four validation attempts |
| `Config`, `Ingest`, `Metrics`, `LogsTail` | `parse_log_targets` and `azure_jwks_url`, the background-upload decision, `collect_metrics`, and the `/logs/tail` endpoint |

Effects are modelled as follows:

- Python dictionaries that the code builds in place become classes with `map` fields, or loops that reassign a `seq` of pairs.
- The S3 object, the rule document, the clock and each validator's answer are inputs.

## Model

| member | source | states |
|---|---|---|
| RecordSources.CsvHeaderNormalised | app/crawler/csv_reader.py:23 | `str(h).strip().lower()`: lower-case, no longer than the cell, empty exactly when the cell is all whitespace, and otherwise neither starting nor ending with whitespace |
| RecordSources.CsvHeaders | app/crawler/csv_reader.py:23 | one header per cell, every header lower-case |
| RecordSources.CsvRecords | app/crawler/csv_reader.py:19-26 | no rows give no records; otherwise one record per row after the header, each mapping the headers to that row's cells |
| RecordSources.CsvRecordShape | app/crawler/csv_reader.py:25-26 | record j is row j+1 zipped with the headers, and its keys are lower-case and distinct |
| RecordSources.ExcelHeaderNormalised | app/crawler/excel_reader.py:9 | an empty cell gives ""; any other cell gives its `str()` stripped and lower-cased, no longer than that text |
| RecordSources.ExcelHeaders | app/crawler/excel_reader.py:9 | one header per cell, lower-case, and an empty cell gives the header "" |
| RecordSources.ExcelRecords | app/crawler/excel_reader.py:6-12 | a sheet with no header row fails; otherwise there is one record per data row |
| RecordSources.ExcelRows | app/crawler/excel_reader.py:11-12 | one record per data row, record i built from row i |
| RecordSources.ExcelRecordAt | app/crawler/excel_reader.py:11-12 | record j is built from sheet row j+1 under the header row's headers |
| RecordSources.ExcelRecordShape | app/crawler/excel_reader.py:11-12 | record j is sheet row j+1 zipped with the headers, and its keys are lower-case and distinct |
| RecordSources.MapRowSize | app/crawler/csv_reader.py:26 | the dictionary comprehension has at most one entry per header |
| RecordSources.MapRowKeys | app/crawler/csv_reader.py:26 | the dictionary comprehension has distinct keys, exactly the headers (a repeated header keeps its last cell) |
| RecordSources.MapRowKeyOrder | app/crawler/csv_reader.py:26 | with distinct headers the keys are the headers in order |
| RecordSources.MapRowValue | app/crawler/excel_reader.py:12 | the value under a header is that header's cell when the header does not recur later, and None past the end of a short row |
| RecordSources.LowerHeadersGiveReaderRows | app/crawler/excel_reader.py:9-12 | lower-case headers give a row with distinct lower-case keys |
| RulePrep.LowerAll | app/crawler/validator.py:164 | one lower-cased unique column per configured column |
| RulePrep.PrepRulesFromDict | app/crawler/validator.py:157-173 | the loop builds exactly the prepared rules, unique columns and mode of the reference definition, or the first compile error |
| RulePrep.CompileFailsOnFirstBadPattern | app/crawler/validator.py:168-171 | preparation fails if and only if some non-empty pattern does not compile, and the error is that of the first such column |
| RulePrep.CompileErrorPersists | app/crawler/validator.py:168-171 | once a prefix of the columns fails, the whole preparation fails with the same error |
| RulePrep.CompiledNames | app/crawler/validator.py:172 | the prepared field names are distinct, lower-case, and exactly the lower-cased column names |
| RulePrep.CompiledRuleOfColumn | app/crawler/validator.py:169-172 | a column that no later column shadows keeps its flags and type, and has a pattern only when its regex is non-empty |
| RulePrep.PrepSpecOutcome | app/crawler/validator.py:163-173 | preparation fails if and only if some column's non-empty pattern does not compile; when it succeeds the prepared field names are exactly the lower-cased column names |
| RulePrep.PreparedNamesAreLowered | app/crawler/validator.py:164-165 | the unique columns and mode are lower-case; the mode defaults to "ignore" and the columns to none |
| DuplicateIndex.KeyOf | app/crawler/validator.py:49 | the key has one component per unique column, the row's value there or None |
| DuplicateIndex.BuildDuplicateIndex | app/crawler/validator.py:33-56 | the two-pass loop yields, for each key that occurs, its number of occurrences and its first 1-based row; no constraints give an empty index |
| DuplicateIndex.IndexSpecEntries | app/crawler/validator.py:41-56 | with unique constraints every row's key is in the index; every entry counts at least one row and its first row lies between 1 and the record count |
| DuplicateIndex.EveryKeyCounted | app/crawler/validator.py:48-53 | every key that occurs is counted at least once, at a 1-based position within the records |
| DuplicateIndex.OccurrencesAndFirst | app/crawler/validator.py:48-53 | a key is counted exactly when it occurs; its first position holds it and no earlier one does |
| DuplicateIndex.OccurrencesTwo | app/crawler/validator.py:50 | two rows with one key give a count of at least two |
| DuplicateIndex.CountsSumToLength | app/crawler/validator.py:54-55 | the counts over the distinct keys sum to the number of records |
| DuplicateIndex.NoConstraintsNoIndex | app/crawler/validator.py:41-42 | without unique constraints the index is empty |
| Validator.ValidateRow | app/crawler/validator.py:61-122 | the loop over the rules computes the reference validated row |
| Validator.ValidatedRowShape | app/crawler/validator.py:120-121 | the output is the normalised row followed by Valid and Remarks; Valid is "Success" if and only if there are no errors; Remarks is "Validated Successfully" or the errors joined by ", " |
| Validator.ValidatedRowExtendsInput | app/crawler/validator.py:71-74 | a row from a reader comes back unchanged, with the two verdict columns appended |
| Validator.NormalizeKeySet | app/crawler/validator.py:74 | the normalised row has no more entries than the row, and its keys are exactly the lower-cased keys of the row |
| Validator.NormalizeKeys | app/crawler/validator.py:74 | normalised keys are distinct and lower-case |
| Validator.NormalizeLowerRow | app/crawler/validator.py:71-74 | normalising a reader row changes nothing |
| Validator.Coerces | app/crawler/validator.py:86-99 | a number passes every type check except date; a date passes the date check; None or a date fails the int and float checks (`int(None)`, `float(datetime)` raise) |
| Validator.FieldMessagesNameTheField | app/crawler/validator.py:79-107 | every message the rule loop adds for a field starts with the field's name, followed by more text |
| Validator.FieldCheckOrder | app/crawler/validator.py:77-107 | at most one message per field: required-and-blank first, then empty skipped, then type, then pattern; an unknown type always coerces |
| Validator.WhitespaceOptionalIsChecked | app/crawler/validator.py:79-84 | a whitespace-only value of an optional field is not skipped; it is type- and pattern-checked |
| Validator.DuplicateEntry | app/crawler/validator.py:110-112 | for a row of the indexed records, the lookup finds its key's true count and first row |
| Validator.NoDuplicatePolicy | app/crawler/validator.py:110 | no unique columns, or a mode other than fail_all and keep_first, add no duplicate message |
| Validator.FailAllPolicy | app/crawler/validator.py:113-115 | under fail_all a row is flagged if and only if its key occurs more than once |
| Validator.KeepFirstPolicy | app/crawler/validator.py:116-118 | under keep_first a row is flagged if and only if an earlier row has the same key |
| Validator.CountSuccess | app/crawler/validator.py:145-148 | the success count never exceeds the number of rows |
| Validator.ValidatedSeq | app/crawler/validator.py:138-150 | one validated row per input row |
| Validator.ValidateChunk | app/crawler/validator.py:127-150 | the rows validated with consecutive indexes from the start index; success counts the "Success" rows; success plus failure is the slice length |
| Validator.ValidatedSeqSlice | app/crawler/validator.py:141-149 | validating a slice from its own start index equals the same slice of the whole validation |
| Chunking.Range | app/crawler/validation_pipeline.py:74 | `range(i, stop, step)`: empty if and only if i >= stop, starts at i, every element below stop, consecutive elements a step apart |
| Chunking.PieceAt | app/crawler/validation_pipeline.py:74 | chunk j starts at j * 5000 and holds the records from there up to the next start or the end |
| Chunking.PiecesCount | app/crawler/validation_pipeline.py:74 | there are just enough chunks to cover the records, and none for no records |
| Chunking.PieceSlices | app/crawler/validation_pipeline.py:74 | every chunk is a non-empty slice of the records at its start |
| Chunking.PiecesFirstLast | app/crawler/validation_pipeline.py:74 | the first chunk starts at 0 and the last ends at the record count |
| Chunking.PiecesLinked | app/crawler/validation_pipeline.py:74 | each chunk starts where the previous one ends |
| Chunking.PieceEnds | app/crawler/validation_pipeline.py:89 | the running processed counts strictly increase and end at the record count |
| Chunking.PieceEndAt | app/crawler/validation_pipeline.py:89 | after chunk j the processed count is min((j+1) * 5000, total) |
| Chunking.PiecesCover | app/crawler/validation_pipeline.py:74 | the chunks concatenated are the records |
| Chunking.SortByStart | app/crawler/validation_pipeline.py:87 | sorting the results by start index gives a sorted permutation of them |
| Chunking.InsertKeepsSorted | app/crawler/validation_pipeline.py:87 | inserting into a sorted list keeps it sorted |
| Chunking.SortedRearrangementIsUnique | app/crawler/validation_pipeline.py:87 | a sorted permutation of a list with strictly increasing starts is that list |
| ChunkedValidation.ValidatedSeqNumbered | app/crawler/validation_pipeline.py:157 | validating a chunk is applying the row validator with consecutive 1-based indexes |
| ChunkedValidation.ChunkSpec | app/crawler/validation_pipeline.py:157 | a chunk's result has one row per input row, and its success and failure counts add up to the chunk size |
| ChunkedValidation.CollectResults | app/crawler/validation_pipeline.py:154-160 | the worker appends (start, validate_chunk(rows, start + 1, ...)) to the shared list |
| ChunkedValidation.RunBatch | app/crawler/validation_pipeline.py:83-85 | the batch's results arrive in some order: a permutation of one outcome per chunk |
| ChunkedValidation.SortedBatch | app/crawler/validation_pipeline.py:87 | whatever the completion order, sorting by start index restores the chunk order |
| ChunkedValidation.PiecesTile | app/crawler/validation_pipeline.py:74 | the chunks tile the records |
| ChunkedValidation.MergeStep | app/crawler/validation_pipeline.py:87-95 | merging the next chunk extends the validated rows, the counters and the progress list consistently |
| ChunkedValidation.MergeOne | app/crawler/validation_pipeline.py:88-94 | one merge step: rows appended, counters added, the new processed count saved as progress |
| ChunkedValidation.MergeInOrder | app/crawler/validation_pipeline.py:87-95 | merging a sorted batch keeps the merge invariant up to the batch's last chunk |
| ChunkedValidation.MergeBatch | app/crawler/validation_pipeline.py:79-95 | one batch of up to four chunks is run, sorted and merged |
| ChunkedValidation.MergeAllBatches | app/crawler/validation_pipeline.py:79-95 | after all batches every chunk is merged |
| ChunkedValidation.ValidateRecords | app/crawler/validation_pipeline.py:74-95 | the parallel chunked validation equals validating all records in order from index 1; the counters are the success and failure totals; progress is saved after each chunk |
| ChunkedValidation.ProgressReports | app/crawler/validation_pipeline.py:93-94 | no progress values for no records; otherwise the j-th is min((j+1) * 5000, total), they strictly increase by at most 5000, and the last is the total |
| ResultWriter.IndexOf | app/crawler/excel_writer.py:71-72 | `list.index`: the first position holding the value |
| ResultWriter.MaxLength | app/crawler/excel_writer.py:109 | the maximum cell length over the records is at least every record's cell length |
| ResultWriter.MaxLengthReached | app/crawler/excel_writer.py:109 | the maximum is the cell length of some record |
| ResultWriter.ColumnWidth | app/crawler/excel_writer.py:109-110 | a column's width lies between 2 and 50 |
| ResultWriter.WriteRow | app/crawler/excel_writer.py:57-63 | writing a row sets exactly that row's cells and leaves the other cells alone |
| ResultWriter.OneMoreRowWritten | app/crawler/excel_writer.py:61-63 | one more data row written keeps the written-cells invariant |
| ResultWriter.WriteWorkbook | app/crawler/excel_writer.py:6-114 | the header row and data rows as the records hold them; the formatting range (last data row, last column, and the first positions of Valid and Remarks) if and only if both headers exist; one width per header, each min(longest cell + 2, 50) |
| ResultWriter.ColumnWidths | app/crawler/excel_writer.py:108-110 | each column's width is min(longest cell + 2, 50) |
| ResultWriter.WriteValidatedExcelStream | app/crawler/excel_writer.py:117-129 | None if and only if there are no records; otherwise the workbook that `_write_workbook_bytes` writes with the first record's keys as headers: every cell, the formatting range if and only if Valid and Remarks are headers, and each column's exact width, which lies between 2 and 50 |
| ResultWriter.SuccessRemarkIsNotDuplicate | app/crawler/excel_writer.py:98-105 | the success remark never triggers the red rule |
| ResultWriter.DuplicateMessageIsRed | app/crawler/excel_writer.py:98-105 | remarks ending with a duplicate message trigger the red rule |
| ResultWriter.ColourOfMessages | app/crawler/excel_writer.py:77-105 | green if and only if there are no errors, red if and only if the joined errors mention "duplicate", yellow if and only if there are errors and none mention it |
| ResultWriter.ValidatedRowColour | app/crawler/excel_writer.py:77-105 | the same for a validated row, and every row with a duplicate message is red |
| ResultWriter.VerdictColumnsFollow | app/crawler/excel_writer.py:70-72 | with lower-case data keys, Valid and Remarks are the last two headers |
| ResultWriter.ValidatedHeadersCarryVerdict | app/crawler/excel_writer.py:70-72 | the headers of a validated row always contain Valid, with Remarks right after it |
| Pipeline.SelectReader | app/crawler/validation_pipeline.py:48-55 | "spreadsheetml" selects the Excel reader, else "csv" the CSV reader, else the error naming the content type |
| Pipeline.NoRules | app/crawler/validation_pipeline.py:65-67 | `not rules_cfg`: the rules are missing if and only if there is no rule document or the document has no keys at all |
| Pipeline.Quality | app/crawler/validation_pipeline.py:101 | "PASS" if and only if no row failed, otherwise "FAIL" |
| Pipeline.BeforeLastDot | app/crawler/validation_pipeline.py:102 | `rsplit(".", 1)[0]`: a prefix of the name, the whole name when it has no dot |
| Pipeline.BeforeLastDotDropsExtension | app/crawler/validation_pipeline.py:102 | a name with one extension loses exactly that extension |
| Pipeline.BaseNameOfKey | app/crawler/validation_pipeline.py:102 | the base name of dir/name.ext or name.ext is name |
| Pipeline.OutputKeyShape | app/crawler/validation_pipeline.py:103-104 | a report key starts with the output prefix and a slash, ends with the extension, has "_" and the quality just before the extension, and is as long as its parts plus three separators |
| Pipeline.Publish | app/crawler/validation_pipeline.py:27-35 | an event is published only when the app is present |
| Pipeline.ProgressSavesValues | app/crawler/validation_pipeline.py:93-95 | the progress updates save exactly the processed counts, in order |
| Pipeline.ProgressQuiet | app/crawler/validation_pipeline.py:93-95 | progress never marks the audit completed, and nothing is published in background mode |
| Pipeline.FailureIsQuiet | app/crawler/validation_pipeline.py:147-151 | the failure path publishes only when the app is present and never completes the audit |
| Pipeline.LoadTrace | app/crawler/validation_pipeline.py:57-62 | loading saves progress 0 and does not complete |
| Pipeline.ClosingTrace | app/crawler/validation_pipeline.py:106-143 | the closing steps save no progress and are silent in background mode |
| Pipeline.ClosingShape | app/crawler/validation_pipeline.py:106-143 | the Excel upload comes first and carries the workbook, the JSON upload carries the encoded rows, and the last event is the COMPLETED status with the totals, keys and rules id |
| Pipeline.Load | app/crawler/validation_pipeline.py:39-70 | RUNNING first; a read error stops there; otherwise progress 0 and the init event, then the rules (missing rules or a compile error fail) |
| Pipeline.ValidateAll | app/crawler/validation_pipeline.py:69-95 | the records are validated in order against the prepared rules and duplicate index, with the totals and per-chunk progress |
| Pipeline.CompletedSaved | app/crawler/validation_pipeline.py:93-143 | the completed run saves exactly the progress values and is silent in background mode |
| Pipeline.CompletedShape | app/crawler/validation_pipeline.py:101-143 | the workbook is uploaded under the .xlsx key and the JSON report under the .json key, both keys naming PASS or FAIL; the run ends with the COMPLETED status |
| Pipeline.ExcelUploadKept | app/crawler/validation_pipeline.py:106-107 | events before or after the closing steps do not undo the upload of the validated rows' workbook |
| Pipeline.DatesAsText | app/crawler/validation_pipeline.py:111 | the rows as `json.dumps(..., default=str)` would encode them: the same rows and keys, every date replaced by its `str()` text, every other cell unchanged, and no date left |
| Pipeline.DateFreeRowsUnchanged | app/crawler/validation_pipeline.py:111 | rows without a date cell are encoded as they are |
| Pipeline.ExcelOnlyTrace | app/crawler/validation_pipeline.py:106-111 | a run that fails on the JSON report saves exactly the progress values, does not complete, and has uploaded the workbook of the validated rows under the .xlsx key |
| Pipeline.ClosingError | app/crawler/validation_pipeline.py:106-111 | after loading, the run's error is the missing workbook when there are no validated rows, the JSON encoder's TypeError when a validated row holds a date, and none otherwise |
| Pipeline.ReadRecordsAreReaderRows | app/crawler/validation_pipeline.py:48-58 | whichever reader the content type selects, every record has distinct, lower-case keys |
| Pipeline.ValidatedRowAddsText | app/crawler/validator.py:74-122 | a validated reader row is the row followed by two text cells, Valid and Remarks |
| Pipeline.ValidationKeepsDates | app/crawler/validator.py:74-122 | the validated rows hold a date cell if and only if the records do |
| Pipeline.DatesFailTheRun | app/crawler/validation_pipeline.py:106-111 | once the rules are prepared and there are records, the run raises if and only if some record holds a date cell, and then with "Object of type date is not JSON serializable" |
| Pipeline.XlsxSelectsExcel | app/crawler/validation_pipeline.py:48-55 | the .xlsx Content-Type selects the Excel reader |
| Pipeline.DateSheetFails | app/crawler/validation_pipeline.py:106-111 | a workbook with a header "d" and one date under it, with rules that name no column, loads one record and fails on the JSON report |
| Pipeline.Finish | app/crawler/validation_pipeline.py:101-143 | the closing steps fail if and only if there are no validated rows (on the missing workbook) or a validated row holds a date (after the workbook's upload, with the JSON encoder's TypeError), without completing; whenever there are rows, the workbook `write_validated_excel_stream` writes for them is uploaded under the quality-named .xlsx key; otherwise their JSON report follows and the audit is completed last; progress is saved exactly as given |
| Pipeline.FinishCorrected | app/crawler/validation_pipeline.py:101-143 | with dates encoded as text, the closing steps fail if and only if there are no validated rows; otherwise both reports are uploaded, the JSON one holding the rows with their dates as text, and the audit is completed last |
| Pipeline.FailAfter | app/crawler/validation_pipeline.py:147-151 | the except block ends a trace that has not completed with FAILED and the error event, saving no progress and publishing nothing without an app |
| Pipeline.CompleteAfter | app/crawler/validation_pipeline.py:61-143 | loading events that saved 0, followed by closing steps that completed, save 0 and every chunk's count up to the total, upload the JSON report and end with COMPLETED |
| Pipeline.RunPipeline | app/crawler/validation_pipeline.py:21-151 | RUNNING first; of the modelled steps, it raises if and only if reading, the rules lookup, rule preparation, the empty workbook or the JSON encoding of a date cell fails, and then ends with FAILED and the error event; otherwise progress 0, then every chunk's count up to the total, the JSON report uploaded, and COMPLETED last; whenever records were loaded and the rules prepared, the validated rows' workbook was uploaded; nothing is published without an app |
| TokenCache.TokenKey | app/core/token_cache.py:14-17 | the key determines the token it was computed from, so distinct tokens have distinct keys |
| TokenCache.TokenCache.constructor | app/core/token_cache.py:10-12 | an empty memory cache; with a Redis URL, the Redis tier holds whatever the server holds when the cache is built, and without one there is no Redis tier |
| TokenCache.TokenCache.Get | app/core/token_cache.py:19-37 | a live memory entry first, else a live Redis entry copied into memory, else None; Redis unchanged |
| TokenCache.TokenCache.Set | app/core/token_cache.py:39-55 | both tiers store the value with expiry now + expires_in |
| TokenCache.SetThenGet | app/core/token_cache.py:19-55 | a get before the expiry returns the value set |
| TokenCache.SetThenExpire | app/core/token_cache.py:19-55 | a get from the expiry on returns None |
| TokenCache.SetLeavesOtherTokens | app/core/token_cache.py:39-55 | setting one token changes nothing another token's get sees |
| TokenCache.GetRemovesNothing | app/core/token_cache.py:19-37 | get never removes an entry and changes only the looked-up one |
| TokenCache.MemoryHit | app/core/token_cache.py:23-25 | a live memory entry is returned and nothing changes |
| TokenCache.MissWithoutRedis | app/core/token_cache.py:28-37 | without Redis a memory miss gives None |
| TokenCache.RedisHitCopied | app/core/token_cache.py:28-35 | a live Redis entry behind a miss is returned and copied into memory |
| TokenCache.ExpiredRedisIgnored | app/core/token_cache.py:32 | expired Redis data is neither returned nor copied |
| TokenCache.GetTwice | app/core/token_cache.py:19-37 | get is idempotent |
| AuthFactory.CacheKeysCanonical | app/auth/factory.py:9-16 | every alias selects one of the two canonical slots, and a canonical name selects its own |
| AuthFactory.CaseDoesNotMatter | app/auth/factory.py:8-17 | names equal up to case select the same slot, and a lookup of either fails with the same error |
| AuthFactory.ProviderRegistry.constructor | app/auth/factory.py:5 | the provider cache starts empty, under the given settings |
| AuthFactory.ProviderRegistry.GetProvider | app/auth/factory.py:7-17 | a known name returns the cached instance of its class, creating a fresh one on the first lookup; it raises if and only if the name is unknown or the first construction raises (an Azure provider without an authority, a Cognito provider without a user pool id or region), with that error, and then leaves the cache alone |
| AuthFactory.ProviderRegistry.GetUserProvider | app/auth/factory.py:20-21 | fails if and only if the lookup of the user provider setting fails, with that error; otherwise returns an instance of the class the setting names |
| AuthFactory.ProviderRegistry.GetClientProvider | app/auth/factory.py:23-24 | fails if and only if the lookup of the client provider setting fails, with that error; otherwise returns an instance of the class the setting names |
| AuthFactory.ProviderRegistry.LookupTwice | app/auth/factory.py:9-17 | two lookups of names selecting one slot both succeed with the same instance, or both fail, with the same error when the slot is a known one |
| AuthValidate.ValidateBearerToken | app/auth/validate.py:6-57 | the loop over the four attempts computes the reference outcome: the first attempt whose call returns (an accepting validator, or the client check a Cognito provider inherits, which returns the `NotImplementedError` class), a failed lookup (unknown name or constructor RuntimeError) from the first two, or the 401; lookups in the last two attempts that fail are caught |
| AuthValidate.SuccessIsAnAttempt | app/auth/validate.py:24-54 | a success is one attempt's: an accepting validator's, with its tag, token type and unchanged claims, or the inherited client check's, with the `NotImplementedError` class as claims |
| AuthValidate.AllRejected | app/auth/validate.py:24-57 | when every validator rejects, the outcome is the 401, the failed lookup of one of the first two attempts with its error (an unknown name or a provider constructor's RuntimeError), or a success of a client attempt on a Cognito client provider, whose inherited check returns |
| AuthValidate.CognitoClientAcceptsAnyToken | app/auth/providers.py:25-27 | with a configured Cognito client provider, a token the user provider rejects is accepted by the second attempt, tagged azure and client, with the `NotImplementedError` class as claims |
| AuthValidate.CorrectedNeedsAcceptance | app/auth/validate.py:24-57 | with the inherited client check raising, a success is always an accepting validator's, with its claims, and a token every validator rejects is refused |
| AuthValidate.UserLookupFailurePropagates | app/auth/validate.py:25 | a failing user-provider lookup (an unknown name or an unconfigured provider) raises its error before any validation |
| AuthValidate.UnconfiguredAzureRaises | app/auth/providers.py:40-42 | with Azure named for users and no authority set, every token is refused with the constructor's RuntimeError, whatever the validators answer |
| AuthValidate.UnconfiguredCognitoRaises | app/auth/providers.py:148-151 | with Cognito named for users and its user pool id or region unset or empty, every token is refused with "Cognito config missing", whatever the validators answer |
| AuthValidate.CognitoUnreachable | app/auth/validate.py:40-54 | the last two attempts repeat the first two, so when answers repeat a "cognito" result is never returned |
| Config.ParseLogTargets | app/core/config.py:78-84 | a list is kept, another non-string value gives ["console"], and a string gives non-empty stripped pieces |
| Config.KeptPieces | app/core/config.py:81 | `if x.strip()`: no more targets than pieces, each non-empty and without surrounding whitespace |
| Config.KeptPiecesHaveNoComma | app/core/config.py:81 | no target contains a comma |
| Config.BlankPiecesDropped | app/core/config.py:81 | blank pieces are dropped |
| Config.OnlySeparatorsGiveNoTargets | app/core/config.py:81 | a string of commas and spaces gives no targets |
| Config.CleanPiecesKept | app/core/config.py:81 | clean pieces are all kept |
| Config.JoinedTargetsRoundTrip | app/core/config.py:81 | parsing clean targets joined by commas gives them back |
| Config.AzureJwksUrl | app/core/config.py:47-50 | None exactly when the authority is unset or empty, else the authority followed by /discovery/v2.0/keys |
| Ingest.ShouldRunInBackground | app/routers/ingest.py:16-25 | inline exactly when the size parses and is below the threshold in MiB; a missing or empty header means background |
| Ingest.BackgroundIsMonotone | app/routers/ingest.py:22-23 | a larger stated size never moves an upload from background to inline |
| Ingest.UnparsableSizeRunsInBackground | app/routers/ingest.py:24-25 | an unparsable size runs in the background |
| Metrics.OverallStatus | app/core/metrics.py:62-68 | down if and only if both are DOWN, degraded if and only if exactly one is, healthy if and only if neither is |
| Metrics.CollectMetrics | app/core/metrics.py:8-70 | the DB and Redis sections for each probe outcome, the checked-in count being the pool size less the checked-out count, the queue length 0, and the overall status |
| LogsTail.SplitLines | app/routers/logs_tail.py:41 | `splitlines()`: no line holds a newline, and a non-empty text has one line per newline, plus one when it does not end in a newline |
| LogsTail.LastLines | app/routers/logs_tail.py:42 | `text[-lines:]`: the last min(lines, count) lines |
| LogsTail.SuffixKeepsLastLines | app/routers/logs_tail.py:35-42 | a suffix holding more newlines than requested lines has the same last lines as the whole text |
| LogsTail.BufferAsWritten | app/routers/logs_tail.py:35-40 | the read loop as written only appends: the buffer it starts with is kept as a prefix, and at most the unread bytes are added |
| LogsTail.TailAsWritten | app/routers/logs_tail.py:26-42 | `tail_file` as written returns at most the requested number of lines, none holding a newline |
| LogsTail.TailStart | app/routers/logs_tail.py:35-40 | the backward read stops at the start of the file or with more newlines than requested lines |
| LogsTail.TailFileAsWritten | app/routers/logs_tail.py:26-42 | the loop as written: a missing file raises, otherwise the as-written buffer's lines |
| LogsTail.TailFile | app/routers/logs_tail.py:26-42 | with the chunk order corrected: the last lines of the whole file |
| LogsTail.TailIsLastLines | app/routers/logs_tail.py:35-42 | reading back to the stopping point is enough to find the file's last lines |
| LogsTail.SmallFileAsWritten | app/routers/logs_tail.py:35-42 | as written, files of at most 1024 bytes are tailed correctly |
| LogsTail.OneChunkEnoughAsWritten | app/routers/logs_tail.py:35-42 | as written, when the last 1024 bytes hold enough newlines, only they are read |
| LogsTail.AsWrittenMisordersChunks | app/routers/logs_tail.py:37-39 | as written, "A\n" followed by 1024 non-newline bytes yields a wrong last line |
| LogsTail.AsWrittenExample | app/routers/logs_tail.py:37-39 | the misordering happens: with 1024 'B's after "A\n" the as-written tail is ["BBB…BA"], not the file's last line |
| LogsTail.HighlightFrom | app/routers/logs_tail.py:45-51 | a line is either unchanged or wrapped in one level's colour and the reset code |
| LogsTail.HighlightLine | app/routers/logs_tail.py:45-51 | `highlight_line`: the line unchanged, or wrapped in one level's colour and the reset code |
| LogsTail.FirstLevelWins | app/routers/logs_tail.py:46-50 | the first level named as a whole word decides the colour |
| LogsTail.NoLevelUnchanged | app/routers/logs_tail.py:51 | a line naming no level is unchanged |
| LogsTail.LowercaseErrorIsRed | app/routers/logs_tail.py:49 | matching ignores case: "error:" is coloured red |
| LogsTail.Keywords | app/routers/logs_tail.py:84 | no keywords if and only if the filter is missing or empty; otherwise one keyword per comma-separated piece |
| LogsTail.JoinedKeywordsRoundTrip | app/routers/logs_tail.py:84 | comma-joined clean keywords parse back to themselves |
| LogsTail.TrailingCommaGivesEmptyKeyword | app/routers/logs_tail.py:84 | a trailing comma adds the empty keyword |
| LogsTail.MatchesSomeKeyword | app/routers/logs_tail.py:94 | a line is kept if and only if it contains some keyword, ignoring case |
| LogsTail.FilterLines | app/routers/logs_tail.py:93-94 | every kept line is a matching line of the input |
| LogsTail.KeptPositionsIncrease | app/routers/logs_tail.py:94 | the kept lines keep their order |
| LogsTail.KeptLinesAtPositions | app/routers/logs_tail.py:94 | the kept lines are the input lines at the kept positions |
| LogsTail.KeptPositionsExact | app/routers/logs_tail.py:94 | a position is kept if and only if its line matches |
| LogsTail.EmptyKeywordKeepsAll | app/routers/logs_tail.py:94 | an empty keyword keeps every line |
| LogsTail.ShownLines | app/routers/logs_tail.py:93-96 | filtering never adds lines; without a filter the count is kept; without colour every line shown is a tail line; with neither the tail is shown as it is |
| LogsTail.JsonItems | app/routers/logs_tail.py:100-105 | one item per line, parsed exactly when the line is JSON, else raw |
| LogsTail.ToJson | app/routers/logs_tail.py:100-105 | the loop builds exactly those items |
| LogsTail.GetLogTail | app/routers/logs_tail.py:72-108 | 404 for a missing file; a stream with the parsed keywords; else the lines `tail_file` returns as written, filtered, coloured, and given as JSON items or as lines joined by newlines |
| LogsTail.GetLogTailCorrected | app/routers/logs_tail.py:72-108 | the same endpoint with the chunk order corrected: its answer is built from the file's true last lines |
| LogsTail.PlainAnswerIsTail | app/routers/logs_tail.py:92-108 | as written, for a file of at most one read and without filter or colour, the answer is the file's last lines, at most the requested number |

## Left out

- Reading S3, uploading reports, presigned URLs, the database session, Redis pub/sub, websockets and logging are effects. They appear only as events in the pipeline trace.
- Floating point is left out: the progress `percent`, `progress_percent`, the uptime and the Redis latency. The clock is an integer `now`, and the uptime and latency are inputs.
- Python's `int()`, `float()`, `Decimal`, `datetime.fromisoformat`, `re.compile`, `re.match` and `json.loads` are not re-implemented. They are fields of an oracle passed in.
- Case folding, stripping and word characters cover ASCII only. Unicode lower-casing and `re.IGNORECASE` folding of other letters are not modelled.
- UTF-8 decoding with `errors="ignore"` is left out. Files are sequences of characters, and `splitlines` splits on '\n' only.
- The CSV dialect sniffer and openpyxl's reading of cell types are left out. Cells are given values.
- Cell formats, the legend sheet and column letters are left out.
- `get_today_log_path` is left out, because it reads the date. Whether today's log file exists is an input.
- `cognito_issuer` and `cognito_jwks_url` are left out. They are outside this model.
- The Redis `ex` time-to-live is left out. Redis entries expire only through their `expires_at`, which the code checks anyway.
- Redis connection errors inside the token cache are left out.
- TokenCache.TokenCache.Get, TokenCache.TokenCache.Set: the Redis tier is the server's contents when the cache is built, changed only by this cache's own `set` and `get`. Writes, deletions and expiry by other processes between two calls are not modelled.
- Pipeline.RunPipeline, Pipeline.Finish: failures of storage, the database and the validation workers are not modelled. An S3 read or upload, a presigned URL, an audit status or progress update, or a chunk worker that raises would also end a real run with FAILED and the error event. The failures the model does have are reading the upload, the rules lookup, rule preparation, the empty workbook, and `json.dumps` meeting a date cell.
- RulePrep.PrepRulesFromDict: a key of the rule document that is present with the JSON value null is not modelled; `None` in `RuleDoc` stands for a missing key only. A null `unique_constraints` makes the list comprehension raise TypeError (app/crawler/validator.py:164), a null `unique_mode` makes `.lower()` raise AttributeError (:165), and a null `columns` makes `.items()` raise AttributeError (:168); each of those runs ends with FAILED.
- Values.Value: a cell is None, a string, an integer or a date. openpyxl also returns float, bool and `datetime.datetime` cells, which the model cannot represent. So it does not capture a float cell such as 3.5 passing an int rule because `int(3.5)` truncates, a boolean cell passing it because `int(True)` is 1, or a datetime cell printing as 19 characters (`YYYY-MM-DD HH:MM:SS`) rather than a date's 10, which widens its column.
- LogsTail.GetLogTail: the stream branch returns only the arguments handed to `log_streamer` (the keywords and the colour flag). The streamer's follow loop, which never ends, is not modelled. The colour flag is passed but unused by the streamer.
- AuthValidate.ValidateBearerToken: what a provider's own validator does with a token is an input (accept with claims or raise). Signature and key-set checks are not modelled. The one call the code decides is Cognito's client check, inherited from BaseAuthProvider, which returns the `NotImplementedError` class; it is modelled.
- TokenCache.TokenKey: SHA-256 is modelled as an injective digest.
- Metrics.CollectMetrics: the timestamp and the rounded uptime are inputs.

Two details of the code that the model keeps:

- Progress is saved and published after each merged chunk, inside the merge loop, not once per batch (app/crawler/validation_pipeline.py:87-95).
- A column's width counts a stored None as the four characters "None", and only a missing key as "", because the width is `len(str(r.get(h, "")))` (app/crawler/excel_writer.py:109).

An empty upload makes `write_validated_excel_stream` return None. The following `getvalue()` then raises, so the pipeline fails with that error rather than completing. The model follows this.

## Findings

| source | as written | input that shows it | evidently intended | confidence | as-written member | corrected member |
|---|---|---|---|---|---|---|
| app/routers/logs_tail.py:37-39 | each chunk read further back is appended after the buffer, so the chunks end up in reverse file order | a file "A\n" followed by 1024 'B's, lines=1: the tail is ["BBB…BA"] instead of ["BBB…B"] | prepend each chunk, so the buffer is always a suffix of the file | not executed | LogsTail.AsWrittenMisordersChunks | LogsTail.TailFile |
| app/crawler/validation_pipeline.py:111 | `json.dumps(validated_records, indent=2)` has no `default`, and the validated rows carry the sheet's date cells unchanged | an .xlsx upload whose sheet is a header "d" over one date, with rules `{"columns": {}}`: the workbook is uploaded, then TypeError "Object of type date is not JSON serializable", and the audit ends FAILED | encode dates as text (`default=str`), so that every run with records completes | not executed | Pipeline.DateSheetFails | Pipeline.FinishCorrected |
| app/auth/providers.py:25-27 | BaseAuthProvider's `validate_client_token` returns the `NotImplementedError` class instead of raising it, and CognitoProvider does not override it | AUTH_CLIENT_PROVIDER=cognito with its pool and region set, and any token the user provider rejects: `validate_bearer_token` returns provider azure, type client, with that class as claims | raise NotImplementedError, so the attempt is caught and the next one tried | not executed | AuthValidate.CognitoClientAcceptsAnyToken | AuthValidate.CorrectedNeedsAcceptance |

The run itself follows the code: `Pipeline.RunPipeline` calls `Pipeline.Finish`, which fails on a date cell after the workbook's upload. `Pipeline.FinishCorrected` is the same closing steps with the JSON report encoded through `Pipeline.DatesAsText`. Likewise `AuthValidate.ValidateBearerToken` returns on the inherited client check, and `AuthValidate.AttemptsFromCorrected` is the attempts with that check raising.

The log-tail endpoint is modelled both ways. `LogsTail.GetLogTail` calls the read loop as written (`LogsTail.TailFileAsWritten`), so its answer inherits the misordering. `LogsTail.GetLogTailCorrected` is the same endpoint on the corrected `LogsTail.TailFile`, and its answer is built from the file's last lines.
