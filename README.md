# batch-engine record-update pipeline, modelled in Dafny

The batch-engine server exposes `PATCH /records/{id}`. The endpoint takes uploaded CSV or
spreadsheet files and optional text fields. It turns every upload into a `{filename, columns}`
header description, composes a partial update, and applies it as a `$set` to one document of a
MongoDB collection. The response is typed: `"success"` with the written data, `"unchanged"`,
or an HTTP error.

This project models that pipeline and proves properties about it:

- **`FileUtils`** (`file_utils.dfy`) models the column extractor:
  - the column-name sanitiser;
  - extension dispatch;
  - the decode fallback chain, written as a `while` loop with `break`;
  - NUL and line-ending normalisation;
  - the first-record rule;
  - the error wrapping.
- Three modules support the extractor:
  - **`Codecs`** defines UTF-8 (strict and ignoring), UTF-8-with-signature, Latin-1 and Windows-1252 byte by byte.
  - **`Csv`** is the character state machine of CPython's `_csv` reader with the `excel` dialect.
  - **`Text`** models `str.strip`, `isspace`, the character filter and ASCII case mapping.
- **`RecordService`** (`record_service.dfy`) models the update service:
  - the ObjectId validator;
  - the composer of the update dictionary;
  - the store as a class over a map from id to document;
  - the `RecordService` class with its lazily obtained collection.

  `UpdateSpec` is the whole update as a function of the documents. The method
  `RecordService.UpdateRecord` is proved to produce exactly that outcome: the result, the new
  documents and the sequence of store accesses.
- **`AppConfig`** (`config.dfy`) models the configuration object:
  - `__init__`, which runs once;
  - the required-key validator loop;
  - the `get` cache;
  - `reload`;
  - the Vertex flag and the MongoDB-configured flag.
- **`Api`** (`api.dfy`) models the endpoint's mapping from exceptions to HTTP errors, and the health check.
- **`Schemas`** and **`Base`** hold the pydantic models, the collection's `$jsonSchema` validator as a predicate, and `Option`/`Result`.

Four behaviours of the code a reader may not expect:

- **The sanitiser is not idempotent.** `"\x01 a"` becomes `" a"`, and a second pass gives `"a"`. `SanitizeIdempotentIff` states exactly when a second pass changes nothing.
- **The CSV branch never drops a column.** Empty names are not silently dropped: the sanitiser never returns `""`, so the truthiness filter removes nothing, and an empty name becomes `"unnamed_column"`.
- **An identical update still reports `"success"`.** Every successful build stamps a fresh `task_id`, so sending the same values again writes a change. `"unchanged"` needs the record to already hold that very task id and timestamp (`FreshTaskIdIsSuccess`, `RepeatIsUnchanged`).
- **A byte-order mark is kept.** UTF-8 is tried before UTF-8-with-signature and already accepts a leading mark. The mark therefore stays in the text as U+FEFF and becomes part of the first column name (`BomIsKept`). The utf-8-sig, cp1252 and `errors='ignore'` steps can never produce the text (`Utf8SigNeverWins`, `DecodeCsvTextChoice`).

## Model

| member | source | states |
|---|---|---|
| FileUtils.SanitizeColumnName | utils/file_utils.py:11-23 | The result is never empty, and every character of it has code point at least 32 or is a tab. |
| FileUtils.SanitizeKeeps | utils/file_utils.py:21-23 | If the NUL-free, stripped name holds a kept character, the result is a subsequence of it with the same number of every kept character. Otherwise the result is `"unnamed_column"`. |
| FileUtils.SanitizeDropsControl | utils/file_utils.py:21-22 | `"na\x01me"` sanitises to `"name"`. |
| FileUtils.SanitizeNotIdempotent | utils/file_utils.py:21-23 | `"\x01 a"` sanitises to `" a"`, and `" a"` sanitises to `"a"`. A second pass can change the result. |
| FileUtils.SanitizeIdempotentIff | utils/file_utils.py:21-23 | Sanitising twice equals sanitising once exactly when the first result is already stripped. |
| FileUtils.SanitizeIdempotent | utils/file_utils.py:21-23 | For names whose only control characters are whitespace or NUL, sanitising is idempotent. |
| FileUtils.SanitizeClean | utils/file_utils.py:21-23 | A name with no NUL, no control character other than tab and no surrounding whitespace is returned unchanged. |
| FileUtils.AfterLastDot | utils/file_utils.py:40 | `split('.')[-1]`: the result is a suffix without a dot, and a dot precedes it whenever it is not the whole text. |
| FileUtils.DispatchRules | utils/file_utils.py:40-43 | The branch choice ignores ASCII case. A name without a dot is its own lower-cased extension. |
| FileUtils.SpreadsheetByExtension | utils/file_utils.py:40-43 | `base.XLSX` and `base.xls` take the spreadsheet branch and `base.csv` does not, for every base. |
| FileUtils.NormalizeNewlines | utils/file_utils.py:60 | The normalised text holds no carriage return. |
| FileUtils.NormalizeRules | utils/file_utils.py:60 | `\r\n` and a bare `\r` each become one `\n`, and every other character is kept. |
| FileUtils.NormalizeAppend | utils/file_utils.py:60 | Normalisation distributes over concatenation when the first part does not end in `\r`. |
| FileUtils.NormalizeFixed | utils/file_utils.py:60 | Text without carriage returns is left unchanged. |
| FileUtils.FilterDropsNothing | utils/file_utils.py:64 | The truthiness filter over sanitised cells removes nothing: the header keeps one entry per field, in order. |
| FileUtils.DecodeCsvTextChoice | utils/file_utils.py:47-57 | Some codec of the chain always succeeds, so the `errors='ignore'` fallback is unreachable. The text is the UTF-8 decoding when the bytes are valid UTF-8, and the Latin-1 decoding otherwise. |
| FileUtils.BomIsKept | utils/file_utils.py:47-54 | A UTF-8 byte-order mark survives decoding as U+FEFF, which the sanitiser keeps. |
| FileUtils.CsvText | utils/file_utils.py:47-60 | The text handed to the CSV reader holds no NUL and no carriage return. |
| FileUtils.ExtractedShape | utils/file_utils.py:26-72 | On success the returned filename is the input filename. The columns are the sanitised first CSV record or the sanitised spreadsheet labels, one per field. On failure the message contains the filename. The call fails exactly when the branch's reader or parser fails. |
| FileUtils.ExtractedErrorMessage | utils/file_utils.py:71-72 | A failure message is `Error processing file '<filename>': <cause>`, where the cause is the reader's or parser's message. |
| FileUtils.CsvHeaderRoundTrip | utils/file_utils.py:59-69 | For non-spreadsheet names, an ASCII CSV whose first line joins clean column names yields exactly those names, whatever bytes follow. |
| FileUtils.ExtractColumns | utils/file_utils.py:26-72 | The imperative extractor (decode loop with break, fallback, in-place replaces, first record, filter) returns exactly `Extracted`. |
| Codecs.DecodeStep | utils/file_utils.py:51 | One UTF-8 step consumes 1 to 4 bytes. It decodes a single byte exactly when that byte is ASCII. |
| Codecs.Latin1Total | utils/file_utils.py:47-54 | Latin-1 decodes every byte sequence, mapping each byte to the character with the same code point. |
| Codecs.Utf8SigNeverWins | utils/file_utils.py:47-54 | Whenever strict UTF-8 fails, UTF-8-with-signature fails too. |
| Codecs.Utf8OfBom | utils/file_utils.py:51 | Strict UTF-8 accepts a leading byte-order mark exactly when it accepts the rest, and decodes the mark to U+FEFF. |
| Codecs.Utf8AsciiPrefix | utils/file_utils.py:51 | An ASCII prefix decodes to the same code points whatever follows, without changing whether decoding succeeds. |
| Csv.PlainHeaderRoundTrip | utils/file_utils.py:62-63 | The first record of comma-joined unquoted fields followed by a record end is exactly those fields. |
| Csv.QuotedHeaderRoundTrip | utils/file_utils.py:62-63 | The first record of quoted fields (any characters, including commas, quotes and newlines, with quotes doubled) is exactly those fields. |
| Csv.NoHeader | utils/file_utils.py:62-63 | Empty text, or text whose first line is empty, yields the empty header. |
| Csv.HeaderFieldTooLong | utils/file_utils.py:62-63 | A first field longer than the reader's field limit makes the reader fail with the field-limit message. |
| Schemas.ModelDump | db/schemas.py:9-12 | A stored FileInfo has exactly the keys `filename` and `columns`. |
| Schemas.DumpThenLoad | services/record_service.py:88 | The stored form of a FileInfo reads back as the same FileInfo. |
| RecordService.ValidateObjectId | services/record_service.py:36-41 | Succeeds exactly on 24-hex-digit strings, in either case, giving 12 bytes. Otherwise it fails with `InvalidRecordId`. |
| RecordService.ObjectIdRoundTrip | services/record_service.py:36-41 | Every 12-byte id prints as a valid id string that parses back to the same id. |
| RecordService.ObjectIdPrintsLower | services/record_service.py:36-41 | Parsing then printing an id string gives its lower-case form. |
| RecordService.IstStamps | services/record_service.py:31-33 | The stamp is the UTC clock shifted by exactly +5:30, so stamps are ordered and spaced like the clock. |
| RecordService.ProcessFiles | services/record_service.py:63-69 | Processing a list of uploads can only fail with a file-processing error. |
| RecordService.ProcessFilesNamed | services/record_service.py:63-69 | Processing succeeds exactly when every named upload processes. The result then holds one entry per named upload, in input order, each being that upload's result. |
| RecordService.ProcessFilesNames | services/record_service.py:57-69 | The processed list carries the filenames of the named uploads, in order. |
| RecordService.ProcessOneName | services/record_service.py:57-61 | A processed file keeps its upload's filename. |
| RecordService.ProcessExpected | services/record_service.py:90-94 | The expected-output file can only fail with a file-processing error. It yields nothing exactly when it is absent or unnamed. |
| RecordService.StagingRules | services/record_service.py:79-100 | `user_input` is staged iff some file was processed. `expected_output` is staged iff a named file was given, and holds its columns only. Instruction and email are staged iff not None. The staged map is empty iff none of these holds. |
| RecordService.Compose | services/record_service.py:71-113 | A successful build holds the given task id, the given timestamp and both shadow entries. |
| RecordService.NoDataIff | services/record_service.py:102-103 | The build fails with `NoDataProvided` exactly when no named file was processed and both text fields are None. |
| RecordService.TextOnlyBuild | services/record_service.py:97-98 | An instruction alone, even `""`, is enough for a successful build. |
| RecordService.WriteSet | services/record_service.py:136-140 | The `$set` payload is exactly the staged fields plus `task_id` and `updated_date`, with no shadow entry. |
| RecordService.ComposeTyped | services/record_service.py:84-107 | Every field a successful build writes has the type the collection's validator demands. |
| RecordService.Store.FindOne | services/record_service.py:128 | The lookup returns the record iff it exists, changes no document and logs one `Find`. |
| RecordService.Store.UpdateOne | services/record_service.py:140-142 | The `$set` merges the fields into the record if it exists. The modified count is 1 iff that changed the record. The write is logged. |
| RecordService.InvalidIdFirst | services/record_service.py:124-128 | A malformed id fails with `InvalidRecordId` before any store access, and the store is unchanged. |
| RecordService.MissingRecordFirst | services/record_service.py:124-134 | An unknown id fails with `RecordNotFound` after exactly one lookup. The outcome does not depend on the uploads or the text fields. |
| RecordService.FailedBuildWritesNothing | services/record_service.py:132-140 | A failed build (file error or no data) is reported as such, with one lookup and no write. |
| RecordService.SuccessfulUpdate | services/record_service.py:136-159 | After a successful build, only the target record changes, by the `$set` merge, and the accesses are one lookup and one write. The response is `"unchanged"` iff the merge changed nothing. Otherwise it is `"success"`, with data echoing the task id, the processed inputs, the expected columns, the text fields and the IST stamp. |
| RecordService.FreshTaskIdIsSuccess | services/record_service.py:106-143 | If the record does not already hold the new task id, a successful build always reports `"success"`. |
| RecordService.RepeatIsUnchanged | services/record_service.py:140-143 | Applying the same update again (same task id and clock) reports `"unchanged"` and leaves the store as it was. |
| RecordService.UpdateKeepsSchema | scripts/create_schema.py:20-53 | If every record satisfies the collection's `$jsonSchema` validator before an update, every record satisfies it after. |
| RecordService.RecordService.constructor | services/record_service.py:47-48 | A new service has no collection yet. |
| RecordService.RecordService.GetCollection | services/record_service.py:50-55 | Connects on the first call only, then returns the cached collection. |
| RecordService.RecordService.ProcessFile | services/record_service.py:57-61 | Processes one upload, wrapping an extractor failure as a file-processing error. |
| RecordService.RecordService.ProcessInputFiles | services/record_service.py:63-69 | The loop over the uploads returns exactly `ProcessFiles`: named uploads in order, stopping at the first failure. |
| RecordService.RecordService.BuildUpdateData | services/record_service.py:71-113 | Filling the dictionary key by key yields exactly `Compose` for the given task id and IST stamp. |
| RecordService.RecordService.UpdateRecord | services/record_service.py:115-159 | The result, the new documents and the store accesses are exactly those of `UpdateSpec`. A connection is opened only for a well-formed id and only the first time. |
| RecordService.RecordService.CheckDbConnection | services/record_service.py:161-172 | Never fails: `"connected"` with the database name, or `"error"` with the exception's message. |
| AppConfig.Loaded | config.py:47-58 | The loaded environment has the keys of both the process environment and the .env file. |
| AppConfig.LoadedKeepsExisting | config.py:47-58 | Loading without override keeps every variable already set, and adds the file's others. |
| AppConfig.CollectListsAll | config.py:75-84 | The validator's `missing`/`invalid` list is empty iff nothing is flagged, and it holds the line of every flagged key. |
| AppConfig.ValidationFailsIff | config.py:67-96 | Validation fails iff one of the three required keys is unset or empty, or the project or location is whitespace only. |
| AppConfig.ValidationMessage | config.py:75-96 | The error message opens with the summary line. The line of every missing key, and of every whitespace-only project or location, occurs in the message text. |
| AppConfig.ErrorPartsHoldLines | config.py:87-95 | `error_parts` holds every `missing` line and every `invalid` line. |
| AppConfig.MessageHoldsLines | config.py:87-96 | Every `missing` and `invalid` line occurs as a contiguous piece of the joined message. |
| AppConfig.RequiredFlags | config.py:69-84 | Each required key is flagged as missing when unset or empty. Only the project and the location are flagged as blank. |
| AppConfig.BlankFlagPasses | config.py:82-84 | A whitespace-only Vertex flag passes validation and reads as false. |
| AppConfig.JoinLines | config.py:96 | `'\n'.join` starts with its first part. |
| AppConfig.JoinLinesHoldsParts | config.py:96 | Every part occurs as a contiguous piece of the `'\n'.join` result. |
| AppConfig.OccursAfter | config.py:96 | A piece of a text is still a piece once a prefix is put in front. |
| AppConfig.UseVertexAi | config.py:108-112 | True iff the flag is set and its lower-cased value is one of `1`, `true`, `yes`, `on`. An unset flag reads false. A true flag is 1 to 4 characters long. |
| AppConfig.LowerCaseFlagExact | config.py:111-112 | A flag with no upper-case letter reads true iff it is literally one of `1`, `true`, `yes`, `on`. |
| AppConfig.VertexFlagFalseSpellings | config.py:111-112 | An unset flag and the values `0`, `no`, `false`, `off` and `""` all read false. |
| AppConfig.VertexFlagIgnoresCase | config.py:111-112 | Upper-casing the flag does not change the result, and `1`, `true`, `yes`, `on` read true. |
| AppConfig.All | config.py:139 | `all([...])` is true iff every entry is set and non-empty. |
| AppConfig.MongodbConfigured | config.py:136-139 | True iff URL, database and collection are all set and non-empty. |
| AppConfig.CacheHitIgnoresEnvironment | config.py:157-158 | A cached key is answered from the cache, whatever the environment, the default or `required`. |
| AppConfig.GetRaisesIff | config.py:160-166 | `get` raises iff the key is neither cached nor set, no default is given and it is required. A non-None default never raises. |
| AppConfig.GetCachesValues | config.py:168-172 | Only non-None results are cached, every returned value is cached, and cached entries are never altered. |
| AppConfig.DefaultSticks | config.py:160-172 | A default given for an absent key is cached and returned by later calls, even with another default. |
| AppConfig.Config.constructor | config.py:18-25 | The instance starts uninitialised with an empty cache. |
| AppConfig.Config.Init | config.py:27-65 | When already initialised, nothing happens. Otherwise it loads the .env variables without override, empties the cache, validates, and becomes initialised iff validation passed. |
| AppConfig.Config.Validate | config.py:67-96 | The loop over the required keys returns exactly `ValidationError` of the environment. |
| AppConfig.Config.Get | config.py:141-172 | Result and new cache are exactly `GetSpec` of the old cache and the environment. |
| AppConfig.Config.Reload | config.py:174-184 | The cache ends empty, the environment is reloaded, and the object is initialised iff validation passed. |
| Api.UpdateRecordWithCsv | main.py:60-75 | A service result passes through. Each error maps to its own status and detail: invalid id to 400 "Invalid record ID format", not found to 404 "Record not found", no data to 400 "No data provided for update", and a file-processing error to 400 with its message. |
| Api.EmptyRequestIs400 | main.py:72-73 | An update with no file and no text fields, on an existing record, answers 400 "No data provided for update" and leaves the collection unchanged. |
| Api.MalformedIdIs400 | main.py:68-69 | A malformed id answers 400 "Invalid record ID format" and leaves the store as it was. |
| Api.UnknownRecordIs404 | main.py:70-71 | An unknown id answers 404 "Record not found" and leaves the store as it was. |
| Api.ExtractorErrorsDistinct | main.py:74-75 | An extractor failure answers 400 with a detail starting `Error processing file '`, so it never equals a fixed detail. |
| Api.HealthCheck | main.py:36-38 | The health check always reports `"healthy"`. |

## Left out

Parts of the system:

- `pd.read_excel` is a foreign library. It is the parameter `readExcelHeader`, from bytes to the header labels already rendered as strings, or an error message.
- Codec and CSV coverage is partial. `Cp1252Char` covers the whole table, but no property of Windows-1252 is stated, because it is never reached. The CSV reader is modelled only for the first record and the `excel` dialect.
- The network is left out: the Motor client, `connect_db`, `ping` and `db/connection.py`.
  - The collection is an in-memory `Store`.
  - A connection failure is not modelled. An exception from `check_db_connection` is the parameter `pingError`.
  - An exception from `update_record`'s connection is not modelled.
- `uuid.uuid4()` and `datetime.now(IST)` are the parameters `taskId` and `utcMicros`. The timestamp is kept as microseconds, and `isoformat()` rendering of `updated_date` in the response is not modelled.
- async/await is left out: every call is sequential.
- .env file discovery is left out: the explicit-path check, the two default locations, and the "Environment file not found" error. The content of whichever file was found is the parameter `dotenv`.
- The singleton `__new__` and `get_config` are left out: one `Config` object stands for the singleton.
- The simple property getters of `Config` are left out, such as `google_cloud_project` and `mongodb_url`.
- `Config.get` is modelled for string values only. Defaults of other types are not modelled.
- Before `__init__` first runs, a Python `Config` object has no `_cache`, while the model starts with an empty one.
- In main.py, the uvicorn start-up, the credentials path and `get_fast_api_app` are left out, as are the `/db-test` pass-through and the `__init__.py` re-exports.
- In the validator, `progress` is modelled for integers only; doubles are left out. `EmailStr` validation belongs to pydantic and is left out.

Deliberately weaker contracts:

- ValidateObjectId: bson's `bytes.fromhex` skips ASCII whitespace, so a 24-character string with spaces is not the 24-hex-digit shape modelled here. Such ids are treated as invalid.
- UseVertexAi: Python's `str.lower` is modelled as ASCII lower-casing. No non-ASCII character lower-cases to an ASCII letter of `true`, `yes` or `on`, so the flag's value is exact.
- Extension: the same ASCII lower-casing decides the `xlsx`/`xls` choice exactly.
- Store.FindOne: a found record is treated as truthy. A stored document always holds `_id`, so `find_one` never returns an empty, falsy one.
