# Airly air-quality collector: a Dafny model

The system collects air-quality readings from the Airly REST API for one
installation. It turns each answer into a `Measurement` and hands it to up to
three sinks: a MariaDB `measurements` table, a flat CSV file, and the HSBI Smart
Data API. A setup tool migrates the CSV file into the table, skipping rows whose
(`datetime_utc`, `city`) pair is already stored. A small REST API serves and
edits the table behind an `X-API-Key` header.

This project models three parts of the system:

- the collector cycle in `airly_collector.py`;
- the migration and maintenance commands in `db_setup.py`;
- the endpoints in `api.py`.

It proves what those parts promise. Modules, one per file:

| module | file | what it holds |
|---|---|---|
| `Base` | `base.dfy` | `Option` and associativity of concatenation |
| `Decimal` | `decimal.dfy` | zero-padded and plain decimal text, `int()` on digit strings |
| `Timestamp` | `timestamp.dfy` | the `%Y-%m-%d %H:%M:%S` format and its parser, with both round trips |
| `Measurements` | `measurements.dfy` | the `Measurement` record, its CSV row, and the table row `StoredRow` |
| `Configuration` | `config.dfy` | the collector settings the logic reads |
| `Forwarding` | `forwarding.dfy` | the HSBI payload |
| `CsvFiles` | `csvfile.dfy` | the CSV file as lines, `DictReader` records, the append |
| `Normalizer` | `normalizer.dfy` | `parse_measurement`: picking a source in the JSON answer and reading it |
| `Collector` | `collector.dfy` | the `AirlyCollector` class and one collection cycle, as a trace of sink calls |
| `Migration` | `migration.dfy` | `migrate_csv` as a pure fold and as a method on a `Database` object; `clear_table`; `setup_all` |
| `Api` | `api.dfy` | key check, query building, adding and deleting rows |

Floating-point text conversion (`str(float)` and `float(str)`) is a parameter,
`Numerals(show, read)`. Lemmas that need the two to agree ask for it only at
the numbers involved. `ShowsBack(n, x)` says that `str(x)` is not empty and
that `float(str(x)) == x`. `FaithfulFor(n, m)` asks this of the latitude, the
longitude and every present optional field of `m`.

The following are all inputs of the modelled operations:

- the outcome of every network or database call (the Airly response, the
  database save, CSV writability, the HSBI POST, a connection, a commit);
- the current time `now`;
- the database's verdict `refuses` on a row beyond its `NOT NULL` columns.

## Model

| member | source | states |
|---|---|---|
| `Decimal.ShowNat` | airly_collector.py:129-130 | `str(n)` of a non-negative integer is a non-empty string of digits |
| `Decimal.ParseInt` | db_setup.py:230-231 | `int(s)` accepts only an optional sign followed by digits, so it rejects the empty string |
| `Decimal.ParseShowNat` | db_setup.py:230-231 | `int()` reads back the decimal text that `str()` writes for any non-negative integer (hour and minute columns) |
| `Timestamp.Format` | airly_collector.py:125 | `strftime("%Y-%m-%d %H:%M:%S")` yields 19 characters for years 1000-9999; the model pads every year to four digits (see Left out) |
| `Timestamp.Parse` | db_setup.py:214 | `strptime` succeeds only on a real calendar date and time of day (leap years, month lengths), and the result has no fractional seconds |
| `Timestamp.FormatPieces` | airly_collector.py:125 | the formatted text holds each field zero-padded to its width between `-`, ` ` and `:` separators at fixed positions |
| `Timestamp.ParseFormat` | db_setup.py:214 | parsing the written timestamp gives back the same moment truncated to whole seconds |
| `Timestamp.FormatParse` | db_setup.py:214 | any text the model's zero-padded parser accepts is exactly what formatting its result writes (`strptime` itself also accepts unpadded fields; see Left out) |
| `Timestamp.WholeSeconds` | airly_collector.py:125 | dropping the microseconds keeps a valid time valid |
| `Measurements.HourUtc` | airly_collector.py:114-116 | `hour_utc` of a valid timestamp is below 24 |
| `Measurements.MinuteUtc` | airly_collector.py:118-120 | `minute_utc` of a valid timestamp is below 60 |
| `Measurements.ToCsvRow` | airly_collector.py:122-137 | a CSV row has exactly as many cells as `CSV_HEADERS`, namely 12 |
| `Measurements.CsvRowLayout` | airly_collector.py:122-130 | when the latitude and longitude show back, cell 0 parses back to the whole-second timestamp; cells 1-5 hold the city, latitude, longitude, hour and minute, each reading back to its value |
| `Measurements.CsvOptionalColumns` | airly_collector.py:131-136 | when every present optional shows back, cells 6-11 are empty exactly when the optional field is absent, and otherwise read back to the field's value |
| `Measurements.OptionalCellReadsBack` | airly_collector.py:131 | one optional cell whose value, if present, shows back: empty iff absent, otherwise reads back to the value (a reported 0 is not empty) |
| `CsvFiles.HeadersDistinct` | airly_collector.py:143-146 | the twelve header names are pairwise distinct, so each is a usable `DictReader` key |
| `CsvFiles.DictRowKeys` | db_setup.py:209 | a `DictReader` record has exactly the header names as keys, however long the data line is |
| `CsvFiles.DictRowAt` | db_setup.py:209 | under distinct headers, the record maps the i-th header to the i-th cell, or to `None` when the line is shorter |
| `CsvFiles.DictRow` | db_setup.py:209 | a `DictReader` record binds each header name to the cell under it, `None` past the line's end |
| `CsvFiles.RecordsUnder` | db_setup.py:209-211 | at most one record per data line; when no line is blank, exactly one record per line, the i-th being the line's `DictRow` |
| `CsvFiles.RecordsUnderConcat` | db_setup.py:209-211 | the records of two runs of lines are those of the first run followed by those of the second |
| `CsvFiles.BlankLineYieldsNothing` | db_setup.py:209-211 | inserting a blank line anywhere among the data lines changes no record |
| `CsvFiles.Records` | db_setup.py:209-211 | the first line is the header and the records are those of the following lines; an empty file has none |
| `CsvFiles.AppendRow` | airly_collector.py:268-275 | appending keeps every existing line and adds the row last; a missing file is created with the header line first |
| `CsvFiles.AppendAddsOneRecord` | airly_collector.py:268-275 | when the file is missing or already has its header, the reader sees the old records plus exactly one new record for the row |
| `CsvFiles.EmptyExistingFileLosesRow` | airly_collector.py:268-274 | when the file exists but is empty, no header is written, so the reader takes the row as the header and sees no record at all |
| `Forwarding.OrZero` | airly_collector.py:292-296 | `value or 0`: an absent field becomes 0, a present one keeps its value |
| `Forwarding.PayloadOf` | airly_collector.py:288-304 | sensor id and `POINTZ` position come from the configuration; the measured fields are sent with absent replaced by 0; `mass_pm1_0` is 0.7 × PM2.5; `mass_pm4` repeats PM10; every `number_*` field is 0 |
| `Forwarding.PayloadTimestamp` | airly_collector.py:290 | the payload's `ts` parses back to the whole-second measurement time |
| `Forwarding.PayloadConflatesAbsentAndZero` | airly_collector.py:292-296 | for each of PM2.5, PM10, temperature, humidity and pressure, an absent field and a reported 0 give the same payload |
| `Forwarding.CsvKeepsAbsentApartFromZero` | airly_collector.py:131 | as long as `str(0.0)` is not empty, a CSV row distinguishes an unreported PM2.5 from a reported 0, which the forwarded payload does not |
| `Normalizer.SelectSource` | airly_collector.py:177-186 | `current` is used when it has a non-empty `values` list; otherwise the first `history` element if the list is non-empty and that element is a non-empty object; no source in every other case (iff) |
| `Normalizer.MeasurementFrom` | airly_collector.py:195-207 | timestamp is `now`; city, position and station id come from the configuration, never from the response |
| `Normalizer.Normalize` | airly_collector.py:169-207 | `parse_measurement` returns nothing exactly when no source is selected, and otherwise the measurement built from the selected source |
| `Normalizer.Flatten` | airly_collector.py:188-189 | the `values` dictionary after storing each reading in order |
| `Normalizer.FirstIndexValue` | airly_collector.py:191-193 | the AQI is the `value` of the first `indexes` entry, and absent when the list is missing or empty |
| `Normalizer.FlattenLastWins` | airly_collector.py:188-189 | after the loop a name is a key iff some reading carries it, and it holds the value of the last such reading |
| `Normalizer.NormalizedFieldsAreLastReadings` | airly_collector.py:188-204 | each of PM25, PM10, TEMPERATURE, HUMIDITY and PRESSURE equals the value of the last reading with that name |
| `Normalizer.UnreportedFieldIsAbsent` | airly_collector.py:199-203 | a field that no reading names stays absent |
| `Normalizer.UnknownReadingIgnored` | airly_collector.py:199-203 | a reading under any other name does not change the measurement |
| `Collector.Fetched` | airly_collector.py:151-167 | with no API key configured nothing is fetched; otherwise the data is the provider's answer |
| `Collector.FetchEvents` | airly_collector.py:153-155 | an HTTP request is made exactly when an API key is configured |
| `Collector.CycleMeasurement` | airly_collector.py:325-331 | with no key or no answer the cycle has no measurement |
| `Collector.HsbiEvents` | airly_collector.py:284-286 | forwarding is always entered, and a POST with the payload happens iff the URL is configured |
| `Collector.SinkEvents` | airly_collector.py:335-344 | each sink is invoked iff it is enabled |
| `Collector.HsbiEventsOrdered` | airly_collector.py:282-319 | forwarding events come in order: the sink is entered, then the POST |
| `Collector.SinkEventsOrdered` | airly_collector.py:335-344 | sinks run in the fixed order database, CSV, HSBI |
| `Collector.CycleEventsOrdered` | airly_collector.py:321-346 | the whole cycle's trace is ordered: fetch first, then the sinks in order |
| `Collector.CycleEvents` | airly_collector.py:321-346 | without a measurement the cycle performs only the fetch; with one it performs the fetch and then the enabled sinks |
| `Collector.CycleSuccess` | airly_collector.py:321-346 | `collect_once`'s verdict; a successful cycle had an API key, a response, and a source selected in it |
| `Collector.CsvAfter` | airly_collector.py:268-280 | a written row is appended (header first if the file is new); a failed `open` leaves the file as it was; a failure after `open` leaves the file `open` created, empty if it was missing |
| `Collector.CycleFile` | airly_collector.py:340-341 | the CSV file changes only when a measurement exists, the CSV sink is enabled and `open` succeeded |
| `Collector.FailedFirstWriteHidesNextRow` | airly_collector.py:268-280 | a write failure on a missing file fails the cycle and leaves an empty file; the next successful cycle's row is then read as the header, so the file yields no record |
| `Collector.NoDataInvokesNoSink` | airly_collector.py:325-331 | when fetching or parsing yields nothing, the cycle fails, calls no sink and leaves the file unchanged |
| `Collector.ForwardingNeverDecides` | airly_collector.py:343-346 | the HSBI outcome never changes the cycle's result |
| `Collector.MandatorySinkFailureFailsCycle` | airly_collector.py:335-341 | a failing enabled database or CSV sink (failed `open` or failed write) makes the cycle fail |
| `Collector.AirlyCollector.constructor` | airly_collector.py:148-149 | the collector holds its configuration and starts with no calls made |
| `Collector.AirlyCollector.FetchFromAirly` | airly_collector.py:151-167 | returns the fetched data and records the request only when a key is configured |
| `Collector.AirlyCollector.ParseMeasurement` | airly_collector.py:169-207 | the imperative loop over the readings computes exactly `Normalize` |
| `Collector.AirlyCollector.SaveToDatabase` | airly_collector.py:209-260 | reports the database's outcome and records the sink call |
| `Collector.AirlyCollector.SaveToCsv` | airly_collector.py:262-280 | succeeds iff the row is written; the file becomes `CsvAfter` of the old file: the row appended (header first if new) on success, unchanged when `open` fails, created but empty when a later write fails on a missing file |
| `Collector.AirlyCollector.SendToHsbi` | airly_collector.py:282-319 | succeeds iff a URL is configured and the POST is accepted; the POST happens only with a URL |
| `Collector.AirlyCollector.RunSinks` | airly_collector.py:333-346 | the verdict is true iff every enabled database or CSV sink succeeded; the calls are exactly the enabled sinks in order; the file is `CsvAfter` of the CSV outcome when that sink is enabled, and unchanged otherwise |
| `Collector.AirlyCollector.CollectOnce` | airly_collector.py:321-346 | result, trace of calls and resulting CSV file are exactly those of the cycle functions above, so the lemmas about them hold of every run |
| `Migration.ParseKey` | db_setup.py:213-215 | a key exists only for a valid whole-second timestamp |
| `Migration.RealCell` | db_setup.py:228-229 | `float(cell) if cell else None`: empty or missing cell gives `None`; text gives its number, or an error when it is not one; a missing column is an error |
| `Migration.IntCell` | db_setup.py:230-231 | the same rule with `int()` |
| `Migration.StationCell` | db_setup.py:238 | a falsy `station_id` cell (no column, no cell, empty cell) gives the default id; a non-empty cell is read as an integer |
| `Migration.ParseValues` | db_setup.py:225-239 | the stored row keeps the parsed key and always has a station id; a coordinate, hour, minute or station cell that fails to convert fails the row |
| `Migration.Accepts` | db_setup.py:41-47 | the table takes a row only when its `NOT NULL` columns (coordinates, hour, minute) are present and the server does not refuse it |
| `Migration.ParseRow` | db_setup.py:213-239 | a parsed row carries the key it was parsed from |
| `Migration.Classify` | db_setup.py:211-246 | a bad key is skipped before any probe; with the probe on, an existing key is a duplicate whatever the other cells hold; a row is inserted iff it parses, the table accepts it and the probe does not find its key |
| `Migration.Migrate` | db_setup.py:203-246 | every record is counted exactly once as imported, duplicate or skipped; the table grows by exactly the imported rows, after the rows already there |
| `Migration.MigrateGrows` | db_setup.py:211-246 | processing more records only appends rows: the table after a prefix is a prefix of the final table |
| `Migration.DedupKeysFresh` | db_setup.py:218-222 | with the probe on, no imported row repeats the (datetime, city) key of a row before it |
| `Migration.WithoutDedupAllAdmitted` | db_setup.py:218-242 | with the probe off, no record is a duplicate, and the table gains exactly the insertable records' rows in file order |
| `Migration.RerunInsertsNothing` | db_setup.py:218-222 | migrating the same file a second time with the probe on inserts nothing, and reports as duplicates at least every row the first run imported or found duplicate |
| `Migration.CsvRecordFixedCells` | db_setup.py:208-211 | each fixed header of a collector-written line (`datetime_utc` to `minute_utc`) reads back as its cell in the `DictReader` record |
| `Migration.CsvRecordOptionalCells` | db_setup.py:208-211 | each optional header (`PM25` to `AQI`) reads back as its cell in the record |
| `Migration.CsvRecordHasNoStation` | db_setup.py:238 | a record of the collector's file has no `station_id` key, so the default station id applies |
| `Migration.CsvRowMigratesBack` | db_setup.py:213-239 | a row the collector wrote migrates to the measurement's own values: whole-second time, city, position, hour, minute, the six optionals, and the default station id; the row is consistent |
| `Migration.Database.constructor` | db_setup.py:189-193 | the connection starts with the given committed rows and no pending ones |
| `Migration.Database.Connect` | db_setup.py:64-81 | a connection attempt succeeds iff the server is up, is counted, and opens a clean transaction |
| `Migration.Database.HasRow` | db_setup.py:218-220 | the duplicate probe finds a row iff some row the connection sees has the same (datetime, city) key |
| `Migration.Database.Insert` | db_setup.py:241 | an insert succeeds iff the table accepts the row, and then adds it to the pending rows |
| `Migration.Database.Commit` | db_setup.py:248 | a working commit makes the pending rows durable after the committed ones; a failed one changes nothing |
| `Migration.Database.Rollback` | db_setup.py:262 | a rollback discards the pending rows and keeps the committed ones |
| `Migration.Database.Truncate` | db_setup.py:278-279 | a working `TRUNCATE` empties the table; a failed one leaves it |
| `Migration.ImportRecord` | db_setup.py:212-246 | one loop pass moves the visible rows and the counters exactly as `Classify` decides for that record |
| `Migration.ImportRecords` | db_setup.py:208-246 | the loop over the reader completes iff reading is not interrupted, and then the visible rows and counters are those of `Migrate` from the committed rows |
| `Migration.MigrateCsv` | db_setup.py:173-263 | a missing file touches nothing; the result is success iff the file exists, the connection opens, reading is not interrupted and the commit works; on success the table and counters are those of `Migrate`; on failure the committed table is unchanged |
| `Migration.ClearTable` | db_setup.py:266-286 | without confirmation nothing happens; success iff confirmed, connected and truncated; success leaves the table empty, failure leaves it as it was |
| `Migration.SetupAll` | db_setup.py:310-321 | setup succeeds iff the database and the schema are created; it always tries the database first, creates the schema only after it, and shows status only on success |
| `Api.VerifyApiKey` | api.py:102-108 | an unconfigured server key gives 500; a mismatch gives 401; the request passes iff the keys match |
| `Api.UnconfiguredKeyRejectsAll` | api.py:104-105 | every request is rejected iff the server key is not configured |
| `Api.CityFilter` | api.py:134 | `if city:`: an absent or empty city adds no filter |
| `Api.StationFilter` | api.py:138 | `if station_id:`: an absent id or id 0 adds no filter |
| `Api.Placeholders` | api.py:131-143 | the number of `%s` markers the driver fills in a query text |
| `Api.QueryCount` | api.py:131-143 | the number of `%s` placeholders in a built query is the number of filters plus the trailing ones |
| `Api.FragmentsPlain` | api.py:131-143 | none of the SQL fragments contains a `%` of its own |
| `Api.Filters` | api.py:134-140 | one parameter for a non-empty city and one for a non-zero station id, city first, never the limit |
| `Api.FilteredSelect` | api.py:131-140 | the text is the base `SELECT` followed by the city clause and then the station clause, each present iff its filter applies; the parameters are those filters in the same order |
| `Api.GetMeasurements` | api.py:118-156 | an authentication error is returned unchanged; otherwise the query has as many placeholders as parameters, and the parameters are the filters followed by the limit |
| `Api.GetLatestMeasurement` | api.py:159-196 | the same authentication rule; the query has as many placeholders as parameters and no limit parameter; the answer is 404 iff no row is found, and the row otherwise |
| `Api.RowFor` | api.py:243-266 | the inserted row takes the supplied time, or `now` when none is given; hour and minute are derived from that time; every other field is copied from the body |
| `Api.RowTimeSource` | api.py:244 | the current time is used only when the body has no time |
| `Api.Table.AddMeasurement` | api.py:232-280 | an accepted insert stores the row under a new id (the old auto-increment value) and reports that id; a failed insert answers 500 and changes nothing |
| `Api.Table.DeleteMeasurement` | api.py:283-301 | 404 iff no row has the id; otherwise exactly that row is removed and its id reported |

## Left out

- HTTP transport is not modelled: Airly `GET`, HSBI `POST`, timeouts, TLS verification, `raise_for_status`. Each call's outcome is an input.
- MySQL mechanics are not modelled: `get_db_connection` configuration, `check_connection`, `create_database`, `create_schema`, `get_table_info`, `show_status` output, DDL text and index definitions. `SetupAll` takes the outcomes of `create_database` and `create_schema` as inputs.
- The SQL `DELETE` is modelled as removal from an id map. `INSERT` is modelled as an append (migration) or an id-map update (API). `SELECT` execution, its ordering by `datetime_utc` and its result rows are not modelled; the API's found row is an input.
- Collector.AirlyCollector.SaveToDatabase: does not model the SQL statement or the row it writes; only the outcome is kept.
- The `run()` loop, `Config.from_env`, `_log_config`, `main`, argparse, interactive input and all logging are not modelled.
- Timestamp.Parse: accepts only the zero-padded form. Python's `strptime` also accepts unpadded fields such as `2024-1-5 3:4:5` and runs of whitespace, which the collector never writes. `Timestamp.FormatParse` holds for the model's parser only.
- The `os.makedirs` call in the CSV sink (airly_collector.py:264-266) is not modelled. It runs before the `try` at airly_collector.py:270, so an `OSError` from it escapes `collect_once`.
- Collector.CsvAfter: a write that fails part way through a line is modelled as writing nothing; the partial line it may leave in the file is not modelled.
- Timestamp.Format: pads every year to four digits. CPython on Linux writes years below 1000 with `%Y` unpadded, and `strptime` then rejects that text. The collector only formats the current time.
- A `history` element whose `"values"` is JSON `null` makes the loop at airly_collector.py:188 raise `TypeError`. The model's `values: None` means the key is absent, and such a source yields a measurement with every reading absent.
- Decimal.ParseInt: does not model Python `int()`'s handling of surrounding whitespace, underscores, or non-ASCII decimal digits (such as Arabic-Indic digits); only ASCII digits are read.
- Float text conversion is abstract (`Numerals`). So are float rounding, the `× 0.7` approximation and the `DECIMAL` column rounding. Real arithmetic stands in for IEEE doubles.
- CSV quoting and escaping are not modelled: a line is a sequence of cells. `DictReader`'s `restkey` for surplus cells is not modelled either.
- Column collation is not modelled. The duplicate probe compares city text exactly, while MariaDB's default collation compares case-insensitively. MySQL's rounding of fractional seconds is also left out.
- A `values` element without a `name` or `value` key raises out of `parse_measurement`. The model's readings always carry both.
- A JSON body that is not an object is not modelled.
- Api.Table.AddMeasurement: promises that a failed insert leaves `nextId` unchanged. InnoDB does not roll back `AUTO_INCREMENT` after a failed insert, so the next id may skip a value there.
- Pydantic validation (`limit <= 1000`), rate limiting, `get_db` connection failure (500), `isoformat` serialisation and the `/health` and `/measurements/stats` endpoints are not modelled.
- Migration.MigrateCsv: a read error or a failing `open` part way through the file is an input, `readFailsAfter`, and ends the run with a rollback. Which exception it was is not modelled.
- Migration.ClearTable: `TRUNCATE` and its commit are one outcome, `truncateOk`.
- Migration.RerunInsertsNothing: states a lower bound, not an exact count, for the second run's duplicates. The probe at db_setup.py:218-222 finds every row of the first run's file whose key is now stored, so it counts at least the first run's imported rows plus its duplicates. Rows the first run skipped may also hit a stored key, so the exact count depends on the table.
- A row whose `city` cell is `None` (a short line) is counted as skipped at key parsing. In the code it gets past the probe and fails at the `INSERT` on `NOT NULL`; the counters come out the same.
