# Air-quality logger sinks: a Dafny model

The firmware of the air-quality kit has three sinks. All of them read one
shared snapshot of sensor readings:

- `PrometheusWriter` pushes each reading as a remote-write time series.
- `LokiHandler` buffers snapshots as JSON files and later pushes each file
  to Loki as one log line.
- `CsvWriter` appends one row per snapshot to a CSV file.

The entry point `aq.py` merges the readings into the snapshot, configures
one Prometheus worker per configured remote, and starts the threads.

This project models these pieces in Dafny and proves what each promises.

- Python dictionaries are insertion-ordered association lists (module
  `Values`), so the order of series, log lines and CSV fields follows
  iteration order.
- A snapshot maps each key to either a scalar or a sensor dictionary.
- Objects whose attributes the code updates are classes with `modifies`
  clauses:
  - the shared snapshot (`Store.ReadingStore`);
  - the Prometheus writer and its shared remote-write timestamps;
  - the Loki buffer directory;
  - the CSV file;
  - a worker's configuration table.
- The loops of the source are `while` loops proved against functions that
  specify them:
  - the series of a write request;
  - the metric part of a Loki line;
  - the walk over the buffer directory;
  - the file count;
  - the thread fan-out.
- These become parameters:
  - the clock, whose k-th reading is `clock(k)`;
  - the HTTP result of the k-th post, `respond(k)`;
  - the directory listing order;
  - the current time;
  - whether a file-system call fails.

Files:

- `values.dfy`: scalars, snapshots, dictionaries (`get`, `pop`, `update`),
  `str()` of numbers.
- `url.dfy`: Python's `urlparse`, the URL rebuilt with credentials, and
  `quote_plus` with its decoder.
- `store.dfy`: the shared snapshot.
- `prometheus.dfy`: `PrometheusWriter`.
- `loki.dfy`: `LokiHandler`.
- `csv.dfy`: `CsvWriter`.
- `aq.dfy`: the merges, the worker configuration and the threads of `aq.py`.

Where the code does not do what one would expect, the model follows the
code:

- **Missing `geohash` in Prometheus.** A snapshot without `geohash` makes
  the label value `None`. The protocol-buffer assignment then raises, the
  outer `except` catches it, and nothing is posted (`FormatFailed`). No
  empty label is sent. The same holds for a non-text `hardwareId` or
  sensor tag, and for a non-numeric value.
- **Missing additional labels.** `location`, `project` and `tag` are still
  appended when they were not configured, with an empty value. The label
  is added before the attribute read that fails.
- **Loki transport errors.** `requests.post` in `UploadLogFiles` is not
  guarded. A transport exception ends the whole upload (`Raised`); it is
  not counted as a failure.
- **Loki records without a geohash.** Such a record reuses the `geohash`
  of the previous file. With no earlier file, the name is unbound and the
  upload ends.
- **Loki file names.** `name.strip('.json')` strips the characters
  `. j s o n` from both ends; it does not remove a suffix. The name
  `<timestamp>.json` still gives back the timestamp.
- **Workers built by `aq.py`.** They get no additional labels and no
  shared timestamps. A configured interval of 300 or more keeps its
  original form, so one written as text stays text.
- **A url that `urlparse` refuses.** `urlsplit` raises ValueError when
  the authority holds `[` without `]` or the reverse. In Prometheus the
  outer `except` catches it and nothing is posted. In Loki the parse is
  not guarded, so the upload ends at the first regular file.
- **`GetFileCount` on a missing directory** raises. The model returns
  `None`.

## Model

| member | source | states |
|---|---|---|
| Values.Remove | firmware/PrometheusWriter.py:49-50 | `pop(k, None)`: the key is gone, every other key reads as before, and the dictionary does not grow |
| Values.Set | firmware/aq.py:106-108 | `d[k] = v`: `k` reads `v` and every other key reads as before |
| Values.UpdateGet | firmware/aq.py:92-93 | last write wins: after `d.update(e)` a key of `e` reads `e`'s value, any other key reads `d`'s |
| Values.UpdateKeys | firmware/aq.py:92-93 | `update` keeps the old keys as a prefix; the new keys are exactly the old ones plus `e`'s |
| Values.UpdateWellFormed | firmware/aq.py:92-93 | `update` of a dictionary keeps its keys distinct |
| Values.RemoveWellFormed | firmware/PrometheusWriter.py:49-50 | `pop` keeps keys distinct and removes exactly the popped key |
| Values.Stripped | firmware/PrometheusWriter.py:49-50 | popping `geohash` and `hardwareId` leaves neither key, and every other key reads as before |
| Values.StrippedSet | firmware/CsvWriter.py:31-32 | whatever a snapshot holds under `geohash` or `hardwareId` cannot change what remains after the pops |
| Values.NatToStringValue | firmware/LokiHandler.py:17 | `str(n)` is a digit string whose decimal value is `n` |
| Values.TruncDiv | firmware/PrometheusWriter.py:148 | Python's `int()` of a quantity truncates toward zero, for negative quantities too |
| Url.UrlParse | firmware/PrometheusWriter.py:126 | the parsed netloc has no `/ ? #`, the path no `? #`, and the scheme is lower-case letters, digits, `+ - .`, starting with a letter |
| Url.CheckedParseOf | firmware/PrometheusWriter.py:126 | `urlparse` of `scheme://authority/path` succeeds exactly when the authority holds both square brackets or neither, and then gives back the three parts |
| Url.UnclosedBracketRefused | firmware/PrometheusWriter.py:126 | `https://[host/a` with no closing bracket raises ValueError |
| Url.ClosedBracketParses | firmware/PrometheusWriter.py:126 | `https://[host]/a` parses, with `[host]` as the netloc |
| Url.SplitParamsStable | firmware/PrometheusWriter.py:126 | after the params are split off a path, splitting again finds none |
| Url.RebuildRoundTrip | firmware/PrometheusWriter.py:129-133 | parsing the rebuilt URL gives back the scheme, the credentials prepended to the netloc, and the path; params, query and fragment are dropped |
| Url.TargetUrlRoundTrip | firmware/PrometheusWriter.py:123-133 | for any base URL with a scheme whose path starts with `/`, parsing the rebuilt URL gives `scheme`, `user:password@netloc`, `path` |
| Url.RebuildCutsAuthority | firmware/PrometheusWriter.py:124-133 | an unescaped password holding `/`, `?` or `#` cuts the authority at that character |
| Url.UnquoteQuotePlus | firmware/LokiHandler.py:81 | `quote_plus(key)` decodes back to the UTF-8 bytes of the key |
| Url.QuotePlusDelimiterFree | firmware/LokiHandler.py:81-90 | `quote_plus` output holds no `/ ? # @ :`, so the escaped key cannot end the userinfo or the authority |
| Store.ReadingStore.constructor | firmware/aq.py:21 | the shared snapshot starts empty |
| Store.ReadingStore.Merge | firmware/aq.py:44 | `sensorData.update(partial)`: the snapshot becomes the old one updated with the partial dictionary |
| Prometheus.Sanitize | firmware/PrometheusWriter.py:61 | same length; each `.` becomes `_`, every other character is kept |
| Prometheus.SanitizeExample | firmware/PrometheusWriter.py:61 | `pm2.5` becomes `pm2_5` |
| Prometheus.Dt2Ts | firmware/PrometheusWriter.py:37-41 | the whole UTC seconds of an instant, rounded down |
| Prometheus.SampleTime | firmware/PrometheusWriter.py:118 | a sample timestamp is a multiple of 1000 ms, within the second of the clock reading |
| Prometheus.SeriesShape | firmware/PrometheusWriter.py:60-118 | a series has the eight labels in the fixed order, a dot-free `__name__`, and one sample on a whole second |
| Prometheus.ReadingsCount | firmware/PrometheusWriter.py:55-60 | there is one reading per metric, `sensor` tags excluded |
| Prometheus.EncodeShape | firmware/PrometheusWriter.py:53-118 | an encoded request holds one series per metric of the snapshot, and every series has that shape |
| Prometheus.PrometheusWriter.GeohashNotTextFails | firmware/PrometheusWriter.py:70-73 | a snapshot with at least one metric but no text `geohash` is not posted (`FormatFailed`) |
| Prometheus.PrometheusWriter.NonDictFails | firmware/PrometheusWriter.py:55-58 | a top-level value other than `geohash` and `hardwareId` that is not a dictionary makes the write fail (`FormatFailed`) |
| Prometheus.PrometheusWriter.SensorTagFails | firmware/PrometheusWriter.py:58-88 | a sensor dictionary with at least one value whose `sensor` tag is missing or not text makes the write fail (`FormatFailed`) |
| Prometheus.PrometheusWriter.UnparsableUrlFails | firmware/PrometheusWriter.py:123-157 | a configured url whose authority holds one square bracket without the other is caught, and nothing is posted (`FormatFailed`) |
| Prometheus.EncodeSeries | firmware/PrometheusWriter.py:60-118 | the k-th series carries the k-th reading's sanitised metric, the popped geohash, the writer's friendly name and hwid, the sensor tag, each extra label with its configured text (`""` when unset), and its value stamped from the k-th clock reading |
| Prometheus.AppendSensor | firmware/PrometheusWriter.py:58-118 | the loop over one sensor's metrics succeeds exactly when every series can be built, and then appends them in iteration order |
| Prometheus.AddEntry | firmware/PrometheusWriter.py:55-58 | one pass of the outer loop either proves the whole encoding fails or extends the series for one more sensor |
| Prometheus.BuildRequest | firmware/PrometheusWriter.py:53-118 | the two nested loops build exactly the encoding of the stripped snapshot |
| Prometheus.StrippedEmpty | firmware/PrometheusWriter.py:49-53 | nothing is left after the pops exactly when the snapshot holds only `geohash` and `hardwareId` |
| Prometheus.StampKeyCases | firmware/PrometheusWriter.py:142-154 | a 2xx response stamps `remoteWriteSuccess`, any other response `remoteWriteFail`; no post or an exception stamps nothing |
| Prometheus.StatsOnlyStamp | firmware/PrometheusWriter.py:147-152 | only the stamped key changes, to the current second; an empty timestamps dictionary is left alone |
| Prometheus.RemoteWriteStats.constructor | firmware/PrometheusWriter.py:24 | the shared timestamps start as given |
| Prometheus.PrometheusWriter.constructor | firmware/PrometheusWriter.py:19-35 | the writer keeps the configuration, the hwid, `configDict["friendlyname"]`, the optional `location`/`project`/`tag` labels and the shared timestamps |
| Prometheus.PrometheusWriter.Prepare | firmware/PrometheusWriter.py:46-133 | the outcome is nothing to send, a format failure, or the exact request posted to the rebuilt URL |
| Prometheus.PrometheusWriter.Record | firmware/PrometheusWriter.py:142-154 | the shared timestamps change only as the outcome's stamp says |
| Prometheus.PrometheusWriter.WriteData | firmware/PrometheusWriter.py:43-157 | `writeData` yields the outcome above and updates only the shared timestamps; the shared snapshot is untouched |
| Prometheus.PrometheusWriter.NothingToWrite | firmware/PrometheusWriter.py:49-53 | nothing is sent exactly when the snapshot holds only `geohash` and `hardwareId` |
| Prometheus.PrometheusWriter.SnapshotHwidIgnored | firmware/PrometheusWriter.py:50-83 | the snapshot's `hardwareId` never affects the outcome; the label is the constructor's hwid |
| Prometheus.PrometheusWriter.PostedRequest | firmware/PrometheusWriter.py:55-118 | a posted request has one series per metric, each well shaped and labelled with the constructor's hwid |
| Prometheus.PrometheusWriter.PostedUrlRoundTrip | firmware/PrometheusWriter.py:123-133 | the posted URL parses back to the base URL's scheme, `instance:key@netloc` and path |
| Loki.FilesInSnoc | firmware/LokiHandler.py:35-36 | the regular files among a listing grow one name at a time, and a new name was not among them |
| Loki.ListingFiles | firmware/LokiHandler.py:35-36 | a listing of the directory visits exactly its regular files |
| Loki.StripLeft | firmware/LokiHandler.py:40 | a suffix of its input that does not start with a stripped character |
| Loki.StripRight | firmware/LokiHandler.py:40 | a prefix of its input that does not end with a stripped character |
| Loki.StripTimestamp | firmware/LokiHandler.py:17-40 | `str(ts) + ".json"` stripped of `.json` characters gives back `str(ts)` |
| Loki.StripAll | firmware/LokiHandler.py:40 | a name made only of stripped characters strips to nothing |
| Loki.StripExample | firmware/LokiHandler.py:40 | `son.json` strips to `""`: a character set is stripped, not a suffix |
| Loki.SensorLineAppend | firmware/LokiHandler.py:71-72 | the metric text of two metric lists is the text of each, in order |
| Loki.SensorLineSingle | firmware/LokiHandler.py:72 | one metric renders as `metric=value ` |
| Loki.MetricLineAppend | firmware/LokiHandler.py:67-72 | the metric part of a record is the metric parts of its sensors in order, and fails if any sensor fails |
| Loki.MetricLineSingle | firmware/LokiHandler.py:67-72 | one sensor renders as its metrics with the `sensor` tag removed |
| Loki.MetricLinePrefixFails | firmware/LokiHandler.py:67-69 | a sensor that cannot be rendered makes the whole line fail |
| Loki.AppendMetrics | firmware/LokiHandler.py:71-72 | the inner loop appends exactly the rendered metrics to the string |
| Loki.RenderLine | firmware/LokiHandler.py:64-72 | the loop over the sensors builds exactly the metric part, or fails as a missing `sensor` tag or a non-dictionary value does |
| Loki.StreamLabelsGet | firmware/LokiHandler.py:53-60 | the stream labels are exactly `friendlyname`, `hwid` (from `hardwareId`), `location` and `project` that the record has |
| Loki.PopLabel | firmware/LokiHandler.py:53-60 | one conditional pop adds the label when present and removes the key |
| Loki.PopLabels | firmware/LokiHandler.py:53-60 | the four pops yield the stream labels and the record without those keys |
| Loki.SplitRecord | firmware/LokiHandler.py:53-62 | the pops yield the labels, the body without label keys and `geohash`, and the record's own `geohash` |
| Loki.BuildPush | firmware/LokiHandler.py:45-76 | the geohash in force is the record's own or the carried one; a payload exists exactly when the line renders, and it is the record's one-stream payload |
| Loki.VisitEntry | firmware/LokiHandler.py:36-105 | one loop pass over a directory entry does exactly what the walk specifies |
| Loki.RunSnoc | firmware/LokiHandler.py:35 | the walk over one more name is one more visit |
| Loki.RunRaisedStays | firmware/LokiHandler.py:96 | once an exception is raised, the rest of the listing changes nothing |
| Loki.VisitShaped | firmware/LokiHandler.py:45-96 | a visit posts nothing or exactly the visited regular file, with one stream and one value to the endpoint |
| Loki.RunPushes | firmware/LokiHandler.py:35-96 | every post is of a regular file of the listing, with one stream holding one value, sent to the same endpoint |
| Loki.VisitRecord | firmware/LokiHandler.py:45-76 | for a parsed record, a missing geohash with nothing carried, or an unrenderable body, aborts; otherwise it posts once with the record's labels and `[name stripped, metrics + "geohash=" + value]` |
| Loki.VisitCases | firmware/LokiHandler.py:96-105 | a 2xx response adds one success and deletes the file; any other status adds one failure; an exception stops the walk |
| Loki.AccountedRaised | firmware/LokiHandler.py:96 | the bookkeeping survives an aborted walk over any longer listing |
| Loki.RunAccounted | firmware/LokiHandler.py:35-107 | over distinct names, the posts are distinct listed names, exactly the accepted ones are deleted, success counts the deletions, and a completed walk counts every regular file once |
| Loki.UploadAccounts | firmware/LokiHandler.py:35-107 | over a directory listing, deletions are accepted posts of regular files, and success plus fail equals the `GetFileCount` count when no exception was raised |
| Loki.LokiUrlRoundTrip | firmware/LokiHandler.py:81-90 | the push URL parses back to the base scheme, `instance:quote_plus(key)@netloc` and path, and the password decodes back to the key |
| Loki.PushTimestamp | firmware/LokiHandler.py:40-76 | a file written at timestamp `ts` is posted with the value timestamp `str(ts)` |
| Loki.LokiHandler.constructor | firmware/LokiHandler.py:10-11 | the handler keeps the directory path |
| Loki.LokiHandler.WriteLogFile | firmware/LokiHandler.py:14-22 | a directory path ending in `/` stores the snapshot as `<timestamp>.json` inside it; another path writes `<path><timestamp>.json` outside it; a failure changes nothing |
| Loki.LokiHandler.GetFileCount | firmware/LokiHandler.py:109-114 | the count loop gives the number of regular files; a missing directory gives no count |
| Loki.LokiHandler.UploadLogFiles | firmware/LokiHandler.py:30-107 | the result is the walk's counters or an exception, the payloads are the walk's posts, and exactly the accepted files are deleted; a url that `urlparse` refuses raises at the first regular file, before any post |
| Loki.LokiHandler.FindFile | firmware/LokiHandler.py:45-83 | the walk meets a regular file exactly when the directory holds one |
| Loki.LokiHandler.UploadEntry | firmware/LokiHandler.py:96-105 | one pass deletes the visited file exactly when its post was accepted |
| Loki.LokiHandler.UploadStep | firmware/LokiHandler.py:35-105 | the i-th pass extends the walk by one name and keeps the directory equal to the listing minus the deleted files |
| Loki.LokiHandler.UploadTo | firmware/LokiHandler.py:35-107 | the loop over the listing yields the walk's result and leaves the directory minus the accepted files |
| Csv.PadRoundTrip | firmware/CsvWriter.py:18 | a zero-padded field has exactly its width and reads back as the number |
| Csv.StampLayout | firmware/CsvWriter.py:18 | `%Y_%m_%d-%H_%M_%S` puts each field and separator at fixed offsets |
| Csv.StampRoundTrip | firmware/CsvWriter.py:18 | the 19-character file-name stamp reads back as year, month, day, hour, minute and second |
| Csv.CsvWriter.constructor | firmware/CsvWriter.py:14-25 | the file is `/aq/data/<name>_<hwid>_<stamp>.csv`, and it holds just the header row of the nine columns |
| Csv.FlattenWellFormed | firmware/CsvWriter.py:34-38 | the merged row dictionary has distinct keys |
| Csv.FlattenGet | firmware/CsvWriter.py:36-38 | a row value is the one written by the last sensor reporting that metric, else the seeded timestamp |
| Csv.FlattenKeys | firmware/CsvWriter.py:34-38 | the row keys are exactly `timestamp` and the metrics some sensor reports |
| Csv.FlattenFails | firmware/CsvWriter.py:36-37 | merging fails exactly when some remaining value is not a dictionary |
| Csv.FlattenPrefixFails | firmware/CsvWriter.py:36-37 | a failure over some first sensors is a failure of the whole merge |
| Csv.Fields | firmware/CsvWriter.py:21-44 | a written row has one field per column |
| Csv.RowFields | firmware/CsvWriter.py:34-44 | each field of a written row is the last value for that column, with missing values and `None` written empty |
| Csv.RowAbsentLeaf | firmware/CsvWriter.py:37-47 | a non-dictionary value besides `geohash` and `hardwareId` means no row is written |
| Csv.RowAbsentUnknown | firmware/CsvWriter.py:44-47 | a metric outside the nine columns means `writerow` raises and no row is written |
| Csv.RowPresent | firmware/CsvWriter.py:36-47 | with only dictionary values, a missing row implies some metric outside the columns |
| Csv.RowIgnoresLabels | firmware/CsvWriter.py:31-32 | `geohash` and `hardwareId` never affect the row |
| Csv.RowExample | firmware/CsvWriter.py:34-44 | a single temperature reading gives `[timestamp, 21.0, "", …]` |
| Csv.CsvWriter.AddRow | firmware/CsvWriter.py:27-47 | `addRow` appends exactly the row of the snapshot, or nothing when it cannot be written |
| Aq.MergeSerial | firmware/aq.py:42-44 | a readable serial number is merged into the snapshot; -1 leaves it unchanged |
| Aq.SensorsUpdateStep | firmware/aq.py:92-93 | one step of the update thread merges the readings, then the location |
| Aq.SensorsUpdateGet | firmware/aq.py:92-93 | after a step, location keys read the location, other reading keys the readings, everything else as before |
| Aq.SensorsUpdateKeys | firmware/aq.py:92-93 | a step never removes a key; the keys become the old ones plus those of the readings and the location |
| Aq.ParseNat | firmware/aq.py:107 | digit strings are exactly the texts accepted as naturals |
| Aq.ParseIntRoundTrip | firmware/aq.py:107 | `int(str(i)) == i` for every integer |
| Aq.ParseIntRejects | firmware/aq.py:107 | `""`, `"-"`, `"5m"` and `"3.5"` are not integers |
| Aq.ClampIsMax | firmware/aq.py:107-108 | the effective interval is `max(int(interval), 300)`; an interval of 300 or more is left as it was |
| Aq.ClampIdempotent | firmware/aq.py:107-108 | clamping twice is clamping once |
| Aq.ConfigureNames | firmware/aq.py:105-106 | the friendly name is overridden, and every key but `friendlyname` and `interval` is kept |
| Aq.ConfigureInterval | firmware/aq.py:107-108 | set-up succeeds exactly when the interval reads as an integer, and the table then holds the clamped interval |
| Aq.WorkerConfig.constructor | firmware/aq.py:105 | the worker's table is the one handed over |
| Aq.StartPrometheusWorker | firmware/aq.py:102-110 | the table is updated in place as set-up specifies; a writer exists exactly when the interval reads, with that table, the hwid, the new friendly name and no shared timestamps |
| Aq.PrometheusThreads | firmware/aq.py:71-76 | one thread per remote table |
| Aq.StartThreads | firmware/aq.py:51-76 | the started threads are the fixed ones, then one `prometheusUpdateThread_<name>` per remote in order, after `friendlyname` is popped |
| Aq.CsvThreadIffEnabled | firmware/aq.py:61-65 | a CSV thread starts exactly when CSV is enabled |
| Aq.WorkerCount | firmware/aq.py:67-76 | the number of Prometheus threads is the number of entries, less one when `friendlyname` was there |
| Aq.WorkerPerRemote | firmware/aq.py:69-76 | every remote other than `friendlyname` gets its thread |
| Aq.WorkerFromRemote | firmware/aq.py:69-76 | every Prometheus thread is named after a remote other than `friendlyname` |

## Left out

- Protocol-buffer serialisation and snappy compression of the Prometheus request. The model stops at the `WriteRequest` value.
- JSON encoding and decoding of the Loki files and payloads. Records are stored as structured values, and an unreadable file is a record that does not decode.
- Python `repr` escaping inside quotes, for a sensor dictionary rendered in the Loki line.
- Quoting by the CSV `DictWriter`. A row is a sequence of field texts.
- Real files, sockets, threads and `time.sleep`. The directory is a map with an explicit listing order. Clock readings, HTTP results and file-system failures are parameters.
- The logging calls.
- Request headers and the request body bytes.
- The MQTT publisher, the websocket server, the mainboard driver and the dashboard. These are outside the sinks.
- `getDebugConfig` and TOML parsing of `aq.toml`.
- Partial failures of `os.makedirs`. A `WriteLogFile` failure is all or nothing.
- Loki.LokiHandler.UploadLogFiles: an OSError from `os.remove` after an accepted post, which would end the upload. Removal always succeeds in the model.
- Whitespace and control-character stripping by `urlparse`.
- Prometheus.Dt2Ts: the calendar conversion. The instant is already microseconds since the epoch.
- Prometheus.PrometheusWriter.Record: the local-time handling of `datetime.now().timestamp()`. The current time is a parameter already in seconds.
- Csv.Stamp: years before 1000, which `strftime` does not always pad to four digits.
- Csv.CsvWriter.constructor: a failure to open `/aq/data/...` for the header. It raises at construction and is not modelled.
- Csv.CsvWriter.AddRow: a failure of the `open(..., 'a')` itself, which the source also swallows. The model appends whenever the row can be formed.
- Csv.Seed: the local-time handling of the `addRow` timestamp. `int(datetime.utcnow().timestamp())` is a parameter.
- Aq.IntOf: floats and booleans in the TOML value, and `int()` of text with whitespace, underscores or Unicode decimal digits other than ASCII.
- Aq.MergeSerial: the `hwid['hardwareId']` look-ups on `aq.py` lines 47 and 73. They raise when the serial number could not be read, which ends `main`.
- Url.CheckedParse: the checks of newer Python versions on a bracketed host (a valid IPv6 or IPvFuture address) and on NFKC-normalised netlocs. Only an unpaired bracket is refused.
- Url.QuotePlus: surrogate code points, which Python refuses to encode. Dafny characters are Unicode scalar values.
