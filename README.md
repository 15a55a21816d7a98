# Event relay and aggregation pipeline, modelled in Dafny

This project models the four Python services of a small telemetry pipeline.
Devices post sensor readings and user commands. Each event passes through an
append-only topic into a database, and periodic statistics are computed over it.

- **Receiver** (`receiver.dfy`) is the ingestion gateway.
  - It connects a producer with at most five attempts.
  - It checks the required fields of an event in list order.
  - It stamps the event with a fresh trace id and produces one envelope `{type, datetime, payload}` to the topic.
- **Storage** (`storage.dfy`) is the database writer.
  - A consumer loop stores each envelope's payload in the table its `type` names, then commits its offset.
  - Two handlers add a row, keeping a supplied `trace_id` and stamping `date_created`.
  - Two queries return the rows whose `date_created` lies in a half-open window `[start, end)`.
  - Each query parses its bounds with `strptime` in its own way.
- **Processing** (`processing.dfy`) is the periodic aggregator.
  - Each tick reads the stats file, or writes an initial record first.
  - It queries Storage for the window from the stored watermark to now.
  - It folds the count and maximum temperature of the returned events into the record.
  - It writes the record back with the watermark moved to now.
  - `get_stats` serves the file.
- **Analyzer** (`analyzer.dfy`) is the replay reader. Each request rescans the topic from its first message.
  - One request returns the payload at a given position.
  - The other counts the messages of each type.

Supporting modules:

- `timestamps.dfy`: Python's datetimes.
  - Their field order.
  - `strftime('%Y-%m-%dT%H:%M:%S')` and `isoformat()`.
  - `fromisoformat` on the forms those write.
  - `strptime` with and without `.%f`, following CPython's pattern for each directive.
  - `str.strip`.
- `json.dfy`: decoded JSON values, and a message on the topic (decodable or not).
- `wrappers.dfy`: `Option`.
- `pipeline.dfy`: what happens where the services meet.
  - What the Storage consumer does with the envelopes the Receiver produces.
  - How the windows of consecutive Processing ticks cover the stored rows.
  - How Processing reads the rows Storage returns.

Where the code changes state, the model is imperative:

- The stats file is the class `Processing.StatsFile`.
- The topic written by the gateway is a `seq` field of `Receiver.Gateway`.
- The two tables are `seq` fields of `Storage.Database`.
- The committed offset is a field of `Storage.Consumer`.

Each state-changing method is proved against a specification function: `Tick`, `Ingest`, `StoreSensor`/`StoreCommand` or `Run`. Each loop is proved against a function that specifies it: `FoldSpec`, `FirstMissing`, `CountType`, or the case split in `GetEventFromKafka`'s contract.

The broker, the database engine, HTTP, the clock and uuid generation are replaced by values:

- The topic is a `seq<Message>`.
- Connection attempts are a function from the attempt number to its outcome.
- The two HTTP queries of a tick are functions from the window to a reply.
- Clock readings and fresh ids are parameters.

In five places the code departs from the system's stated design. The model follows the code:

- A first tick that creates the stats file goes on to query and fold. By design, that first tick only writes the initial record.
- A non-200 answer to the sensor query ends the whole tick, so the command query is not made. By design, the two sources are queried and counted independently.
- An exception in either query block is swallowed and the watermark still advances. By design, the watermark advances only when both queries succeed.
- `get_event_from_kafka` compares `index` with the message's position in the whole topic. By design, `index` counts only the messages of the requested type.
- A message that does not decode ends Storage's consumer loop. By design, such a message is logged and skipped.

## Model

| member | source | states |
|---|---|---|
| Timestamps.BeforeIsStrictTotalOrder | Storage/app.py:126-129 | datetime comparison is irreflexive, total and transitive |
| Timestamps.FormatSeconds | Processing/app.py:22-23 | `format_timestamp` writes 19 characters |
| Timestamps.FormatSecondsLayout | Processing/app.py:22-23 | the year is written as four zero-padded digits and the other fields as two, at fixed positions, with the separators `-`, `-`, `T`, `:`, `:` between them |
| Timestamps.IsoFormat | Processing/app.py:37 | `isoformat()` is the seconds form, plus a dot and six digits exactly when the microseconds are not 0 |
| Timestamps.FormatSecondsIgnoresMicros | Processing/app.py:43-45 | `strftime` to the second does not depend on the microseconds |
| Timestamps.ParseIso | Processing/app.py:43 | `fromisoformat` only yields datetimes with fields in range |
| Timestamps.ParseIsoFormatSeconds | Processing/app.py:94 | a watermark written by `format_timestamp` reads back as the same second |
| Timestamps.FormatSecondsIsIsoFormat | Processing/app.py:94 | the watermark `format_timestamp` writes is the `isoformat` of the same instant with its microseconds dropped |
| Timestamps.ParseIsoWithMicros | Processing/app.py:37-43 | `fromisoformat` reads back the microseconds `isoformat` appends |
| Timestamps.ParseIsoIsoFormat | Processing/app.py:37-43 | `fromisoformat` inverts `isoformat`, microseconds included |
| Timestamps.Strptime | Storage/app.py:117-124 | `strptime` only yields datetimes with fields in range; without `.%f` they have no microseconds |
| Timestamps.MatchFraction | Storage/app.py:117 | `%f` consumes at least one digit and yields fewer than a million microseconds |
| Timestamps.MatchSecondsLaidOut | Storage/app.py:119 | text laid out field by field as `format_timestamp` writes it matches `%Y-%m-%dT%H:%M:%S` as those fields, with no microseconds |
| Timestamps.MatchSecondsFormatted | Storage/app.py:119 | a formatted timestamp at the start of the text matches `%Y-%m-%dT%H:%M:%S` as the same second and consumes 19 characters |
| Timestamps.StrptimeFormatSeconds | Storage/app.py:119 | `%Y-%m-%dT%H:%M:%S` reads `format_timestamp`'s output back to the same second |
| Timestamps.StrptimeFractionRejectsSeconds | Storage/app.py:116-119 | the `.%f` format rejects a seconds-only timestamp, so the fallback format is the one used |
| Timestamps.StrptimeIsoFormat | Storage/app.py:117 | the `.%f` format reads `isoformat()`'s output back exactly when it has microseconds |
| Timestamps.StripStart | Storage/app.py:113-114 | the result is a suffix of the input; exactly the leading whitespace is dropped |
| Timestamps.StripEnd | Storage/app.py:113-114 | the result is a prefix of the input; exactly the trailing whitespace is dropped |
| Timestamps.Strip | Storage/app.py:113-114 | `strip` never lengthens the text; the result neither starts nor ends with whitespace; it is empty exactly when the text is all whitespace |
| Timestamps.StripKeepsTrimmed | Storage/app.py:113-114 | `strip` leaves text without surrounding whitespace unchanged |
| Timestamps.StripDropsLeadingSpace | Storage/app.py:113-114 | `strip` drops a leading space like any other leading whitespace |
| Receiver.InitializeKafkaClient | Receiver/app.py:41-60 | 1 to 5 attempts; all but the last raised KafkaException; the producer of the first successful attempt; None only after the fifth failure; a sleep between failures only |
| Receiver.FirstMissing | Receiver/app.py:69-73 | None iff every required field is present; otherwise a missing field with every earlier one present |
| Receiver.MissingField | Receiver/app.py:70-73 | the validation loop finds the first missing field in list order |
| Receiver.Ingest | Receiver/app.py:67-99 | a request is answered 201, 400 or 500; it produces at most one envelope, and one exactly when the answer is 201 |
| Receiver.RejectsFirstMissingField | Receiver/app.py:69-73 | a request missing a field gets 400 "Missing key: f" for the first missing f, and nothing is produced |
| Receiver.NoProducerAfterValidation | Receiver/app.py:81-83 | a valid request without a producer gets 500 "Kafka unavailable", and nothing is produced |
| Receiver.AcceptedRequestProducesOneEnvelope | Receiver/app.py:75-99 | 201 iff the fields are present, a producer exists and produce succeeds; then exactly one envelope of the request's type whose payload is the body with `trace_id` set and every other field unchanged |
| Receiver.ProduceFailureReported | Receiver/app.py:92-97 | a failing produce gets 500 "Failed to produce event", and nothing is produced |
| Receiver.Gateway.Receive | Receiver/app.py:67-99 | the answer is `Ingest`'s, and the topic grows by exactly the produced envelopes |
| Receiver.Gateway.ReceiveSensorData | Receiver/app.py:67-99 | the same for sensor readings |
| Receiver.Gateway.ReceiveUserCommand | Receiver/app.py:106-138 | the same for user commands |
| Analyzer.GetEventFromKafka | Analyzer/app.py:24-41 | 404 outside the topic; otherwise only the message at `index` is decoded: 500 if it does not decode or lacks `type`/`payload`, 404 for another type, its payload with 200 otherwise |
| Analyzer.GetSensorDataReading | Analyzer/app.py:18-19 | 200 iff the message at global position `index` is a sensor reading with a payload, and then the body is that payload; any other answer is 404 or 500 |
| Analyzer.GetUserCommandReading | Analyzer/app.py:21-22 | 200 iff the message at global position `index` is a user command with a payload, and then the body is that payload; any other answer is 404 or 500 |
| Analyzer.CountType | Analyzer/app.py:56-59 | a type's count never exceeds the topic length |
| Analyzer.CountsWithinTopic | Analyzer/app.py:56-59 | other types are ignored, so the two counts sum to at most the topic length |
| Analyzer.CountOfAbsentType | Analyzer/app.py:56-59 | a topic without a type counts zero of it |
| Analyzer.GetEventStats | Analyzer/app.py:43-68 | 200 with the two per-type counts when every message decodes and has a type; otherwise 500 with no partial counts |
| Analyzer.CountAfterProduce | Analyzer/app.py:53-59 | an envelope produced by the gateway adds one to its own type's count and leaves every other count unchanged |
| Processing.Max | Processing/app.py:66 | `max` is at least both arguments and equals one of them |
| Processing.ReadablePrefix | Processing/app.py:64-66 | the events before it all read as numbers; the event at it does not |
| Processing.FoldSpec | Processing/app.py:64-66 | the fold adds at most one per event, adds at least one exactly when there are events, and never lowers the maximum |
| Processing.FoldSpecLaws | Processing/app.py:64-66 | the fold raises iff an event is unreadable; it counts every event up to and including the first unreadable one; the maximum covers the old one and every reading taken, and is one of them |
| Processing.ReadableFoldLaws | Processing/app.py:60-66 | on a 200 answer holding readable events, the fold does not raise, counts every event, and its maximum is at least the old one and every reading, and is one of them |
| Processing.FoldEvents | Processing/app.py:64-66 | the `for` loop computes the fold |
| Processing.FoldReplyMonotone | Processing/app.py:60-69 | whatever the answer, the count and the maximum never decrease |
| Processing.FoldReply | Processing/app.py:60-69 | iterating a decoded answer, including the non-array answers that raise, computes the fold |
| Processing.QueryWindow | Processing/app.py:43-45 | a window exists iff the watermark parses; its bounds read back as the watermark and as now, each to the second |
| Processing.Tick | Processing/app.py:25-97 | a tick never lowers a count or a maximum, and leaves the watermark as it was or sets it to now |
| Processing.FirstTickStartsFromInitialRecord | Processing/app.py:28-43 | with no stats file, the tick writes the initial record and carries on from it |
| Processing.FirstWindowStartsAtInitialisation | Processing/app.py:37-44 | the first window starts at the initialisation time, to the second |
| Processing.UnparsableWatermarkStops | Processing/app.py:43 | an unparsable watermark ends the tick with the record unchanged |
| Processing.FailedQueryLeavesRecord | Processing/app.py:56-80 | a non-200 answer to either query leaves the stored record and watermark unchanged, discarding an earlier sensor fold |
| Processing.CompletedTickWrites | Processing/app.py:43-94 | a tick without a non-200 answer queries the window from the stored watermark, to the second, up to now, and writes both folds with the watermark now |
| Processing.CompletedTickAdvances | Processing/app.py:68-97 | a tick without a non-200 answer, even one whose queries raised, writes the watermark as now and never lowers a count or maximum |
| Processing.TickCountsEvents | Processing/app.py:64-89 | with two arrays of readable events, each count grows by exactly the number of events and each maximum becomes the largest of the old maximum and the readings |
| Processing.UnreachableStoreSkipsWindow | Processing/app.py:50-94 | when both queries raise, only the watermark changes |
| Processing.WindowsAreConsecutive | Processing/app.py:43-94 | after a completed tick, the next window starts where this one ended |
| Processing.StatsFile.PopulateStats | Processing/app.py:25-100 | the file afterwards holds `Tick` of its old contents |
| Processing.StatsFile.GetStats | Processing/app.py:103-112 | 200 with the stored record iff the file exists; otherwise 404 "Statistics do not exist" |
| Storage.StoreSensor | Storage/app.py:63-83 | a stored sensor reading appends exactly one row to its table, keeps the earlier rows and leaves the other table alone |
| Storage.StoreCommand | Storage/app.py:86-106 | the same for user commands |
| Storage.StoreSensorAppendsRow | Storage/app.py:63-83 | a sensor reading is stored iff the database answers, the body has the four columns, and none of `sensorId`, `temperature`, `timestamp` is null (NOT NULL at Storage/sensor_data.py:9-11). Then one row is appended holding the next id, the payload's `sensorId`, `temperature`, `timestamp` and `location`, the supplied `trace_id` or else a fresh one, and `date_created` now. Nothing else changes |
| Storage.StoreCommandAppendsRow | Storage/app.py:86-106 | the same for user commands: the four columns present, none of them null (NOT NULL at Storage/user_command.py:9-12), and the row holds the payload's `userId`, `targetDevice`, `targetTemperature` and `timestamp` |
| Storage.NullSensorColumnRaises | Storage/app.py:68-78 | a null in `sensorId`, `temperature` or `timestamp` (NOT NULL at Storage/sensor_data.py:9-11) makes the commit raise, so nothing is stored |
| Storage.NullCommandColumnRaises | Storage/app.py:91-101 | a null in `userId`, `targetDevice`, `targetTemperature` or `timestamp` (NOT NULL at Storage/user_command.py:9-12) makes the commit raise |
| Storage.Database.ReceiveSensorData | Storage/app.py:63-83 | 201 and the table grows as `StoreSensor` says, or the handler raises and the tables are unchanged |
| Storage.Database.ReceiveUserCommand | Storage/app.py:86-106 | the same for user commands |
| Storage.Window | Storage/app.py:126-131 | exactly the rows with `start <= date_created < end` |
| Storage.SplitPoint | Storage/app.py:127-128 | with a <= b <= c, an instant is in [a, c) iff it is in exactly one of [a, b) and [b, c) |
| Storage.WindowsPartition | Storage/app.py:126-129 | windows [a, b) and [b, c) partition [a, c) as multisets of rows |
| Storage.ParseSensorBound | Storage/app.py:113-124 | a bound is read as a valid datetime, and it fails only when the stripped text matches neither format |
| Storage.ParseCommandBound | Storage/app.py:147-148 | a bound is read as a valid datetime without microseconds |
| Storage.CommandBoundsAreSensorBounds | Storage/app.py:113-124 | every bound the command query accepts, the sensor query reads as the same datetime |
| Storage.BoundsReadFormattedTimestamps | Storage/app.py:113-124 | both queries read `format_timestamp`'s output as the same second |
| Storage.SensorBoundReadsMicroseconds | Storage/app.py:116-117 | the sensor query reads an `isoformat()` bound to the microsecond |
| Storage.FormattedTimestampIsTrimmed | Storage/app.py:113-114 | stripping leaves a formatted timestamp unchanged |
| Storage.SensorBoundsAreStripped | Storage/app.py:113-119 | the sensor query accepts a bound with surrounding whitespace |
| Storage.CommandBoundsAreNotStripped | Storage/app.py:147 | the command query rejects the same bound |
| Storage.SensorQueryAnswers | Storage/app.py:109-137 | with both bounds read and the database reachable, the sensor query answers exactly the window between them |
| Storage.CommandQueryAnswers | Storage/app.py:144-161 | the same for the command query |
| Storage.Database.GetSensorDataReadings | Storage/app.py:109-140 | rows iff both bounds parse and the database answers, and then exactly the rows in the window; otherwise 500 |
| Storage.Database.GetUserCommandEvents | Storage/app.py:144-161 | rows iff both bounds parse and the database answers, and then exactly the rows in the window; otherwise the handler raises |
| Storage.SensorDict | Storage/sensor_data.py:16-25 | `to_dict`'s temperature and trace id are the row's; its `date_created` reads back as the row's |
| Storage.CommandDict | Storage/user_command.py:16-25 | the same for user commands |
| Storage.SensorDictKeys | Storage/sensor_data.py:16-25 | `to_dict` has exactly the seven column keys |
| Storage.CommandDictKeys | Storage/user_command.py:16-25 | the same for user commands |
| Storage.Handle | Storage/app.py:171-178 | a message that does not decode raises; a handled message adds at most one row |
| Storage.Run | Storage/app.py:170-179 | the committed offset lies between the starting offset and the end of the topic |
| Storage.RunStopsOnlyAtFailure | Storage/app.py:170-179 | the loop commits after every message; it stops before the end only at a message whose handling raised, which a restart delivers again |
| Storage.UnreadableMessageNotCommitted | Storage/app.py:171-175 | a message that does not decode or lacks `payload`/`type` stores nothing and is not committed |
| Storage.OtherTypesSkipped | Storage/app.py:175-179 | a message of another type stores nothing and is committed |
| Storage.HandleAppends | Storage/app.py:174-178 | handling one message only appends rows and keeps ids consecutive |
| Storage.RunAppends | Storage/app.py:170-179 | the consumer loop only appends rows and keeps ids consecutive |
| Storage.Consumer.ProcessMessages | Storage/app.py:163-179 | the tables and the committed offset afterwards are `Run`'s |
| Pipeline.IngestPublishes | Receiver/app.py:75-99 | a request answered 201 published exactly its own envelope: its type, the formatted clock reading, and the body with `trace_id` set. Its payload passed validation. Any other answer published nothing |
| Pipeline.GatewayTopic | Receiver/app.py:67-138 | the topic a gateway writes for a sequence of requests holds one envelope per request answered 201, in order, and each passed validation |
| Pipeline.GatewayEventsNeverStored | Storage/app.py:175-179 | as written, every gateway envelope is committed and nothing is stored |
| Pipeline.HandleGatewayEvent | Storage/app.py:174-178 | with the corrected type strings, a gateway envelope without nulls in NOT NULL columns adds one row to its kind's table, keeping the gateway's trace id |
| Pipeline.NullColumnRaises | Storage/app.py:174-178 | with the corrected type strings, handling a validated envelope with a null in a NOT NULL column raises |
| Pipeline.NullColumnStopsConsumer | Storage/app.py:174-179 | with the corrected type strings, a validated envelope with a null in a NOT NULL column makes the commit raise (Storage/app.py:78, 101); the loop stops there with nothing stored and nothing committed |
| Pipeline.GatewayEventsStored | Storage/app.py:170-179 | with the corrected type strings and no nulls in NOT NULL columns, the whole topic is committed and each table grows by the number of envelopes of its kind |
| Pipeline.ConsecutiveTicksPartitionSensorRows | Storage/app.py:109-137 | the sensor queries of two consecutive ticks both answer and together return each row of [t0, t2), to the second, exactly once |
| Pipeline.ConsecutiveTicksPartitionCommandRows | Storage/app.py:144-161 | the same for the command queries |
| Pipeline.StoredRowsFeedTheFold | Processing/app.py:64-89 | a returned row is read by the fold as its stored temperature when that is a number; otherwise the fold raises |

## Left out

- I/O and wiring are not modelled: YAML configuration, logging, `print`, the Flask/connexion apps, the scheduler and the consumer thread. Each tick and each consumer run is modelled as one sequential call.
- Storage's consumer setup is left out: Kafka client creation, the consumer group, and the start at the latest offset for a new group. The model starts at a given committed offset.
- Analyzer's connection setup is left out: client creation outside its `try`, and the 1000 ms idle timeout that ends a scan. The topic is the finite sequence the scan reads.
- Receiver/app.py:145-154 is not modelled. It is a proxy over `requests.args`, which does not exist.
- Receiver.Gateway.Receive: the outer "Internal server error" handler (Receiver/app.py:101-103) is not modelled. On a decoded JSON object body, none of the modelled steps raises.
- Receiver.InitializeKafkaClient: the `time.sleep` is counted, not performed.
- JSON numbers are one kind of `real`, so integers and floats are not told apart, and no float rounding is modelled. JSON booleans are not modelled.
- Processing.Reading: a boolean temperature, which Python's `max` would accept, is outside the JSON values modelled.
- Processing.StatsFile.PopulateStats: a stats file that exists but lacks a key or holds non-numbers is not modelled. Only this function writes the file, and it always writes the whole record. Numeric output (`0` versus `0.0`) is not told apart.
- Processing.StatsFile.PopulateStats: the two clock readings are parameters. Ordering the readings of successive ticks is left to the lemmas' preconditions.
- Storage: the database engine is a pair of row sequences.
  - The order in which it returns query rows is taken to be insertion order.
  - Its column types are not applied: a stored value is not converted to Float or DateTime.
  - Comparisons on `date_created` are modelled as datetime comparisons.
  - `available` stands for a database that cannot be reached: every commit and every query then fails.
  - AUTO_INCREMENT ids are modelled as 1, 2, 3, ... in insertion order. The database does not promise ids without gaps, for instance after a failed insert, so "keeps ids consecutive" in Storage.HandleAppends and Storage.RunAppends holds of the model only.
- Storage.StoreSensor, Storage.StoreCommand, Storage.Run: of the failures that depend on the row, only a null in a NOT NULL column makes a commit raise. A value longer than its `String(n)` column is stored as given, and so is a value the `Float` or `DateTime` column cannot take. Whether such a commit raises depends on the database and its mode. Where it does, `session.commit()` raises (Storage/app.py:78, 101), and the consumer stops before committing its offset (Storage/app.py:176-179). The model stores the row and commits.
- Storage.StoreSensor, Pipeline.Storable, Pipeline.GatewayEventsStored: the NOT NULL set is the one the ORM declares (Storage/sensor_data.py:9-13, Storage/user_command.py:9-13), where `location` and `trace_id` may be null. The service never creates its tables. The repository's table script, which is not part of this model, also declares `location` and `trace_id` NOT NULL (Storage/create_tables_mysql.py:15-16, 29). On tables made by that script, a sensor request with `"location": null` passes the gateway's presence check, its insert fails, and the consumer stops without committing. The model stores that row.
- Storage.Database.GetSensorDataReadings: the text of the 500 message (`str(e)`) is not modelled.
- Timestamps.Strptime: only ASCII digits are modelled. Python's `\d` also matches other Unicode decimal digits.
- Timestamps.ParseIso: `fromisoformat` is modelled on three forms: seconds, milliseconds and microseconds (19, 23 or 26 characters). As in Python, any single character is accepted at index 10 between date and time. Its other accepted forms (a UTC offset, a date alone) are not modelled. `isoformat()` writes only the 19- and 26-character forms, and those are the only ones the stats file holds.
- Timestamps.FormatSeconds: years below 1000 are written with four digits. Dates are modelled for years 1 to 9999.
- Trace ids and uuids are opaque strings supplied as parameters.

## Findings

| source | as written | input that shows it | evidently intended | confidence | as-written member | corrected member |
|---|---|---|---|---|---|---|
| Storage/app.py:175-177 | the consumer stores a payload only when `type` is `'sensor-data'` or `'user-command'` | any envelope the gateway produces, e.g. one with `"type": "sensor_data"` (Receiver/app.py:86, 125): it is committed and never stored | dispatch on `'sensor_data'`/`'user_command'`, the strings the gateway writes | high (not executed) | Pipeline.GatewayEventsNeverStored | Pipeline.GatewayEventsStored |
