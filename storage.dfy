/**
 * The storage service (Storage/app.py): a consumer that stores the events of
 * the topic and commits its offset after each message, the two handlers that
 * add a row, and the two half-open window queries over `date_created`.
 */
module Storage {
  import opened Wrappers
  import opened Json
  import opened Timestamps

  /** A row of table sensor_data; the column values are kept as the payload gave them. */
  datatype SensorRow = SensorRow(id: nat, sensorId: Value, temperature: Value, timestamp: Value,
                                 location: Value, traceId: Value, dateCreated: DateTime)

  /** A row of table user_command. */
  datatype CommandRow = CommandRow(id: nat, userId: Value, targetDevice: Value, targetTemperature: Value,
                                   timestamp: Value, traceId: Value, dateCreated: DateTime)

  /** The two tables, and whether the database answers (when it does not, every commit and query raises). */
  datatype Tables = Tables(sensorData: seq<SensorRow>, userCommands: seq<CommandRow>, available: bool) {
    /** AUTO_INCREMENT ids: 1, 2, 3, ... in insertion order. */
    predicate Valid() {
      && (forall i :: 0 <= i < |sensorData| ==> sensorData[i].id == i + 1)
      && (forall i :: 0 <= i < |userCommands| ==> userCommands[i].id == i + 1)
    }
  }

  // --------------------------------------------------------------- storing

  /** body.get('trace_id', str(uuid.uuid4())): the supplied value, or the fresh id. */
  function TraceId(fields: map<string, Value>, freshId: string): Value {
    if "trace_id" in fields then fields["trace_id"] else Text(freshId)
  }

  /** The row receive_sensor_data builds, or None when `body` is not an object or lacks a column's key. */
  function SensorRowOf(body: Value, id: nat, now: DateTime, freshId: string): Option<SensorRow> {
    if body.Object? && "sensorId" in body.fields && "temperature" in body.fields
       && "timestamp" in body.fields && "location" in body.fields
    then
      var f := body.fields;
      Some(SensorRow(id, f["sensorId"], f["temperature"], f["timestamp"], f["location"],
                     TraceId(f, freshId), now))
    else None
  }

  /** The row receive_user_command builds, or None when it raises. */
  function CommandRowOf(body: Value, id: nat, now: DateTime, freshId: string): Option<CommandRow> {
    if body.Object? && "userId" in body.fields && "targetDevice" in body.fields
       && "targetTemperature" in body.fields && "timestamp" in body.fields
    then
      var f := body.fields;
      Some(CommandRow(id, f["userId"], f["targetDevice"], f["targetTemperature"], f["timestamp"],
                      TraceId(f, freshId), now))
    else None
  }

  /** The NOT NULL columns of sensor_data: a JSON null in one of them makes the commit raise. */
  predicate SensorRowFits(row: SensorRow) {
    row.sensorId != Null && row.temperature != Null && row.timestamp != Null
  }

  /** The NOT NULL columns of user_command. */
  predicate CommandRowFits(row: CommandRow) {
    row.userId != Null && row.targetDevice != Null && row.targetTemperature != Null && row.timestamp != Null
  }

  /** receive_sensor_data's effect on the tables, or None when the handler raises. */
  function StoreSensor(db: Tables, body: Value, now: DateTime, freshId: string): (r: Option<Tables>)
    ensures r.Some? ==> && r.value.available && r.value.userCommands == db.userCommands
                        && |r.value.sensorData| == |db.sensorData| + 1
                        && r.value.sensorData[..|db.sensorData|] == db.sensorData
  {
    var row :- SensorRowOf(body, |db.sensorData| + 1, now, freshId);
    if db.available && SensorRowFits(row) then
      var tables := db.(sensorData := db.sensorData + [row]);
      assert tables.sensorData[..|db.sensorData|] == db.sensorData;
      Some(tables)
    else None
  }

  /** receive_user_command's effect on the tables, or None when the handler raises. */
  function StoreCommand(db: Tables, body: Value, now: DateTime, freshId: string): (r: Option<Tables>)
    ensures r.Some? ==> && r.value.available && r.value.sensorData == db.sensorData
                        && |r.value.userCommands| == |db.userCommands| + 1
                        && r.value.userCommands[..|db.userCommands|] == db.userCommands
  {
    var row :- CommandRowOf(body, |db.userCommands| + 1, now, freshId);
    if db.available && CommandRowFits(row) then
      var tables := db.(userCommands := db.userCommands + [row]);
      assert tables.userCommands[..|db.userCommands|] == db.userCommands;
      Some(tables)
    else None
  }

  /**
   * A sensor event is stored exactly when the database answers, the payload
   * has the four columns and none of the NOT NULL ones is null. Then it is one
   * new row at the end of its table, holding the next id, the payload's
   * columns, the supplied trace_id or else the fresh one, and the clock
   * reading as date_created; nothing else changes and ids stay consecutive.
   */
  lemma StoreSensorAppendsRow(db: Tables, body: Value, now: DateTime, freshId: string)
    requires db.Valid()
    ensures var after := StoreSensor(db, body, now, freshId);
      && (after.Some? <==> (db.available && body.Object?
            && "sensorId" in body.fields && "temperature" in body.fields
            && "timestamp" in body.fields && "location" in body.fields
            && body.fields["sensorId"] != Null && body.fields["temperature"] != Null
            && body.fields["timestamp"] != Null))
      && (after.Some? ==>
            && after.value.Valid()
            && after.value.userCommands == db.userCommands && after.value.available == db.available
            && |after.value.sensorData| == |db.sensorData| + 1
            && after.value.sensorData[..|db.sensorData|] == db.sensorData
            && var row := after.value.sensorData[|db.sensorData|];
            && row.id == |db.sensorData| + 1
            && row.sensorId == body.fields["sensorId"] && row.temperature == body.fields["temperature"]
            && row.timestamp == body.fields["timestamp"] && row.location == body.fields["location"]
            && row.dateCreated == now
            && (row.traceId == if "trace_id" in body.fields then body.fields["trace_id"] else Text(freshId)))
  {
    var after := StoreSensor(db, body, now, freshId);
    if after.Some? {
      assert after.value.sensorData[|db.sensorData|] == SensorRowOf(body, |db.sensorData| + 1, now, freshId).value;
    }
  }

  /** The same for a stored user command. */
  lemma StoreCommandAppendsRow(db: Tables, body: Value, now: DateTime, freshId: string)
    requires db.Valid()
    ensures var after := StoreCommand(db, body, now, freshId);
      && (after.Some? <==> (db.available && body.Object?
            && "userId" in body.fields && "targetDevice" in body.fields
            && "targetTemperature" in body.fields && "timestamp" in body.fields
            && body.fields["userId"] != Null && body.fields["targetDevice"] != Null
            && body.fields["targetTemperature"] != Null && body.fields["timestamp"] != Null))
      && (after.Some? ==>
            && after.value.Valid()
            && after.value.sensorData == db.sensorData && after.value.available == db.available
            && |after.value.userCommands| == |db.userCommands| + 1
            && after.value.userCommands[..|db.userCommands|] == db.userCommands
            && var row := after.value.userCommands[|db.userCommands|];
            && row.id == |db.userCommands| + 1
            && row.userId == body.fields["userId"] && row.targetDevice == body.fields["targetDevice"]
            && row.targetTemperature == body.fields["targetTemperature"] && row.timestamp == body.fields["timestamp"]
            && row.dateCreated == now
            && (row.traceId == if "trace_id" in body.fields then body.fields["trace_id"] else Text(freshId)))
  {
    var after := StoreCommand(db, body, now, freshId);
    if after.Some? {
      assert after.value.userCommands[|db.userCommands|] == CommandRowOf(body, |db.userCommands| + 1, now, freshId).value;
    }
  }

  /** A null in a NOT NULL column of sensor_data makes receive_sensor_data raise at the commit. */
  lemma NullSensorColumnRaises(db: Tables, fields: map<string, Value>, now: DateTime, freshId: string)
    requires || ("sensorId" in fields && fields["sensorId"] == Null)
             || ("temperature" in fields && fields["temperature"] == Null)
             || ("timestamp" in fields && fields["timestamp"] == Null)
    ensures StoreSensor(db, Object(fields), now, freshId).None?
  {
    var row := SensorRowOf(Object(fields), |db.sensorData| + 1, now, freshId);
    assert row.Some? ==> !SensorRowFits(row.value);
  }

  /** A null in a NOT NULL column of user_command makes receive_user_command raise at the commit. */
  lemma NullCommandColumnRaises(db: Tables, fields: map<string, Value>, now: DateTime, freshId: string)
    requires || ("userId" in fields && fields["userId"] == Null)
             || ("targetDevice" in fields && fields["targetDevice"] == Null)
             || ("targetTemperature" in fields && fields["targetTemperature"] == Null)
             || ("timestamp" in fields && fields["timestamp"] == Null)
    ensures StoreCommand(db, Object(fields), now, freshId).None?
  {
    var row := CommandRowOf(Object(fields), |db.userCommands| + 1, now, freshId);
    assert row.Some? ==> !CommandRowFits(row.value);
  }

  // --------------------------------------------------------------- windows

  /** start <= t < end, in datetime order. */
  predicate InWindow(t: DateTime, start: DateTime, end: DateTime) {
    !Before(t, start) && Before(t, end)
  }

  /** The rows whose creation time lies in [start, end), in table order. */
  function Window<R(!new)>(rows: seq<R>, created: R -> DateTime, start: DateTime, end: DateTime): (w: seq<R>)
    ensures |w| <= |rows|
    ensures forall x :: x in w <==> x in rows && InWindow(created(x), start, end)
  {
    if rows == [] then []
    else
      var rest := Window(rows[1..], created, start, end);
      assert forall x :: x in rows <==> x == rows[0] || x in rows[1..];
      (if InWindow(created(rows[0]), start, end) then [rows[0]] else []) + rest
  }

  /** With a <= b <= c, an instant lies in [a, c) exactly when it lies in one of [a, b) and [b, c). */
  lemma SplitPoint(t: DateTime, a: DateTime, b: DateTime, c: DateTime)
    requires !Before(b, a) && !Before(c, b)
    ensures InWindow(t, a, c) <==> InWindow(t, a, b) || InWindow(t, b, c)
    ensures !(InWindow(t, a, b) && InWindow(t, b, c))
  {
    BeforeIsStrictTotalOrder(t, a, b);
    BeforeIsStrictTotalOrder(t, b, c);
    BeforeIsStrictTotalOrder(a, b, t);
    BeforeIsStrictTotalOrder(b, c, t);
    BeforeIsStrictTotalOrder(t, b, a);
    BeforeIsStrictTotalOrder(t, c, b);
  }

  /** Consecutive windows [a, b) and [b, c) partition [a, c): no row is missed or counted twice. */
  lemma {:induction false} WindowsPartition<R(!new)>(rows: seq<R>, created: R -> DateTime, a: DateTime, b: DateTime, c: DateTime)
    requires !Before(b, a) && !Before(c, b)
    ensures multiset(Window(rows, created, a, c))
            == multiset(Window(rows, created, a, b)) + multiset(Window(rows, created, b, c))
    ensures |Window(rows, created, a, c)| == |Window(rows, created, a, b)| + |Window(rows, created, b, c)|
  {
    if rows != [] {
      WindowsPartition(rows[1..], created, a, b, c);
      SplitPoint(created(rows[0]), a, b, c);
    }
    assert |multiset(Window(rows, created, a, c))| == |Window(rows, created, a, c)|;
  }

  // ----------------------------------------------------------- the queries

  /** What a window query gives: rows, a handled error answered 500, or an exception that escapes the handler. */
  datatype QueryResult<R> = Rows(rows: seq<R>) | ErrorReply | Raised

  function SensorCreated(r: SensorRow): DateTime { r.dateCreated }
  function CommandCreated(r: CommandRow): DateTime { r.dateCreated }

  /** get_sensor_data_readings' bound: stripped, then '%Y-%m-%dT%H:%M:%S.%f', falling back to '%Y-%m-%dT%H:%M:%S'. */
  function ParseSensorBound(s: string): (r: Option<DateTime>)
    ensures r.Some? ==> Valid(r.value)
    ensures r.None? <==> Strptime(Strip(s), true).None? && Strptime(Strip(s), false).None?
  {
    var t := Strip(s);
    var withFraction := Strptime(t, true);
    if withFraction.Some? then withFraction else Strptime(t, false)
  }

  /** get_user_command_events' bound: '%Y-%m-%dT%H:%M:%S' only, not stripped. */
  function ParseCommandBound(s: string): (r: Option<DateTime>)
    ensures r.Some? ==> Valid(r.value) && r.value.micro == 0
  {
    Strptime(s, false)
  }

  /** Every bound the command query accepts is read the same way by the sensor query. */
  lemma {:induction false} CommandBoundsAreSensorBounds(s: string)
    ensures ParseCommandBound(s).Some? ==> ParseSensorBound(s) == ParseCommandBound(s)
  {
    if ParseCommandBound(s).Some? {
      var fields := MatchSeconds(s).value;
      assert fields.1 == |s|;
      StripKeepsTrimmed(s);
      StrptimeSecondsRejectsFraction(s);
    }
  }

  /** Both queries read the watermark strings Processing sends as the same second. */
  lemma {:induction false} BoundsReadFormattedTimestamps(t: DateTime)
    requires Valid(t)
    ensures ParseSensorBound(FormatSeconds(t)) == Some(Truncate(t))
    ensures ParseCommandBound(FormatSeconds(t)) == Some(Truncate(t))
  {
    var s := FormatSeconds(t);
    FormatSecondsLayout(t);
    assert IsDigit(s[0]) && IsDigit(s[18]);
    StripKeepsTrimmed(s);
    StrptimeFractionRejectsSeconds(t);
    StrptimeFormatSeconds(t);
  }

  /** A bound with microseconds, as isoformat() writes it, is read by the sensor query to the microsecond. */
  lemma {:induction false} SensorBoundReadsMicroseconds(t: DateTime)
    requires Valid(t) && t.micro != 0
    ensures ParseSensorBound(IsoFormat(t)) == Some(t)
  {
    var s := IsoFormat(t);
    FormatSecondsLayout(t);
    assert s[0] == FormatSeconds(t)[0] && IsDigit(s[0]) && IsDigit(s[|s| - 1]);
    StripKeepsTrimmed(s);
    StrptimeIsoFormat(t);
  }

  /** The first and last characters of a formatted timestamp are digits, so strip leaves it alone. */
  lemma FormattedTimestampIsTrimmed(t: DateTime)
    requires Valid(t)
    ensures Strip(FormatSeconds(t)) == FormatSeconds(t)
  {
    var s := FormatSeconds(t);
    FormatSecondsLayout(t);
    assert IsDigit(s[0..4][0]) && IsDigit(s[17..19][1]);
    StripKeepsTrimmed(s);
  }

  /** Surrounding whitespace is stripped from the sensor query's bounds ... */
  lemma {:induction false} SensorBoundsAreStripped(t: DateTime)
    requires Valid(t)
    ensures ParseSensorBound(" " + FormatSeconds(t)) == Some(Truncate(t))
  {
    StripDropsLeadingSpace(FormatSeconds(t));
    FormattedTimestampIsTrimmed(t);
    BoundsReadFormattedTimestamps(t);
  }

  /** ... and the command query rejects them. */
  lemma {:induction false} CommandBoundsAreNotStripped(t: DateTime)
    requires Valid(t)
    ensures ParseCommandBound(" " + FormatSeconds(t)).None?
  {
    var padded := " " + FormatSeconds(t);
    assert !IsDigit(padded[0..4][0]);
  }

  /** The rows a window query returns: exactly those created in [start, end). */
  ghost predicate ExactWindow<R(!new)>(result: seq<R>, rows: seq<R>, created: R -> DateTime, start: DateTime, end: DateTime) {
    forall x :: x in result <==> x in rows && InWindow(created(x), start, end)
  }

  /** The store the service opens a session on. */
  class Database {
    var sensorData: seq<SensorRow>
    var userCommands: seq<CommandRow>
    var available: bool

    function State(): Tables
      reads this
    {
      Tables(sensorData, userCommands, available)
    }

    constructor (initial: Tables)
      ensures State() == initial
    {
      sensorData, userCommands, available := initial.sensorData, initial.userCommands, initial.available;
    }

    /** receive_sensor_data: true when it answers 201, false when it raises (the tables are then unchanged). */
    method ReceiveSensorData(body: Value, now: DateTime, freshId: string) returns (created: bool)
      modifies this
      ensures var after := StoreSensor(old(State()), body, now, freshId);
        created == after.Some? && State() == (if created then after.value else old(State()))
    {
      var row := SensorRowOf(body, |sensorData| + 1, now, freshId);
      if row.None? || !available || !SensorRowFits(row.value) {
        return false;
      }
      sensorData := sensorData + [row.value];
      return true;
    }

    /** receive_user_command: true when it answers 201, false when it raises. */
    method ReceiveUserCommand(body: Value, now: DateTime, freshId: string) returns (created: bool)
      modifies this
      ensures var after := StoreCommand(old(State()), body, now, freshId);
        created == after.Some? && State() == (if created then after.value else old(State()))
    {
      var row := CommandRowOf(body, |userCommands| + 1, now, freshId);
      if row.None? || !available || !CommandRowFits(row.value) {
        return false;
      }
      userCommands := userCommands + [row.value];
      return true;
    }

    /**
     * get_sensor_data_readings(start, end): the sensor rows created in
     * [start, end); an unparsable bound or an unavailable database is
     * answered 500.
     */
    function GetSensorDataReadings(start: string, end: string): (r: QueryResult<SensorRow>)
      reads this
      ensures r.Rows? <==> available && ParseSensorBound(start).Some? && ParseSensorBound(end).Some?
      ensures !r.Rows? ==> r == ErrorReply
      ensures r.Rows? ==> ExactWindow(r.rows, sensorData, SensorCreated,
                                      ParseSensorBound(start).value, ParseSensorBound(end).value)
    {
      match (ParseSensorBound(start), ParseSensorBound(end))
      case (Some(s), Some(e)) =>
        if available then Rows(Window(sensorData, SensorCreated, s, e)) else ErrorReply
      case _ => ErrorReply
    }

    /**
     * get_user_command_events(start, end): the command rows created in
     * [start, end); an unparsable bound or an unavailable database raises.
     */
    function GetUserCommandEvents(start: string, end: string): (r: QueryResult<CommandRow>)
      reads this
      ensures r.Rows? <==> available && ParseCommandBound(start).Some? && ParseCommandBound(end).Some?
      ensures !r.Rows? ==> r == Raised
      ensures r.Rows? ==> ExactWindow(r.rows, userCommands, CommandCreated,
                                      ParseCommandBound(start).value, ParseCommandBound(end).value)
    {
      match (ParseCommandBound(start), ParseCommandBound(end))
      case (Some(s), Some(e)) =>
        if available then Rows(Window(userCommands, CommandCreated, s, e)) else Raised
      case _ => Raised
    }
  }

  /** Two readable bounds and a reachable database: the sensor query answers the window between them. */
  lemma SensorQueryAnswers(db: Database, start: string, end: string, from: DateTime, to: DateTime)
    requires db.available && ParseSensorBound(start) == Some(from) && ParseSensorBound(end) == Some(to)
    ensures db.GetSensorDataReadings(start, end) == Rows(Window(db.sensorData, SensorCreated, from, to))
  {
  }

  /** The same for the command query. */
  lemma CommandQueryAnswers(db: Database, start: string, end: string, from: DateTime, to: DateTime)
    requires db.available && ParseCommandBound(start) == Some(from) && ParseCommandBound(end) == Some(to)
    ensures db.GetUserCommandEvents(start, end) == Rows(Window(db.userCommands, CommandCreated, from, to))
  {
  }

  /** to_dict of a sensor row (date_created in isoformat). */
  function SensorDict(r: SensorRow): (d: Value)
    requires Valid(r.dateCreated)
    ensures d.Object? && "temperature" in d.fields && "trace_id" in d.fields && "date_created" in d.fields
    ensures d.fields["temperature"] == r.temperature && d.fields["trace_id"] == r.traceId
    ensures d.fields["date_created"].Text? && ParseIso(d.fields["date_created"].s) == Some(r.dateCreated)
  {
    ParseIsoIsoFormat(r.dateCreated);
    Object(map["id" := Num(r.id as real), "sensor_id" := r.sensorId, "temperature" := r.temperature,
               "timestamp" := r.timestamp, "location" := r.location, "trace_id" := r.traceId,
               "date_created" := Text(IsoFormat(r.dateCreated))])
  }

  /** to_dict of a user command row. */
  function CommandDict(r: CommandRow): (d: Value)
    requires Valid(r.dateCreated)
    ensures d.Object? && "target_temperature" in d.fields && "trace_id" in d.fields && "date_created" in d.fields
    ensures d.fields["target_temperature"] == r.targetTemperature && d.fields["trace_id"] == r.traceId
    ensures d.fields["date_created"].Text? && ParseIso(d.fields["date_created"].s) == Some(r.dateCreated)
  {
    ParseIsoIsoFormat(r.dateCreated);
    Object(map["id" := Num(r.id as real), "user_id" := r.userId, "target_device" := r.targetDevice,
               "target_temperature" := r.targetTemperature, "timestamp" := r.timestamp,
               "trace_id" := r.traceId, "date_created" := Text(IsoFormat(r.dateCreated))])
  }

  /** A sensor row's dict has exactly the model's columns as keys. */
  lemma SensorDictKeys(r: SensorRow)
    requires Valid(r.dateCreated)
    ensures SensorDict(r).fields.Keys == {"id", "sensor_id", "temperature", "timestamp", "location", "trace_id", "date_created"}
  {
  }

  /** A command row's dict has exactly the model's columns as keys. */
  lemma CommandDictKeys(r: CommandRow)
    requires Valid(r.dateCreated)
    ensures CommandDict(r).fields.Keys == {"id", "user_id", "target_device", "target_temperature", "timestamp", "trace_id", "date_created"}
  {
  }

  // --------------------------------------------------------- the consumer

  /** The two `type` strings the consumer dispatches on. */
  datatype TypeNames = TypeNames(sensor: string, command: string)

  /** process_messages compares the type with these. */
  const ConsumedTypes := TypeNames("sensor-data", "user-command")

  /**
   * Handling one message: decode it, read `payload` then `type`, and store the
   * payload in the table the type names; other types store nothing. None when
   * any step raises, which ends the consumer loop before the commit.
   */
  function Handle(names: TypeNames, db: Tables, m: Message, now: DateTime, freshId: string): (h: Option<Tables>)
    ensures m.Garbled? ==> h.None?
    ensures h.Some? ==> |db.sensorData| + |db.userCommands| <= |h.value.sensorData| + |h.value.userCommands|
                                                            <= |db.sensorData| + |db.userCommands| + 1
  {
    if m.Garbled? then None
    else
      var payload :- Get(m.value, "payload");
      var ty :- Get(m.value, "type");
      if ty == Text(names.sensor) then StoreSensor(db, payload, now, freshId)
      else if ty == Text(names.command) then StoreCommand(db, payload, now, freshId)
      else Some(db)
  }

  /**
   * The consumer loop from offset `from`: the tables afterwards and the
   * committed offset, which is the offset of the first message whose handling
   * raised, or the end of the topic. Message i is handled with clock reading
   * clock(i) and fresh id ids(i).
   */
  function Run(names: TypeNames, db: Tables, topic: seq<Message>, from: nat,
               clock: nat -> DateTime, ids: nat -> string): (r: (Tables, nat))
    requires from <= |topic|
    ensures from <= r.1 <= |topic|
    decreases |topic| - from
  {
    if from == |topic| then (db, from)
    else match Handle(names, db, topic[from], clock(from), ids(from))
      case None => (db, from)
      case Some(next) => Run(names, next, topic, from + 1, clock, ids)
  }

  /**
   * The offset is committed after every message handled, whatever its type;
   * it stops at the first message whose handling raised, so a restart from
   * the committed offset delivers that message again.
   */
  lemma {:induction false} RunStopsOnlyAtFailure(names: TypeNames, db: Tables, topic: seq<Message>, from: nat,
                                                clock: nat -> DateTime, ids: nat -> string)
    requires from <= |topic|
    ensures var (after, committed) := Run(names, db, topic, from, clock, ids);
      committed < |topic| ==> Handle(names, after, topic[committed], clock(committed), ids(committed)).None?
    decreases |topic| - from
  {
    if from < |topic| {
      var h := Handle(names, db, topic[from], clock(from), ids(from));
      if h.Some? {
        RunStopsOnlyAtFailure(names, h.value, topic, from + 1, clock, ids);
      }
    }
  }

  /** Handling never rewrites stored rows or the database's availability; it only appends, keeping ids consecutive. */
  lemma HandleAppends(names: TypeNames, db: Tables, m: Message, now: DateTime, freshId: string)
    requires db.Valid()
    ensures var h := Handle(names, db, m, now, freshId);
      h.Some? ==> && h.value.Valid() && h.value.available == db.available
                  && |db.sensorData| <= |h.value.sensorData| && h.value.sensorData[..|db.sensorData|] == db.sensorData
                  && |db.userCommands| <= |h.value.userCommands| && h.value.userCommands[..|db.userCommands|] == db.userCommands
  {
    if m.Encoded? && Get(m.value, "payload").Some? && Get(m.value, "type").Some? {
      var payload := Get(m.value, "payload").value;
      StoreSensorAppendsRow(db, payload, now, freshId);
      StoreCommandAppendsRow(db, payload, now, freshId);
    }
  }

  /** The consumer loop only ever appends rows, and keeps ids consecutive. */
  lemma {:induction false} RunAppends(names: TypeNames, db: Tables, topic: seq<Message>, from: nat,
                                     clock: nat -> DateTime, ids: nat -> string)
    requires from <= |topic| && db.Valid()
    ensures var after := Run(names, db, topic, from, clock, ids).0;
      && after.Valid() && after.available == db.available
      && |db.sensorData| <= |after.sensorData| && after.sensorData[..|db.sensorData|] == db.sensorData
      && |db.userCommands| <= |after.userCommands| && after.userCommands[..|db.userCommands|] == db.userCommands
    decreases |topic| - from
  {
    if from < |topic| {
      var h := Handle(names, db, topic[from], clock(from), ids(from));
      HandleAppends(names, db, topic[from], clock(from), ids(from));
      if h.Some? {
        RunAppends(names, h.value, topic, from + 1, clock, ids);
        var after := Run(names, h.value, topic, from + 1, clock, ids).0;
        assert after.sensorData[..|db.sensorData|] == h.value.sensorData[..|db.sensorData|];
        assert after.userCommands[..|db.userCommands|] == h.value.userCommands[..|db.userCommands|];
      }
    }
  }

  /**
   * A message that does not decode, or lacks `payload` or `type`, ends the
   * loop at once: nothing is stored and its offset is not committed.
   */
  lemma UnreadableMessageNotCommitted(names: TypeNames, db: Tables, topic: seq<Message>, from: nat,
                                      clock: nat -> DateTime, ids: nat -> string)
    requires from < |topic|
    requires topic[from].Garbled? || Get(topic[from].value, "payload").None? || Get(topic[from].value, "type").None?
    ensures Run(names, db, topic, from, clock, ids) == (db, from)
  {
  }

  /** A message of any type other than the two dispatched ones stores nothing and is committed. */
  lemma OtherTypesSkipped(names: TypeNames, db: Tables, m: Message, now: DateTime, freshId: string)
    requires m.Encoded? && Get(m.value, "payload").Some? && Get(m.value, "type").Some?
    requires Get(m.value, "type").value != Text(names.sensor) && Get(m.value, "type").value != Text(names.command)
    ensures Handle(names, db, m, now, freshId) == Some(db)
  {
  }

  /**
   * The Storage service's consumer: the database it writes to, the two type
   * strings it dispatches on (ConsumedTypes in the service) and its
   * committed offset.
   */
  class Consumer {
    const db: Database
    const names: TypeNames
    var committed: nat

    constructor (db: Database, names: TypeNames, committed: nat)
      ensures this.db == db && this.names == names && this.committed == committed
    {
      this.db := db;
      this.names := names;
      this.committed := committed;
    }

    /**
     * process_messages over the messages from the committed offset to the end
     * of `topic`: each one is handled and then committed; the first one whose
     * handling raises ends the loop uncommitted.
     */
    method ProcessMessages(topic: seq<Message>, clock: nat -> DateTime, ids: nat -> string)
      requires committed <= |topic|
      modifies this, db
      ensures (db.State(), committed) == Run(names, old(db.State()), topic, old(committed), clock, ids)
    {
      var i := committed;
      while i < |topic|
        invariant committed == i <= |topic|
        invariant Run(names, old(db.State()), topic, old(committed), clock, ids)
                  == Run(names, db.State(), topic, i, clock, ids)
        decreases |topic| - i
      {
        var msg := topic[i];
        if msg.Garbled? {
          return;
        }
        var payload := Get(msg.value, "payload");
        if payload.None? {
          return;
        }
        var ty := Get(msg.value, "type");
        if ty.None? {
          return;
        }
        if ty.value == Text(names.sensor) {
          var created := db.ReceiveSensorData(payload.value, clock(i), ids(i));
          if !created {
            return;
          }
        } else if ty.value == Text(names.command) {
          var created := db.ReceiveUserCommand(payload.value, clock(i), ids(i));
          if !created {
            return;
          }
        }
        committed := i + 1;
        i := i + 1;
      }
    }
  }
}
