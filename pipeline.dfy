/**
 * How the services meet on the event topic and over HTTP: what the Storage
 * consumer does with the envelopes the Receiver produces, and how the windows
 * of consecutive Processing ticks cover the stored rows.
 */
module Pipeline {
  import opened Wrappers
  import opened Json
  import opened Timestamps
  import Receiver
  import opened Storage
  import Processing

  /** An envelope as the gateway produces it: its kind, its datetime stamp and its payload (trace_id included). */
  datatype Produced = Produced(kind: Receiver.EventKind, datetime: string, payload: map<string, Value>)

  function Published(e: Produced): Message {
    Encoded(Receiver.Envelope(e.kind, e.datetime, e.payload))
  }

  /** The topic the gateway writes, one message per accepted request. */
  function Topic(events: seq<Produced>): (t: seq<Message>)
    ensures |t| == |events|
    ensures forall i :: 0 <= i < |events| ==> t[i] == Published(events[i])
  {
    seq(|events|, i requires 0 <= i < |events| => Published(events[i]))
  }

  /** A payload that passed the gateway's validation. */
  predicate Accepted(e: Produced) {
    forall f :: f in Receiver.RequiredFields(e.kind) ==> f in e.payload
  }

  /** The payload keys that fill the columns a table declares NOT NULL. */
  function NotNullFields(kind: Receiver.EventKind): seq<string> {
    match kind
    case SensorData => ["sensorId", "temperature", "timestamp"]
    case UserCommand => ["userId", "targetDevice", "targetTemperature", "timestamp"]
  }

  /** An accepted event whose NOT NULL columns hold values, so that the database takes its row. */
  predicate Storable(e: Produced) {
    Accepted(e) && forall f :: f in NotNullFields(e.kind) && f in e.payload ==> e.payload[f] != Null
  }

  // ----------------------------------------------------- the gateway's topic

  /** One request to the gateway: kind, body, fresh trace id, clock reading, and whether produce raises. */
  datatype Request = Request(kind: Receiver.EventKind, body: map<string, Value>, traceId: string,
                             now: DateTime, produceFails: bool)

  /** The envelope a request is published as when it is answered 201. */
  function EventOf(q: Request): Produced
    requires Valid(q.now)
  {
    Produced(q.kind, FormatSeconds(q.now), q.body["trace_id" := Text(q.traceId)])
  }

  /** Publishing one more event appends its envelope to the topic. */
  lemma TopicAppend(events: seq<Produced>, e: Produced)
    ensures Topic(events + [e]) == Topic(events) + [Published(e)]
  {
    assert forall i :: 0 <= i < |events| ==> (events + [e])[i] == events[i];
  }

  /** A request answered 201 published exactly its own envelope, and its payload passed validation; any other answer published nothing. */
  lemma IngestPublishes(q: Request, producer: Option<Receiver.Producer>)
    requires Valid(q.now)
    ensures var r := Receiver.Ingest(q.kind, q.body, q.traceId, q.now, producer, q.produceFails);
      && (r.response.status == 201 ==> r.produced == [Published(EventOf(q))] && Accepted(EventOf(q)))
      && (r.response.status != 201 ==> r.produced == [])
  {
  }

  /** What a gateway with a fixed producer appends to the topic for a sequence of requests, by Ingest. */
  function GatewayAppends(requests: seq<Request>, producer: Option<Receiver.Producer>): (t: seq<Message>)
    requires forall i :: 0 <= i < |requests| ==> Valid(requests[i].now)
    ensures |t| <= |requests|
  {
    if requests == [] then []
    else
      var q := requests[|requests| - 1];
      GatewayAppends(requests[..|requests| - 1], producer)
        + Receiver.Ingest(q.kind, q.body, q.traceId, q.now, producer, q.produceFails).produced
  }

  /** The requests the gateway answered 201, as the envelopes it published. */
  function AcceptedEvents(requests: seq<Request>, producer: Option<Receiver.Producer>): (events: seq<Produced>)
    requires forall i :: 0 <= i < |requests| ==> Valid(requests[i].now)
    ensures |events| <= |requests|
  {
    if requests == [] then []
    else
      var q := requests[|requests| - 1];
      AcceptedEvents(requests[..|requests| - 1], producer)
        + (if Receiver.Ingest(q.kind, q.body, q.traceId, q.now, producer, q.produceFails).response.status == 201
           then [EventOf(q)] else [])
  }

  /**
   * The topic a gateway writes holds one envelope per request it answered
   * 201, in the order of the requests, and each of them passed validation.
   */
  lemma {:induction false} GatewayTopic(requests: seq<Request>, producer: Option<Receiver.Producer>)
    requires forall i :: 0 <= i < |requests| ==> Valid(requests[i].now)
    ensures GatewayAppends(requests, producer) == Topic(AcceptedEvents(requests, producer))
    ensures forall i :: 0 <= i < |AcceptedEvents(requests, producer)| ==> Accepted(AcceptedEvents(requests, producer)[i])
  {
    if requests != [] {
      var init := requests[..|requests| - 1];
      var q := requests[|requests| - 1];
      GatewayTopic(init, producer);
      IngestPublishes(q, producer);
      var r := Receiver.Ingest(q.kind, q.body, q.traceId, q.now, producer, q.produceFails);
      var before := AcceptedEvents(init, producer);
      if r.response.status == 201 {
        TopicAppend(before, EventOf(q));
      } else {
        assert AcceptedEvents(requests, producer) == before;
      }
    }
  }

  /** The number of events of one kind. */
  function CountKind(events: seq<Produced>, kind: Receiver.EventKind): (n: nat)
    ensures n <= |events|
  {
    if events == [] then 0
    else (if events[0].kind == kind then 1 else 0) + CountKind(events[1..], kind)
  }

  // ------------------------------------------------------------ the finding

  /**
   * The consumer as written dispatches on "sensor-data" and "user-command",
   * while the gateway writes "sensor_data" and "user_command": every gateway
   * envelope is committed and nothing is stored.
   */
  lemma {:induction false} GatewayEventsNeverStored(db: Tables, events: seq<Produced>, from: nat,
                                                   clock: nat -> DateTime, ids: nat -> string)
    requires from <= |events|
    ensures Run(ConsumedTypes, db, Topic(events), from, clock, ids) == (db, |events|)
    decreases |events| - from
  {
    if from < |events| {
      var e := events[from];
      assert Receiver.TypeName(e.kind) != ConsumedTypes.sensor && Receiver.TypeName(e.kind) != ConsumedTypes.command;
      OtherTypesSkipped(ConsumedTypes, db, Topic(events)[from], clock(from), ids(from));
      GatewayEventsNeverStored(db, events, from + 1, clock, ids);
    }
  }

  /** The type strings the consumer evidently means: the ones the gateway writes. */
  const CorrectedTypes := TypeNames(Receiver.TypeName(Receiver.SensorData), Receiver.TypeName(Receiver.UserCommand))

  /** With the corrected type strings, one storable gateway envelope adds one row to its kind's table, keeping the gateway's trace_id. */
  lemma HandleGatewayEvent(db: Tables, e: Produced, now: DateTime, freshId: string)
    requires db.available && db.Valid() && Storable(e)
    ensures var h := Handle(CorrectedTypes, db, Published(e), now, freshId);
      && h.Some? && h.value.Valid() && h.value.available
      && |h.value.sensorData| == |db.sensorData| + (if e.kind == Receiver.SensorData then 1 else 0)
      && |h.value.userCommands| == |db.userCommands| + (if e.kind == Receiver.UserCommand then 1 else 0)
      && (e.kind == Receiver.SensorData && "trace_id" in e.payload ==>
            h.value.sensorData[|db.sensorData|].traceId == e.payload["trace_id"])
      && (e.kind == Receiver.UserCommand && "trace_id" in e.payload ==>
            h.value.userCommands[|db.userCommands|].traceId == e.payload["trace_id"])
  {
    var body := Object(e.payload);
    assert Get(Published(e).value, "payload") == Some(body);
    if e.kind == Receiver.SensorData {
      StorableSensorPayload(e);
      StoreSensorAppendsRow(db, body, now, freshId);
    } else {
      StorableCommandPayload(e);
      StoreCommandAppendsRow(db, body, now, freshId);
    }
  }

  /** A storable sensor envelope's payload has the four columns and no null in a NOT NULL one. */
  lemma StorableSensorPayload(e: Produced)
    requires e.kind == Receiver.SensorData && Storable(e)
    ensures && "sensorId" in e.payload && "temperature" in e.payload && "timestamp" in e.payload && "location" in e.payload
            && e.payload["sensorId"] != Null && e.payload["temperature"] != Null && e.payload["timestamp"] != Null
  {
    var required, notNull := Receiver.RequiredFields(e.kind), NotNullFields(e.kind);
    assert required[0] == "temperature" && required[1] == "timestamp" && required[2] == "sensorId" && required[3] == "location";
    assert notNull[0] == "sensorId" && notNull[1] == "temperature" && notNull[2] == "timestamp";
  }

  /** A storable command envelope's payload has the four columns and no null in them. */
  lemma StorableCommandPayload(e: Produced)
    requires e.kind == Receiver.UserCommand && Storable(e)
    ensures && "userId" in e.payload && "targetDevice" in e.payload && "targetTemperature" in e.payload && "timestamp" in e.payload
            && e.payload["userId"] != Null && e.payload["targetDevice"] != Null
            && e.payload["targetTemperature"] != Null && e.payload["timestamp"] != Null
  {
    var required, notNull := Receiver.RequiredFields(e.kind), NotNullFields(e.kind);
    assert required[0] == "timestamp" && required[1] == "userId" && required[2] == "targetDevice" && required[3] == "targetTemperature";
    assert notNull[0] == "userId" && notNull[1] == "targetDevice" && notNull[2] == "targetTemperature" && notNull[3] == "timestamp";
  }

  /** A validated envelope with a null in a NOT NULL column makes the handler raise. */
  lemma NullColumnRaises(db: Tables, e: Produced, now: DateTime, freshId: string)
    requires Accepted(e) && !Storable(e)
    ensures Handle(CorrectedTypes, db, Published(e), now, freshId).None?
  {
    var body := Object(e.payload);
    assert Get(Published(e).value, "payload") == Some(body);
    var f :| f in NotNullFields(e.kind) && f in e.payload && e.payload[f] == Null;
    if e.kind == Receiver.SensorData {
      assert f == "sensorId" || f == "temperature" || f == "timestamp";
      NullSensorColumnRaises(db, e.payload, now, freshId);
    } else {
      assert f == "userId" || f == "targetDevice" || f == "targetTemperature" || f == "timestamp";
      NullCommandColumnRaises(db, e.payload, now, freshId);
    }
  }

  /**
   * So the corrected consumer stops at such an envelope without committing:
   * every restart delivers it again and nothing after it is stored.
   */
  lemma NullColumnStopsConsumer(db: Tables, events: seq<Produced>, from: nat,
                                clock: nat -> DateTime, ids: nat -> string)
    requires from < |events| && Accepted(events[from]) && !Storable(events[from])
    ensures Run(CorrectedTypes, db, Topic(events), from, clock, ids) == (db, from)
  {
    NullColumnRaises(db, events[from], clock(from), ids(from));
  }

  /**
   * With the corrected type strings, the consumer stores every gateway
   * envelope, one row per message in its kind's table, and commits the
   * whole topic.
   */
  lemma {:induction false} GatewayEventsStored(db: Tables, events: seq<Produced>, from: nat,
                                              clock: nat -> DateTime, ids: nat -> string)
    requires from <= |events| && db.available && db.Valid()
    requires forall i :: from <= i < |events| ==> Storable(events[i])
    ensures var (after, committed) := Run(CorrectedTypes, db, Topic(events), from, clock, ids);
      && committed == |events| && after.Valid()
      && |after.sensorData| == |db.sensorData| + CountKind(events[from..], Receiver.SensorData)
      && |after.userCommands| == |db.userCommands| + CountKind(events[from..], Receiver.UserCommand)
    decreases |events| - from
  {
    if from < |events| {
      HandleGatewayEvent(db, events[from], clock(from), ids(from));
      var next := Handle(CorrectedTypes, db, Topic(events)[from], clock(from), ids(from)).value;
      GatewayEventsStored(next, events, from + 1, clock, ids);
      assert events[from..][1..] == events[from + 1..];
    }
  }

  // ------------------------------------------- windows of consecutive ticks

  /**
   * Two consecutive ticks query [t0, t1) and [t1, t2) by their formatted
   * times; the sensor query answers both, and together they return each row
   * created in [t0, t2), to the second, exactly once.
   */
  lemma {:induction false} ConsecutiveTicksPartitionSensorRows(db: Database, t0: DateTime, t1: DateTime, t2: DateTime)
    requires Valid(t0) && Valid(t1) && Valid(t2) && db.available
    requires !Before(Truncate(t1), Truncate(t0)) && !Before(Truncate(t2), Truncate(t1))
    ensures var s0, s1, s2 := FormatSeconds(t0), FormatSeconds(t1), FormatSeconds(t2);
      var first, second := db.GetSensorDataReadings(s0, s1), db.GetSensorDataReadings(s1, s2);
      && first.Rows? && second.Rows?
      && multiset(first.rows) + multiset(second.rows)
         == multiset(Window(db.sensorData, SensorCreated, Truncate(t0), Truncate(t2)))
  {
    BoundsReadFormattedTimestamps(t0);
    BoundsReadFormattedTimestamps(t1);
    BoundsReadFormattedTimestamps(t2);
    SensorQueryAnswers(db, FormatSeconds(t0), FormatSeconds(t1), Truncate(t0), Truncate(t1));
    SensorQueryAnswers(db, FormatSeconds(t1), FormatSeconds(t2), Truncate(t1), Truncate(t2));
    WindowsPartition(db.sensorData, SensorCreated, Truncate(t0), Truncate(t1), Truncate(t2));
  }

  /** The same for the command query. */
  lemma {:induction false} ConsecutiveTicksPartitionCommandRows(db: Database, t0: DateTime, t1: DateTime, t2: DateTime)
    requires Valid(t0) && Valid(t1) && Valid(t2) && db.available
    requires !Before(Truncate(t1), Truncate(t0)) && !Before(Truncate(t2), Truncate(t1))
    ensures var s0, s1, s2 := FormatSeconds(t0), FormatSeconds(t1), FormatSeconds(t2);
      var first, second := db.GetUserCommandEvents(s0, s1), db.GetUserCommandEvents(s1, s2);
      && first.Rows? && second.Rows?
      && multiset(first.rows) + multiset(second.rows)
         == multiset(Window(db.userCommands, CommandCreated, Truncate(t0), Truncate(t2)))
  {
    BoundsReadFormattedTimestamps(t0);
    BoundsReadFormattedTimestamps(t1);
    BoundsReadFormattedTimestamps(t2);
    CommandQueryAnswers(db, FormatSeconds(t0), FormatSeconds(t1), Truncate(t0), Truncate(t1));
    CommandQueryAnswers(db, FormatSeconds(t1), FormatSeconds(t2), Truncate(t1), Truncate(t2));
    WindowsPartition(db.userCommands, CommandCreated, Truncate(t0), Truncate(t1), Truncate(t2));
  }

  // ------------------------------------------------ rows read by the ticks

  /**
   * The rows a window query returns carry the keys Processing folds: a row
   * whose stored temperature is a number is read as that number, any other
   * stored value makes the fold raise.
   */
  lemma StoredRowsFeedTheFold(sensor: SensorRow, command: CommandRow)
    requires Valid(sensor.dateCreated) && Valid(command.dateCreated)
    ensures Processing.Reading(SensorDict(sensor), "temperature")
            == (if sensor.temperature.Num? then Some(sensor.temperature.n) else None)
    ensures Processing.Reading(CommandDict(command), "target_temperature")
            == (if command.targetTemperature.Num? then Some(command.targetTemperature.n) else None)
  {
  }
}
