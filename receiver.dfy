/**
 * The ingestion gateway (Receiver/app.py): connects a producer to the event
 * topic with bounded retries, validates the required fields of an inbound
 * event, stamps it with a trace id, wraps it in an envelope and produces it.
 */
module Receiver {
  import opened Wrappers
  import opened Json
  import Timestamps

  /** Connection attempts made before giving up. */
  const MaxRetries: nat := 5
  /** Seconds slept between two attempts. */
  const RetryInterval: nat := 10

  /**
   * What one attempt (client, topic lookup, sync producer) does: it connects,
   * raises a KafkaException (caught and retried), or raises anything else
   * (not caught: the service fails to start).
   */
  datatype Attempt = Connected | KafkaError | OtherError

  /** The producer obtained on a given (0-based) attempt. */
  datatype Producer = Producer(attempt: nat)

  /** How startup ends: with a producer, with None after the last failure, or by raising. */
  datatype Startup = Ready(producer: Producer) | GaveUp | Crashed

  /**
   * initialize_kafka_client: attempt `attempt(i)` is the i-th connection
   * attempt; `sleeps` counts the RetryInterval pauses taken.
   */
  method InitializeKafkaClient(attempt: nat -> Attempt) returns (result: Startup, attempts: nat, sleeps: nat)
    ensures 1 <= attempts <= MaxRetries
    ensures forall i :: 0 <= i < attempts - 1 ==> attempt(i) == KafkaError
    ensures result.Ready? <==> attempt(attempts - 1) == Connected
    ensures result.Ready? ==> result.producer == Producer(attempts - 1)
    ensures result.Crashed? <==> attempt(attempts - 1) == OtherError
    ensures result.GaveUp? ==> attempts == MaxRetries
    ensures sleeps == attempts - 1
  {
    var retries := 0;
    sleeps := 0;
    while retries < MaxRetries
      invariant 0 <= retries < MaxRetries
      invariant sleeps == retries
      invariant forall i :: 0 <= i < retries ==> attempt(i) == KafkaError
      decreases MaxRetries - retries
    {
      match attempt(retries)
      case Connected =>
        return Ready(Producer(retries)), retries + 1, sleeps;
      case OtherError =>
        return Crashed, retries + 1, sleeps;
      case KafkaError =>
        retries := retries + 1;
        if retries < MaxRetries {
          sleeps := sleeps + 1;
        } else {
          return GaveUp, retries, sleeps;
        }
    }
    // The loop only ends through one of its returns.
    assert false;
    result, attempts := GaveUp, MaxRetries;
  }

  // ------------------------------------------------------------ validation

  /** The two kinds of event the gateway accepts. */
  datatype EventKind = SensorData | UserCommand

  /** The `type` written into the envelope. */
  function TypeName(kind: EventKind): string {
    match kind
    case SensorData => "sensor_data"
    case UserCommand => "user_command"
  }

  /** The required fields, in the order they are checked. */
  function RequiredFields(kind: EventKind): seq<string> {
    match kind
    case SensorData => ["temperature", "timestamp", "sensorId", "location"]
    case UserCommand => ["timestamp", "userId", "targetDevice", "targetTemperature"]
  }

  /** The first field of `required`, in list order, that `body` lacks. */
  function FirstMissing(required: seq<string>, body: map<string, Value>): (r: Option<string>)
    ensures r.None? <==> forall f :: f in required ==> f in body
    ensures r.Some? ==> exists i :: 0 <= i < |required| && required[i] == r.value
                          && r.value !in body && forall j :: 0 <= j < i ==> required[j] in body
  {
    if required == [] then None
    else if required[0] !in body then Some(required[0])
    else
      var r := FirstMissing(required[1..], body);
      assert forall f :: f in required[1..] ==> f in required;
      if r.Some? then
        var i :| 1 <= i + 1 < |required| && required[1..][i] == r.value && r.value !in body
                 && forall j :: 0 <= j < i ==> required[1..][j] in body;
        assert required[i + 1] == r.value && forall j :: 0 <= j < i + 1 ==> required[j] in body;
        r
      else
        r
  }

  /** The validation loop: the first required field missing from `body`. */
  method MissingField(required: seq<string>, body: map<string, Value>) returns (missing: Option<string>)
    ensures missing == FirstMissing(required, body)
  {
    for k := 0 to |required|
      invariant FirstMissing(required, body) == FirstMissing(required[k..], body)
    {
      assert required[k..][1..] == required[k + 1..];
      if required[k] !in body {
        return Some(required[k]);
      }
    }
    return None;
  }

  // -------------------------------------------------------------- ingestion

  /** An HTTP answer: status code and JSON body (NoContent is Null). */
  datatype Response = Response(status: int, body: Value)

  function ErrorBody(message: string): Value {
    Object(map["error" := Text(message)])
  }

  /** The envelope produced for an accepted event, as its consumers decode it. */
  function Envelope(kind: EventKind, datetime: string, payload: map<string, Value>): Value {
    Object(map["type" := Text(TypeName(kind)), "datetime" := Text(datetime), "payload" := Object(payload)])
  }

  /** What one request leads to: the answer and the messages appended to the topic. */
  datatype Ingestion = Ingestion(response: Response, produced: seq<Message>)

  /**
   * receive_sensor_data / receive_user_command: validate, attach the fresh
   * trace id, check the producer, build the envelope (datetime stamped with
   * the clock reading `now`) and produce it once.
   */
  function Ingest(kind: EventKind, body: map<string, Value>, traceId: string, now: Timestamps.DateTime,
                  producer: Option<Producer>, produceFails: bool): (r: Ingestion)
    requires Timestamps.Valid(now)
    ensures r.response.status in {201, 400, 500}
    ensures |r.produced| <= 1 && (r.produced != [] <==> r.response.status == 201)
  {
    match FirstMissing(RequiredFields(kind), body)
    case Some(field) => Ingestion(Response(400, ErrorBody("Missing key: " + field)), [])
    case None =>
      var payload := body["trace_id" := Text(traceId)];
      if producer.None? then Ingestion(Response(500, ErrorBody("Kafka unavailable")), [])
      else if produceFails then Ingestion(Response(500, ErrorBody("Failed to produce event")), [])
      else Ingestion(Response(201, Null), [Encoded(Envelope(kind, Timestamps.FormatSeconds(now), payload))])
  }

  /** A request missing a required field is answered 400 naming the first one missing, and nothing is produced. */
  lemma RejectsFirstMissingField(kind: EventKind, body: map<string, Value>, traceId: string,
                                 now: Timestamps.DateTime, producer: Option<Producer>, produceFails: bool, i: nat)
    requires Timestamps.Valid(now)
    requires i < |RequiredFields(kind)| && RequiredFields(kind)[i] !in body
    requires forall j :: 0 <= j < i ==> RequiredFields(kind)[j] in body
    ensures var r := Ingest(kind, body, traceId, now, producer, produceFails);
      r.response == Response(400, ErrorBody("Missing key: " + RequiredFields(kind)[i])) && r.produced == []
  {
    var required := RequiredFields(kind);
    var m := FirstMissing(required, body);
    var k :| 0 <= k < |required| && required[k] == m.value && m.value !in body
             && forall j :: 0 <= j < k ==> required[j] in body;
    assert !(k < i) && !(i < k);
  }

  /** Validation comes first; a valid request without a producer is answered 500 and produces nothing. */
  lemma NoProducerAfterValidation(kind: EventKind, body: map<string, Value>, traceId: string,
                                  now: Timestamps.DateTime, produceFails: bool)
    requires Timestamps.Valid(now)
    requires forall f :: f in RequiredFields(kind) ==> f in body
    ensures var r := Ingest(kind, body, traceId, now, None, produceFails);
      r.response == Response(500, ErrorBody("Kafka unavailable")) && r.produced == []
  {
  }

  /**
   * A request is answered 201 exactly when all fields are present, a producer
   * exists and produce succeeds; then exactly one envelope of the request's
   * type is produced whose payload is the body with trace_id set and every
   * other field unchanged.
   */
  lemma AcceptedRequestProducesOneEnvelope(kind: EventKind, body: map<string, Value>, traceId: string,
                                           now: Timestamps.DateTime, producer: Option<Producer>, produceFails: bool)
    requires Timestamps.Valid(now)
    ensures var r := Ingest(kind, body, traceId, now, producer, produceFails);
      && (r.response.status == 201 <==>
            (forall f :: f in RequiredFields(kind) ==> f in body) && producer.Some? && !produceFails)
      && |r.produced| <= 1
      && (r.response.status == 201 ==>
            && |r.produced| == 1
            && var v := r.produced[0].value;
            && Get(v, "type") == Some(Text(TypeName(kind)))
            && Get(v, "payload").Some? && Get(v, "payload").value.Object?
            && var p := Get(v, "payload").value.fields;
            && p.Keys == body.Keys + {"trace_id"}
            && p["trace_id"] == Text(traceId)
            && forall f :: f in body && f != "trace_id" ==> p[f] == body[f])
      && (r.response.status != 201 ==> r.produced == [])
  {
  }

  /** A failing produce is answered 500 and leaves nothing on the topic. */
  lemma ProduceFailureReported(kind: EventKind, body: map<string, Value>, traceId: string,
                               now: Timestamps.DateTime, producer: Producer)
    requires Timestamps.Valid(now)
    requires forall f :: f in RequiredFields(kind) ==> f in body
    ensures var r := Ingest(kind, body, traceId, now, Some(producer), true);
      r.response == Response(500, ErrorBody("Failed to produce event")) && r.produced == []
  {
  }

  /** The running Receiver service: its producer (None if startup gave up) and the topic it writes to. */
  class Gateway {
    var producer: Option<Producer>
    var topic: seq<Message>

    constructor (producer: Option<Producer>, topic: seq<Message>)
      ensures this.producer == producer && this.topic == topic
    {
      this.producer := producer;
      this.topic := topic;
    }

    /** The shared handler body: the request's answer, and the topic grows by what was produced. */
    method Receive(kind: EventKind, body: map<string, Value>, traceId: string,
                   now: Timestamps.DateTime, produceFails: bool) returns (r: Response)
      requires Timestamps.Valid(now)
      modifies this
      ensures producer == old(producer)
      ensures var result := Ingest(kind, body, traceId, now, old(producer), produceFails);
        r == result.response && topic == old(topic) + result.produced
    {
      var missing := MissingField(RequiredFields(kind), body);
      if missing.Some? {
        return Response(400, ErrorBody("Missing key: " + missing.value));
      }
      var payload := body["trace_id" := Text(traceId)];
      if producer.None? {
        return Response(500, ErrorBody("Kafka unavailable"));
      }
      var message := Encoded(Envelope(kind, Timestamps.FormatSeconds(now), payload));
      if produceFails {
        return Response(500, ErrorBody("Failed to produce event"));
      }
      topic := topic + [message];
      return Response(201, Null);
    }

    /** receive_sensor_data. */
    method ReceiveSensorData(body: map<string, Value>, traceId: string,
                             now: Timestamps.DateTime, produceFails: bool) returns (r: Response)
      requires Timestamps.Valid(now)
      modifies this
      ensures producer == old(producer)
      ensures var result := Ingest(SensorData, body, traceId, now, old(producer), produceFails);
        r == result.response && topic == old(topic) + result.produced
    {
      r := Receive(SensorData, body, traceId, now, produceFails);
    }

    /** receive_user_command. */
    method ReceiveUserCommand(body: map<string, Value>, traceId: string,
                              now: Timestamps.DateTime, produceFails: bool) returns (r: Response)
      requires Timestamps.Valid(now)
      modifies this
      ensures producer == old(producer)
      ensures var result := Ingest(UserCommand, body, traceId, now, old(producer), produceFails);
        r == result.response && topic == old(topic) + result.produced
    {
      r := Receive(UserCommand, body, traceId, now, produceFails);
    }
  }
}
