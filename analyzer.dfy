/**
 * The replay reader (Analyzer/app.py): each request rescans the whole topic
 * from its first message, either to return the payload found at one position
 * or to count the messages of each type.
 */
module Analyzer {
  import opened Wrappers
  import opened Json
  import Receiver

  /** An HTTP answer: status code and JSON body. */
  datatype Response = Response(status: int, body: Value)

  function MessageBody(message: string): Value {
    Object(map["message" := Text(message)])
  }

  /** The decoded message, or None when decoding raises. */
  function Decode(m: Message): Option<Value> {
    if m.Encoded? then Some(m.value) else None
  }

  /** `msg['type']` of a message: None when decoding or the lookup raises. */
  function TypeOf(m: Message): Option<Value> {
    var v :- Decode(m);
    Get(v, "type")
  }

  /**
   * get_event_from_kafka(event_type, index): `index` is compared with the
   * position of each message in the whole topic, and only the message at
   * that position is decoded.
   */
  method GetEventFromKafka(topic: seq<Message>, eventType: string, index: int) returns (r: Response)
    ensures !(0 <= index < |topic|) ==> r == Response(404, MessageBody("Not Found"))
    ensures 0 <= index < |topic| ==>
      var m := topic[index];
      if TypeOf(m).None? then r == Response(500, MessageBody("Error retrieving message"))
      else if TypeOf(m).value != Text(eventType) then r == Response(404, MessageBody("Not Found"))
      else if Get(m.value, "payload").None? then r == Response(500, MessageBody("Error retrieving message"))
      else r == Response(200, Get(m.value, "payload").value)
  {
    for idx := 0 to |topic|
      invariant 0 <= index < idx ==> TypeOf(topic[index]).Some? && TypeOf(topic[index]).value != Text(eventType)
    {
      if idx == index {
        var msg := topic[idx];
        if msg.Garbled? {
          return Response(500, MessageBody("Error retrieving message"));
        }
        var ty := Get(msg.value, "type");
        if ty.None? {
          return Response(500, MessageBody("Error retrieving message"));
        }
        if ty.value == Text(eventType) {
          var payload := Get(msg.value, "payload");
          if payload.None? {
            return Response(500, MessageBody("Error retrieving message"));
          }
          return Response(200, payload.value);
        }
      }
    }
    return Response(404, MessageBody("Not Found"));
  }

  /** get_sensor_data_reading(index). */
  method GetSensorDataReading(topic: seq<Message>, index: int) returns (r: Response)
    ensures r.status == 200 <==> 0 <= index < |topic| && TypeOf(topic[index]) == Some(Text("sensor_data"))
                                 && Get(topic[index].value, "payload").Some?
    ensures r.status == 200 ==> 0 <= index < |topic| && topic[index].Encoded?
                                && Get(topic[index].value, "payload").Some?
                                && r.body == Get(topic[index].value, "payload").value
    ensures r.status == 200 || r.status == 404 || r.status == 500
  {
    r := GetEventFromKafka(topic, "sensor_data", index);
  }

  /** get_user_command_reading(index). */
  method GetUserCommandReading(topic: seq<Message>, index: int) returns (r: Response)
    ensures r.status == 200 <==> 0 <= index < |topic| && TypeOf(topic[index]) == Some(Text("user_command"))
                                 && Get(topic[index].value, "payload").Some?
    ensures r.status == 200 ==> 0 <= index < |topic| && topic[index].Encoded?
                                && Get(topic[index].value, "payload").Some?
                                && r.body == Get(topic[index].value, "payload").value
    ensures r.status == 200 || r.status == 404 || r.status == 500
  {
    r := GetEventFromKafka(topic, "user_command", index);
  }

  // ------------------------------------------------------------------ stats

  /** Every message decodes and carries a `type`, so the stats scan does not raise. */
  predicate AllTyped(topic: seq<Message>) {
    forall i :: 0 <= i < |topic| ==> TypeOf(topic[i]).Some?
  }

  /** The number of messages whose type is the string `name`. */
  function CountType(topic: seq<Message>, name: string): (n: nat)
    ensures n <= |topic|
  {
    if topic == [] then 0
    else CountType(topic[..|topic| - 1], name) + (if TypeOf(topic[|topic| - 1]) == Some(Text(name)) then 1 else 0)
  }

  /** Types other than the two counted ones are ignored, so the two counts never exceed the topic. */
  lemma {:induction false} CountsWithinTopic(topic: seq<Message>)
    ensures CountType(topic, "sensor_data") + CountType(topic, "user_command") <= |topic|
  {
    if topic != [] {
      CountsWithinTopic(topic[..|topic| - 1]);
    }
  }

  /** A topic of messages of other types counts nothing. */
  lemma {:induction false} CountOfAbsentType(topic: seq<Message>, name: string)
    requires forall i :: 0 <= i < |topic| ==> TypeOf(topic[i]) != Some(Text(name))
    ensures CountType(topic, name) == 0
  {
    if topic != [] {
      CountOfAbsentType(topic[..|topic| - 1], name);
    }
  }

  function StatsBody(sensorData: nat, userCommands: nat): Value {
    Object(map["num_sensor_data" := Num(sensorData as real), "num_user_command" := Num(userCommands as real)])
  }

  /**
   * get_event_stats: a full scan counting the two types; any message that
   * cannot be decoded or has no type turns the whole answer into a 500.
   */
  method GetEventStats(topic: seq<Message>) returns (r: Response)
    ensures AllTyped(topic) ==>
      r == Response(200, StatsBody(CountType(topic, "sensor_data"), CountType(topic, "user_command")))
    ensures !AllTyped(topic) ==> r == Response(500, MessageBody("Error retrieving statistics"))
  {
    var numSensorData := 0;
    var numUserCommand := 0;
    for i := 0 to |topic|
      invariant AllTyped(topic[..i])
      invariant numSensorData == CountType(topic[..i], "sensor_data")
      invariant numUserCommand == CountType(topic[..i], "user_command")
    {
      assert topic[..i + 1][..i] == topic[..i];
      var msg := topic[i];
      if msg.Garbled? {
        return Response(500, MessageBody("Error retrieving statistics"));
      }
      var ty := Get(msg.value, "type");
      if ty.None? {
        return Response(500, MessageBody("Error retrieving statistics"));
      }
      if ty.value == Text("sensor_data") {
        numSensorData := numSensorData + 1;
      } else if ty.value == Text("user_command") {
        numUserCommand := numUserCommand + 1;
      }
    }
    assert topic[..|topic|] == topic;
    return Response(200, StatsBody(numSensorData, numUserCommand));
  }

  /** Counting a topic the gateway wrote to: each accepted request adds one to its own type's count. */
  lemma {:induction false} CountAfterProduce(topic: seq<Message>, kind: Receiver.EventKind,
                                             datetime: string, payload: map<string, Value>)
    ensures var grown := topic + [Encoded(Receiver.Envelope(kind, datetime, payload))];
      && CountType(grown, Receiver.TypeName(kind)) == CountType(topic, Receiver.TypeName(kind)) + 1
      && forall other :: other != Receiver.TypeName(kind) ==> CountType(grown, other) == CountType(topic, other)
  {
    var grown := topic + [Encoded(Receiver.Envelope(kind, datetime, payload))];
    assert grown[..|grown| - 1] == topic;
  }
}
