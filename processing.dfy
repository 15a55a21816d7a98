/**
 * The periodic aggregator (Processing/app.py): each tick reads the stats file,
 * asks the storage service for the events created since the stored watermark,
 * folds their count and maximum into the record and writes it back with the
 * watermark moved to the tick's time.
 */
module Processing {
  import opened Wrappers
  import opened Json
  import opened Timestamps

  /** The record kept in the stats file. */
  datatype Stats = Stats(numSensorDataEvents: nat, maxTemperature: real,
                         numUserCommands: nat, maxTargetTemperature: real,
                         lastUpdated: string)

  /** The record written when no stats file exists: zeros, stamped with the clock's isoformat(). */
  function InitialStats(initTime: DateTime): Stats
    requires Valid(initTime)
  {
    Stats(0, 0.0, 0, 0.0, IsoFormat(initTime))
  }

  /**
   * What a query to the storage service gives: `requests.get` raised, or an
   * answer with its status and its body decoded as JSON (None when `.json()`
   * raises).
   */
  datatype Reply = Raised | Reply(status: int, body: Option<Value>)

  /** A query for a window given as (start_timestamp, end_timestamp). */
  type Query = (string, string) -> Reply

  // ------------------------------------------------------------- the fold

  /** Python's max(a, b) on two numbers. */
  function Max(a: real, b: real): (m: real)
    ensures m >= a && m >= b && (m == a || m == b)
  {
    if b > a then b else a
  }

  /**
   * event.get(key, 0) as a number: 0 when an object lacks the key; None when
   * the event is no object (AttributeError) or the value is no number
   * (max raises TypeError).
   */
  function Reading(event: Value, key: string): Option<real> {
    if !event.Object? then None
    else if key !in event.fields then Some(0.0)
    else if event.fields[key].Num? then Some(event.fields[key].n)
    else None
  }

  /** The number of leading events whose reading succeeds. */
  function ReadablePrefix(events: seq<Value>, key: string): (k: nat)
    ensures k <= |events|
    ensures forall i :: 0 <= i < k ==> Reading(events[i], key).Some?
    ensures k < |events| ==> Reading(events[k], key).None?
  {
    if events == [] || Reading(events[0], key).None? then 0
    else
      var k := ReadablePrefix(events[1..], key);
      assert forall i :: 1 <= i < k + 1 ==> events[i] == events[1..][i - 1];
      1 + k
  }

  /** The count and maximum after a fold, and whether the fold raised. */
  datatype Fold = Fold(count: nat, max: real, raised: bool)

  /**
   * The loop over the events: each one first adds one to the count, then
   * raises the maximum to its reading; an unreadable event ends the loop
   * with the count already incremented.
   */
  function FoldSpec(count: nat, m: real, events: seq<Value>, key: string): (f: Fold)
    ensures count <= f.count <= count + |events| && f.max >= m
    ensures f.count == count <==> events == []
    decreases |events|
  {
    if events == [] then Fold(count, m, false)
    else match Reading(events[0], key)
      case None => Fold(count + 1, m, true)
      case Some(x) => FoldSpec(count + 1, Max(m, x), events[1..], key)
  }

  /**
   * A fold raises exactly when some event is unreadable; it counts every
   * event up to and including the first unreadable one; its maximum covers
   * the previous maximum and every reading taken, and is one of them.
   */
  lemma {:induction false} FoldSpecLaws(count: nat, m: real, events: seq<Value>, key: string)
    ensures var f := FoldSpec(count, m, events, key);
      var k := ReadablePrefix(events, key);
      && (f.raised <==> k < |events|)
      && f.count == count + k + (if f.raised then 1 else 0)
      && f.max >= m
      && (forall i :: 0 <= i < k ==> f.max >= Reading(events[i], key).value)
      && (f.max == m || exists i :: 0 <= i < k && Reading(events[i], key) == Some(f.max))
    decreases |events|
  {
    if events != [] && Reading(events[0], key).Some? {
      var x := Reading(events[0], key).value;
      var tail := events[1..];
      FoldSpecLaws(count + 1, Max(m, x), tail, key);
      var f := FoldSpec(count, m, events, key);
      var k := ReadablePrefix(events, key);
      assert forall i :: 1 <= i < k ==> events[i] == tail[i - 1];
      if f.max != m && f.max != x {
        var i :| 0 <= i < k - 1 && Reading(tail[i], key) == Some(f.max);
        assert Reading(events[i + 1], key) == Some(f.max);
      }
    }
  }

  /** The for loop over the events of one answer. */
  method FoldEvents(count: nat, max: real, events: seq<Value>, key: string) returns (f: Fold)
    ensures f == FoldSpec(count, max, events, key)
  {
    var n, m := count, max;
    for i := 0 to |events|
      invariant FoldSpec(count, max, events, key) == FoldSpec(n, m, events[i..], key)
    {
      assert events[i..][1..] == events[i + 1..];
      n := n + 1;
      var reading := Reading(events[i], key);
      if reading.None? {
        return Fold(n, m, true);
      }
      m := Max(m, reading.value);
    }
    return Fold(n, m, false);
  }

  /**
   * Iterating a decoded answer: an array yields its events; an object yields
   * its keys and a string its characters, so the first one is counted and
   * then fails; a number or null cannot be measured with len and fails at once.
   */
  function FoldBodySpec(count: nat, m: real, body: Value, key: string): Fold {
    match body
    case Array(events) => FoldSpec(count, m, events, key)
    case Object(fields) => if fields == map[] then Fold(count, m, false) else Fold(count + 1, m, true)
    case Text(s) => if s == "" then Fold(count, m, false) else Fold(count + 1, m, true)
    case _ => Fold(count, m, true)
  }

  /** The fold applied to a 200 answer: a body that is no JSON raises before any event is counted. */
  function FoldReplySpec(count: nat, m: real, reply: Reply, key: string): Fold {
    if reply.Reply? && reply.body.Some? then FoldBodySpec(count, m, reply.body.value, key)
    else Fold(count, m, true)
  }

  /** A 200 answer holding readable events: the fold counts them all and ends at their largest reading or the old maximum. */
  lemma {:induction false} ReadableFoldLaws(count: nat, m: real, reply: Reply, events: seq<Value>, key: string)
    requires reply == Reply(200, Some(Array(events)))
    requires forall i :: 0 <= i < |events| ==> Reading(events[i], key).Some?
    ensures var f := FoldReplySpec(count, m, reply, key);
      && !f.raised && f.count == count + |events| && f.max >= m
      && (forall i :: 0 <= i < |events| ==> f.max >= Reading(events[i], key).value)
      && (f.max == m || exists i :: 0 <= i < |events| && Reading(events[i], key) == Some(f.max))
  {
    FoldSpecLaws(count, m, events, key);
    assert ReadablePrefix(events, key) == |events|;
  }

  /** Whatever the answer, a fold never lowers the count or the maximum. */
  lemma FoldReplyMonotone(count: nat, m: real, reply: Reply, key: string)
    ensures var f := FoldReplySpec(count, m, reply, key); f.count >= count && f.max >= m
  {
    if reply.Reply? && reply.body.Some? && reply.body.value.Array? {
      FoldSpecLaws(count, m, reply.body.value.items, key);
    }
  }

  method FoldReply(count: nat, max: real, reply: Reply, key: string) returns (f: Fold)
    ensures f == FoldReplySpec(count, max, reply, key)
  {
    if reply.Raised? || reply.body.None? {
      return Fold(count, max, true);
    }
    match reply.body.value
    case Array(events) =>
      f := FoldEvents(count, max, events, key);
    case Object(fields) =>
      f := if fields == map[] then Fold(count, max, false) else Fold(count + 1, max, true);
    case Text(s) =>
      f := if s == "" then Fold(count, max, false) else Fold(count + 1, max, true);
    case _ =>
      f := Fold(count, max, true);
  }

  // -------------------------------------------------------------- the tick

  /** The record a tick starts from: the stored one, or the initial one it writes first. */
  function Current(stored: Option<Stats>, initTime: DateTime): Stats
    requires Valid(initTime)
  {
    if stored.Some? then stored.value else InitialStats(initTime)
  }

  /**
   * The window a tick queries: the stored watermark read with fromisoformat
   * and written back to the second, and the tick's time to the second; None
   * when the watermark does not parse.
   */
  function QueryWindow(stats: Stats, now: DateTime): (r: Option<(string, string)>)
    requires Valid(now)
    ensures r.Some? <==> ParseIso(stats.lastUpdated).Some?
    ensures r.Some? ==> && ParseIso(r.value.0) == Some(Truncate(ParseIso(stats.lastUpdated).value))
                        && ParseIso(r.value.1) == Some(Truncate(now))
  {
    var last :- ParseIso(stats.lastUpdated);
    ParseIsoFormatSeconds(last);
    ParseIsoFormatSeconds(now);
    Some((FormatSeconds(last), FormatSeconds(now)))
  }

  /** True when a query's answer ends the tick before the record is written. */
  predicate Aborts(reply: Reply) {
    reply.Reply? && reply.status != 200
  }

  /**
   * populate_stats: the contents of the stats file after one tick. An
   * unparsable watermark or a non-200 answer to either query leaves the file
   * as the tick found it (or as it initialised it); otherwise both folds are
   * written with the watermark set to the tick's time.
   */
  function Tick(stored: Option<Stats>, initTime: DateTime, now: DateTime,
                sensors: Query, commands: Query): (after: Stats)
    requires Valid(initTime) && Valid(now)
    ensures var before := Current(stored, initTime);
      && after.numSensorDataEvents >= before.numSensorDataEvents && after.maxTemperature >= before.maxTemperature
      && after.numUserCommands >= before.numUserCommands && after.maxTargetTemperature >= before.maxTargetTemperature
      && (after.lastUpdated == before.lastUpdated || after.lastUpdated == FormatSeconds(now))
  {
    var stats := Current(stored, initTime);
    match QueryWindow(stats, now)
    case None => stats
    case Some((start, end)) =>
      var sensorReply := sensors(start, end);
      if Aborts(sensorReply) then stats
      else
        var commandReply := commands(start, end);
        if Aborts(commandReply) then stats
        else
          var s := FoldReplySpec(stats.numSensorDataEvents, stats.maxTemperature, sensorReply, "temperature");
          var c := FoldReplySpec(stats.numUserCommands, stats.maxTargetTemperature, commandReply, "target_temperature");
          FoldReplyMonotone(stats.numSensorDataEvents, stats.maxTemperature, sensorReply, "temperature");
          FoldReplyMonotone(stats.numUserCommands, stats.maxTargetTemperature, commandReply, "target_temperature");
          Stats(s.count, s.max, c.count, c.max, end)
  }

  /** A missing file is a file holding the initial record. */
  lemma FirstTickStartsFromInitialRecord(initTime: DateTime, now: DateTime, sensors: Query, commands: Query)
    requires Valid(initTime) && Valid(now)
    ensures Tick(None, initTime, now, sensors, commands)
            == Tick(Some(InitialStats(initTime)), initTime, now, sensors, commands)
  {
  }

  /** The first tick's window starts at the initialisation time, to the second. */
  lemma {:induction false} FirstWindowStartsAtInitialisation(initTime: DateTime, now: DateTime)
    requires Valid(initTime) && Valid(now)
    ensures QueryWindow(InitialStats(initTime), now) == Some((FormatSeconds(initTime), FormatSeconds(now)))
  {
    ParseIsoIsoFormat(initTime);
  }

  /** An unparsable watermark ends the tick before any query, leaving the record as it was. */
  lemma UnparsableWatermarkStops(stored: Option<Stats>, initTime: DateTime, now: DateTime,
                                 sensors: Query, commands: Query)
    requires Valid(initTime) && Valid(now)
    requires ParseIso(Current(stored, initTime).lastUpdated).None?
    ensures Tick(stored, initTime, now, sensors, commands) == Current(stored, initTime)
  {
  }

  // The lemmas below take the stored watermark as isoformat(last): the
  // initial record writes isoformat(initTime), and a completed tick writes
  // format_timestamp(now), which is isoformat of `now` without microseconds
  // (Timestamps.FormatSecondsIsIsoFormat).

  /**
   * A non-200 answer to either query leaves the record unchanged; in
   * particular, a failing second query discards the first query's fold, and
   * a failing first query makes the second irrelevant.
   */
  lemma FailedQueryLeavesRecord(stored: Option<Stats>, initTime: DateTime, now: DateTime,
                                sensors: Query, commands: Query, last: DateTime)
    requires Valid(initTime) && Valid(now)
    requires Valid(last) && Current(stored, initTime).lastUpdated == IsoFormat(last)
    requires Aborts(sensors(FormatSeconds(last), FormatSeconds(now))) || Aborts(commands(FormatSeconds(last), FormatSeconds(now)))
    ensures Tick(stored, initTime, now, sensors, commands) == Current(stored, initTime)
  {
    ParseIsoIsoFormat(last);
  }

  /** The record a tick not stopped by an abort writes: both folds, and the tick's time as the watermark. */
  lemma CompletedTickWrites(stored: Option<Stats>, initTime: DateTime, now: DateTime,
                            sensors: Query, commands: Query, last: DateTime)
    requires Valid(initTime) && Valid(now)
    requires Valid(last) && Current(stored, initTime).lastUpdated == IsoFormat(last)
    requires !Aborts(sensors(FormatSeconds(last), FormatSeconds(now))) && !Aborts(commands(FormatSeconds(last), FormatSeconds(now)))
    ensures var before := Current(stored, initTime);
      var start, end := FormatSeconds(last), FormatSeconds(now);
      var s := FoldReplySpec(before.numSensorDataEvents, before.maxTemperature, sensors(start, end), "temperature");
      var c := FoldReplySpec(before.numUserCommands, before.maxTargetTemperature, commands(start, end), "target_temperature");
      Tick(stored, initTime, now, sensors, commands) == Stats(s.count, s.max, c.count, c.max, end)
  {
    ParseIsoIsoFormat(last);
  }

  /**
   * A tick not stopped by an abort, even one whose queries raised, writes
   * the watermark as the tick's time, to the second, and never lowers a
   * count or a maximum.
   */
  lemma {:induction false} CompletedTickAdvances(stored: Option<Stats>, initTime: DateTime, now: DateTime,
                                                sensors: Query, commands: Query, last: DateTime)
    requires Valid(initTime) && Valid(now)
    requires Valid(last) && Current(stored, initTime).lastUpdated == IsoFormat(last)
    requires !Aborts(sensors(FormatSeconds(last), FormatSeconds(now))) && !Aborts(commands(FormatSeconds(last), FormatSeconds(now)))
    ensures var before := Current(stored, initTime);
      var after := Tick(stored, initTime, now, sensors, commands);
      && after.lastUpdated == FormatSeconds(now)
      && after.numSensorDataEvents >= before.numSensorDataEvents
      && after.maxTemperature >= before.maxTemperature
      && after.numUserCommands >= before.numUserCommands
      && after.maxTargetTemperature >= before.maxTargetTemperature
  {
    CompletedTickWrites(stored, initTime, now, sensors, commands, last);
    var before := Current(stored, initTime);
    FoldReplyMonotone(before.numSensorDataEvents, before.maxTemperature, sensors(FormatSeconds(last), FormatSeconds(now)), "temperature");
    FoldReplyMonotone(before.numUserCommands, before.maxTargetTemperature, commands(FormatSeconds(last), FormatSeconds(now)), "target_temperature");
  }

  /**
   * Two 200 answers holding arrays of readable events: each count grows by
   * the number of events, and each maximum becomes the largest of the old
   * maximum and the readings.
   */
  lemma {:induction false} TickCountsEvents(stored: Option<Stats>, initTime: DateTime, now: DateTime,
                                           sensors: Query, commands: Query, last: DateTime,
                                           sensorEvents: seq<Value>, commandEvents: seq<Value>)
    requires Valid(initTime) && Valid(now)
    requires Valid(last) && Current(stored, initTime).lastUpdated == IsoFormat(last)
    requires sensors(FormatSeconds(last), FormatSeconds(now)) == Reply(200, Some(Array(sensorEvents)))
    requires commands(FormatSeconds(last), FormatSeconds(now)) == Reply(200, Some(Array(commandEvents)))
    requires forall i :: 0 <= i < |sensorEvents| ==> Reading(sensorEvents[i], "temperature").Some?
    requires forall i :: 0 <= i < |commandEvents| ==> Reading(commandEvents[i], "target_temperature").Some?
    ensures var before := Current(stored, initTime);
      var after := Tick(stored, initTime, now, sensors, commands);
      && after.numSensorDataEvents == before.numSensorDataEvents + |sensorEvents|
      && after.numUserCommands == before.numUserCommands + |commandEvents|
      && after.maxTemperature >= before.maxTemperature
      && (forall i :: 0 <= i < |sensorEvents| ==> after.maxTemperature >= Reading(sensorEvents[i], "temperature").value)
      && (after.maxTemperature == before.maxTemperature
          || exists i :: 0 <= i < |sensorEvents| && Reading(sensorEvents[i], "temperature") == Some(after.maxTemperature))
      && after.maxTargetTemperature >= before.maxTargetTemperature
      && (forall i :: 0 <= i < |commandEvents| ==> after.maxTargetTemperature >= Reading(commandEvents[i], "target_temperature").value)
      && (after.maxTargetTemperature == before.maxTargetTemperature
          || exists i :: 0 <= i < |commandEvents| && Reading(commandEvents[i], "target_temperature") == Some(after.maxTargetTemperature))
      && after.lastUpdated == FormatSeconds(now)
  {
    CompletedTickWrites(stored, initTime, now, sensors, commands, last);
    var before := Current(stored, initTime);
    var start, end := FormatSeconds(last), FormatSeconds(now);
    ReadableFoldLaws(before.numSensorDataEvents, before.maxTemperature, sensors(start, end), sensorEvents, "temperature");
    ReadableFoldLaws(before.numUserCommands, before.maxTargetTemperature, commands(start, end), commandEvents, "target_temperature");
  }

  /**
   * When the storage service cannot be reached at all, the tick still writes
   * the record with the watermark moved on: the window's events are never
   * counted by a later tick.
   */
  lemma UnreachableStoreSkipsWindow(stored: Option<Stats>, initTime: DateTime, now: DateTime,
                                    sensors: Query, commands: Query, last: DateTime)
    requires Valid(initTime) && Valid(now)
    requires Valid(last) && Current(stored, initTime).lastUpdated == IsoFormat(last)
    requires sensors(FormatSeconds(last), FormatSeconds(now)) == Raised && commands(FormatSeconds(last), FormatSeconds(now)) == Raised
    ensures Tick(stored, initTime, now, sensors, commands)
            == Current(stored, initTime).(lastUpdated := FormatSeconds(now))
  {
    CompletedTickWrites(stored, initTime, now, sensors, commands, last);
  }

  /**
   * After a tick that wrote its watermark, the next tick's window starts
   * exactly where this tick's window ended.
   */
  lemma {:induction false} WindowsAreConsecutive(stored: Option<Stats>, initTime: DateTime, now: DateTime,
                                                sensors: Query, commands: Query, last: DateTime,
                                                later: DateTime)
    requires Valid(initTime) && Valid(now) && Valid(later)
    requires Valid(last) && Current(stored, initTime).lastUpdated == IsoFormat(last)
    requires !Aborts(sensors(FormatSeconds(last), FormatSeconds(now))) && !Aborts(commands(FormatSeconds(last), FormatSeconds(now)))
    ensures QueryWindow(Tick(stored, initTime, now, sensors, commands), later) == Some((FormatSeconds(now), FormatSeconds(later)))
  {
    ParseIsoIsoFormat(last);
    ParseIsoFormatSeconds(now);
    FormatSecondsIgnoresMicros(now);
  }

  // ---------------------------------------------------------- the service

  /** An HTTP answer: status code and JSON body. */
  datatype Response = Response(status: int, body: Value)

  /** The record as json.dump writes it. */
  function StatsJson(s: Stats): Value {
    Object(map["num_sensor_data_events" := Num(s.numSensorDataEvents as real),
               "max_temperature" := Num(s.maxTemperature),
               "num_user_commands" := Num(s.numUserCommands as real),
               "max_target_temperature" := Num(s.maxTargetTemperature),
               "last_updated" := Text(s.lastUpdated)])
  }

  /** The stats file: absent (None) or holding a record. */
  class StatsFile {
    var contents: Option<Stats>

    constructor (contents: Option<Stats>)
      ensures this.contents == contents
    {
      this.contents := contents;
    }

    /**
     * One scheduled run of populate_stats; `initTime` and `now` are the two
     * clock readings it takes, `sensors` and `commands` the two queries.
     */
    method PopulateStats(initTime: DateTime, now: DateTime, sensors: Query, commands: Query)
      requires Valid(initTime) && Valid(now)
      modifies this
      ensures contents == Some(Tick(old(contents), initTime, now, sensors, commands))
    {
      var stats: Stats;
      if contents.None? {
        stats := InitialStats(initTime);
        contents := Some(stats);
      } else {
        stats := contents.value;
      }
      var last := ParseIso(stats.lastUpdated);
      if last.None? {
        return;
      }
      var start := FormatSeconds(last.value);
      var end := FormatSeconds(now);

      var sensorReply := sensors(start, end);
      if Aborts(sensorReply) {
        return;
      }
      var s := FoldReply(stats.numSensorDataEvents, stats.maxTemperature, sensorReply, "temperature");
      stats := stats.(numSensorDataEvents := s.count, maxTemperature := s.max);

      var commandReply := commands(start, end);
      if Aborts(commandReply) {
        return;
      }
      var c := FoldReply(stats.numUserCommands, stats.maxTargetTemperature, commandReply, "target_temperature");
      stats := stats.(numUserCommands := c.count, maxTargetTemperature := c.max);

      stats := stats.(lastUpdated := end);
      contents := Some(stats);
    }

    /** get_stats: the stored record with 200, or 404 when there is no stats file. */
    function GetStats(): (r: Response)
      reads this
      ensures r.status == 200 <==> contents.Some?
      ensures contents.Some? ==> r.body == StatsJson(contents.value)
      ensures contents.None? ==> r == Response(404, Object(map["message" := Text("Statistics do not exist")]))
    {
      if contents.Some? then Response(200, StatsJson(contents.value))
      else Response(404, Object(map["message" := Text("Statistics do not exist")]))
    }
  }
}
