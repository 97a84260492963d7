/**
 * The MQTT request/reply client of the printer (tools/bambu_mqtt/bambu_mqtt.py).
 *
 * `BambuMQTT` numbers every request it publishes, routes each incoming report
 * either to the registered status callback (telemetry, `push_status`) or to
 * the reply queue, and answers a request with the oldest queued reply.
 *
 * The MQTT transport and its delivery thread are not modelled: an incoming
 * message is an explicit `OnMessage` call, a blocking `queue.get` is a
 * precondition that the queue is not empty, and a published request is
 * recorded in `published`. Callbacks and userdata objects are opaque
 * identities; a callback invocation is recorded in `deliveries`.
 */
module Mqtt {
  import opened Wrappers
  import opened Text
  import opened Json

  /** `{"print": fields}`, the envelope of every request and report. */
  function PrintMessage(fields: map<string, Value>): Value
  {
    Obj(map["print" := Obj(fields)])
  }

  /** `msg["print"][key]`, when the message has that shape. */
  function PrintField(m: Value, key: string): Option<Value>
  {
    if m.Obj? && "print" in m.fields && m.fields["print"].Obj? then Json.Get(m.fields["print"], key)
    else None
  }

  /** The `print` fields of a request with sequence number `seqId`, `command` and `param`. */
  function Request(seqId: nat, command: string, param: string): map<string, Value>
  {
    map["sequence_id" := Str(NatToString(seqId)), "command" := Str(command), "param" := Str(param)]
  }

  /** `run_raw_gcode(gcode)`. */
  function RawGcodeMessage(seqId: nat, gcode: string): (m: Value)
    ensures PrintField(m, "sequence_id") == Some(Str(NatToString(seqId)))
    ensures PrintField(m, "command") == Some(Str("gcode_line"))
    ensures PrintField(m, "param") == Some(Str(gcode))
    ensures PrintField(m, "user_id") == Some(Str("0"))
  {
    PrintMessage(Request(seqId, "gcode_line", gcode)["user_id" := Str("0")])
  }

  /** `print_gcode(url)`. */
  function GcodeFileMessage(seqId: nat, url: string): (m: Value)
    ensures PrintField(m, "sequence_id") == Some(Str(NatToString(seqId)))
    ensures PrintField(m, "command") == Some(Str("gcode_file"))
    ensures PrintField(m, "param") == Some(Str(url))
  {
    PrintMessage(Request(seqId, "gcode_file", url))
  }

  /** `stop_print`, `stop_print_no_reply`, `pause_print`, `resume_print`: a bare command. */
  function ControlMessage(seqId: nat, command: string): (m: Value)
    ensures PrintField(m, "sequence_id") == Some(Str(NatToString(seqId)))
    ensures PrintField(m, "command") == Some(Str(command))
    ensures PrintField(m, "param") == Some(Str(""))
  {
    PrintMessage(Request(seqId, command, ""))
  }

  function AmsArray(ams: seq<int>): (v: Value)
    ensures v.Arr? && |v.items| == |ams|
    ensures forall i :: 0 <= i < |ams| ==> v.items[i] == Num(ams[i])
  {
    Arr(seq(|ams|, i requires 0 <= i < |ams| => Num(ams[i])))
  }

  /** The plate's G-code inside the project archive. */
  function PlateParam(plate: int): string
  {
    "Metadata/plate_" + IntToString(plate) + ".gcode"
  }

  /** The keys of a `project_file` request: there is no task name among them. */
  const PROJECT_KEYS: set<string> := {
    "sequence_id", "command", "param", "project_id", "profile_id", "task_id", "subtask_id",
    "subtask_name", "file", "url", "md5", "timelapse", "bed_type", "bed_levelling", "flow_cali",
    "vibration_cali", "layer_inspect", "ams_mapping", "use_ams"}

  /**
   * `print_project(url, ams_mapping, plate_id, task_name, ...)`. The task name
   * (defaulted to the URL's base name) is computed but never sent, so it is
   * not a parameter here.
   */
  function ProjectMessage(seqId: nat, url: string, ams: seq<int>, plate: int, timelapse: bool,
                          bedLevelling: bool, flowCali: bool, vibrationCali: bool, layerInspect: bool): (m: Value)
    ensures PrintField(m, "sequence_id") == Some(Str(NatToString(seqId)))
  {
    PrintMessage(ProjectFields(seqId, url, ams, plate, timelapse, bedLevelling, flowCali, vibrationCali, layerInspect))
  }

  /** The `print` fields of a project request. */
  function ProjectFields(seqId: nat, url: string, ams: seq<int>, plate: int, timelapse: bool,
                         bedLevelling: bool, flowCali: bool, vibrationCali: bool, layerInspect: bool): map<string, Value>
  {
    Request(seqId, "project_file", PlateParam(plate)) + map[
      "project_id" := Str("0"), "profile_id" := Str("0"), "task_id" := Str("0"),
      "subtask_id" := Str("0"), "subtask_name" := Str(""), "file" := Str(""), "url" := Str(url),
      "md5" := Str(""), "timelapse" := Bool(timelapse), "bed_type" := Str("textured_plate"),
      "bed_levelling" := Bool(bedLevelling), "flow_cali" := Bool(flowCali),
      "vibration_cali" := Bool(vibrationCali), "layer_inspect" := Bool(layerInspect),
      "ams_mapping" := AmsArray(ams), "use_ams" := Bool(|ams| > 0)]
  }

  /** A project request prints plate `plate` of the archive. */
  lemma ProjectMessagePlate(seqId: nat, url: string, ams: seq<int>, plate: int, timelapse: bool,
      bedLevelling: bool, flowCali: bool, vibrationCali: bool, layerInspect: bool)
    ensures var m := ProjectMessage(seqId, url, ams, plate, timelapse, bedLevelling, flowCali, vibrationCali, layerInspect);
      && PrintField(m, "command") == Some(Str("project_file"))
      && PrintField(m, "param") == Some(Str(PlateParam(plate)))
  {
  }

  /** The AMS mapping is passed through, and the AMS is used exactly when the mapping is not empty. */
  lemma ProjectMessageAms(seqId: nat, url: string, ams: seq<int>, plate: int, timelapse: bool,
      bedLevelling: bool, flowCali: bool, vibrationCali: bool, layerInspect: bool)
    ensures var m := ProjectMessage(seqId, url, ams, plate, timelapse, bedLevelling, flowCali, vibrationCali, layerInspect);
      && PrintField(m, "use_ams") == Some(Bool(|ams| > 0))
      && PrintField(m, "ams_mapping") == Some(AmsArray(ams))
  {
  }

  /** The file URL and the time-lapse flag are passed through; the bed type is always the textured plate. */
  lemma ProjectMessageOptions(seqId: nat, url: string, ams: seq<int>, plate: int, timelapse: bool,
      bedLevelling: bool, flowCali: bool, vibrationCali: bool, layerInspect: bool)
    ensures var m := ProjectMessage(seqId, url, ams, plate, timelapse, bedLevelling, flowCali, vibrationCali, layerInspect);
      && PrintField(m, "url") == Some(Str(url))
      && PrintField(m, "bed_type") == Some(Str("textured_plate"))
      && PrintField(m, "timelapse") == Some(Bool(timelapse))
  {
  }

  /** The levelling, flow, vibration and layer-inspection flags are passed through. */
  lemma ProjectMessageCalibration(seqId: nat, url: string, ams: seq<int>, plate: int, timelapse: bool,
      bedLevelling: bool, flowCali: bool, vibrationCali: bool, layerInspect: bool)
    ensures var m := ProjectMessage(seqId, url, ams, plate, timelapse, bedLevelling, flowCali, vibrationCali, layerInspect);
      && PrintField(m, "bed_levelling") == Some(Bool(bedLevelling))
      && PrintField(m, "flow_cali") == Some(Bool(flowCali))
      && PrintField(m, "vibration_cali") == Some(Bool(vibrationCali))
      && PrintField(m, "layer_inspect") == Some(Bool(layerInspect))
  {
  }

  /** The project and profile ids are `"0"`. */
  lemma ProjectMessageIds(seqId: nat, url: string, ams: seq<int>, plate: int, timelapse: bool,
      bedLevelling: bool, flowCali: bool, vibrationCali: bool, layerInspect: bool)
    ensures var m := ProjectMessage(seqId, url, ams, plate, timelapse, bedLevelling, flowCali, vibrationCali, layerInspect);
      && PrintField(m, "project_id") == Some(Str("0"))
      && PrintField(m, "profile_id") == Some(Str("0"))
  {
  }

  /** The task and subtask ids are `"0"`. */
  lemma ProjectMessageTaskIds(seqId: nat, url: string, ams: seq<int>, plate: int, timelapse: bool,
      bedLevelling: bool, flowCali: bool, vibrationCali: bool, layerInspect: bool)
    ensures var m := ProjectMessage(seqId, url, ams, plate, timelapse, bedLevelling, flowCali, vibrationCali, layerInspect);
      && PrintField(m, "task_id") == Some(Str("0"))
      && PrintField(m, "subtask_id") == Some(Str("0"))
  {
  }

  /** The subtask name, the file and the checksum are empty. */
  lemma ProjectMessageBlanks(seqId: nat, url: string, ams: seq<int>, plate: int, timelapse: bool,
      bedLevelling: bool, flowCali: bool, vibrationCali: bool, layerInspect: bool)
    ensures var m := ProjectMessage(seqId, url, ams, plate, timelapse, bedLevelling, flowCali, vibrationCali, layerInspect);
      && PrintField(m, "subtask_name") == Some(Str(""))
      && PrintField(m, "file") == Some(Str(""))
      && PrintField(m, "md5") == Some(Str(""))
  {
  }

  /** The computed task name is not among the fields sent. */
  lemma ProjectMessageFields(seqId: nat, url: string, ams: seq<int>, plate: int, timelapse: bool,
                             bedLevelling: bool, flowCali: bool, vibrationCali: bool, layerInspect: bool)
    ensures var m := ProjectMessage(seqId, url, ams, plate, timelapse, bedLevelling, flowCali, vibrationCali, layerInspect);
      m.fields["print"].fields.Keys == PROJECT_KEYS
  {
  }

  /** Requests with different sequence numbers never coincide. */
  lemma SequenceIdsDistinguish(m: Value, n: Value, i: nat, j: nat)
    requires PrintField(m, "sequence_id") == Some(Str(NatToString(i)))
    requires PrintField(n, "sequence_id") == Some(Str(NatToString(j)))
    requires i != j
    ensures m != n
  {
    if m == n {
      NatToStringInjective(i, j);
    }
  }

  /**
   * How `__mqttc_on_message` sees a decoded payload: `Some(true)` for
   * telemetry (a truthy `print` whose `command` is `push_status`),
   * `Some(false)` for anything else it accepts, `None` when `.get` raises
   * (the payload, or a truthy `print`, is not an object).
   */
  function Classify(payload: Value): Option<bool>
  {
    if !payload.Obj? then None
    else match Json.Get(payload, "print")
      case None => Some(false)
      case Some(p) =>
        if !Truthy(p) then Some(false)
        else if !p.Obj? then None
        else Some(Json.Get(p, "command") == Some(Str("push_status")))
  }

  /** The registered status callback was called with this payload and userdata. */
  datatype Delivery = Delivery(callback: nat, payload: Value, userdata: Option<nat>)

  /** The fields of a `BambuMQTT`, as a value. */
  datatype ClientState = ClientState(
    sequenceId: nat,
    isConnecting: bool,
    connState: seq<bool>,
    internalQueue: seq<Value>,
    callback: Option<nat>,
    userdata: Option<nat>,
    published: seq<Value>,
    deliveries: seq<Delivery>)

  /** `conn_state = queue.Queue(maxsize=1)`. */
  const CONN_STATE_CAPACITY: nat := 1

  /**
   * The client's invariant: the counter is the number of requests published
   * and request `i` carries `str(i)`; the connection signal holds at most one
   * item, and none while a connection is awaited.
   */
  predicate Coherent(c: ClientState)
  {
    && c.sequenceId == |c.published|
    && (forall i :: 0 <= i < |c.published| ==>
          PrintField(c.published[i], "sequence_id") == Some(Str(NatToString(i))))
    && |c.connState| <= CONN_STATE_CAPACITY
    && (c.isConnecting ==> c.connState == [])
  }

  /**
   * One `__mqttc_on_message(payload)`: the new state, or `None` when the
   * handler raises before changing anything.
   */
  function OnMessageSpec(c: ClientState, payload: Value): Option<ClientState>
  {
    match Classify(payload)
    case None => None
    case Some(telemetry) =>
      var c1 := if telemetry && c.isConnecting
                then c.(connState := c.connState + [true], isConnecting := false)
                else c;
      if !telemetry then Some(c1.(internalQueue := c1.internalQueue + [payload]))
      else if c1.callback.Some? then
        Some(c1.(deliveries := c1.deliveries + [Delivery(c1.callback.value, payload, c1.userdata)]))
      else Some(c1)
  }

  /** Several messages routed in order, stopping at the first that raises. */
  function RouteAll(c: ClientState, payloads: seq<Value>): Option<ClientState>
    decreases |payloads|
  {
    if payloads == [] then Some(c)
    else match OnMessageSpec(c, payloads[0])
      case None => None
      case Some(c') => RouteAll(c', payloads[1..])
  }

  /** Routing a message keeps the client coherent. */
  lemma OnMessageKeepsCoherent(c: ClientState, payload: Value)
    requires Coherent(c) && OnMessageSpec(c, payload).Some?
    ensures Coherent(OnMessageSpec(c, payload).value)
  {
  }

  /**
   * Replies are queued at the back in arrival order and never reach the
   * callback; nothing else changes.
   */
  lemma {:induction false} RepliesQueuedInOrder(c: ClientState, replies: seq<Value>)
    requires forall i :: 0 <= i < |replies| ==> Classify(replies[i]) == Some(false)
    ensures RouteAll(c, replies) == Some(c.(internalQueue := c.internalQueue + replies))
    decreases |replies|
  {
    if replies != [] {
      var c' := c.(internalQueue := c.internalQueue + [replies[0]]);
      assert OnMessageSpec(c, replies[0]) == Some(c');
      RepliesQueuedInOrder(c', replies[1..]);
      assert c'.internalQueue + replies[1..] == c.internalQueue + replies;
    } else {
      assert c.internalQueue + replies == c.internalQueue;
    }
  }

  /**
   * Telemetry is never queued; with a callback registered each report reaches
   * it, with the registered userdata, in arrival order.
   */
  lemma {:induction false} TelemetryReachesCallback(c: ClientState, reports: seq<Value>)
    requires forall i :: 0 <= i < |reports| ==> Classify(reports[i]) == Some(true)
    ensures RouteAll(c, reports).Some?
    ensures RouteAll(c, reports).value.internalQueue == c.internalQueue
    ensures RouteAll(c, reports).value.callback == c.callback
    ensures RouteAll(c, reports).value.userdata == c.userdata
    ensures c.callback.None? ==> RouteAll(c, reports).value.deliveries == c.deliveries
    ensures c.callback.Some? ==>
      (RouteAll(c, reports).value.deliveries ==
       c.deliveries + seq(|reports|, i requires 0 <= i < |reports| => Delivery(c.callback.value, reports[i], c.userdata)))
    decreases |reports|
  {
    if reports != [] {
      var c' := OnMessageSpec(c, reports[0]).value;
      TelemetryReachesCallback(c', reports[1..]);
      if c.callback.Some? {
        var d := seq(|reports|, i requires 0 <= i < |reports| => Delivery(c.callback.value, reports[i], c.userdata));
        assert d == [d[0]] + d[1..];
      }
    }
  }

  /**
   * While a connection is awaited, the first telemetry report puts exactly
   * one signal into `conn_state` and ends the wait; later reports signal
   * nothing.
   */
  lemma {:induction false} ConnectSignalledOnce(c: ClientState, reports: seq<Value>)
    requires c.isConnecting && c.connState == []
    requires |reports| > 0
    requires forall i :: 0 <= i < |reports| ==> Classify(reports[i]) == Some(true)
    ensures RouteAll(c, reports).Some?
    ensures RouteAll(c, reports).value.connState == [true]
    ensures !RouteAll(c, reports).value.isConnecting
  {
    var c' := OnMessageSpec(c, reports[0]).value;
    assert c'.connState == [true] && !c'.isConnecting;
    TelemetryKeepsSignal(c', reports[1..]);
  }

  lemma {:induction false} TelemetryKeepsSignal(c: ClientState, reports: seq<Value>)
    requires !c.isConnecting
    requires forall i :: 0 <= i < |reports| ==> Classify(reports[i]) == Some(true)
    ensures RouteAll(c, reports).Some?
    ensures RouteAll(c, reports).value.connState == c.connState
    ensures !RouteAll(c, reports).value.isConnecting
    decreases |reports|
  {
    if reports != [] {
      TelemetryKeepsSignal(OnMessageSpec(c, reports[0]).value, reports[1..]);
    }
  }

  /** `publish_with_reply(msg)`: the state afterwards and the reply returned. */
  function PublishWithReplySpec(c: ClientState, msg: Value): (r: (ClientState, Value))
    requires c.internalQueue != []
    ensures [r.1] + r.0.internalQueue == c.internalQueue
    ensures r.0.published == c.published + [msg]
    ensures r.0.(published := c.published, internalQueue := c.internalQueue) == c
  {
    (c.(published := c.published + [msg], internalQueue := c.internalQueue[1..]), c.internalQueue[0])
  }

  /** Requests published one after another get the queued replies oldest first. */
  function ReplyAll(c: ClientState, msgs: seq<Value>): (r: (ClientState, seq<Value>))
    requires |msgs| <= |c.internalQueue|
    decreases |msgs|
  {
    if msgs == [] then (c, [])
    else
      var (c', reply) := PublishWithReplySpec(c, msgs[0]);
      var (c'', replies) := ReplyAll(c', msgs[1..]);
      (c'', [reply] + replies)
  }

  lemma {:induction false} RepliesFirstInFirstOut(c: ClientState, msgs: seq<Value>)
    requires |msgs| <= |c.internalQueue|
    ensures ReplyAll(c, msgs).1 == c.internalQueue[..|msgs|]
    ensures ReplyAll(c, msgs).0.internalQueue == c.internalQueue[|msgs|..]
    ensures ReplyAll(c, msgs).0.published == c.published + msgs
    decreases |msgs|
  {
    if msgs != [] {
      var c' := PublishWithReplySpec(c, msgs[0]).0;
      RepliesFirstInFirstOut(c', msgs[1..]);
      assert c.internalQueue[..|msgs|] == [c.internalQueue[0]] + c'.internalQueue[..|msgs| - 1];
      assert c.published + msgs == c'.published + msgs[1..];
    }
  }

  /** `BambuMQTT`. */
  class BambuMQTT {
    var sequenceId: nat
    var isConnecting: bool
    var connState: seq<bool>
    var internalQueue: seq<Value>
    var callback: Option<nat>
    var userdata: Option<nat>
    var published: seq<Value>
    var deliveries: seq<Delivery>

    function View(): ClientState
      reads this
    {
      ClientState(sequenceId, isConnecting, connState, internalQueue, callback, userdata, published, deliveries)
    }

    ghost predicate Valid()
      reads this
    {
      Coherent(View())
    }

    /** `BambuMQTT(host, port, user, pwd)`, once the printer's serial number is known. */
    constructor ()
      ensures Valid()
      ensures View() == ClientState(0, false, [], [], None, None, [], [])
    {
      sequenceId := 0;
      isConnecting := false;
      connState := [];
      internalQueue := [];
      callback := None;
      userdata := None;
      published := [];
      deliveries := [];
    }

    /** `set_push_status_update_callback(callback, userdata)`: replaces both. */
    method SetPushStatusUpdateCallback(cb: Option<nat>, data: Option<nat>)
      requires Valid()
      modifies this
      ensures Valid()
      ensures View() == old(View()).(callback := cb, userdata := data)
    {
      callback := cb;
      userdata := data;
    }

    /** `__get_next_sequence_id`. */
    method NextSequenceId() returns (id: nat)
      modifies this
      ensures id == old(sequenceId)
      ensures View() == old(View()).(sequenceId := old(sequenceId) + 1)
    {
      id := sequenceId;
      sequenceId := sequenceId + 1;
    }

    /** `__mqttc_on_message(payload)`. */
    method OnMessage(payload: Value) returns (raised: bool)
      requires Valid()
      modifies this
      ensures Valid()
      ensures raised <==> OnMessageSpec(old(View()), payload).None?
      ensures raised ==> View() == old(View())
      ensures !raised ==> View() == OnMessageSpec(old(View()), payload).value
    {
      ghost var before := View();
      var kind := Classify(payload);
      if kind.None? {
        return true;
      }
      var telemetry := kind.value;
      if telemetry && isConnecting {
        connState := connState + [true];
        isConnecting := false;
      }
      if !telemetry {
        internalQueue := internalQueue + [payload];
      } else if callback.Some? {
        deliveries := deliveries + [Delivery(callback.value, payload, userdata)];
      }
      OnMessageKeepsCoherent(before, payload);
      return false;
    }

    /** The first half of `connect`: a connection is now awaited. */
    method BeginConnect()
      requires Valid() && connState == []
      modifies this
      ensures Valid()
      ensures View() == old(View()).(isConnecting := true)
    {
      isConnecting := true;
    }

    /** The second half of `connect`: `conn_state.get()` once the signal is there. */
    method FinishConnect()
      requires Valid() && connState != []
      modifies this
      ensures Valid()
      ensures View() == old(View()).(connState := [])
    {
      connState := connState[1..];
    }

    /** `publish(msg)`. */
    method Publish(msg: Value)
      modifies this
      ensures View() == old(View()).(published := old(published) + [msg])
    {
      published := published + [msg];
    }

    /** `publish_with_reply(msg)`. */
    method PublishWithReply(msg: Value) returns (reply: Value)
      requires internalQueue != []
      modifies this
      ensures (View(), reply) == PublishWithReplySpec(old(View()), msg)
    {
      Publish(msg);
      reply := internalQueue[0];
      internalQueue := internalQueue[1..];
    }

    /** A request that waits for its reply, under the next sequence number. */
    method Command(build: nat -> Value) returns (reply: Value)
      requires Valid() && internalQueue != []
      requires PrintField(build(sequenceId), "sequence_id") == Some(Str(NatToString(sequenceId)))
      modifies this
      ensures Valid()
      ensures (View(), reply) ==
        PublishWithReplySpec(old(View()).(sequenceId := old(sequenceId) + 1), build(old(sequenceId)))
    {
      var id := NextSequenceId();
      reply := PublishWithReply(build(id));
    }

    method RunRawGcode(gcode: string) returns (reply: Value)
      requires Valid() && internalQueue != []
      modifies this
      ensures Valid()
      ensures (View(), reply) ==
        PublishWithReplySpec(old(View()).(sequenceId := old(sequenceId) + 1), RawGcodeMessage(old(sequenceId), gcode))
    {
      reply := Command((id: nat) => RawGcodeMessage(id, gcode));
    }

    method PrintGcode(url: string) returns (reply: Value)
      requires Valid() && internalQueue != []
      modifies this
      ensures Valid()
      ensures (View(), reply) ==
        PublishWithReplySpec(old(View()).(sequenceId := old(sequenceId) + 1), GcodeFileMessage(old(sequenceId), url))
    {
      reply := Command((id: nat) => GcodeFileMessage(id, url));
    }

    method PrintProject(url: string, ams: seq<int>, plate: int, timelapse: bool, bedLevelling: bool,
                        flowCali: bool, vibrationCali: bool, layerInspect: bool) returns (reply: Value)
      requires Valid() && internalQueue != []
      modifies this
      ensures Valid()
      ensures (View(), reply) ==
        PublishWithReplySpec(old(View()).(sequenceId := old(sequenceId) + 1),
          ProjectMessage(old(sequenceId), url, ams, plate, timelapse, bedLevelling, flowCali, vibrationCali, layerInspect))
    {
      reply := Command((id: nat) => ProjectMessage(id, url, ams, plate, timelapse, bedLevelling, flowCali, vibrationCali, layerInspect));
    }

    method StopPrint() returns (reply: Value)
      requires Valid() && internalQueue != []
      modifies this
      ensures Valid()
      ensures (View(), reply) ==
        PublishWithReplySpec(old(View()).(sequenceId := old(sequenceId) + 1), ControlMessage(old(sequenceId), "stop"))
    {
      reply := Command((id: nat) => ControlMessage(id, "stop"));
    }

    method PausePrint() returns (reply: Value)
      requires Valid() && internalQueue != []
      modifies this
      ensures Valid()
      ensures (View(), reply) ==
        PublishWithReplySpec(old(View()).(sequenceId := old(sequenceId) + 1), ControlMessage(old(sequenceId), "pause"))
    {
      reply := Command((id: nat) => ControlMessage(id, "pause"));
    }

    method ResumePrint() returns (reply: Value)
      requires Valid() && internalQueue != []
      modifies this
      ensures Valid()
      ensures (View(), reply) ==
        PublishWithReplySpec(old(View()).(sequenceId := old(sequenceId) + 1), ControlMessage(old(sequenceId), "resume"))
    {
      reply := Command((id: nat) => ControlMessage(id, "resume"));
    }

    /** `stop_print_no_reply`: publishes a stop and leaves the reply queue alone. */
    method StopPrintNoReply()
      requires Valid()
      modifies this
      ensures Valid()
      ensures View() == old(View()).(sequenceId := old(sequenceId) + 1,
                                     published := old(published) + [ControlMessage(old(sequenceId), "stop")])
    {
      var id := NextSequenceId();
      Publish(ControlMessage(id, "stop"));
    }
  }
}
