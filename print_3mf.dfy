/**
 * The command-line print script (tools/bambu_mqtt/turion_print_3mf.py): the
 * printer-side URL of the uploaded project, the default AMS mapping, the
 * reply to the start request, and the status callback that decides when the
 * script exits and with which code.
 *
 * The SFTP upload, argument parsing, printing to the console and sleeping are
 * not modelled. The reports the printer pushes are a sequence of decoded
 * payloads.
 */
module Print3mf {
  import opened Wrappers
  import opened Text
  import opened Json
  import opened Mqtt

  /** The name the project is stored under on the card: the base name of the local path. */
  function PrinterPath(path: string): string
  {
    BaseName(path)
  }

  /** Where uploaded files land on the printer's SD card. */
  const PRINTER_ROOT := "ftp://sdcard/"

  /**
   * `ftp://sdcard/{basename}`: the URL the print request names, the last
   * slash-free part of the local path under the card's root.
   */
  function PrinterUrl(path: string): (u: string)
    ensures |u| >= |PRINTER_ROOT| && u[..|PRINTER_ROOT|] == PRINTER_ROOT
    ensures '/' !in u[|PRINTER_ROOT|..] && EndsWith(path, u[|PRINTER_ROOT|..])
  {
    PRINTER_ROOT + PrinterPath(path)
  }

  /** The directory part of the local path does not reach the printer. */
  lemma {:induction false} BaseNameAfterSlash(dir: string, name: string)
    requires '/' !in name
    ensures BaseName(dir + "/" + name) == name
    decreases |name|
  {
    var p := dir + "/" + name;
    if name != [] {
      var n := |name| - 1;
      assert p[..|p| - 1] == dir + "/" + name[..n];
      assert p[|p| - 1] == name[n];
      BaseNameAfterSlash(dir, name[..n]);
      assert name[..n] + [name[n]] == name;
    }
  }

  /** A project in any local directory is printed from the card root under its own name. */
  lemma PrinterUrlOfPath(dir: string, name: string)
    requires '/' !in name
    ensures PrinterUrl(dir + "/" + name) == "ftp://sdcard/" + name
    ensures PrinterUrl(name) == "ftp://sdcard/" + name
  {
    BaseNameAfterSlash(dir, name);
    BaseNameWithoutSlash(name);
  }

  lemma {:induction false} BaseNameWithoutSlash(name: string)
    requires '/' !in name
    ensures BaseName(name) == name
    decreases |name|
  {
    if name != [] {
      var n := |name| - 1;
      BaseNameWithoutSlash(name[..n]);
      assert name[..n] + [name[n]] == name;
    }
  }

  /** The four AMS slots in order, used when `--use-ams` is given without a mapping. */
  const ALL_AMS_SLOTS: seq<int> := [0, 1, 2, 3]

  /** Python's `not ams_mapping` for an optional list. */
  predicate NoMapping(mapping: Option<seq<int>>)
  {
    mapping.None? || mapping.value == []
  }

  /**
   * The AMS mapping the script sends: the given one, or all four slots when
   * `--use-ams` asks for the AMS without one, or none.
   */
  method ResolveAmsMapping(useAms: bool, given: Option<seq<int>>) returns (ams: seq<int>)
    ensures !NoMapping(given) ==> ams == given.value
    ensures NoMapping(given) && useAms ==> ams == ALL_AMS_SLOTS
    ensures NoMapping(given) && !useAms ==> ams == []
    ensures ams == [] <==> NoMapping(given) && !useAms
  {
    var mapping := given;
    if useAms && NoMapping(mapping) {
      mapping := Some(ALL_AMS_SLOTS);
    } else if NoMapping(mapping) {
      mapping := Some([]);
    }
    ams := mapping.value;
  }

  /**
   * With the resolved mapping, the project request uses the AMS exactly when
   * `--use-ams` or a mapping was given.
   */
  lemma UsesAmsWhenAsked(seqId: nat, url: string, useAms: bool, given: Option<seq<int>>, ams: seq<int>)
    requires !NoMapping(given) ==> ams == given.value
    requires NoMapping(given) ==> ams == (if useAms then ALL_AMS_SLOTS else [])
    ensures PrintField(ProjectMessage(seqId, url, ams, 1, true, true, true, true, true), "use_ams")
      == Some(Bool(useAms || !NoMapping(given)))
  {
    ProjectMessageAms(seqId, url, ams, 1, true, true, true, true, true);
  }

  // ---------------------------------------------------------------------
  // The reply to the start request

  /** How the script continues after `print_project` returns `res`. */
  datatype StartDecision =
    | Track          // the print started: follow its reports
    | Refused        // a stop request is sent, then the script exits with 1
    | Crashed        // `res["print"]["result"]` raises: the script exits with 1

  function StartDecisionFor(reply: Value): (d: StartDecision)
    ensures d == Track <==> PrintField(reply, "result") == Some(Str("success"))
    ensures d == Crashed <==> PrintField(reply, "result").None?
  {
    match PrintField(reply, "result")
    case None => Crashed
    case Some(r) => if r == Str("success") then Track else Refused
  }

  /**
   * The start reply handled: on refusal a `stop` is published and its reply
   * taken from the queue. Reading `reason` afterwards may raise as well; the
   * exit code is 1 either way.
   */
  method HandleStartReply(client: BambuMQTT, reply: Value) returns (d: StartDecision)
    requires client.Valid()
    requires StartDecisionFor(reply) == Refused ==> client.internalQueue != []
    modifies client
    ensures client.Valid()
    ensures d == StartDecisionFor(reply)
    ensures d != Refused ==> client.View() == old(client.View())
    ensures d == Refused ==>
      client.View() == PublishWithReplySpec(old(client.View()).(sequenceId := old(client.sequenceId) + 1),
                                            ControlMessage(old(client.sequenceId), "stop")).0
  {
    d := StartDecisionFor(reply);
    if d == Refused {
      var _ := client.StopPrint();
    }
  }

  // ---------------------------------------------------------------------
  // Following the print

  /** The script's globals `should_track_state` and `exit_code`. */
  datatype Tracking = Tracking(shouldTrack: bool, exitCode: int)

  const INITIAL_TRACKING := Tracking(true, 0)

  /** What one call of `printer_state_tracker` did. */
  datatype TrackStep = TrackStep(tracking: Tracking, stopSent: bool, unregistered: bool)

  /** `print_object.get("print_error", 0)`. */
  function PrintError(p: map<string, Value>): Value
  {
    match Json.Get(Obj(p), "print_error")
    case Some(v) => v
    case None => Num(0)
  }

  /** `gcode_state == "FINISH"`. */
  predicate Finished(p: map<string, Value>)
  {
    Json.Get(Obj(p), "gcode_state") == Some(Str("FINISH"))
  }

  /**
   * `printer_state_tracker(res)`, or `None` when it raises: `res` or a truthy
   * `print` is not a dict, or a nonzero `print_error` is not an integer and
   * cannot be formatted with `:x`.
   */
  function TrackSpec(t: Tracking, res: Value): Option<TrackStep>
  {
    if !res.Obj? then None
    else if "print" !in res.fields || !Truthy(res.fields["print"]) then Some(TrackStep(t, false, false))
    else if !res.fields["print"].Obj? then None
    else
      var p := res.fields["print"].fields;
      var err := PrintError(p);
      if !EqualsZero(err) && !(err.Num? || err.Bool?) then None
      else
        var failed := !EqualsZero(err);
        var t1 := if failed then Tracking(false, 1) else t;
        var t2 := if Finished(p) then Tracking(false, 0) else t1;
        Some(TrackStep(t2, failed, !t2.shouldTrack))
  }

  /** The tracker's globals, updated by the status callback. */
  class StateTracker {
    var shouldTrackState: bool
    var exitCode: int

    function View(): Tracking
      reads this
    {
      Tracking(shouldTrackState, exitCode)
    }

    constructor ()
      ensures View() == INITIAL_TRACKING
    {
      shouldTrackState := true;
      exitCode := 0;
    }

    /**
     * `printer_state_tracker(res, mqtt)`: a print error stops the print
     * without waiting for a reply; a finished or failed print ends tracking
     * and unregisters the callback.
     */
    method OnStatus(res: Value, client: BambuMQTT) returns (raised: bool)
      requires client.Valid()
      modifies this, client
      ensures client.Valid()
      ensures raised <==> TrackSpec(old(View()), res).None?
      ensures raised ==> View() == old(View()) && client.View() == old(client.View())
      ensures !raised ==>
        var step := TrackSpec(old(View()), res).value;
        var c1 := if step.stopSent
                  then old(client.View()).(sequenceId := old(client.sequenceId) + 1,
                                           published := old(client.published) + [ControlMessage(old(client.sequenceId), "stop")])
                  else old(client.View());
        && View() == step.tracking
        && client.View() == (if step.unregistered then c1.(callback := None, userdata := None) else c1)
    {
      if !res.Obj? {
        return true;
      }
      if "print" !in res.fields || !Truthy(res.fields["print"]) {
        return false;
      }
      var printObject := res.fields["print"];
      if !printObject.Obj? {
        return true;
      }
      var p := printObject.fields;
      var err := PrintError(p);
      if !EqualsZero(err) {
        if !(err.Num? || err.Bool?) {
          return true;
        }
        client.StopPrintNoReply();
        shouldTrackState := false;
        exitCode := 1;
      }
      if Finished(p) {
        shouldTrackState := false;
        exitCode := 0;
      }
      if !shouldTrackState {
        client.SetPushStatusUpdateCallback(None, None);
      }
      return false;
    }
  }

  /** A report without a truthy `print` changes nothing. */
  lemma QuietReportIgnored(t: Tracking, res: Value)
    requires res.Obj? && ("print" !in res.fields || !Truthy(res.fields["print"]))
    ensures TrackSpec(t, res) == Some(TrackStep(t, false, false))
  {
  }

  /**
   * A numeric print error stops the print, ends tracking and unregisters the
   * callback; the exit code is 1 unless the same report says `FINISH`.
   */
  lemma PrintErrorStops(t: Tracking, res: Value)
    requires res.Obj? && "print" in res.fields && res.fields["print"].Obj?
    requires var p := res.fields["print"].fields;
      "print_error" in p && p["print_error"].Num? && p["print_error"].n != 0
    ensures TrackSpec(t, res).Some?
    ensures var s := TrackSpec(t, res).value;
      && s.stopSent && s.unregistered && !s.tracking.shouldTrack
      && (s.tracking.exitCode == 0 <==> Finished(res.fields["print"].fields))
      && (s.tracking.exitCode == 1 <==> !Finished(res.fields["print"].fields))
  {
    assert Truthy(res.fields["print"]);
  }

  /** A `FINISH` report ends tracking with exit code 0, whatever the error field says. */
  lemma FinishWins(t: Tracking, res: Value)
    requires res.Obj? && "print" in res.fields && res.fields["print"].Obj?
    requires Finished(res.fields["print"].fields)
    requires TrackSpec(t, res).Some?
    ensures TrackSpec(t, res).value.tracking == Tracking(false, 0)
    ensures TrackSpec(t, res).value.unregistered
  {
    assert "gcode_state" in res.fields["print"].fields;
    assert Truthy(res.fields["print"]);
  }

  /**
   * Tracking never resumes once it has ended; a report that ends it also
   * unregisters the callback, and a stop is sent only for a print error.
   */
  lemma TrackingOnlyEnds(t: Tracking, res: Value)
    requires TrackSpec(t, res).Some?
    ensures var s := TrackSpec(t, res).value;
      && (s.tracking.shouldTrack ==> t.shouldTrack && s.tracking == t)
      && (t.shouldTrack && !s.tracking.shouldTrack ==> s.unregistered)
      && (s.stopSent ==> res.fields["print"].Obj? && !EqualsZero(PrintError(res.fields["print"].fields)))
  {
  }

  /**
   * The status reports the callback receives are dictionaries with a
   * dictionary under `print`; on those only a print error that is not an
   * integer makes the tracker raise.
   */
  lemma TelemetryRaisesOnlyOnOddError(t: Tracking, res: Value)
    requires Classify(res) == Some(true)
    ensures TrackSpec(t, res).None? <==>
      var err := PrintError(res.fields["print"].fields);
      !EqualsZero(err) && !(err.Num? || err.Bool?)
  {
  }

  /**
   * The reports in order while the script still tracks: the tracking state
   * when it stops looking, or `None` once the callback has raised, which ends
   * the delivery thread so that no later report arrives.
   */
  function TrackAll(t: Tracking, reports: seq<Value>): (r: Option<Tracking>)
    ensures r.Some? && r.value.shouldTrack ==> r.value == t
    ensures r.Some? && r.value != t ==> !r.value.shouldTrack && (r.value.exitCode == 0 || r.value.exitCode == 1)
    decreases |reports|
  {
    if !t.shouldTrack || reports == [] then Some(t)
    else match TrackSpec(t, reports[0])
      case None => None
      case Some(s) => TrackAll(s.tracking, reports[1..])
  }

  /**
   * The exit code of the script after the start reply, or `None` while it is
   * still waiting. `reports` are all the status reports delivered since the
   * tracker was registered, which happens before the print is requested: a
   * report that arrives before the reply counts as much as one after it.
   */
  function ExitCode(reply: Value, reports: seq<Value>): Option<int>
  {
    match StartDecisionFor(reply)
    case Refused => Some(1)
    case Crashed => Some(1)
    case Track =>
      match TrackAll(INITIAL_TRACKING, reports)
      case None => None
      case Some(t) => if t.shouldTrack then None else Some(t.exitCode)
  }

  /**
   * A report that can end tracking with exit code `code`: 0 for a `FINISH`
   * report and 1 for one with a print error.
   */
  predicate EndingReport(r: Value, code: int)
  {
    && r.Obj? && "print" in r.fields && r.fields["print"].Obj?
    && (code == 0 ==> Finished(r.fields["print"].fields))
    && (code != 0 ==> code == 1 && !EqualsZero(PrintError(r.fields["print"].fields)))
  }

  /** Tracking that ends does so at some report, which sets the final exit code. */
  lemma {:induction false} TrackAllEnds(t: Tracking, reports: seq<Value>)
    requires t.shouldTrack
    requires TrackAll(t, reports).Some? && !TrackAll(t, reports).value.shouldTrack
    ensures exists i :: 0 <= i < |reports| && EndingReport(reports[i], TrackAll(t, reports).value.exitCode)
    decreases |reports|
  {
    var s := TrackSpec(t, reports[0]).value;
    var code := TrackAll(t, reports).value.exitCode;
    if s.tracking.shouldTrack {
      TrackAllEnds(s.tracking, reports[1..]);
      var i :| 0 <= i < |reports[1..]| && EndingReport(reports[1..][i], code);
      assert reports[1..][i] == reports[i + 1];
    } else {
      assert TrackAll(s.tracking, reports[1..]) == Some(s.tracking);
      assert EndingReport(reports[0], code);
    }
  }

  /**
   * The script exits with 0 only after a successful start and a `FINISH`
   * report; every other exit is with 1.
   */
  lemma ExitCodes(reply: Value, reports: seq<Value>)
    requires ExitCode(reply, reports).Some?
    ensures ExitCode(reply, reports).value in {0, 1}
    ensures ExitCode(reply, reports) == Some(0) ==>
      && PrintField(reply, "result") == Some(Str("success"))
      && exists i :: 0 <= i < |reports| && EndingReport(reports[i], 0)
  {
    if StartDecisionFor(reply) == Track {
      TrackAllEnds(INITIAL_TRACKING, reports);
    }
  }

  /** The last report of a previous job: its print has finished. */
  const STALE_FINISH: Value := Obj(map["print" := Obj(map["gcode_state" := Str("FINISH")])])

  /**
   * A `FINISH` report delivered before the start reply, such as one still
   * describing the previous job, has already ended tracking: once the
   * printer accepts the print, the script exits with 0 at once, whatever
   * the reports after it say.
   */
  lemma StaleFinishExitsAtOnce(reply: Value, later: seq<Value>)
    requires StartDecisionFor(reply) == Track
    ensures ExitCode(reply, [STALE_FINISH] + later) == Some(0)
  {
    var p := STALE_FINISH.fields["print"].fields;
    assert Finished(p) && PrintError(p) == Num(0);
    assert Truthy(STALE_FINISH.fields["print"]);
    assert TrackSpec(INITIAL_TRACKING, STALE_FINISH) == Some(TrackStep(Tracking(false, 0), false, true));
    var reports := [STALE_FINISH] + later;
    assert reports[0] == STALE_FINISH;
    assert TrackAll(Tracking(false, 0), reports[1..]) == Some(Tracking(false, 0));
    assert TrackAll(INITIAL_TRACKING, reports) == Some(Tracking(false, 0));
  }
}
