/**
 * The OctoPrint-compatible upload front end (tools/bambu_mqtt/server.py):
 * the printer settings carried in the `X-Api-Key` header, the SD-card URI of
 * an uploaded project, and the HTTP status `PrintHandler.post` answers with.
 *
 * Saving the upload, the FTP transfer and the MQTT session are not modelled;
 * whether each succeeds, and the printer's reply, are parameters.
 */
module Server {
  import opened Wrappers
  import opened Text
  import Json
  import Mqtt

  /**
   * The dictionary `parse_x_api_key` returns: `entries` holds every
   * `key=value` entry (the last one of each key), and the typed fields replace
   * the entries of the same name.
   */
  datatype ServerConfig = ServerConfig(
    entries: map<string, string>,
    host: string,
    pass: string,
    user: string,
    timelapse: bool,
    bedType: string,
    bedLevelling: bool,
    flowCalibration: bool,
    vibrationCalibration: bool,
    layerInspect: bool,
    amsMapping: seq<int>)

  /** `parse_x_api_key`: `None` (`Rejected`), a dictionary, or a `ValueError` from `int()`. */
  datatype KeyParse = Rejected | Raised | Parsed(config: ServerConfig)

  /** `d.get(key, default)`. */
  function GetOr(m: map<string, string>, key: string, default: string): string
  {
    if key in m then m[key] else default
  }

  /**
   * The `key=value` entries collected into a dictionary, later entries
   * overriding earlier ones; `None` if an entry does not have exactly one `=`.
   */
  function CollectEntries(entries: seq<string>): Option<map<string, string>>
    decreases |entries|
  {
    if entries == [] then Some(map[])
    else
      match CollectEntries(entries[..|entries| - 1])
      case None => None
      case Some(m) =>
        var parts := Split(entries[|entries| - 1], '=');
        if |parts| != 2 then None else Some(m[parts[0] := parts[1]])
  }

  /** `[int(e) for e in items]`, or `None` when one of them raises. */
  function ParseInts(items: seq<string>): Option<seq<int>>
    decreases |items|
  {
    if items == [] then Some([])
    else
      match ParseInts(items[..|items| - 1])
      case None => None
      case Some(vs) =>
        var v := PyInt(items[|items| - 1]);
        if v.None? then None else Some(vs + [v.value])
  }

  /** The typed dictionary built from the collected entries and a parsed AMS mapping. */
  function Configure(m: map<string, string>, ams: seq<int>): (c: ServerConfig)
    requires "host" in m && "pass" in m
    ensures c.entries == m && c.host == m["host"] && c.pass == m["pass"] && c.amsMapping == ams
    ensures c.user == (if "user" in m then m["user"] else "bblp")
    ensures c.bedType == (if "bed_type" in m then m["bed_type"] else "auto")
  {
    ServerConfig(
      m, m["host"], m["pass"],
      GetOr(m, "user", "bblp"),
      GetOr(m, "timelapse", "false") == "true",
      GetOr(m, "bed_type", "auto"),
      GetOr(m, "bed_levelling", "true") == "true",
      GetOr(m, "flow_calibration", "true") == "true",
      GetOr(m, "vibration_calibration", "true") == "true",
      GetOr(m, "layer_inspect", "true") == "true",
      ams)
  }

  /** `host` and `pass` are present and not empty. */
  predicate HasCredentials(m: map<string, string>)
  {
    GetOr(m, "host", "") != "" && GetOr(m, "pass", "") != ""
  }

  /** `parse_x_api_key(raw)` as written. */
  function ParseXApiKeySpec(raw: string): KeyParse
  {
    match CollectEntries(Split(raw, ';'))
    case None => Rejected
    case Some(m) =>
      if !HasCredentials(m) then Rejected
      else
        match ParseInts(Split(GetOr(m, "ams_mapping", ""), ','))
        case None => Raised
        case Some(ams) => Parsed(Configure(m, ams))
  }

  /**
   * `parse_x_api_key(raw)` as evidently intended: an absent (or empty)
   * `ams_mapping` means no mapping rather than `int("")`.
   */
  function ParseXApiKeyIntended(raw: string): (r: KeyParse)
    ensures r.Rejected? <==> ParseXApiKeySpec(raw).Rejected?
    ensures r.Parsed? ==> r.config.host != "" && r.config.pass != ""
  {
    match CollectEntries(Split(raw, ';'))
    case None => Rejected
    case Some(m) =>
      if !HasCredentials(m) then Rejected
      else if GetOr(m, "ams_mapping", "") == "" then Parsed(Configure(m, []))
      else
        match ParseInts(Split(m["ams_mapping"], ','))
        case None => Raised
        case Some(ams) => Parsed(Configure(m, ams))
  }

  /** `parse_x_api_key(raw)`: the entry loop and the AMS mapping loop. */
  method ParseXApiKey(raw: string) returns (r: KeyParse)
    ensures r == ParseXApiKeySpec(raw)
  {
    var collected := CollectHeader(Split(raw, ';'));
    if collected.None? {
      return Rejected;
    }
    var res := collected.value;
    if GetOr(res, "host", "") == "" || GetOr(res, "pass", "") == "" {
      return Rejected;
    }
    var ams := ParseMapping(Split(GetOr(res, "ams_mapping", ""), ','));
    if ams.None? {
      return Raised;
    }
    return Parsed(Configure(res, ams.value));
  }

  /** The `for raw_entry in raw.split(";")` loop. */
  method CollectHeader(entries: seq<string>) returns (r: Option<map<string, string>>)
    ensures r == CollectEntries(entries)
  {
    var res: map<string, string> := map[];
    var i := 0;
    while i < |entries|
      invariant 0 <= i <= |entries|
      invariant CollectEntries(entries[..i]) == Some(res)
    {
      var parts := Split(entries[i], '=');
      assert entries[..i + 1][..i] == entries[..i];
      if |parts| != 2 {
        CollectStops(entries, i + 1);
        return None;
      }
      res := res[parts[0] := parts[1]];
      i := i + 1;
    }
    assert entries[..|entries|] == entries;
    return Some(res);
  }

  /** The `for entry in tmp_ams_mapping` loop. */
  method ParseMapping(items: seq<string>) returns (r: Option<seq<int>>)
    ensures r == ParseInts(items)
  {
    var ams: seq<int> := [];
    var j := 0;
    while j < |items|
      invariant 0 <= j <= |items|
      invariant ParseInts(items[..j]) == Some(ams)
    {
      var v := PyInt(items[j]);
      assert items[..j + 1][..j] == items[..j];
      if v.None? {
        ParseIntsStops(items, j + 1);
        return None;
      }
      ams := ams + [v.value];
      j := j + 1;
    }
    assert items[..|items|] == items;
    return Some(ams);
  }

  /** A malformed entry rejects every longer header. */
  lemma {:induction false} CollectStops(entries: seq<string>, k: nat)
    requires k <= |entries| && CollectEntries(entries[..k]).None?
    ensures CollectEntries(entries).None?
    decreases |entries| - k
  {
    if k < |entries| {
      assert entries[..k + 1][..k] == entries[..k];
      CollectStops(entries, k + 1);
    } else {
      assert entries[..k] == entries;
    }
  }

  lemma {:induction false} ParseIntsStops(items: seq<string>, k: nat)
    requires k <= |items| && ParseInts(items[..k]).None?
    ensures ParseInts(items).None?
    decreases |items| - k
  {
    if k < |items| {
      assert items[..k + 1][..k] == items[..k];
      ParseIntsStops(items, k + 1);
    } else {
      assert items[..k] == items;
    }
  }

  /** A header with an entry that is not exactly one `key=value` pair is rejected. */
  lemma {:induction false} MalformedEntryRejected(raw: string, k: nat)
    requires k < |Split(raw, ';')| && |Split(Split(raw, ';')[k], '=')| != 2
    ensures ParseXApiKeySpec(raw) == Rejected
    ensures ParseXApiKeyIntended(raw) == Rejected
  {
    var entries := Split(raw, ';');
    var prefix := entries[..k + 1];
    assert prefix[..k] == entries[..k];
    assert prefix[k] == entries[k];
    if CollectEntries(entries[..k]).Some? {
      assert CollectEntries(prefix).None?;
    }
    CollectStops(entries, k + 1);
  }

  /** The empty header is one empty entry, which has no `=`: rejected. */
  lemma EmptyHeaderRejected()
    ensures ParseXApiKeySpec("") == Rejected
  {
    assert Split("", ';') == [""];
    MalformedEntryRejected("", 0);
  }

  /** The value the last entry with key `key` gives it. */
  function LastEntryValue(entries: seq<string>, key: string): Option<string>
    decreases |entries|
  {
    if entries == [] then None
    else
      var parts := Split(entries[|entries| - 1], '=');
      if |parts| == 2 && parts[0] == key then Some(parts[1])
      else LastEntryValue(entries[..|entries| - 1], key)
  }

  /**
   * Every key of the dictionary comes from an entry, unknown keys included,
   * and holds the value of the last entry with that key.
   */
  lemma {:induction false} LastEntryWins(entries: seq<string>, key: string)
    requires CollectEntries(entries).Some?
    ensures key in CollectEntries(entries).value <==> LastEntryValue(entries, key).Some?
    ensures key in CollectEntries(entries).value ==>
      CollectEntries(entries).value[key] == LastEntryValue(entries, key).value
    decreases |entries|
  {
    if entries != [] {
      LastEntryWins(entries[..|entries| - 1], key);
    }
  }

  /**
   * The defaults: user `bblp`, bed type `auto`, no time-lapse, and every
   * calibration step on; a flag is set exactly by the value `true`.
   */
  lemma ConfigureDefaults(m: map<string, string>, ams: seq<int>)
    requires "host" in m && "pass" in m
    ensures var c := Configure(m, ams);
      && ("user" !in m ==> c.user == "bblp")
      && ("bed_type" !in m ==> c.bedType == "auto")
      && ("timelapse" !in m ==> !c.timelapse)
      && ("bed_levelling" !in m ==> c.bedLevelling)
      && ("flow_calibration" !in m ==> c.flowCalibration)
      && ("vibration_calibration" !in m ==> c.vibrationCalibration)
      && ("layer_inspect" !in m ==> c.layerInspect)
      && (c.timelapse <==> "timelapse" in m && m["timelapse"] == "true")
      && ("bed_levelling" in m ==> (c.bedLevelling <==> m["bed_levelling"] == "true"))
      && ("flow_calibration" in m ==> (c.flowCalibration <==> m["flow_calibration"] == "true"))
      && ("vibration_calibration" in m ==> (c.vibrationCalibration <==> m["vibration_calibration"] == "true"))
      && ("layer_inspect" in m ==> (c.layerInspect <==> m["layer_inspect"] == "true"))
  {
  }

  /** A header without a non-empty `host` or `pass` is rejected. */
  lemma MissingCredentialsRejected(raw: string)
    requires CollectEntries(Split(raw, ';')).Some?
    requires !HasCredentials(CollectEntries(Split(raw, ';')).value)
    ensures ParseXApiKeySpec(raw) == Rejected
    ensures ParseXApiKeyIntended(raw) == Rejected
  {
  }

  /** Each comma-separated item is parsed as a Python integer, in order. */
  lemma {:induction false} ParseIntsPointwise(items: seq<string>)
    requires forall i :: 0 <= i < |items| ==> PyInt(items[i]).Some?
    ensures ParseInts(items).Some?
    ensures |ParseInts(items).value| == |items|
    ensures forall i :: 0 <= i < |items| ==> ParseInts(items).value[i] == PyInt(items[i]).value
    decreases |items|
  {
    if items != [] {
      ParseIntsPointwise(items[..|items| - 1]);
    }
  }

  /** `str(i)` of each integer. */
  function IntStrings(vs: seq<int>): (r: seq<string>)
    ensures |r| == |vs|
    ensures forall i :: 0 <= i < |vs| ==> r[i] == IntToString(vs[i])
  {
    seq(|vs|, i requires 0 <= i < |vs| => IntToString(vs[i]))
  }

  lemma NoCommaInIntString(v: int)
    ensures ',' !in IntToString(v)
  {
    var n: nat := if v < 0 then -v else v;
    var d := NatToString(n);
    assert forall k :: 0 <= k < |d| ==> d[k] != ',';
    if v < 0 {
      assert IntToString(v) == "-" + d;
    }
  }

  /** A mapping written as `str` values joined by `,` parses back to the same integers. */
  lemma AmsMappingRoundTrip(vs: seq<int>)
    requires |vs| >= 1
    ensures ParseInts(Split(Join(IntStrings(vs), ','), ',')) == Some(vs)
  {
    var strs := IntStrings(vs);
    forall i | 0 <= i < |strs|
      ensures ',' !in strs[i] && PyInt(strs[i]) == Some(vs[i])
    {
      PyIntOfIntToString(vs[i]);
      NoCommaInIntString(vs[i]);
    }
    SplitJoin(strs, ',');
    ParseIntsPointwise(strs);
    assert ParseInts(strs).value == vs;
  }

  /** An empty AMS mapping string is one empty item, which `int()` refuses. */
  lemma EmptyMappingRaises(s: string)
    ensures s == "" ==> ParseInts(Split(s, ',')).None?
  {
    assert Split("", ',') == [""];
    PyIntOfEmpty();
    assert [""][..0] == [];
  }

  /**
   * As written, a header with credentials but no `ams_mapping` fails:
   * `"".split(",")` is `[""]` and `int("")` raises.
   */
  lemma MissingAmsMappingRaises(raw: string)
    requires CollectEntries(Split(raw, ';')).Some?
    requires HasCredentials(CollectEntries(Split(raw, ';')).value)
    requires "ams_mapping" !in CollectEntries(Split(raw, ';')).value
    ensures ParseXApiKeySpec(raw) == Raised
  {
    EmptyMappingRaises("");
  }

  /** The intended parser accepts such a header with an empty mapping ... */
  lemma IntendedDefaultsToNoMapping(raw: string)
    requires CollectEntries(Split(raw, ';')).Some?
    requires HasCredentials(CollectEntries(Split(raw, ';')).value)
    requires "ams_mapping" !in CollectEntries(Split(raw, ';')).value
    ensures ParseXApiKeyIntended(raw).Parsed?
    ensures ParseXApiKeyIntended(raw).config.amsMapping == []
  {
  }

  /** ... and agrees with the written one whenever a mapping is given. */
  lemma IntendedAgreesWithMapping(raw: string)
    requires CollectEntries(Split(raw, ';')).Some?
    requires GetOr(CollectEntries(Split(raw, ';')).value, "ams_mapping", "") != ""
    ensures ParseXApiKeyIntended(raw) == ParseXApiKeySpec(raw)
  {
  }

  /** `key=value` entries joined by `;`. */
  function Header(pairs: seq<(string, string)>): string
    requires |pairs| >= 1
  {
    Join(seq(|pairs|, i requires 0 <= i < |pairs| => pairs[i].0 + "=" + pairs[i].1), ';')
  }

  /** The dictionary of key/value pairs, later pairs overriding earlier ones. */
  function PairsMap(pairs: seq<(string, string)>): map<string, string>
    decreases |pairs|
  {
    if pairs == [] then map[]
    else PairsMap(pairs[..|pairs| - 1])[pairs[|pairs| - 1].0 := pairs[|pairs| - 1].1]
  }

  predicate PlainPair(p: (string, string))
  {
    ';' !in p.0 && '=' !in p.0 && ';' !in p.1 && '=' !in p.1
  }

  /** A header spelled from plain key/value pairs collects back into their dictionary. */
  lemma HeaderRoundTrip(pairs: seq<(string, string)>)
    requires |pairs| >= 1
    requires forall i :: 0 <= i < |pairs| ==> PlainPair(pairs[i])
    ensures CollectEntries(Split(Header(pairs), ';')) == Some(PairsMap(pairs))
  {
    var entries := seq(|pairs|, i requires 0 <= i < |pairs| => pairs[i].0 + "=" + pairs[i].1);
    forall i | 0 <= i < |entries|
      ensures ';' !in entries[i]
      ensures Split(entries[i], '=') == [pairs[i].0, pairs[i].1]
    {
      SplitPair(pairs[i].0, '=', pairs[i].1);
    }
    SplitJoin(entries, ';');
    CollectPairs(pairs, entries);
  }

  lemma {:induction false} CollectPairs(pairs: seq<(string, string)>, entries: seq<string>)
    requires |entries| == |pairs|
    requires forall i :: 0 <= i < |pairs| ==> Split(entries[i], '=') == [pairs[i].0, pairs[i].1]
    ensures CollectEntries(entries) == Some(PairsMap(pairs))
    decreases |pairs|
  {
    if pairs != [] {
      var n := |pairs| - 1;
      CollectPairs(pairs[..n], entries[..n]);
      assert Split(entries[n], '=') == [pairs[n].0, pairs[n].1];
    }
  }

  // ---------------------------------------------------------------------
  // The SD-card URI of an upload

  /** `file:///sdcard{path}/{name}` for an absolute path, `file:///sdcard/{path}/{name}` otherwise. */
  function UploadUri(path: string, name: string): string
  {
    if StartsWith(path, "/") then "file:///sdcard" + path + "/" + name
    else "file:///sdcard/" + path + "/" + name
  }

  /** The path relative to the card root: one leading `/` dropped. */
  function RelativePath(path: string): string
  {
    if StartsWith(path, "/") then path[1..] else path
  }

  /** Both spellings of a path name the same place under `/sdcard/`. */
  lemma UploadUriUnderCard(path: string, name: string)
    ensures UploadUri(path, name) == "file:///sdcard/" + RelativePath(path) + "/" + name
  {
    if StartsWith(path, "/") {
      assert path == "/" + path[1..];
    }
  }

  /** A leading `/` makes no difference. */
  lemma UploadUriIgnoresLeadingSlash(path: string, name: string)
    requires !StartsWith(path, "/")
    ensures UploadUri("/" + path, name) == UploadUri(path, name)
  {
    UploadUriUnderCard("/" + path, name);
    UploadUriUnderCard(path, name);
    assert ("/" + path)[1..] == path;
  }

  // ---------------------------------------------------------------------
  // The status of a print request

  /** The last value of a request argument: absent, not valid UTF-8, or its text. */
  datatype Arg = Absent | Undecodable | Decoded(text: string)

  /** What `PrintHandler.post` reads from the request. */
  datatype PrintRequest = PrintRequest(
    apiKey: Option<string>,      // the `X-Api-Key` header
    command: Arg,                // the `command` body argument
    printArg: Option<string>,    // the raw bytes of the last `print` argument
    path: Arg,                   // the last `path` argument
    fileName: Option<string>)    // the name of the first uploaded file, if any

  /** The characters tornado blanks in an argument: `\x00`-`\x08` and `\x0e`-`\x1f`. */
  predicate IsControl(c: char)
  {
    c <= '\U{8}' || '\U{E}' <= c <= '\U{1F}'
  }

  function BlankControls(s: string): (r: string)
    ensures |r| == |s|
    ensures forall i :: 0 <= i < |s| ==> r[i] == if IsControl(s[i]) then ' ' else s[i]
  {
    if s == [] then [] else [if IsControl(s[0]) then ' ' else s[0]] + BlankControls(s[1..])
  }

  /**
   * `get_body_argument(name, default)`: the default when the argument is
   * absent; `None` when its last value is not UTF-8, where tornado raises
   * `HTTPError(400)`; otherwise that value with control characters blanked
   * and surrounding whitespace stripped.
   */
  function BodyArgument(a: Arg, default: string): Option<string>
  {
    match a
    case Absent => Some(default)
    case Undecodable => None
    case Decoded(v) => Some(StripLeft(StripRight(BlankControls(v))))
  }

  /** How the outside world answers: saving, uploading, the MQTT session, the reply. */
  datatype Effects = Effects(saved: bool, uploaded: bool, mqttConnected: bool, reply: Json.Value)

  /**
   * The HTTP status line and the error page written, if any. tornado's
   * `send_error(n)` (used for a raised `HTTPError` or exception) sets status
   * `n` and writes page `n`; calling `write_error(n)` directly writes page
   * `n` under the status already set, 200.
   */
  datatype Response = Response(status: int, errorPage: Option<int>)

  function SendError(n: int): Response { Response(n, Some(n)) }
  function WriteError(n: int): Response { Response(200, Some(n)) }

  /** The `print=true` argument asks for the print to start. */
  predicate PrintRequested(req: PrintRequest)
  {
    req.printArg == Some("true")
  }

  /** `res["print"]["result"] != "success"`, or `None` when the lookup raises. */
  function ReplyFailed(reply: Json.Value): Option<bool>
  {
    match Mqtt.PrintField(reply, "result")
    case None => None
    case Some(v) => Some(v != Json.Str("success"))
  }

  /**
   * `prepare` and `post` as written. The call `print_project(uri, ams, 1,
   * name, timelapse, bed_type, ...)` passes ten arguments to a method that
   * takes nine, so a print request always raises `TypeError`.
   */
  function PostResponse(req: PrintRequest, env: Effects): Response
  {
    if req.apiKey.None? then SendError(401)
    else match ParseXApiKeySpec(req.apiKey.value)
    case Rejected => SendError(401)
    case Raised => SendError(500)
    case Parsed(_) => PostBody(req, env)
  }

  /** `post` as written, once `prepare` has accepted the header. */
  function PostBody(req: PrintRequest, env: Effects): Response
  {
    if BodyArgument(req.command, "select").None? then SendError(400)
    else if BodyArgument(req.command, "select").value != "select" then WriteError(503)
    else if req.path == Undecodable then SendError(500)
    else if req.fileName.None? then WriteError(400)
    else if !env.saved then SendError(500)
    else if !EndsWith(req.fileName.value, ".3mf") then WriteError(503)
    else if !env.uploaded then SendError(500)
    else if PrintRequested(req) then SendError(500)
    else Response(204, None)
  }

  /**
   * `prepare` and `post` as evidently intended: the intended header parser,
   * error statuses actually sent, and `print_project` accepting the bed type.
   */
  function PostStatusIntended(req: PrintRequest, env: Effects): (r: int)
    ensures r in {204, 400, 401, 419, 500, 503}
    ensures r == 401 <==> req.apiKey.None? || ParseXApiKeyIntended(req.apiKey.value).Rejected?
  {
    if req.apiKey.None? then 401
    else match ParseXApiKeyIntended(req.apiKey.value)
    case Rejected => 401
    case Raised => 500
    case Parsed(_) => PostBodyStatusIntended(req, env)
  }

  /** The intended status of `post`, once `prepare` has accepted the header. */
  function PostBodyStatusIntended(req: PrintRequest, env: Effects): (r: int)
    ensures r in {204, 400, 419, 500, 503}
    ensures r == 419 ==> PrintRequested(req) && env.mqttConnected && ReplyFailed(env.reply) == Some(true)
  {
    if BodyArgument(req.command, "select").None? then 400
    else if BodyArgument(req.command, "select").value != "select" then 503
    else if req.path == Undecodable then 500
    else if req.fileName.None? then 400
    else if !env.saved then 500
    else if !EndsWith(req.fileName.value, ".3mf") then 503
    else if !env.uploaded then 500
    else if PrintRequested(req) then
      if !env.mqttConnected then 500
      else match ReplyFailed(env.reply)
        case None => 500
        case Some(failed) => if failed then 419 else 204
    else 204
  }

  /** A request that gets as far as the upload, with the header accepted. */
  predicate Uploadable(req: PrintRequest, env: Effects)
  {
    && req.apiKey.Some? && ParseXApiKeyIntended(req.apiKey.value).Parsed?
    && BodyArgument(req.command, "select") == Some("select")
    && req.path != Undecodable
    && req.fileName.Some? && EndsWith(req.fileName.value, ".3mf")
    && env.saved && env.uploaded
  }

  /**
   * The intended statuses: 204 for an upload without printing or a print the
   * printer accepted, 419 for one it refused.
   */
  lemma IntendedPrintStatus(req: PrintRequest, env: Effects)
    requires Uploadable(req, env)
    ensures !PrintRequested(req) ==> PostStatusIntended(req, env) == 204
    ensures PrintRequested(req) && env.mqttConnected && ReplyFailed(env.reply) == Some(false) ==>
      PostStatusIntended(req, env) == 204
    ensures PrintRequested(req) && env.mqttConnected && ReplyFailed(env.reply) == Some(true) ==>
      PostStatusIntended(req, env) == 419
  {
    assert PostStatusIntended(req, env) == PostBodyStatusIntended(req, env);
  }

  /** Intended: every request that is refused gets a 4xx or 5xx status. */
  lemma IntendedStatusIsHonest(req: PrintRequest, env: Effects)
    ensures PostStatusIntended(req, env) in {204, 400, 401, 419, 500, 503}
    ensures PostStatusIntended(req, env) == 204 <==>
      Uploadable(req, env) && (!PrintRequested(req) || (env.mqttConnected && ReplyFailed(env.reply) == Some(false)))
  {
  }

  /** As written, a print request that passes every check still fails with 500. */
  lemma PrintRequestAlwaysFails(req: PrintRequest, env: Effects)
    requires Uploadable(req, env) && PrintRequested(req)
    requires ParseXApiKeySpec(req.apiKey.value).Parsed?
    requires env.mqttConnected && ReplyFailed(env.reply) == Some(false)
    ensures PostResponse(req, env).status == 500
    ensures PostStatusIntended(req, env) == 204
  {
    assert PostResponse(req, env) == PostBody(req, env);
    assert PostStatusIntended(req, env) == PostBodyStatusIntended(req, env);
  }

  /**
   * As written, an unsupported command gets status 200 with a 503 page,
   * where a 503 status is intended.
   */
  lemma UnsupportedCommandAnswers200(req: PrintRequest, env: Effects)
    requires req.apiKey.Some? && ParseXApiKeySpec(req.apiKey.value).Parsed?
    requires BodyArgument(req.command, "select").Some? && BodyArgument(req.command, "select").value != "select"
    ensures PostResponse(req, env) == Response(200, Some(503))
    ensures PostStatusIntended(req, env) == 503
  {
    IntendedAgrees(req.apiKey.value);
  }

  /** Wherever the written parser does not raise, the intended one gives the same result. */
  lemma IntendedAgrees(raw: string)
    requires ParseXApiKeySpec(raw) != Raised
    ensures ParseXApiKeyIntended(raw) == ParseXApiKeySpec(raw)
  {
    if ParseXApiKeySpec(raw).Parsed? {
      var m := CollectEntries(Split(raw, ';')).value;
      EmptyMappingRaises(GetOr(m, "ams_mapping", ""));
    }
  }

  /**
   * Apart from the missing AMS mapping, the print request and the status of
   * `write_error`, the written handler answers as intended.
   */
  lemma AsWrittenAgreesOtherwise(req: PrintRequest, env: Effects)
    requires req.apiKey.Some? ==> ParseXApiKeySpec(req.apiKey.value) != Raised
    requires !PrintRequested(req)
    ensures PostResponse(req, env).errorPage.Some? ==>
      PostResponse(req, env).errorPage.value == PostStatusIntended(req, env)
    ensures PostResponse(req, env).errorPage.None? ==>
      PostResponse(req, env).status == PostStatusIntended(req, env) == 204
  {
    if req.apiKey.Some? {
      IntendedAgrees(req.apiKey.value);
      BodyAgrees(req, env);
    }
  }

  /** Without a print, the written body writes the intended status as its page or answers 204. */
  lemma BodyAgrees(req: PrintRequest, env: Effects)
    requires !PrintRequested(req)
    ensures PostBody(req, env).errorPage.Some? ==>
      PostBody(req, env).errorPage.value == PostBodyStatusIntended(req, env)
    ensures PostBody(req, env).errorPage.None? ==>
      PostBody(req, env).status == PostBodyStatusIntended(req, env) == 204
  {
  }

  /**
   * A `command` whose bytes are not UTF-8 is refused with 400, and a `path`
   * that is not UTF-8 fails with 500 before the upload is even looked at.
   */
  lemma UndecodableArgumentsFail(req: PrintRequest, env: Effects)
    requires req.apiKey.Some? && ParseXApiKeySpec(req.apiKey.value).Parsed?
    ensures req.command == Undecodable ==>
      PostResponse(req, env) == SendError(400) && PostStatusIntended(req, env) == 400
    ensures BodyArgument(req.command, "select") == Some("select") && req.path == Undecodable ==>
      PostResponse(req, env) == SendError(500) && PostStatusIntended(req, env) == 500
  {
    IntendedAgrees(req.apiKey.value);
  }

  /** The command is compared after stripping, so ` select` with a newline is `select`. */
  lemma PaddedSelectAccepted()
    ensures BodyArgument(Decoded(" select\n"), "select") == Some("select")
  {
    var v := " select\n";
    NothingToBlank(v);
    StripPadding(v);
  }

  lemma NothingToBlank(v: string)
    requires v == " select\n"
    ensures BlankControls(v) == v
  {
    assert forall i :: 0 <= i < |v| ==> !IsControl(v[i]);
  }

  lemma StripPadding(v: string)
    requires v == " select\n"
    ensures StripLeft(StripRight(v)) == "select"
  {
    var w := v[..|v| - 1];
    assert w == " select";
    assert StripRight(v) == StripRight(w);
    assert StripRight(w) == w;
    assert w[1..] == "select";
    assert StripLeft(w) == StripLeft(w[1..]);
    assert StripLeft(w[1..]) == w[1..];
  }
}
