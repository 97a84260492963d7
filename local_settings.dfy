/**
 * `LocalSettings::from_url` (tools/libturion_source/src/lib.rs): the
 * `bambu:///local/<host>.?key=value&...` URL handed to the camera library.
 *
 * The Rust code panics (unwraps `None`) on a query entry without '=' and on a
 * missing `user`, `passwd` or `port`; the model returns that as the error
 * value `Panic`, distinct from the errors `from_url` returns.
 */
module Settings {
  import opened Wrappers
  import opened Text

  const SCHEMA_START: string := "bambu:///local/"

  datatype LocalSettings = LocalSettings(
    hostname: string,
    port: nat,
    username: string,
    password: string,
    serial: Option<string>,
    netVer: Option<string>,
    devVer: Option<string>,
    cliId: Option<string>,
    cliVer: Option<string>)

  datatype ParseError =
    | InvalidSchema
    | InvalidUrl
    | BadPort(value: string)
    | Panic(reason: string)

  /** The `Option` locals that the query loop fills in. */
  datatype QueryFields = QueryFields(
    username: Option<string>,
    password: Option<string>,
    port: Option<nat>,
    serial: Option<string>,
    netVer: Option<string>,
    devVer: Option<string>,
    cliId: Option<string>,
    cliVer: Option<string>)

  const NO_FIELDS: QueryFields := QueryFields(None, None, None, None, None, None, None, None)

  /** One `key=value` entry of the query applied to the locals. */
  function ApplyEntry(f: QueryFields, entry: string): Result<QueryFields, ParseError>
  {
    var parts := Split(entry, '=');
    if |parts| < 2 then Err(Panic("query entry without a value"))
    else
      var key, val := parts[0], parts[1];
      if key == "user" then Ok(f.(username := Some(val)))
      else if key == "passwd" then Ok(f.(password := Some(val)))
      else if key == "device" then Ok(f.(serial := Some(val)))
      else if key == "net_ver" then Ok(f.(netVer := Some(val)))
      else if key == "dev_ver" then Ok(f.(devVer := Some(val)))
      else if key == "cli_id" then Ok(f.(cliId := Some(val)))
      else if key == "cli_ver" then Ok(f.(cliVer := Some(val)))
      else if key == "port" then
        match ParseU16(val)
        case None => Err(BadPort(val))
        case Some(p) => Ok(f.(port := Some(p)))
      else Ok(f)
  }

  /** The entries applied in order; the first error stops the loop. */
  function ApplyQuery(f: QueryFields, entries: seq<string>): Result<QueryFields, ParseError>
    decreases |entries|
  {
    if |entries| == 0 then Ok(f)
    else
      match ApplyQuery(f, entries[..|entries| - 1])
      case Err(e) => Err(e)
      case Ok(g) => ApplyEntry(g, entries[|entries| - 1])
  }

  /** What `from_url` returns for `url`. */
  function FromUrlSpec(url: string): Result<LocalSettings, ParseError>
  {
    if !StartsWith(url, SCHEMA_START) then Err(InvalidSchema)
    else
      var part := url[|SCHEMA_START|..];
      match Find(part, ".?")
      case None => Err(InvalidUrl)
      case Some(ipEnd) =>
        var hostname := part[..ipEnd];
        var rawQuery := part[ipEnd + 2..];
        match ApplyQuery(NO_FIELDS, Split(rawQuery, '&'))
        case Err(e) => Err(e)
        case Ok(f) =>
          if f.username.None? then Err(Panic("missing user"))
          else if f.password.None? then Err(Panic("missing passwd"))
          else if f.port.None? then Err(Panic("missing port"))
          else Ok(LocalSettings(hostname, f.port.value, f.username.value, f.password.value,
                                f.serial, f.netVer, f.devVer, f.cliId, f.cliVer))
  }

  /** `LocalSettings::from_url`, with the query loop filling mutable locals. */
  method FromUrl(url: string) returns (r: Result<LocalSettings, ParseError>)
    ensures r == FromUrlSpec(url)
  {
    if !StartsWith(url, SCHEMA_START) {
      return Err(InvalidSchema);
    }
    var part := url[|SCHEMA_START|..];
    var found := Find(part, ".?");
    if found.None? {
      return Err(InvalidUrl);
    }
    var ipEnd := found.value;
    var hostname := part[..ipEnd];
    var rawQuery := part[ipEnd + 2..];

    var username: Option<string> := None;
    var password: Option<string> := None;
    var port: Option<nat> := None;
    var serial: Option<string> := None;
    var netVer: Option<string> := None;
    var devVer: Option<string> := None;
    var cliId: Option<string> := None;
    var cliVer: Option<string> := None;

    var entries := Split(rawQuery, '&');
    var i := 0;
    while i < |entries|
      invariant 0 <= i <= |entries|
      invariant ApplyQuery(NO_FIELDS, entries[..i])
        == Ok(QueryFields(username, password, port, serial, netVer, devVer, cliId, cliVer))
    {
      assert entries[..i + 1][..i] == entries[..i];
      var parts := Split(entries[i], '=');
      if |parts| < 2 {
        ErrorPersists(NO_FIELDS, entries, i + 1);
        return Err(Panic("query entry without a value"));
      }
      var key, val := parts[0], parts[1];
      if key == "user" {
        username := Some(val);
      } else if key == "passwd" {
        password := Some(val);
      } else if key == "device" {
        serial := Some(val);
      } else if key == "net_ver" {
        netVer := Some(val);
      } else if key == "dev_ver" {
        devVer := Some(val);
      } else if key == "cli_id" {
        cliId := Some(val);
      } else if key == "cli_ver" {
        cliVer := Some(val);
      } else if key == "port" {
        var parsed := ParseU16(val);
        if parsed.None? {
          ErrorPersists(NO_FIELDS, entries, i + 1);
          return Err(BadPort(val));
        }
        port := parsed;
      }
      i := i + 1;
    }
    assert entries[..i] == entries;

    if username.None? {
      return Err(Panic("missing user"));
    }
    if password.None? {
      return Err(Panic("missing passwd"));
    }
    if port.None? {
      return Err(Panic("missing port"));
    }
    r := Ok(LocalSettings(hostname, port.value, username.value, password.value,
                          serial, netVer, devVer, cliId, cliVer));
  }

  // ---------------------------------------------------------------------
  // What the URL grammar guarantees

  lemma RejectsOtherSchemas(url: string)
    requires !StartsWith(url, SCHEMA_START)
    ensures FromUrlSpec(url) == Err(InvalidSchema)
  {
  }

  lemma {:induction false} RejectsMissingQueryMarker(url: string)
    requires StartsWith(url, SCHEMA_START)
    requires forall j: nat :: !OccursAt(url[|SCHEMA_START|..], ".?", j)
    ensures FromUrlSpec(url) == Err(InvalidUrl)
  {
  }

  /**
   * A parsed hostname is exactly the text between the schema and the first
   * `.?`: the URL reads SCHEMA_START + hostname + ".?" + query, and the
   * hostname followed by the rest contains no earlier `.?`.
   */
  lemma {:induction false} HostnameBeforeFirstMarker(url: string)
    requires FromUrlSpec(url).Ok?
    ensures var h := FromUrlSpec(url).value.hostname;
      && StartsWith(url, SCHEMA_START + h + ".?")
      && forall j: nat :: j < |h| ==> !OccursAt(url[|SCHEMA_START|..], ".?", j)
  {
    var part := url[|SCHEMA_START|..];
    var ipEnd := Find(part, ".?").value;
    var h := part[..ipEnd];
    assert h == FromUrlSpec(url).value.hostname;
    var n := |SCHEMA_START|;
    assert url[..n + ipEnd + 2] == SCHEMA_START + h + ".?" by {
      assert url[..n] == SCHEMA_START;
      assert url[n..n + ipEnd] == h;
      assert url[n + ipEnd..n + ipEnd + 2] == part[ipEnd..ipEnd + 2] == ".?";
      assert url[..n + ipEnd + 2] == url[..n] + url[n..n + ipEnd] + url[n + ipEnd..n + ipEnd + 2];
    }
  }

  /** The value of the last entry whose key is `key`, read the way the loop reads it. */
  function LastValue(entries: seq<string>, key: string): Option<string>
    decreases |entries|
  {
    if |entries| == 0 then None
    else
      var parts := Split(entries[|entries| - 1], '=');
      if |parts| >= 2 && parts[0] == key then Some(parts[1])
      else LastValue(entries[..|entries| - 1], key)
  }

  /**
   * When the query loop finishes, each recognised field holds the value of
   * the LAST entry with its key (a later duplicate overrides an earlier one),
   * and entries with other keys leave no trace.
   */
  const TEXT_KEYS: set<string> := {"user", "passwd", "device", "net_ver", "dev_ver", "cli_id", "cli_ver"}

  lemma QueryKeepsLastValue(entries: seq<string>)
    requires ApplyQuery(NO_FIELDS, entries).Ok?
    ensures var f := ApplyQuery(NO_FIELDS, entries).value;
      && f.username == LastValue(entries, "user")
      && f.password == LastValue(entries, "passwd")
      && f.serial == LastValue(entries, "device")
      && f.netVer == LastValue(entries, "net_ver")
      && f.devVer == LastValue(entries, "dev_ver")
      && f.cliId == LastValue(entries, "cli_id")
      && f.cliVer == LastValue(entries, "cli_ver")
      && (f.port.Some? <==> LastValue(entries, "port").Some?)
      && (f.port.Some? ==> ParseU16(LastValue(entries, "port").value) == f.port)
  {
    QueryFieldIsLastValue(entries, "user");
    QueryFieldIsLastValue(entries, "passwd");
    QueryFieldIsLastValue(entries, "device");
    QueryFieldIsLastValue(entries, "net_ver");
    QueryFieldIsLastValue(entries, "dev_ver");
    QueryFieldIsLastValue(entries, "cli_id");
    QueryFieldIsLastValue(entries, "cli_ver");
    QueryPortIsLastValue(entries);
  }

  /** The string-valued field that the query key `key` sets, if any. */
  function TextField(f: QueryFields, key: string): Option<string>
  {
    if key == "user" then f.username
    else if key == "passwd" then f.password
    else if key == "device" then f.serial
    else if key == "net_ver" then f.netVer
    else if key == "dev_ver" then f.devVer
    else if key == "cli_id" then f.cliId
    else if key == "cli_ver" then f.cliVer
    else None
  }

  lemma {:induction false} QueryFieldIsLastValue(entries: seq<string>, key: string)
    requires key in TEXT_KEYS
    requires ApplyQuery(NO_FIELDS, entries).Ok?
    ensures TextField(ApplyQuery(NO_FIELDS, entries).value, key) == LastValue(entries, key)
    decreases |entries|
  {
    if |entries| > 0 {
      QueryFieldIsLastValue(entries[..|entries| - 1], key);
    }
  }

  lemma {:induction false} QueryPortIsLastValue(entries: seq<string>)
    requires ApplyQuery(NO_FIELDS, entries).Ok?
    ensures var f := ApplyQuery(NO_FIELDS, entries).value;
      && (f.port.Some? <==> LastValue(entries, "port").Some?)
      && (f.port.Some? ==> ParseU16(LastValue(entries, "port").value) == f.port)
    decreases |entries|
  {
    if |entries| > 0 {
      QueryPortIsLastValue(entries[..|entries| - 1]);
    }
  }

  /** An entry whose key is not recognised changes none of the fields. */
  lemma UnknownKeyIgnored(f: QueryFields, key: string, val: string)
    requires '=' !in key && '=' !in val
    requires key !in {"user", "passwd", "device", "net_ver", "dev_ver", "cli_id", "cli_ver", "port"}
    ensures ApplyEntry(f, key + "=" + val) == Ok(f)
  {
    SplitJoin([key, val], '=');
    assert Join([key, val], '=') == key + "=" + val;
  }

  /** A `port` value that is not a u16 stops parsing with an error. */
  lemma BadPortRejected(url: string, before: seq<string>, val: string, after: seq<string>)
    requires StartsWith(url, SCHEMA_START)
    requires Find(url[|SCHEMA_START|..], ".?").Some?
    requires var part := url[|SCHEMA_START|..];
      Split(part[Find(part, ".?").value + 2..], '&') == before + ["port=" + val] + after
    requires ApplyQuery(NO_FIELDS, before).Ok?
    requires '=' !in val && ParseU16(val).None?
    ensures FromUrlSpec(url) == Err(BadPort(val))
  {
    var entries := before + ["port=" + val] + after;
    SplitJoin(["port", val], '=');
    assert Join(["port", val], '=') == "port=" + val;
    ErrorPersists(NO_FIELDS, entries, |before| + 1);
    assert entries[..|before| + 1] == before + ["port=" + val];
    assert entries[..|before| + 1][..|before|] == before;
  }

  /** Once a prefix of the entries fails, the whole query fails the same way. */
  lemma {:induction false} ErrorPersists(f: QueryFields, entries: seq<string>, k: nat)
    requires k <= |entries|
    requires ApplyQuery(f, entries[..k]).Err?
    ensures ApplyQuery(f, entries) == ApplyQuery(f, entries[..k])
    decreases |entries| - k
  {
    if k < |entries| {
      assert entries[..k + 1][..k] == entries[..k];
      ErrorPersists(f, entries, k + 1);
    } else {
      assert entries[..k] == entries;
    }
  }

  /**
   * The URL of the mandatory settings, in the order the library's own test
   * writes it: host, then `port`, `user` and `passwd`.
   */
  function ToUrl(s: LocalSettings): string
  {
    SCHEMA_START + s.hostname + ".?" + Join(QueryEntries(s), '&')
  }

  function QueryEntries(s: LocalSettings): seq<string>
  {
    ["port=" + NatToString(s.port), "user=" + s.username, "passwd=" + s.password]
  }

  /** Settings that ToUrl can spell without ambiguity. */
  predicate Spellable(s: LocalSettings) {
    && Find(s.hostname, ".?").None?
    && '&' !in s.username && '=' !in s.username
    && '&' !in s.password && '=' !in s.password
    && s.port <= U16_MAX
    && s.serial.None? && s.netVer.None? && s.devVer.None? && s.cliId.None? && s.cliVer.None?
  }

  /** Parsing the URL of a settings record gives that record back. */
  lemma {:induction false} FromUrlOfToUrl(s: LocalSettings)
    requires Spellable(s)
    ensures FromUrlSpec(ToUrl(s)) == Ok(s)
  {
    var url := ToUrl(s);
    var h := s.hostname;
    var query := Join(QueryEntries(s), '&');
    var part := h + ".?" + query;
    assert url == SCHEMA_START + part;
    assert url[|SCHEMA_START|..] == part;
    MarkerAfterHost(h, query);
    assert part[..|h|] == h;
    assert part[|h| + 2..] == query;
    SplitQueryEntries(s);
    ParseQueryEntries(s);
  }

  /** The query of `ToUrl` splits back into its three entries. */
  lemma SplitQueryEntries(s: LocalSettings)
    requires Spellable(s)
    ensures Split(Join(QueryEntries(s), '&'), '&') == QueryEntries(s)
  {
    var entries := QueryEntries(s);
    forall i | 0 <= i < |entries| ensures '&' !in entries[i] {
      var port := NatToString(s.port);
      assert '&' !in port;
    }
    SplitJoin(entries, '&');
  }

  /** The three entries of `ToUrl` fill the port, the user and the password. */
  lemma ParseQueryEntries(s: LocalSettings)
    requires Spellable(s)
    ensures ApplyQuery(NO_FIELDS, QueryEntries(s))
      == Ok(NO_FIELDS.(port := Some(s.port), username := Some(s.username), password := Some(s.password)))
  {
    var entries := QueryEntries(s);
    SplitPair("port", '=', NatToString(s.port));
    SplitPair("user", '=', s.username);
    SplitPair("passwd", '=', s.password);
    ParseU16OfNatToString(s.port);
    assert entries[0] == "port" + "=" + NatToString(s.port);
    assert entries[1] == "user" + "=" + s.username;
    assert entries[2] == "passwd" + "=" + s.password;
    var f1 := NO_FIELDS.(port := Some(s.port));
    var f2 := f1.(username := Some(s.username));
    assert entries[..1][..0] == [];
    assert ApplyQuery(NO_FIELDS, entries[..1]) == Ok(f1);
    assert entries[..2][..1] == entries[..1];
    assert ApplyQuery(NO_FIELDS, entries[..2]) == Ok(f2);
    assert entries[..3][..2] == entries[..2] && entries[..3] == entries;
  }

  lemma MarkerAfterHost(h: string, query: string)
    requires Find(h, ".?").None?
    ensures Find(h + ".?" + query, ".?") == Some(|h|)
  {
    var part := h + ".?" + query;
    assert part[|h|..|h| + 2] == ".?";
    assert OccursAt(part, ".?", |h|);
    forall j: nat | j < |h| ensures !OccursAt(part, ".?", j) {
      if j + 1 < |h| {
        assert part[j..j + 2] == h[j..j + 2];
        assert !OccursAt(h, ".?", j);
      } else {
        assert part[j..j + 2][1] == '.';
      }
    }
  }

  /**
   * The example URL of the library's own unit test,
   * `bambu:///local/127.0.0.1.?port=1234&user=elysia&passwd=ego`.
   */
  lemma ExampleUrl()
    ensures FromUrlSpec(SCHEMA_START + "127.0.0.1" + ".?" + "port=1234&user=elysia&passwd=ego")
      == Ok(LocalSettings("127.0.0.1", 1234, "elysia", "ego", None, None, None, None, None))
  {
    var s := LocalSettings("127.0.0.1", 1234, "elysia", "ego", None, None, None, None, None);
    ExampleSpellable(s);
    FromUrlOfToUrl(s);
    ExampleQuery(s);
  }

  lemma ExampleSpellable(s: LocalSettings)
    requires s == LocalSettings("127.0.0.1", 1234, "elysia", "ego", None, None, None, None, None)
    ensures Spellable(s)
  {
    ExampleHostHasNoMarker(s.hostname);
  }

  lemma ExampleHostHasNoMarker(h: string)
    requires h == "127.0.0.1"
    ensures Find(h, ".?").None?
  {
    forall j: nat | j + 2 <= |h| ensures !OccursAt(h, ".?", j) {
      assert h[j..j + 2][1] == h[j + 1];
    }
  }

  lemma ExampleQuery(s: LocalSettings)
    requires s == LocalSettings("127.0.0.1", 1234, "elysia", "ego", None, None, None, None, None)
    ensures Join(QueryEntries(s), '&') == "port=1234&user=elysia&passwd=ego"
  {
    ExamplePort();
    assert "port=" + "1234" == "port=1234";
    assert "user=" + "elysia" == "user=elysia";
    assert "passwd=" + "ego" == "passwd=ego";
    assert QueryEntries(s) == ["port=1234", "user=elysia", "passwd=ego"];
    JoinThree("port=1234", "user=elysia", "passwd=ego", '&');
    assert "port=1234" + ['&'] + "user=elysia" + ['&'] + "passwd=ego" == "port=1234&user=elysia&passwd=ego";
  }

  lemma ExamplePort()
    ensures NatToString(1234) == "1234"
  {
    assert NatToString(1) == "1";
    assert NatToString(12) == "12";
    assert NatToString(123) == "123";
  }

  lemma JoinThree(a: string, b: string, c: string, sep: char)
    ensures Join([a, b, c], sep) == a + [sep] + b + [sep] + c
  {
    assert [a, b, c][1..] == [b, c];
    assert [b, c][1..] == [c];
    assert Join([b, c], sep) == b + [sep] + c;
    assert a + [sep] + (b + [sep] + c) == a + [sep] + b + [sep] + c;
  }
}
