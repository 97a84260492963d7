/**
 * The local camera tunnel (tools/libturion_source/src/lib.rs): a TLS
 * connection to the printer, the `LocalTunnel` state machine that sends the
 * start and stop command packets, and `read_sample`, which reassembles one
 * camera frame per sample over several calls.
 *
 * TLS, sockets and polling are abstracted into `Connection`: the plaintext the
 * printer has sent and the TLS layer has decrypted but nobody has read yet,
 * whether and how the printer has ended the stream, and everything written so
 * far.
 * The printer's side is `Connection.Deliver`. A failure of the event pump
 * (`process_events` before it runs its callback) is a parameter `pump`.
 * A Rust panic is the error value `Panic`.
 */
module Tunnel {
  import opened Wrappers
  import opened Bytes
  import Settings
  import opened CameraProtocol

  /** The `std::io::ErrorKind`s the tunnel distinguishes; `Other` stands for the rest. */
  datatype ErrorKind = WouldBlock | Interrupted | UnexpectedEof | ConnectionRefused | Other

  datatype TunnelError =
    | Io(kind: ErrorKind)
    | Tunnel(message: string)
    | Panic(reason: string)

  const NOT_OPENED: TunnelError := Tunnel("stream not opened")
  const ALREADY_OPENED: TunnelError := Tunnel("stream already opened")
  const NOT_STARTED: TunnelError := Tunnel("stream not started")
  const ALREADY_STARTED: TunnelError := Tunnel("stream already started")
  const RECEIVE_UNFINISHED: TunnelError := Panic("assertion failed: *remaining_bytes == 0")
  const CREDENTIAL_TOO_LONG: TunnelError := Panic("range end index out of range for slice of length 32")

  /** The stack buffer `read_sample` reads payload bytes into. */
  const CHUNK_LEN: nat := 4096

  /** Smallest non-zero capacity Rust's `Vec<u8>` allocates. */
  const MIN_NON_ZERO_CAP: nat := 8

  function Min(a: nat, b: nat): nat { if a <= b then a else b }

  /**
   * `capacity()` of an empty `Vec<u8>` after `reserve(n)`: nothing for 0,
   * otherwise at least the smallest non-zero capacity.
   */
  function ReservedCapacity(n: nat): (c: nat)
    ensures c >= n
    ensures n == 0 || n >= MIN_NON_ZERO_CAP ==> c == n
  {
    if n == 0 then 0 else if n < MIN_NON_ZERO_CAP then MIN_NON_ZERO_CAP else n
  }

  /** `mio::Interest` as a pair of flags. */
  datatype Interest = Interest(readable: bool, writable: bool)

  /**
   * `LocalTunnelConnection::event_set`: poll for writability exactly when TLS
   * wants to write, and for readability when it wants to read or has nothing
   * to write (never for nothing).
   */
  function EventSet(wantsRead: bool, wantsWrite: bool): (i: Interest)
    ensures i.writable <==> wantsWrite
    ensures i.readable <==> wantsRead || !wantsWrite
  {
    if wantsRead && wantsWrite then Interest(true, true)
    else if wantsWrite then Interest(false, true)
    else Interest(true, false)
  }

  /**
   * How the printer's side of the stream stands: still open, closed after a
   * TLS `close_notify`, or cut off (the TCP stream ended without one).
   */
  datatype PeerEnd = StillOpen | ClosedCleanly | ClosedAbruptly

  /** What the reader of a connection sees. */
  datatype Wire = Wire(incoming: seq<byte>, end: PeerEnd)

  /** `LocalTunnelConnection`: TLS plaintext in both directions. */
  class Connection {
    var incoming: seq<byte>
    var end: PeerEnd
    var written: seq<byte>

    /** A connection whose handshake has just completed. */
    constructor ()
      ensures incoming == [] && end == StillOpen && written == []
    {
      incoming := [];
      end := StillOpen;
      written := [];
    }

    function WireView(): Wire
      reads this
    {
      Wire(incoming, end)
    }

    /**
     * The printer sends `data`, then ends the stream as `how` says; a stream
     * that has ended stays ended the way it first did.
     */
    method Deliver(data: seq<byte>, how: PeerEnd)
      modifies this
      ensures incoming == old(incoming) + data
      ensures end == (if old(end) == StillOpen then how else old(end))
      ensures written == old(written)
    {
      incoming := incoming + data;
      if end == StillOpen {
        end := how;
      }
    }

    /** `write`/`write_all` into the TLS writer, which buffers everything. */
    method WriteAll(data: seq<byte>)
      modifies this
      ensures written == old(written) + data
      ensures WireView() == old(WireView())
    {
      written := written + data;
    }

    /**
     * `read` on the TLS reader: some of the buffered plaintext, at most `max`
     * bytes and at least one when any is buffered; with nothing buffered,
     * end of stream (`Ok(0)`) after a `close_notify`, `UnexpectedEof` after
     * the stream was cut off without one, and `WouldBlock` while it is open.
     */
    method Read(max: nat) returns (r: Result<nat, ErrorKind>, chunk: seq<byte>)
      modifies this
      ensures written == old(written) && end == old(end)
      ensures r.Ok? ==> r.value == |chunk| <= max && old(incoming) == chunk + incoming
      ensures r.Ok? && r.value == 0 <==> max == 0 || (old(incoming) == [] && end == ClosedCleanly)
      ensures max > 0 && old(incoming) != [] ==> r.Ok? && r.value > 0
      ensures r.Err? ==> old(incoming) == incoming == [] && max > 0
      ensures r == Err(WouldBlock) <==> max > 0 && old(incoming) == [] && end == StillOpen
      ensures r == Err(UnexpectedEof) <==> max > 0 && old(incoming) == [] && end == ClosedAbruptly
    {
      if max == 0 {
        return Ok(0), [];
      }
      if incoming == [] {
        match end
        case ClosedCleanly => return Ok(0), [];
        case ClosedAbruptly => return Err(UnexpectedEof), [];
        case StillOpen => return Err(WouldBlock), [];
      }
      var n :| 1 <= n <= max && n <= |incoming|;
      chunk := incoming[..n];
      incoming := incoming[n..];
      r := Ok(n);
    }

    /**
     * `read_exact` (the `std::io::Read` default): `n` bytes, or the error that
     * stopped it, in which case the bytes read so far are lost.
     */
    method ReadExact(n: nat) returns (r: Result<seq<byte>, ErrorKind>)
      modifies this
      ensures written == old(written) && end == old(end)
      ensures r == ReadExactSpec(old(WireView()), n).0
      ensures WireView() == ReadExactSpec(old(WireView()), n).1
    {
      ghost var before := incoming;
      var got: seq<byte> := [];
      while |got| < n
        invariant |got| <= n
        invariant got + incoming == before
        invariant written == old(written) && end == old(end)
        decreases n - |got|
      {
        var res, chunk := Read(n - |got|);
        if res.Err? {
          return Err(res.error);
        }
        if res.value == 0 {
          return Err(UnexpectedEof);
        }
        got := got + chunk;
      }
      assert got == before[..n] && incoming == before[n..] by {
        assert before[..|got|] == got;
      }
      return Ok(got);
    }
  }

  /** The result of `read_exact(n)` and what is left to read. */
  function ReadExactSpec(w: Wire, n: nat): (r: (Result<seq<byte>, ErrorKind>, Wire))
    ensures r.0.Ok? <==> |w.incoming| >= n
    ensures r.0.Ok? ==> |r.0.value| == n && r.0.value + r.1.incoming == w.incoming
    ensures r.0.Err? ==> r.1.incoming == [] && (r.0.error == WouldBlock <==> w.end == StillOpen)
    ensures r.0.Err? ==> r.0.error == WouldBlock || r.0.error == UnexpectedEof
    ensures r.1.end == w.end
  {
    if |w.incoming| >= n then (Ok(w.incoming[..n]), w.(incoming := w.incoming[n..]))
    else (Err(if w.end == StillOpen then WouldBlock else UnexpectedEof), w.(incoming := []))
  }

  /** A `BambuSample` as a value: the buffer stands for the bytes its pointer owns. */
  datatype Sample = Sample(itrack: int, size: int, flags: int, buffer: seq<byte>, decodeTime: nat)

  /** The sample `read_sample` writes over the caller's on its first call. */
  const EMPTY_SAMPLE: Sample := Sample(0, 0, 0, [], 0)

  /** `set_buffer(header, data)`: the sample owns `data` and describes it. */
  function FilledSample(h: FrameHeader, data: seq<byte>): Sample
  {
    Sample(h.itrack, WrapToI32(|data|), h.flags, data, 0)
  }

  /** `destroy_buffer`: release the buffer unless the size says there is none. */
  function DestroyedSample(s: Sample): Sample
  {
    if s.size <= 0 then s else s.(buffer := [], size := 0)
  }

  /** A filled sample reports the length of its data, and is released by destroy_buffer. */
  lemma FilledSampleRoundTrip(h: FrameHeader, data: seq<byte>)
    requires 0 < |data| < TWO_31
    ensures FilledSample(h, data).size == |data|
    ensures FilledSample(h, data).buffer == data
    ensures DestroyedSample(FilledSample(h, data)).size == 0
    ensures DestroyedSample(FilledSample(h, data)).buffer == []
  {
  }

  /** `BambuSample`, the C caller's struct that `read_sample` fills. */
  class BambuSample {
    var itrack: int
    var size: int
    var flags: int
    var buffer: seq<byte>
    var decodeTime: nat

    /** Whatever the caller's memory held. */
    constructor (s: Sample)
      ensures View() == s
    {
      itrack, size, flags, buffer, decodeTime := s.itrack, s.size, s.flags, s.buffer, s.decodeTime;
    }

    function View(): Sample
      reads this
    {
      Sample(itrack, size, flags, buffer, decodeTime)
    }

    method Reset()
      modifies this
      ensures View() == EMPTY_SAMPLE
    {
      itrack, size, flags, buffer, decodeTime := 0, 0, 0, [], 0;
    }

    /**
     * `set_buffer`. Its `data.len() == data.capacity()` assertion holds for
     * the clone it is given, whose capacity is its length.
     */
    method SetBuffer(h: FrameHeader, data: seq<byte>)
      modifies this
      ensures View() == FilledSample(h, data)
    {
      itrack := h.itrack;
      flags := h.flags;
      buffer := data;
      size := WrapToI32(|data|);
      decodeTime := 0;
    }

    method DestroyBuffer()
      modifies this
      ensures View() == DestroyedSample(old(View()))
    {
      if size <= 0 {
        return;
      }
      buffer := [];
      size := 0;
    }
  }

  /** `LocalTunnelState`. */
  datatype StreamState =
    | Initial
    | ProcessStream
    | ReceivingSample(header: FrameHeader, data: seq<byte>, remaining: nat)

  /**
   * While a frame is received, the bytes kept plus the bytes still expected
   * are the capacity reserved for the frame.
   */
  predicate FrameAccounted(st: Option<StreamState>)
  {
    st.Some? && st.value.ReceivingSample? ==>
      st.value.header.Valid() && |st.value.data| + st.value.remaining == ReservedCapacity(st.value.header.frameLen)
  }

  /** Everything one `read_sample` call changes. */
  datatype ReadOutcome = ReadOutcome(
    state: Option<StreamState>,
    ownSample: bool,
    sample: Sample,
    wire: Wire,
    result: Result<(), TunnelError>)

  /**
   * The receive loop of `read_sample`: move bytes from the connection into
   * `data` until `remaining` is 0 or nothing is buffered. Returns the new data,
   * the new count, what is left on the wire and the error, if any.
   */
  function ReceiveSpec(data: seq<byte>, remaining: nat, w: Wire): (r: (seq<byte>, nat, Wire, Option<TunnelError>))
    ensures |r.0| + r.1 == |data| + remaining && r.1 <= remaining
    ensures r.0 + r.2.incoming == data + w.incoming && r.2.end == w.end
    ensures r.3.None? <==> r.1 == 0
    ensures r.3 == Some(Io(WouldBlock)) <==> r.1 > 0 && w.end == StillOpen
    ensures r.3 == Some(RECEIVE_UNFINISHED) <==> r.1 > 0 && w.end == ClosedCleanly
  {
    if |w.incoming| >= remaining then
      (data + w.incoming[..remaining], 0, w.(incoming := w.incoming[remaining..]), None)
    else
      (data + w.incoming, remaining - |w.incoming|, w.(incoming := []),
       Some(match w.end
            case StillOpen => Io(WouldBlock)
            case ClosedCleanly => RECEIVE_UNFINISHED
            case ClosedAbruptly => Io(UnexpectedEof)))
  }

  /**
   * One `read_sample(sample)` on a tunnel with (`connected`) or without a
   * connection, in stream state `state`, with `own` saying whether the tunnel
   * initialised the sample already.
   */
  function ReadSampleSpec(connected: bool, state: Option<StreamState>, own: bool, sample: Sample,
                          w: Wire, pump: Option<ErrorKind>): ReadOutcome
  {
    if !connected then ReadOutcome(state, own, sample, w, Err(NOT_OPENED))
    else
      var s := DestroyedSample(if own then sample else EMPTY_SAMPLE);
      match state
      case None => ReadOutcome(state, true, s, w, Err(NOT_STARTED))
      case Some(Initial) => ReadOutcome(state, true, s, w, Err(NOT_STARTED))
      case Some(ProcessStream) =>
        if pump.Some? then ReadOutcome(state, true, s, w, Err(Io(pump.value)))
        else
          var (raw, w') := ReadExactSpec(w, HEADER_LEN);
          if raw.Err? then ReadOutcome(state, true, s, w', Err(Io(raw.error)))
          else
            var h := HeaderFromBytes(raw.value);
            ReadOutcome(Some(ReceivingSample(h, [], ReservedCapacity(h.frameLen))), true, s, w', Err(Io(Interrupted)))
      case Some(ReceivingSample(h, data, remaining)) =>
        if remaining == 0 then ReadOutcome(Some(ProcessStream), true, FilledSample(h, data), w, Ok(()))
        else if pump.Some? then ReadOutcome(state, true, s, w, Err(Io(pump.value)))
        else
          var (data', remaining', w', err) := ReceiveSpec(data, remaining, w);
          ReadOutcome(Some(ReceivingSample(h, data', remaining')), true, s, w',
                      Err(if err.Some? then err.value else Io(Interrupted)))
  }

  /** `LocalTunnel`. */
  class LocalTunnel {
    var settings: Settings.LocalSettings
    var conn: Connection?
    var reqType: Option<int>
    var state: Option<StreamState>
    var ownSampleBuffer: bool

    /**
     * A connection exists exactly when there is a stream state, a started
     * stream remembers its request type, and a frame being received is
     * accounted for.
     */
    ghost predicate Valid()
      reads this
    {
      && (conn != null <==> state.Some?)
      && (state == Some(ProcessStream) || (state.Some? && state.value.ReceivingSample?) ==>
            reqType.Some? && IsI32(reqType.value))
      && FrameAccounted(state)
    }

    function WireView(): Wire
      reads this, conn
    {
      if conn == null then Wire([], StillOpen) else conn.WireView()
    }

    /** `LocalTunnel::new`. */
    constructor (settings: Settings.LocalSettings)
      ensures Valid()
      ensures this.settings == settings && conn == null && reqType == None && state == None
      ensures !ownSampleBuffer
    {
      this.settings := settings;
      conn := null;
      reqType := None;
      state := None;
      ownSampleBuffer := false;
    }

    /**
     * `open`: refused when a connection or a state exists; otherwise the
     * address resolution, the TCP connection and the TLS handshake (`dial`)
     * decide, and on success the stream state is `Initial`.
     */
    method Open(dial: Dial) returns (r: Result<(), TunnelError>)
      requires Valid()
      modifies this
      ensures Valid()
      ensures settings == old(settings) && reqType == old(reqType) && ownSampleBuffer == old(ownSampleBuffer)
      ensures old(conn) != null || old(state).Some? ==>
        r == Err(ALREADY_OPENED) && conn == old(conn) && state == old(state)
      ensures old(conn) == null && old(state).None? ==>
        r == DialResult(dial)
        && (r.Ok? ==> conn != null && fresh(conn) && conn.WireView() == Wire([], StillOpen)
                      && conn.written == [] && state == Some(Initial))
        && (r.Err? ==> conn == null && state == None)
    {
      if conn != null || state.Some? {
        return Err(ALREADY_OPENED);
      }
      r := DialResult(dial);
      if r.Ok? {
        conn := new Connection();
        state := Some(Initial);
      }
    }

    /**
     * `start(req_type)`: needs a connection and a stream that is not started,
     * writes the start packet with the settings' credentials, pumps the
     * connection, and then records the stream as started with `req_type`.
     */
    method Start(req: int, pump: Option<ErrorKind>) returns (r: Result<(), TunnelError>)
      requires Valid() && IsI32(req)
      modifies this, conn
      ensures Valid()
      ensures conn == old(conn) && settings == old(settings) && ownSampleBuffer == old(ownSampleBuffer)
      ensures conn != null ==> conn.WireView() == old(conn.WireView())
      ensures r.Ok? <==>
        conn != null && old(state) in {None, Some(Initial)} && CredentialsFit(settings) && pump.None?
      ensures r == StartResult(conn != null, old(state), settings, pump)
      ensures r.Ok? ==> state == Some(ProcessStream) && reqType == Some(req)
      ensures r.Err? ==> state == old(state) && reqType == old(reqType)
      ensures conn == null ==> r == Err(NOT_OPENED)
      ensures conn != null && old(state) !in {None, Some(Initial)} ==> r == Err(ALREADY_STARTED)
      ensures conn != null && old(state) in {None, Some(Initial)} ==>
        if !CredentialsFit(settings) then r == Err(CREDENTIAL_TOO_LONG) && conn.written == old(conn.written)
        else conn.written == old(conn.written) + StartPacket(settings, req)
             && (pump.Some? ==> r == Err(Io(pump.value)))
    {
      if conn == null {
        return Err(NOT_OPENED);
      }
      if state.Some? && state.value != Initial {
        return Err(ALREADY_STARTED);
      }
      var user, pass := Utf8(settings.username), Utf8(settings.password);
      if |user| > CREDENTIAL_LEN || |pass| > CREDENTIAL_LEN {
        return Err(CREDENTIAL_TOO_LONG);
      }
      var packet := new CameraCmdPacket(req, user, pass, true);
      conn.WriteAll(packet.AsBytes());
      if pump.Some? {
        return Err(Io(pump.value));
      }
      state := Some(ProcessStream);
      reqType := Some(req);
      return Ok(());
    }

    /**
     * `close`: needs a started stream; writes the stop packet for the
     * recorded request type (present by `Valid`), pumps the connection, and
     * goes back to `Initial`.
     */
    method Close(pump: Option<ErrorKind>) returns (r: Result<(), TunnelError>)
      requires Valid()
      modifies this, conn
      ensures Valid()
      ensures conn == old(conn) && settings == old(settings) && reqType == old(reqType)
      ensures ownSampleBuffer == old(ownSampleBuffer)
      ensures conn != null ==> conn.WireView() == old(conn.WireView())
      ensures r.Ok? <==>
        conn != null && old(state) !in {None, Some(Initial)} && CredentialsFit(settings) && pump.None?
      ensures r == CloseResult(conn != null, old(state), settings, pump)
      ensures r.Ok? ==> state == Some(Initial)
      ensures r.Err? ==> state == old(state)
      ensures conn == null ==> r == Err(NOT_OPENED)
      ensures conn != null && old(state) in {None, Some(Initial)} ==> r == Err(NOT_STARTED)
      ensures conn != null && old(state) !in {None, Some(Initial)} ==>
        if !CredentialsFit(settings) then r == Err(CREDENTIAL_TOO_LONG) && conn.written == old(conn.written)
        else conn.written == old(conn.written) + StopPacket(settings, reqType.value)
             && (pump.Some? ==> r == Err(Io(pump.value)))
    {
      if conn == null {
        return Err(NOT_OPENED);
      }
      if state.None? || state.value == Initial {
        return Err(NOT_STARTED);
      }
      var req := reqType.value;
      var user, pass := Utf8(settings.username), Utf8(settings.password);
      if |user| > CREDENTIAL_LEN || |pass| > CREDENTIAL_LEN {
        return Err(CREDENTIAL_TOO_LONG);
      }
      var packet := new CameraCmdPacket(req, user, pass, false);
      conn.WriteAll(packet.AsBytes());
      if pump.Some? {
        return Err(Io(pump.value));
      }
      state := Some(Initial);
      return Ok(());
    }

    /** `read_sample(sample)`: one step of frame reception, as `ReadSampleSpec` says. */
    method ReadSample(sample: BambuSample, pump: Option<ErrorKind>) returns (r: Result<(), TunnelError>)
      requires Valid()
      modifies this, sample, conn
      ensures Valid()
      ensures conn == old(conn) && settings == old(settings) && reqType == old(reqType)
      ensures conn != null ==> conn.written == old(conn.written)
      ensures ReadOutcome(state, ownSampleBuffer, sample.View(), WireView(), r)
        == ReadSampleSpec(old(conn) != null, old(state), old(ownSampleBuffer), old(sample.View()),
                          old(WireView()), pump)
    {
      if conn == null {
        return Err(NOT_OPENED);
      }
      if !ownSampleBuffer {
        sample.Reset();
        ownSampleBuffer := true;
      }
      sample.DestroyBuffer();
      match state {
        case None =>
          return Err(NOT_STARTED);
        case Some(Initial) =>
          return Err(NOT_STARTED);
        case Some(ProcessStream) =>
          if pump.Some? {
            return Err(Io(pump.value));
          }
          var raw := conn.ReadExact(HEADER_LEN);
          if raw.Err? {
            return Err(Io(raw.error));
          }
          var header := HeaderFromBytes(raw.value);
          state := Some(ReceivingSample(header, [], ReservedCapacity(header.frameLen)));
          return Err(Io(Interrupted));
        case Some(ReceivingSample(header, data, remaining)) =>
          if remaining == 0 {
            sample.SetBuffer(header, data);
            state := Some(ProcessStream);
            return Ok(());
          }
          if pump.Some? {
            return Err(Io(pump.value));
          }
          var data', remaining', err := Receive(conn, data, remaining);
          state := Some(ReceivingSample(header, data', remaining'));
          return Err(if err.Some? then err.value else Io(Interrupted));
      }
    }
  }

  /**
   * The `while *remaining_bytes != 0` loop of `read_sample`, reading at most
   * one 4096-byte buffer at a time. The bytes kept plus the bytes expected
   * stay constant.
   */
  method Receive(conn: Connection, data: seq<byte>, remaining: nat)
    returns (data': seq<byte>, remaining': nat, err: Option<TunnelError>)
    modifies conn
    ensures conn.written == old(conn.written)
    ensures (data', remaining', conn.WireView(), err) == ReceiveSpec(data, remaining, old(conn.WireView()))
  {
    ghost var before := conn.incoming;
    data', remaining' := data, remaining;
    while remaining' != 0
      invariant |data'| + remaining' == |data| + remaining
      invariant data' + conn.incoming == data + before
      invariant |data| <= |data'|
      invariant conn.written == old(conn.written) && conn.end == old(conn.end)
      decreases remaining'
    {
      var n, chunk := conn.Read(Min(remaining', CHUNK_LEN));
      if n.Err? {
        assert data' == data + before;
        return data', remaining', Some(Io(n.error));
      }
      if n.value == 0 {
        break;
      }
      data' := data' + chunk;
      remaining' := remaining' - n.value;
    }
    if remaining' != 0 {
      assert data' == data + before;
      return data', remaining', Some(RECEIVE_UNFINISHED);
    }
    assert data' == data + before[..remaining] && conn.incoming == before[remaining..] by {
      assert (data + before)[..|data'|] == data';
    }
    return data', remaining', None;
  }

  /** The outcome of resolving, connecting to and handshaking with the printer. */
  datatype Dial =
    | Connected
    | Unresolvable        // `to_socket_addrs().unwrap().next().unwrap()` panics
    | InvalidServerName   // `server_name.try_into().unwrap()` panics
    | Failed(kind: ErrorKind)

  function DialResult(d: Dial): (r: Result<(), TunnelError>)
    ensures r.Ok? <==> d == Connected
  {
    match d
    case Connected => Ok(())
    case Unresolvable => Err(Panic("failed to resolve the printer address"))
    case InvalidServerName => Err(Panic("invalid server name"))
    case Failed(k) => Err(Io(k))
  }

  /**
   * What `start(req_type)` returns on a tunnel with (`connected`) or without
   * a connection, in stream state `state`: the first check that fails, in the
   * order the source makes them.
   */
  function StartResult(connected: bool, state: Option<StreamState>, s: Settings.LocalSettings,
                       pump: Option<ErrorKind>): (r: Result<(), TunnelError>)
    ensures r.Ok? <==> connected && state in {None, Some(Initial)} && CredentialsFit(s) && pump.None?
    ensures r.Err? && r.error.Panic? <==> connected && state in {None, Some(Initial)} && !CredentialsFit(s)
  {
    if !connected then Err(NOT_OPENED)
    else if state !in {None, Some(Initial)} then Err(ALREADY_STARTED)
    else if !CredentialsFit(s) then Err(CREDENTIAL_TOO_LONG)
    else if pump.Some? then Err(Io(pump.value))
    else Ok(())
  }

  /** What `close()` returns, as `StartResult` for `start`. */
  function CloseResult(connected: bool, state: Option<StreamState>, s: Settings.LocalSettings,
                       pump: Option<ErrorKind>): (r: Result<(), TunnelError>)
    ensures r.Ok? <==> connected && state !in {None, Some(Initial)} && CredentialsFit(s) && pump.None?
    ensures r.Err? && r.error.Panic? <==> connected && state !in {None, Some(Initial)} && !CredentialsFit(s)
  {
    if !connected then Err(NOT_OPENED)
    else if state in {None, Some(Initial)} then Err(NOT_STARTED)
    else if !CredentialsFit(s) then Err(CREDENTIAL_TOO_LONG)
    else if pump.Some? then Err(Io(pump.value))
    else Ok(())
  }

  /** Both credentials fit their 32-byte fields once encoded. */
  predicate CredentialsFit(s: Settings.LocalSettings)
  {
    |Utf8(s.username)| <= CREDENTIAL_LEN && |Utf8(s.password)| <= CREDENTIAL_LEN
  }

  function StartPacket(s: Settings.LocalSettings, req: int): seq<byte>
    requires CredentialsFit(s) && IsI32(req)
  {
    CmdPacketBytes(req, Utf8(s.username), Utf8(s.password), true)
  }

  function StopPacket(s: Settings.LocalSettings, req: int): seq<byte>
    requires CredentialsFit(s) && IsI32(req)
  {
    CmdPacketBytes(req, Utf8(s.username), Utf8(s.password), false)
  }
  /** Every `read_sample` step keeps the frame being received accounted for. */
  lemma ReadSampleKeepsAccounting(connected: bool, state: Option<StreamState>, own: bool, sample: Sample,
                                  w: Wire, pump: Option<ErrorKind>)
    requires FrameAccounted(state)
    ensures FrameAccounted(ReadSampleSpec(connected, state, own, sample, w, pump).state)
  {
  }

  /**
   * A step succeeds only by handing over a completely received frame; every
   * other step of a started stream reports `Interrupted` or `WouldBlock` as
   * long as the connection neither fails nor ends.
   */
  lemma ReadSampleResults(connected: bool, state: Option<StreamState>, own: bool, sample: Sample,
                          w: Wire, pump: Option<ErrorKind>)
    ensures var o := ReadSampleSpec(connected, state, own, sample, w, pump);
      && (o.result.Ok? <==> connected && state.Some? && state.value.ReceivingSample? && state.value.remaining == 0)
      && (o.result.Ok? ==> o.sample == FilledSample(state.value.header, state.value.data)
                           && o.state == Some(ProcessStream))
      && (connected && o.result.Err? ==> o.sample.size <= 0 && o.ownSample)
      && (connected && pump.None? && w.end == StillOpen && state.Some? && state.value != Initial && o.result.Err? ==>
            o.result in {Err(Io(Interrupted)), Err(Io(WouldBlock))})
  {
  }

  /** Three `read_sample` steps from `ProcessStream`. */
  function ThreeSteps(own: bool, s: Sample, w: Wire): seq<ReadOutcome>
  {
    var o1 := ReadSampleSpec(true, Some(ProcessStream), own, s, w, None);
    var o2 := ReadSampleSpec(true, o1.state, o1.ownSample, o1.sample, o1.wire, None);
    var o3 := ReadSampleSpec(true, o2.state, o2.ownSample, o2.sample, o2.wire, None);
    [o1, o2, o3]
  }

  /**
   * A frame of at least 8 bytes that has fully arrived is handed over by the
   * third `read_sample` call: header, then payload, then the sample, which
   * holds exactly the payload; the two steps before report `Interrupted`.
   */
  lemma {:induction false} FrameDelivery(h: FrameHeader, payload: seq<byte>, rest: seq<byte>,
                                         own: bool, s: Sample, end: PeerEnd)
    requires h.Valid() && |payload| == h.frameLen >= MIN_NON_ZERO_CAP
    ensures var o := ThreeSteps(own, s, Wire(HeaderToBytes(h) + payload + rest, end));
      && o[0].result == Err(Io(Interrupted))
      && o[1].result == Err(Io(Interrupted))
      && o[2].result == Ok(())
      && o[2].sample == FilledSample(h, payload)
      && o[2].state == Some(ProcessStream)
      && o[2].wire == Wire(rest, end)
  {
    var bytes := HeaderToBytes(h) + payload + rest;
    assert bytes[..HEADER_LEN] == HeaderToBytes(h);
    assert bytes[HEADER_LEN..] == payload + rest;
    HeaderFromToBytes(h);
    assert (payload + rest)[..|payload|] == payload;
    assert (payload + rest)[|payload|..] == rest;
  }

  /**
   * A frame of 1 to 7 bytes is read as 8: the capacity `reserve` gives, not
   * the frame length, bounds the receive loop, so the sample also takes the
   * first bytes of what follows the frame.
   */
  lemma {:induction false} ShortFrameTakesNextBytes(h: FrameHeader, payload: seq<byte>, rest: seq<byte>,
                                                    own: bool, s: Sample, end: PeerEnd)
    requires h.Valid() && |payload| == h.frameLen && 0 < h.frameLen < MIN_NON_ZERO_CAP
    requires |rest| >= MIN_NON_ZERO_CAP - h.frameLen
    ensures var o := ThreeSteps(own, s, Wire(HeaderToBytes(h) + payload + rest, end));
      && o[2].result == Ok(())
      && o[2].sample.buffer == payload + rest[..MIN_NON_ZERO_CAP - h.frameLen]
      && o[2].wire == Wire(rest[MIN_NON_ZERO_CAP - h.frameLen..], end)
  {
    var bytes := HeaderToBytes(h) + payload + rest;
    assert bytes[..HEADER_LEN] == HeaderToBytes(h);
    assert bytes[HEADER_LEN..] == payload + rest;
    HeaderFromToBytes(h);
    var k := MIN_NON_ZERO_CAP - h.frameLen;
    assert (payload + rest)[..MIN_NON_ZERO_CAP] == payload + rest[..k];
    assert (payload + rest)[MIN_NON_ZERO_CAP..] == rest[k..];
  }

  /** A header announcing an empty frame yields an empty sample on the second call. */
  lemma EmptyFrameDelivery(h: FrameHeader, rest: seq<byte>, own: bool, s: Sample, end: PeerEnd)
    requires h.Valid() && h.frameLen == 0
    ensures var o := ThreeSteps(own, s, Wire(HeaderToBytes(h) + rest, end));
      && o[0].result == Err(Io(Interrupted))
      && o[1].result == Ok(())
      && o[1].sample == FilledSample(h, [])
      && o[1].sample.size == 0
  {
    var bytes := HeaderToBytes(h) + rest;
    assert bytes[..HEADER_LEN] == HeaderToBytes(h);
    HeaderFromToBytes(h);
  }

  /**
   * A header split across deliveries is lost: when only part of it has
   * arrived, `read_exact` consumes that part and reports `WouldBlock`, and
   * the state stays `ProcessStream`.
   */
  lemma PartialHeaderDropped(part: seq<byte>, own: bool, s: Sample)
    requires |part| < HEADER_LEN
    ensures var o := ReadSampleSpec(true, Some(ProcessStream), own, s, Wire(part, StillOpen), None);
      && o.result == Err(Io(WouldBlock)) && o.state == Some(ProcessStream) && o.wire.incoming == []
  {
  }
}
