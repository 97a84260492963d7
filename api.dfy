/**
 * The C ABI of the camera tunnel library (tools/libturion_source/src/api.rs):
 * the `Bambu_*` entry points a camera client loads in place of the vendor
 * library, and the integer codes they return.
 *
 * A handle is a `LocalTunnel?` (null is the null pointer). A Rust panic cannot
 * unwind through an `extern "C"` function, so where the tunnel reports
 * `Panic` the call does not return at all: the process aborts (`Aborted`).
 */
module Api {
  import opened Wrappers
  import opened Bytes
  import Settings
  import opened Tunnel

  const BAMBU_WOULD_BLOCK_ERROR: int := 2
  const BAMBU_GENERIC_ERROR: int := 4

  /** The stream type `Bambu_StartStream(true)` requests: the camera stream. */
  const CAMERA_STREAM_TYPE: int := 0x3000

  datatype CallOutcome = Returned(code: int) | Aborted

  /** How the result of `open`/`start` leaves `Bambu_Open`/`Bambu_StartStreamEx`. */
  function StatusCode(r: Result<(), TunnelError>): (c: CallOutcome)
    ensures c == Returned(0) <==> r.Ok?
    ensures c == Aborted <==> r.Err? && r.error.Panic?
    ensures c == Returned(-1) <==> r.Err? && !r.error.Panic?
  {
    match r
    case Ok(_) => Returned(0)
    case Err(Panic(_)) => Aborted
    case Err(_) => Returned(-1)
  }

  /** The error-kind match of `Bambu_ReadSample`. */
  function ReadSampleCode(r: Result<(), TunnelError>): (c: CallOutcome)
    ensures c == Returned(0) <==> r.Ok?
    ensures c == Returned(BAMBU_WOULD_BLOCK_ERROR) <==> r in {Err(Io(WouldBlock)), Err(Io(Interrupted))}
    ensures c == Aborted <==> r.Err? && r.error.Panic?
    ensures c == Returned(-1) <==>
      r.Err? && !r.error.Panic? && r !in {Err(Io(WouldBlock)), Err(Io(Interrupted))}
  {
    match r
    case Ok(_) => Returned(0)
    case Err(Io(WouldBlock)) => Returned(BAMBU_WOULD_BLOCK_ERROR)
    case Err(Io(Interrupted)) => Returned(BAMBU_WOULD_BLOCK_ERROR)
    case Err(Panic(_)) => Aborted
    case Err(_) => Returned(-1)
  }

  /** How the result of `from_url` leaves `Bambu_Create`. */
  function CreateCode(r: Result<Settings.LocalSettings, Settings.ParseError>): (c: CallOutcome)
    ensures c == Returned(0) <==> r.Ok?
    ensures c == Returned(BAMBU_GENERIC_ERROR) <==> r.Err? && !r.error.Panic?
    ensures c == Aborted <==> r.Err? && r.error.Panic?
  {
    match r
    case Ok(_) => Returned(0)
    case Err(Panic(_)) => Aborted
    case Err(_) => Returned(BAMBU_GENERIC_ERROR)
  }

  /** `Bambu_StartStream(video)` asks for stream type 0x3000, or 0. */
  function StreamTypeFor(video: bool): (t: int)
    ensures IsI32(t)
    ensures video <==> t == CAMERA_STREAM_TYPE
    ensures !video <==> t == 0
  {
    if video then CAMERA_STREAM_TYPE else 0
  }

  /**
   * `Bambu_Create(handle_out, path)`: parse the URL; on success a fresh tunnel
   * with no connection and no state becomes the handle.
   */
  method Create(path: string) returns (code: CallOutcome, handle: LocalTunnel?)
    ensures code == CreateCode(Settings.FromUrlSpec(path))
    ensures handle != null <==> code == Returned(0)
    ensures handle != null ==>
      && fresh(handle) && handle.Valid()
      && handle.settings == Settings.FromUrlSpec(path).value
      && handle.conn == null && handle.state == None && handle.reqType == None
      && !handle.ownSampleBuffer
  {
    var parsed := Settings.FromUrl(path);
    if parsed.Err? {
      return CreateCode(parsed), null;
    }
    handle := new LocalTunnel(parsed.value);
    code := Returned(0);
  }

  /** `Bambu_Open(handle)`. */
  method Open(handle: LocalTunnel?, dial: Dial) returns (code: CallOutcome)
    requires handle != null ==> handle.Valid()
    modifies handle
    ensures handle != null ==> handle.Valid()
    ensures handle == null ==> code == Returned(-1)
    ensures handle != null ==>
      code == StatusCode(if old(handle.conn) != null || old(handle.state).Some? then Err(ALREADY_OPENED)
                         else DialResult(dial))
    ensures handle != null ==>
      && handle.settings == old(handle.settings) && handle.reqType == old(handle.reqType)
      && handle.ownSampleBuffer == old(handle.ownSampleBuffer)
      && (code == Returned(0) ==>
            handle.conn != null && fresh(handle.conn) && handle.conn.WireView() == Wire([], StillOpen)
            && handle.conn.written == [] && handle.state == Some(Initial))
      && (code != Returned(0) ==> handle.conn == old(handle.conn) && handle.state == old(handle.state))
  {
    if handle == null {
      return Returned(-1);
    }
    var r := handle.Open(dial);
    code := StatusCode(r);
  }

  /**
   * `Bambu_Close(handle)`: close the stream, ignoring a failure. A close that
   * succeeds has written the stop packet for the recorded stream type and
   * returned the stream to `Initial`; one that fails changes no state.
   */
  method Close(handle: LocalTunnel?, pump: Option<ErrorKind>) returns (aborted: bool)
    requires handle != null ==> handle.Valid()
    modifies if handle != null then {handle, handle.conn} else {}
    ensures handle != null ==> handle.Valid()
    ensures handle == null ==> !aborted
    ensures handle != null ==>
      var r := CloseResult(old(handle.conn) != null, old(handle.state), old(handle.settings), pump);
      && (aborted <==> StatusCode(r) == Aborted)
      && (aborted <==>
            handle.conn != null && old(handle.state) !in {None, Some(Initial)} && !CredentialsFit(handle.settings))
      && handle.conn == old(handle.conn) && handle.reqType == old(handle.reqType)
      && handle.state == (if r.Ok? then Some(Initial) else old(handle.state))
      && (handle.conn != null && old(handle.state) !in {None, Some(Initial)} && CredentialsFit(handle.settings) ==>
            handle.conn.written == old(handle.conn.written) + StopPacket(handle.settings, handle.reqType.value))
  {
    if handle == null {
      return false;
    }
    var r := handle.Close(pump);
    aborted := r.Err? && r.error.Panic?;
  }

  /** `Bambu_GetStreamCount`: one stream, always. */
  function GetStreamCount(handle: LocalTunnel?): (n: int)
    ensures handle == null <==> n == -1
    ensures handle != null <==> n == 1
  {
    if handle == null then -1 else 1
  }

  /** `BambuVideoStreamInfo`, the caller's struct. */
  class StreamInfo {
    var streamType: int
    var subType: int
    var width: int
    var height: int
    var frameRate: int
    var formatType: int
    var formatSize: int
    var maxFrameSize: int
    var formatBufferIsNull: bool

    constructor ()
    {
    }
  }

  /** `Bambu_GetStreamInfo`: fixed values for a 1280x720 stream. */
  method GetStreamInfo(handle: LocalTunnel?, index: int, info: StreamInfo) returns (code: int)
    modifies info
    ensures handle == null ==> code == -1 && unchanged(info)
    ensures handle != null ==>
      && code == 0
      && info.streamType == 0 && info.subType == 1
      && info.width == 1280 && info.height == 720
      && info.frameRate == 1 && info.formatType == 2 && info.formatSize == 0
      && info.maxFrameSize == 32549 && info.formatBufferIsNull
  {
    if handle == null {
      return -1;
    }
    info.streamType, info.subType, info.width, info.height := 0, 1, 1280, 720;
    info.frameRate, info.formatType, info.formatSize := 1, 2, 0;
    info.maxFrameSize, info.formatBufferIsNull := 32549, true;
    return 0;
  }

  /**
   * `Bambu_StartStreamEx(handle, stream_type)`: the code is `StatusCode` of
   * what `start` returns. A start that succeeds records the stream type; one
   * that fails leaves the state and the recorded type alone.
   */
  method StartStreamEx(handle: LocalTunnel?, streamType: int, pump: Option<ErrorKind>) returns (code: CallOutcome)
    requires IsI32(streamType)
    requires handle != null ==> handle.Valid()
    modifies if handle != null then {handle, handle.conn} else {}
    ensures handle != null ==> handle.Valid()
    ensures handle == null ==> code == Returned(-1)
    ensures handle != null ==>
      && code == StatusCode(StartResult(old(handle.conn) != null, old(handle.state), old(handle.settings), pump))
      && handle.conn == old(handle.conn)
      && (code == Returned(0) <==>
            handle.conn != null && old(handle.state) in {None, Some(Initial)}
            && CredentialsFit(handle.settings) && pump.None?)
      && (code == Returned(-1) <==>
            handle.conn == null || old(handle.state) !in {None, Some(Initial)}
            || (CredentialsFit(handle.settings) && pump.Some?))
      && (code == Aborted <==>
            handle.conn != null && old(handle.state) in {None, Some(Initial)} && !CredentialsFit(handle.settings))
      && (code == Returned(0) ==> handle.state == Some(ProcessStream) && handle.reqType == Some(streamType))
      && (code != Returned(0) ==> handle.state == old(handle.state) && handle.reqType == old(handle.reqType))
      && (handle.conn != null && old(handle.state) in {None, Some(Initial)} && CredentialsFit(handle.settings) ==>
            handle.conn.written == old(handle.conn.written) + StartPacket(handle.settings, streamType))
  {
    if handle == null {
      return Returned(-1);
    }
    var r := handle.Start(streamType, pump);
    code := StatusCode(r);
  }

  /** `Bambu_StartStream(handle, video)`: `Bambu_StartStreamEx` with the type the video flag selects. */
  method StartStream(handle: LocalTunnel?, video: bool, pump: Option<ErrorKind>) returns (code: CallOutcome)
    requires handle != null ==> handle.Valid()
    modifies if handle != null then {handle, handle.conn} else {}
    ensures handle != null ==> handle.Valid()
    ensures handle == null ==> code == Returned(-1)
    ensures handle != null ==>
      && code == StatusCode(StartResult(old(handle.conn) != null, old(handle.state), old(handle.settings), pump))
      && handle.conn == old(handle.conn)
      && (code == Returned(0) <==>
            handle.conn != null && old(handle.state) in {None, Some(Initial)}
            && CredentialsFit(handle.settings) && pump.None?)
      && (code == Returned(-1) <==>
            handle.conn == null || old(handle.state) !in {None, Some(Initial)}
            || (CredentialsFit(handle.settings) && pump.Some?))
      && (code == Aborted <==>
            handle.conn != null && old(handle.state) in {None, Some(Initial)} && !CredentialsFit(handle.settings))
      && (code == Returned(0) ==>
            handle.state == Some(ProcessStream) && handle.reqType == Some(if video then CAMERA_STREAM_TYPE else 0))
      && (code != Returned(0) ==> handle.state == old(handle.state) && handle.reqType == old(handle.reqType))
      && (handle.conn != null && old(handle.state) in {None, Some(Initial)} && CredentialsFit(handle.settings) ==>
            handle.conn.written == old(handle.conn.written) + StartPacket(handle.settings, StreamTypeFor(video)))
  {
    code := StartStreamEx(handle, StreamTypeFor(video), pump);
  }

  /** `Bambu_SendMessage`: not supported. */
  function SendMessage(handle: LocalTunnel?, ctrl: int, data: seq<byte>): (code: int)
    ensures code == -1
  {
    -1
  }

  /** `Bambu_RecvMessage`: not supported. */
  function RecvMessage(handle: LocalTunnel?): (code: int)
    ensures code == -1
  {
    -1
  }

  /** `Bambu_ReadSample(handle, sample)`: one `read_sample` step, as a code. */
  method ReadSample(handle: LocalTunnel?, sample: BambuSample, pump: Option<ErrorKind>) returns (code: CallOutcome)
    requires handle != null ==> handle.Valid()
    modifies if handle != null then {handle, sample, handle.conn} else {}
    ensures handle != null ==> handle.Valid()
    ensures handle == null ==> code == Returned(-1)
    ensures handle != null ==>
      var o := ReadSampleSpec(old(handle.conn) != null, old(handle.state), old(handle.ownSampleBuffer),
                              old(sample.View()), old(handle.WireView()), pump);
      && code == ReadSampleCode(o.result)
      && handle.state == o.state && handle.ownSampleBuffer == o.ownSample
      && sample.View() == o.sample && handle.WireView() == o.wire
      && handle.conn == old(handle.conn) && handle.settings == old(handle.settings)
      && handle.reqType == old(handle.reqType)
      && (handle.conn != null ==> handle.conn.written == old(handle.conn.written))
  {
    if handle == null {
      return Returned(-1);
    }
    var r := handle.ReadSample(sample, pump);
    code := ReadSampleCode(r);
  }

  /**
   * What a caller polling `Bambu_ReadSample` sees for a frame of at least 8
   * bytes that has fully arrived: 2, 2, then 0 with the frame in the sample.
   */
  lemma FrameDeliveryCodes(h: CameraProtocol.FrameHeader, payload: seq<byte>, rest: seq<byte>,
                           own: bool, s: Sample, end: PeerEnd)
    requires h.Valid() && |payload| == h.frameLen >= MIN_NON_ZERO_CAP
    ensures var o := ThreeSteps(own, s, Wire(CameraProtocol.HeaderToBytes(h) + payload + rest, end));
      && ReadSampleCode(o[0].result) == Returned(BAMBU_WOULD_BLOCK_ERROR)
      && ReadSampleCode(o[1].result) == Returned(BAMBU_WOULD_BLOCK_ERROR)
      && ReadSampleCode(o[2].result) == Returned(0)
      && o[2].sample.buffer == payload
  {
    FrameDelivery(h, payload, rest, own, s, end);
  }

  /** A started stream never reads as -1 while the connection is healthy and open. */
  lemma HealthyStreamNeverFails(state: StreamState, own: bool, s: Sample, incoming: seq<byte>)
    requires state != Initial
    ensures ReadSampleCode(ReadSampleSpec(true, Some(state), own, s, Wire(incoming, StillOpen), None).result)
      in {Returned(0), Returned(BAMBU_WOULD_BLOCK_ERROR)}
  {
    ReadSampleResults(true, Some(state), own, s, Wire(incoming, StillOpen), None);
  }

  /**
   * A stream that ends while part of a frame is still expected: when the TCP
   * stream was cut off without `close_notify` the read error leaves through
   * `?` and `Bambu_ReadSample` returns -1; after a `close_notify` the receive
   * loop's `assert!` fails and the process aborts; while the stream is open
   * the caller is told to retry.
   */
  lemma EndMidFrameCodes(h: CameraProtocol.FrameHeader, data: seq<byte>, remaining: nat,
                         own: bool, s: Sample, incoming: seq<byte>)
    requires |incoming| < remaining
    ensures var st := Some(ReceivingSample(h, data, remaining));
      && ReadSampleCode(ReadSampleSpec(true, st, own, s, Wire(incoming, ClosedAbruptly), None).result)
           == Returned(-1)
      && ReadSampleCode(ReadSampleSpec(true, st, own, s, Wire(incoming, ClosedCleanly), None).result)
           == Aborted
      && ReadSampleCode(ReadSampleSpec(true, st, own, s, Wire(incoming, StillOpen), None).result)
           == Returned(BAMBU_WOULD_BLOCK_ERROR)
  {
  }
}
