/**
 * The stand-alone camera client (tools/turion_remote_camera/turion_remote_camera.py):
 * it logs in with the same 80-byte packet the tunnel library sends, then
 * copies the payload of every frame to standard output.
 *
 * `struct.pack("IIII", ...)` uses the native byte order, little-endian on
 * the machines the script targets. The TLS socket is a blocking stream of
 * bytes; standard output is a sequence of bytes the script appends to.
 */
module RemoteCamera {
  import opened Wrappers
  import opened Bytes
  import opened CameraProtocol

  /** `BAMBU_CAMERA_STREAM`. */
  const CAMERA_STREAM: int := 0x3000

  /** `generate_header_packet`: four words, or `None` when `struct.pack` raises for a word out of range. */
  function HeaderPacket(size: int, packetType: int, flags: int, word3: int): Option<seq<byte>>
  {
    if 0 <= size < TWO_32 && 0 <= packetType < TWO_32 && 0 <= flags < TWO_32 && 0 <= word3 < TWO_32
    then Some(PackWords([size, packetType, flags, word3]))
    else None
  }

  /** The header packet is 16 bytes that `struct.unpack("IIII", ...)` reads back as the four words. */
  lemma HeaderPacketRoundTrip(size: int, packetType: int, flags: int, word3: int)
    ensures HeaderPacket(size, packetType, flags, word3).Some? <==>
      0 <= size < TWO_32 && 0 <= packetType < TWO_32 && 0 <= flags < TWO_32 && 0 <= word3 < TWO_32
    ensures HeaderPacket(size, packetType, flags, word3).Some? ==>
      |HeaderPacket(size, packetType, flags, word3).value| == HEADER_LEN
      && UnpackWords(HeaderPacket(size, packetType, flags, word3).value) == [size, packetType, flags, word3]
  {
    if 0 <= size < TWO_32 && 0 <= packetType < TWO_32 && 0 <= flags < TWO_32 && 0 <= word3 < TWO_32 {
      UnpackPackWords([size, packetType, flags, word3]);
    }
  }

  /** `struct.pack("32s", b)`: `b` cut or zero-padded to 32 bytes. */
  function Fixed32(b: seq<byte>): (r: seq<byte>)
    ensures |r| == CREDENTIAL_LEN
  {
    if |b| >= CREDENTIAL_LEN then b[..CREDENTIAL_LEN] else Padded(b)
  }

  /** A field is the first 32 bytes of the value, then zeros. */
  lemma Fixed32Contents(b: seq<byte>)
    ensures |b| <= CREDENTIAL_LEN ==> Fixed32(b) == Padded(b)
    ensures |b| >= CREDENTIAL_LEN ==> Fixed32(b) == b[..CREDENTIAL_LEN]
    ensures forall i :: 0 <= i < CREDENTIAL_LEN ==> Fixed32(b)[i] == if i < |b| then b[i] else 0
  {
    if |b| < CREDENTIAL_LEN {
      assert forall i :: 0 <= i < |b| ==> Padded(b)[i] == Padded(b)[..|b|][i];
    }
  }

  /** `generate_login_packet(username, password)`. */
  function LoginPacket(username: string, password: string): seq<byte>
  {
    PackWords([START_FLAG, CAMERA_STREAM, 0, 0]) + Fixed32(Utf8(username)) + Fixed32(Utf8(password))
  }

  /** The header the login packet starts with is `generate_header_packet(0x40, 0x3000, 0, 0)`. */
  lemma LoginHeader(username: string, password: string)
    ensures HeaderPacket(0x40, CAMERA_STREAM, 0, 0).Some?
    ensures LoginPacket(username, password)[..HEADER_LEN] == HeaderPacket(0x40, CAMERA_STREAM, 0, 0).value
    ensures |LoginPacket(username, password)| == CMD_PACKET_LEN
  {
  }

  /**
   * For credentials of at most 32 UTF-8 bytes the script sends exactly the
   * start packet the tunnel library builds for the camera stream.
   */
  lemma LoginIsStartPacket(username: string, password: string)
    requires |Utf8(username)| <= CREDENTIAL_LEN && |Utf8(password)| <= CREDENTIAL_LEN
    ensures LoginPacket(username, password) == CmdPacketBytes(CAMERA_STREAM, Utf8(username), Utf8(password), true)
  {
    assert CmdWords(CAMERA_STREAM, true) == [START_FLAG, CAMERA_STREAM, 0, 0];
  }

  /** Longer credentials are cut to their first 32 bytes, where the library refuses them. */
  lemma LoginTruncatesCredentials(username: string, password: string)
    requires |Utf8(username)| > CREDENTIAL_LEN
    ensures LoginPacket(username, password)[16..48] == Utf8(username)[..CREDENTIAL_LEN]
  {
    var r := LoginPacket(username, password);
    assert r[16..48] == Fixed32(Utf8(username));
  }

  /** The TLS socket of the script: the bytes the printer has sent and not yet read. */
  class CameraSocket {
    var incoming: seq<byte>
    var sent: seq<byte>

    /** `ssock.write(data)`. */
    method Write(data: seq<byte>)
      modifies this
      ensures sent == old(sent) + data && incoming == old(incoming)
    {
      sent := sent + data;
    }

    /**
     * `ssock.read(len=n)`: blocks until data is there, then returns between
     * one and `n` of the next bytes.
     */
    method Read(n: nat) returns (chunk: seq<byte>)
      requires n > 0 && incoming != []
      modifies this
      ensures 1 <= |chunk| <= n
      ensures old(incoming) == chunk + incoming
      ensures sent == old(sent)
    {
      var k :| 1 <= k <= n && k <= |incoming|;
      chunk := incoming[..k];
      incoming := incoming[k..];
    }
  }

  /**
   * `recv_full_size(sock, size)`: reads until exactly `size` bytes have
   * arrived. The printer must send them: the script waits for ever otherwise.
   */
  method RecvFullSize(sock: CameraSocket, size: nat) returns (data: seq<byte>)
    requires size <= |sock.incoming|
    modifies sock
    ensures data == old(sock.incoming)[..size]
    ensures sock.incoming == old(sock.incoming)[size..]
    ensures sock.sent == old(sock.sent)
  {
    data := [];
    while |data| != size
      invariant |data| <= size
      invariant data + sock.incoming == old(sock.incoming)
      invariant sock.sent == old(sock.sent)
      decreases size - |data|
    {
      var frame := sock.Read(size - |data|);
      data := data + frame;
    }
    assert old(sock.incoming) == data + sock.incoming;
  }

  /** The next frame of a stream: its payload and what follows, if it has fully arrived. */
  function NextFrame(b: seq<byte>): (r: Option<(seq<byte>, seq<byte>)>)
    ensures r.Some? ==> |r.value.0| + |r.value.1| + HEADER_LEN == |b|
  {
    if |b| < HEADER_LEN then None
    else
      var n := FromLE32(b[..4]);
      if |b| - HEADER_LEN < n then None
      else Some((b[HEADER_LEN..HEADER_LEN + n], b[HEADER_LEN + n..]))
  }

  /** The output of `count` calls of `handle_packets`, and the stream left over. */
  function Unframe(b: seq<byte>, count: nat): Option<(seq<byte>, seq<byte>)>
    decreases count
  {
    if count == 0 then Some(([], b))
    else match NextFrame(b)
      case None => None
      case Some((payload, rest)) =>
        match Unframe(rest, count - 1)
        case None => None
        case Some((out, left)) => Some((payload + out, left))
  }

  /** `handle_packets(sock)`: the frame header, then its payload, written to standard output. */
  method HandlePacket(sock: CameraSocket, stdout: seq<byte>) returns (out: seq<byte>)
    requires NextFrame(sock.incoming).Some?
    modifies sock
    ensures out == stdout + NextFrame(old(sock.incoming)).value.0
    ensures sock.incoming == NextFrame(old(sock.incoming)).value.1
    ensures sock.sent == old(sock.sent)
  {
    ghost var before := sock.incoming;
    var data := RecvFullSize(sock, HEADER_LEN);
    var words := UnpackWords(data);
    var dataSize := words[0];
    assert data[..4] == before[..4];
    var frame := RecvFullSize(sock, dataSize);
    assert before[HEADER_LEN..][..dataSize] == before[HEADER_LEN..HEADER_LEN + dataSize];
    assert before[HEADER_LEN..][dataSize..] == before[HEADER_LEN + dataSize..];
    out := stdout + frame;
  }

  /** `count` rounds are the next frame, then `count - 1` more rounds. */
  lemma UnframeStep(b: seq<byte>, count: nat)
    requires count > 0 && Unframe(b, count).Some?
    ensures NextFrame(b).Some? && Unframe(NextFrame(b).value.1, count - 1).Some?
    ensures Unframe(b, count).value ==
      (NextFrame(b).value.0 + Unframe(NextFrame(b).value.1, count - 1).value.0,
       Unframe(NextFrame(b).value.1, count - 1).value.1)
  {
  }

  /**
   * The script: log in, then the first `count` rounds of the endless
   * `handle_packets` loop.
   */
  method Run(sock: CameraSocket, username: string, password: string, count: nat) returns (stdout: seq<byte>)
    requires Unframe(sock.incoming, count).Some?
    modifies sock
    ensures sock.sent == old(sock.sent) + LoginPacket(username, password)
    ensures (stdout, sock.incoming) == Unframe(old(sock.incoming), count).value
  {
    var login := LoginPacket(username, password);
    sock.Write(login);
    stdout := Pump(sock, count);
  }

  /** `count` rounds of `handle_packets`, from an empty output. */
  method Pump(sock: CameraSocket, count: nat) returns (stdout: seq<byte>)
    requires Unframe(sock.incoming, count).Some?
    modifies sock
    ensures sock.sent == old(sock.sent)
    ensures (stdout, sock.incoming) == Unframe(old(sock.incoming), count).value
  {
    ghost var total := Unframe(sock.incoming, count).value;
    stdout := [];
    ghost var pending := total.0;
    var i := 0;
    while i < count
      invariant 0 <= i <= count
      invariant sock.sent == old(sock.sent)
      invariant Unframe(sock.incoming, count - i) == Some((pending, total.1))
      invariant total.0 == stdout + pending
    {
      UnframeStep(sock.incoming, count - i);
      ghost var payload := NextFrame(sock.incoming).value.0;
      ghost var prefix := stdout;
      pending := Unframe(NextFrame(sock.incoming).value.1, count - i - 1).value.0;
      stdout := HandlePacket(sock, stdout);
      assert prefix + (payload + pending) == (prefix + payload) + pending;
      i := i + 1;
    }
    assert stdout + pending == stdout;
  }

  /** A frame as the printer sends it: the header, then `frameLen` bytes. */
  predicate WellFormed(f: (FrameHeader, seq<byte>))
  {
    f.0.Valid() && |f.1| == f.0.frameLen
  }

  function Encode(frames: seq<(FrameHeader, seq<byte>)>): seq<byte>
    requires forall i :: 0 <= i < |frames| ==> WellFormed(frames[i])
    decreases |frames|
  {
    if frames == [] then []
    else
      assert WellFormed(frames[0]);
      HeaderToBytes(frames[0].0) + frames[0].1 + Encode(frames[1..])
  }

  function Payloads(frames: seq<(FrameHeader, seq<byte>)>): seq<byte>
    decreases |frames|
  {
    if frames == [] then [] else frames[0].1 + Payloads(frames[1..])
  }

  /** Each frame's header announces exactly its payload. */
  lemma NextFrameOfEncoded(h: FrameHeader, payload: seq<byte>, rest: seq<byte>)
    requires WellFormed((h, payload))
    ensures NextFrame(HeaderToBytes(h) + payload + rest) == Some((payload, rest))
  {
    var b := HeaderToBytes(h) + payload + rest;
    HeaderFromToBytes(h);
    HeaderFrameLen(HeaderToBytes(h));
    assert b[..4] == HeaderToBytes(h)[..4];
    assert b[HEADER_LEN..] == payload + rest;
  }

  /**
   * Standard output receives the payloads of the frames, in order and without
   * their headers.
   */
  lemma {:induction false} UnframeEncoded(frames: seq<(FrameHeader, seq<byte>)>, rest: seq<byte>)
    requires forall i :: 0 <= i < |frames| ==> WellFormed(frames[i])
    ensures Unframe(Encode(frames) + rest, |frames|) == Some((Payloads(frames), rest))
    decreases |frames|
  {
    if frames != [] {
      var h, p := frames[0].0, frames[0].1;
      assert WellFormed(frames[0]);
      assert Encode(frames) + rest == HeaderToBytes(h) + p + (Encode(frames[1..]) + rest);
      NextFrameOfEncoded(h, p, Encode(frames[1..]) + rest);
      UnframeEncoded(frames[1..], rest);
      var b := Encode(frames) + rest;
      assert NextFrame(b) == Some((p, Encode(frames[1..]) + rest));
      assert Unframe(Encode(frames[1..]) + rest, |frames| - 1) == Some((Payloads(frames[1..]), rest));
      assert Unframe(b, |frames|) == Some((p + Payloads(frames[1..]), rest));
    } else {
      assert Encode(frames) + rest == rest;
    }
  }
}
