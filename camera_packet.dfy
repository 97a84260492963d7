/**
 * The camera command packet and frame header of the local camera tunnel
 * (tools/libturion_source/src/lib.rs).
 *
 * A command packet is a `repr(C)` struct of four u32 command words followed by
 * two zero-padded 32-byte credential fields, sent as its raw 80 bytes. Every
 * frame the printer sends back starts with a 16-byte header whose first word
 * is the payload length.
 */
module CameraProtocol {
  import opened Bytes

  const CMD_WORDS: nat := 4
  const CREDENTIAL_LEN: nat := 32
  const CMD_PACKET_LEN: nat := 80
  const HEADER_LEN: nat := 16

  /** Bit 6 of the first command word marks a start request. */
  const START_FLAG: u32 := 0x40

  /** A credential field: the bytes, then zeros up to 32 bytes. */
  function Padded(b: seq<byte>): (r: seq<byte>)
    requires |b| <= CREDENTIAL_LEN
    ensures |r| == CREDENTIAL_LEN
    ensures r[..|b|] == b
    ensures forall i :: |b| <= i < CREDENTIAL_LEN ==> r[i] == 0
  {
    b + seq(CREDENTIAL_LEN - |b|, _ => 0)
  }

  /** The command words of a start (`is_start`) or stop request of type `reqType`. */
  function CmdWords(reqType: int, isStart: bool): seq<u32>
    requires IsI32(reqType)
  {
    [if isStart then START_FLAG else 0, I32ToU32(reqType), 0, 0]
  }

  /** The 80 bytes of `CameraCmdPacket::new(req_type, user, pass, is_start).as_bytes()`. */
  function CmdPacketBytes(reqType: int, user: seq<byte>, pass: seq<byte>, isStart: bool): (r: seq<byte>)
    requires IsI32(reqType) && |user| <= CREDENTIAL_LEN && |pass| <= CREDENTIAL_LEN
    ensures |r| == CMD_PACKET_LEN
    ensures r[16..48] == Padded(user) && r[48..80] == Padded(pass)
  {
    PackWords(CmdWords(reqType, isStart)) + Padded(user) + Padded(pass)
  }

  /**
   * The layout of a command packet: 80 bytes; word 0 is 0x40 exactly for a
   * start request, word 1 is the request type, words 2 and 3 are zero; the
   * user name and the password sit, zero-padded, at offsets 16 and 48.
   */
  lemma {:induction false} CmdPacketLayout(reqType: int, user: seq<byte>, pass: seq<byte>, isStart: bool)
    requires IsI32(reqType) && |user| <= CREDENTIAL_LEN && |pass| <= CREDENTIAL_LEN
    ensures var r := CmdPacketBytes(reqType, user, pass, isStart);
      && |r| == CMD_PACKET_LEN
      && FromLE32(r[0..4]) == (if isStart then START_FLAG else 0)
      && U32ToI32(FromLE32(r[4..8])) == reqType
      && FromLE32(r[8..12]) == 0
      && FromLE32(r[12..16]) == 0
      && r[16..48] == Padded(user)
      && r[48..80] == Padded(pass)
  {
    var ws := CmdWords(reqType, isStart);
    var r := CmdPacketBytes(reqType, user, pass, isStart);
    var words := PackWords(ws);
    assert r[..16] == words;
    forall i | 0 <= i < 4
      ensures FromLE32(r[4 * i..4 * i + 4]) == ws[i]
    {
      PackWordsAt(ws, i);
      assert r[4 * i..4 * i + 4] == words[4 * i..4 * i + 4];
      FromLE32OfLE32(ws[i]);
    }
    assert FromLE32(r[4 * 1..4 * 1 + 4]) == ws[1];
    assert FromLE32(r[4 * 2..4 * 2 + 4]) == ws[2];
    assert FromLE32(r[4 * 3..4 * 3 + 4]) == ws[3];
  }

  /**
   * Credentials without NUL bytes are recovered from the packet, so two
   * requests with different such credentials never produce the same packet.
   */
  lemma CmdPacketInjective(reqType: int, user: seq<byte>, pass: seq<byte>, isStart: bool,
                           reqType': int, user': seq<byte>, pass': seq<byte>, isStart': bool)
    requires IsI32(reqType) && |user| <= CREDENTIAL_LEN && |pass| <= CREDENTIAL_LEN
    requires IsI32(reqType') && |user'| <= CREDENTIAL_LEN && |pass'| <= CREDENTIAL_LEN
    requires 0 !in user && 0 !in pass && 0 !in user' && 0 !in pass'
    requires CmdPacketBytes(reqType, user, pass, isStart) == CmdPacketBytes(reqType', user', pass', isStart')
    ensures reqType == reqType' && user == user' && pass == pass' && isStart == isStart'
  {
    CmdPacketLayout(reqType, user, pass, isStart);
    CmdPacketLayout(reqType', user', pass', isStart');
    PaddedInjective(user, user');
    PaddedInjective(pass, pass');
  }

  lemma PaddedInjective(a: seq<byte>, b: seq<byte>)
    requires |a| <= CREDENTIAL_LEN && |b| <= CREDENTIAL_LEN && 0 !in a && 0 !in b
    requires Padded(a) == Padded(b)
    ensures a == b
  {
    UnpaddedPadded(a);
    UnpaddedPadded(b);
  }

  /** The bytes of a credential field before its first NUL. */
  function Unpadded(r: seq<byte>): (c: seq<byte>)
    ensures 0 !in c
  {
    if r == [] || r[0] == 0 then [] else [r[0]] + Unpadded(r[1..])
  }

  /** A credential without NUL bytes is read back from its field. */
  lemma UnpaddedPadded(c: seq<byte>)
    requires |c| <= CREDENTIAL_LEN && 0 !in c
    ensures Unpadded(Padded(c)) == c
  {
    UnpaddedPrefix(c, seq(CREDENTIAL_LEN - |c|, _ => 0));
  }

  lemma {:induction false} UnpaddedPrefix(c: seq<byte>, z: seq<byte>)
    requires 0 !in c && (z == [] || z[0] == 0)
    ensures Unpadded(c + z) == c
  {
    if c != [] {
      assert (c + z)[0] == c[0];
      assert (c + z)[1..] == c[1..] + z;
      UnpaddedPrefix(c[1..], z);
    }
  }

  /**
   * `CameraCmdPacket`: the struct built field by field in `new` and sent as
   * its raw bytes by `as_bytes`.
   */
  class CameraCmdPacket {
    var cmd: array<u32>
    var user: array<byte>
    var pass: array<byte>

    ghost predicate Valid()
      reads this
    {
      cmd.Length == CMD_WORDS && user.Length == CREDENTIAL_LEN && pass.Length == CREDENTIAL_LEN
    }

    /**
     * `CameraCmdPacket::new`: zeroed fields, the request type in word 1, the
     * start flag in word 0, and the credentials copied over the prefix of
     * their fields. The caller checks the 32-byte bound; the Rust slice
     * `res.user[..user.len()]` panics beyond it.
     */
    constructor (reqType: int, userBytes: seq<byte>, passBytes: seq<byte>, isStart: bool)
      requires IsI32(reqType)
      requires |userBytes| <= CREDENTIAL_LEN && |passBytes| <= CREDENTIAL_LEN
      ensures Valid() && fresh(cmd) && fresh(user) && fresh(pass)
      ensures cmd[..] == CmdWords(reqType, isStart)
      ensures user[..] == Padded(userBytes) && pass[..] == Padded(passBytes)
      ensures AsBytes() == CmdPacketBytes(reqType, userBytes, passBytes, isStart)
    {
      cmd := new u32[CMD_WORDS](_ => 0);
      user := new byte[CREDENTIAL_LEN](_ => 0);
      pass := new byte[CREDENTIAL_LEN](_ => 0);
      new;
      cmd[1] := I32ToU32(reqType);
      if isStart {
        // `cmd[0] |= 0x40` on a zero word
        cmd[0] := START_FLAG;
      }
      forall i | 0 <= i < |userBytes| {
        user[i] := userBytes[i];
      }
      forall i | 0 <= i < |passBytes| {
        pass[i] := passBytes[i];
      }
      assert user[..] == Padded(userBytes);
      assert pass[..] == Padded(passBytes);
      assert cmd[..] == CmdWords(reqType, isStart);
    }

    /** `as_bytes`: the 80 bytes of the struct in memory. */
    function AsBytes(): (r: seq<byte>)
      requires Valid()
      reads this, cmd, user, pass
      ensures |r| == CMD_PACKET_LEN
    {
      PackWords(cmd[..]) + user[..] + pass[..]
    }
  }

  /** `CameraCmdFrameHeader`: `frame_len: u32, itrack: i32, flags: i32, padding: u32`. */
  datatype FrameHeader = FrameHeader(frameLen: u32, itrack: int, flags: int, padding: u32)
  {
    predicate Valid() { IsI32(itrack) && IsI32(flags) }
  }

  /** `CameraCmdFrameHeader::from([u8; 16])`: the bytes reinterpreted as the struct. */
  function HeaderFromBytes(b: seq<byte>): (h: FrameHeader)
    requires |b| == HEADER_LEN
    ensures h.Valid()
  {
    var ws := UnpackWords(b);
    FrameHeader(ws[0], U32ToI32(ws[1]), U32ToI32(ws[2]), ws[3])
  }

  /** The 16 bytes of a header as the printer sends it. */
  function HeaderToBytes(h: FrameHeader): (r: seq<byte>)
    requires h.Valid()
    ensures |r| == HEADER_LEN
  {
    PackWords([h.frameLen, I32ToU32(h.itrack), I32ToU32(h.flags), h.padding])
  }

  /** Decoding undoes encoding ... */
  lemma HeaderFromToBytes(h: FrameHeader)
    requires h.Valid()
    ensures HeaderFromBytes(HeaderToBytes(h)) == h
  {
    UnpackPackWords([h.frameLen, I32ToU32(h.itrack), I32ToU32(h.flags), h.padding]);
  }

  /** ... and every 16 bytes are the encoding of the header decoded from them. */
  lemma HeaderToFromBytes(b: seq<byte>)
    requires |b| == HEADER_LEN
    ensures HeaderToBytes(HeaderFromBytes(b)) == b
  {
    var ws := UnpackWords(b);
    assert [ws[0], ws[1], ws[2], ws[3]] == ws;
    PackUnpackWords(b);
  }

  /** The frame length is the first four bytes, little-endian. */
  lemma HeaderFrameLen(b: seq<byte>)
    requires |b| == HEADER_LEN
    ensures HeaderFromBytes(b).frameLen == FromLE32(b[..4])
  {
  }
}
