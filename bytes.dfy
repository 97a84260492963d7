/**
 * Bytes and fixed-width integers.
 *
 * The camera protocol reinterprets C structs as byte arrays (Rust `repr(C)`
 * transmutes, Python `struct.pack("IIII", ...)` in native order). The model
 * fixes the host as little-endian.
 */
module Bytes {

  type byte = x: int | 0 <= x < 256

  const TWO_32: int := 0x1_0000_0000
  const TWO_31: int := 0x8000_0000

  type u32 = x: int | 0 <= x < TWO_32

  predicate IsI32(x: int) { -TWO_31 <= x < TWO_31 }

  /** `x as u32` for an i32 `x`: two's complement reinterpretation. */
  function I32ToU32(x: int): (r: u32)
    requires IsI32(x)
    ensures x >= 0 ==> r == x
    ensures x < 0 ==> r == x + TWO_32
  {
    if x < 0 then x + TWO_32 else x
  }

  /** The i32 whose bits are those of `x`. */
  function U32ToI32(x: u32): (r: int)
    ensures IsI32(r)
    ensures I32ToU32(r) == x
  {
    if x < TWO_31 then x else x - TWO_32
  }

  lemma I32RoundTrip(x: int)
    requires IsI32(x)
    ensures U32ToI32(I32ToU32(x)) == x
  {
  }

  /** `n as i32` for a non-negative length: keeps the low 32 bits. */
  function WrapToI32(n: nat): (r: int)
    ensures IsI32(r)
    ensures n < TWO_31 ==> r == n
  {
    U32ToI32(n % TWO_32)
  }

  /** The four bytes of `x`, least significant first. */
  function LE32(x: u32): (r: seq<byte>)
    ensures |r| == 4
  {
    [x % 256, (x / 0x100) % 256, (x / 0x1_0000) % 256, x / 0x100_0000]
  }

  /** The u32 whose little-endian bytes are `b`. */
  function FromLE32(b: seq<byte>): (r: u32)
    requires |b| == 4
  {
    b[0] as int + 0x100 * b[1] as int + 0x1_0000 * b[2] as int + 0x100_0000 * b[3] as int
  }

  lemma {:induction false} FromLE32OfLE32(x: u32)
    ensures FromLE32(LE32(x)) == x
  {
    var b := LE32(x);
    assert x == x % 256 + 0x100 * (x / 0x100);
    assert x / 0x100 == (x / 0x100) % 256 + 0x100 * (x / 0x1_0000);
    assert x / 0x1_0000 == (x / 0x1_0000) % 256 + 0x100 * (x / 0x100_0000);
  }

  lemma {:induction false} LE32OfFromLE32(b: seq<byte>)
    requires |b| == 4
    ensures LE32(FromLE32(b)) == b
  {
    var x := FromLE32(b);
    var b0, b1, b2, b3 := b[0] as int, b[1] as int, b[2] as int, b[3] as int;
    var hi2 := b2 + 0x100 * b3;
    var hi := b1 + 0x100 * hi2;
    assert x == b0 + 0x100 * hi;
    DivMod256(x, hi, b0);
    DivMod256(hi, hi2, b1);
    DivMod256(hi2, b3, b2);
    assert x / 0x1_0000 == hi2 by { DivMod256(x, hi, b0); Div256Twice(x); }
    assert x / 0x100_0000 == b3 by { Div256Thrice(x); }
  }

  lemma DivMod256(x: int, q: int, r: int)
    requires 0 <= r < 256 && x == q * 256 + r
    ensures x / 256 == q && x % 256 == r
  {
  }

  lemma Div256Twice(x: nat)
    ensures x / 0x1_0000 == x / 256 / 256
  {
    DivMod256(x / 256, x / 256 / 256, x / 256 % 256);
    DivModSplit(x, x / 256 / 256, (x / 256 % 256) * 256 + x % 256);
  }

  lemma Div256Thrice(x: nat)
    ensures x / 0x100_0000 == x / 0x1_0000 / 256
  {
    Div256Twice(x);
    var q := x / 0x1_0000 / 256;
    var r := (x / 0x1_0000 % 256) * 0x1_0000 + x % 0x1_0000;
    assert x == q * 0x100_0000 + r;
    assert 0 <= r < 0x100_0000;
  }

  lemma DivModSplit(x: int, q: int, r: int)
    requires 0 <= r < 0x1_0000 && x == q * 0x1_0000 + r
    ensures x / 0x1_0000 == q
  {
  }
  /** Consecutive little-endian u32 words, as a `repr(C)` `[u32; n]` or `struct.pack("I" * n)`. */
  function PackWords(ws: seq<u32>): (r: seq<byte>)
    ensures |r| == 4 * |ws|
  {
    if ws == [] then [] else LE32(ws[0]) + PackWords(ws[1..])
  }

  /** The words of a byte string whose length is a multiple of four. */
  function UnpackWords(b: seq<byte>): (r: seq<u32>)
    requires |b| % 4 == 0
    ensures 4 * |r| == |b|
  {
    if b == [] then [] else [FromLE32(b[..4])] + UnpackWords(b[4..])
  }

  lemma {:induction false} UnpackPackWords(ws: seq<u32>)
    ensures UnpackWords(PackWords(ws)) == ws
  {
    if ws != [] {
      var b := PackWords(ws);
      assert b[..4] == LE32(ws[0]);
      assert b[4..] == PackWords(ws[1..]);
      FromLE32OfLE32(ws[0]);
      UnpackPackWords(ws[1..]);
    }
  }

  lemma {:induction false} PackUnpackWords(b: seq<byte>)
    requires |b| % 4 == 0
    ensures PackWords(UnpackWords(b)) == b
  {
    if b != [] {
      var ws := UnpackWords(b);
      assert ws[0] == FromLE32(b[..4]);
      assert ws[1..] == UnpackWords(b[4..]);
      LE32OfFromLE32(b[..4]);
      PackUnpackWords(b[4..]);
      assert b == b[..4] + b[4..];
    }
  }

  /** Word `i` of a packed word sequence sits at bytes `4 * i .. 4 * i + 4`. */
  lemma {:induction false} PackWordsAt(ws: seq<u32>, i: nat)
    requires i < |ws|
    ensures PackWords(ws)[4 * i..4 * i + 4] == LE32(ws[i])
  {
    if i > 0 {
      PackWordsAt(ws[1..], i - 1);
      assert PackWords(ws) == LE32(ws[0]) + PackWords(ws[1..]);
    }
  }

  /** The UTF-8 encoding of one Unicode scalar value. */
  function Utf8Char(c: char): (r: seq<byte>)
    ensures 1 <= |r| <= 4
    ensures |r| == 1 <==> (c as int) < 0x80
    ensures r[0] != 0 || c == 0 as char
  {
    var n := c as int;
    if n < 0x80 then [n]
    else if n < 0x800 then [0xC0 + n / 0x40, 0x80 + n % 0x40]
    else if n < 0x1_0000 then [0xE0 + n / 0x1000, 0x80 + (n / 0x40) % 0x40, 0x80 + n % 0x40]
    else [0xF0 + n / 0x4_0000, 0x80 + (n / 0x1000) % 0x40, 0x80 + (n / 0x40) % 0x40, 0x80 + n % 0x40]
  }

  /** `s.encode("utf8")` in Python, `s.as_bytes()` in Rust. */
  function Utf8(s: string): (r: seq<byte>)
    ensures |r| >= |s|
  {
    if s == [] then [] else Utf8Char(s[0]) + Utf8(s[1..])
  }

  predicate IsAscii(s: string) { forall i :: 0 <= i < |s| ==> (s[i] as int) < 0x80 }

  /** ASCII text encodes byte for byte. */
  lemma {:induction false} Utf8OfAscii(s: string)
    requires IsAscii(s)
    ensures |Utf8(s)| == |s|
    ensures forall i :: 0 <= i < |s| ==> Utf8(s)[i] == s[i] as int
  {
    if s != [] {
      Utf8OfAscii(s[1..]);
    }
  }
}
