/** Byte-level helpers of the Piper wire format: every multi-byte field is big-endian. */
module Bytes {

  type byte = x: int | 0 <= x < 0x100
  type uint16 = x: int | 0 <= x < 0x1_0000
  type int16 = x: int | -0x8000 <= x < 0x8000
  type int32 = x: int | -0x8000_0000 <= x < 0x8000_0000

  /** The eight data bytes of a CAN frame. */
  type Payload = s: seq<byte> | |s| == 8 witness [0, 0, 0, 0, 0, 0, 0, 0]

  const ZERO_PAYLOAD: Payload := [0, 0, 0, 0, 0, 0, 0, 0]

  /** The cast uint16_t -> int16_t. */
  function AsInt16(u: uint16): int16 {
    if u < 0x8000 then u else u - 0x1_0000
  }

  /** The cast int16_t -> uint16_t. */
  function AsUint16(v: int16): uint16 {
    v % 0x1_0000
  }

  function BytesToUint16(s: seq<byte>): uint16
    requires |s| == 2
  {
    s[0] as int * 0x100 + s[1]
  }

  function BytesToInt16(s: seq<byte>): int16
    requires |s| == 2
  {
    AsInt16(BytesToUint16(s))
  }

  function Uint16Bytes(v: uint16): (s: seq<byte>)
    ensures |s| == 2
  {
    [v / 0x100, v % 0x100]
  }

  function BytesToInt32(s: seq<byte>): int32
    requires |s| == 4
  {
    var u := s[0] as int * 0x100_0000 + s[1] as int * 0x1_0000 + s[2] as int * 0x100 + s[3];
    if u < 0x8000_0000 then u else u - 0x1_0000_0000
  }

  /** Arithmetic shifts of a negative value round down, as `/` by a positive number does here. */
  function Int32Bytes(v: int32): (s: seq<byte>)
    ensures |s| == 4
  {
    [v / 0x100_0000 % 0x100, v / 0x1_0000 % 0x100, v / 0x100 % 0x100, v % 0x100]
  }

  /** Signed 32-bit fields are written and read without loss, negative values included. */
  lemma Int32RoundTrip(v: int32)
    ensures BytesToInt32(Int32Bytes(v)) == v
  {
    var a, b, c := v / 0x100, v / 0x1_0000, v / 0x100_0000;
    assert v == a * 0x100 + v % 0x100;
    assert a == b * 0x100 + a % 0x100;
    assert b == c * 0x100 + b % 0x100;
    assert -0x80 <= c < 0x80;
  }

  /** Every four bytes are the encoding of the value read from them. */
  lemma Int32Onto(s: seq<byte>)
    requires |s| == 4
    ensures Int32Bytes(BytesToInt32(s)) == s
  {
    var v := BytesToInt32(s);
    var hi: int := if s[0] < 0x80 then s[0] else s[0] as int - 0x100;
    assert v == hi * 0x100_0000 + s[1] as int * 0x1_0000 + s[2] as int * 0x100 + s[3];
    assert v / 0x100 == hi * 0x1_0000 + s[1] as int * 0x100 + s[2];
    assert v / 0x1_0000 == hi * 0x100 + s[1];
    assert v / 0x100_0000 == hi;
  }

  /** The most significant byte comes first, in two's complement. */
  lemma Int32IsBigEndian(v: int32)
    ensures var s := Int32Bytes(v);
            s[0] as int * 0x100_0000 + s[1] as int * 0x1_0000 + s[2] as int * 0x100 + s[3] == v % 0x1_0000_0000
  {
    var a, b, c := v / 0x100, v / 0x1_0000, v / 0x100_0000;
    assert v == a * 0x100 + v % 0x100;
    assert a == b * 0x100 + a % 0x100;
    assert b == c * 0x100 + b % 0x100;
    assert -0x80 <= c < 0x80;
  }

  lemma Uint16IsBigEndian(v: uint16)
    ensures var s := Uint16Bytes(v); s[0] as int * 0x100 + s[1] == v
  {}

  lemma Int32Injective(s: seq<byte>, t: seq<byte>)
    requires |s| == |t| == 4 && BytesToInt32(s) == BytesToInt32(t)
    ensures s == t
  {
    Int32Onto(s);
    Int32Onto(t);
  }

  /** A 16-bit unsigned field survives a trip through the signed read. */
  lemma Uint16ThroughSigned(v: uint16)
    ensures AsUint16(BytesToInt16(Uint16Bytes(v))) == v
  {
    assert BytesToUint16(Uint16Bytes(v)) == v;
  }

  /** Writes `v` into four bytes of a buffer; the rest of the buffer is untouched. */
  method Int32ToBytes(v: int32, out: array<byte>, at: nat)
    requires at + 4 <= out.Length
    modifies out
    ensures out[..] == old(out[..at]) + Int32Bytes(v) + old(out[at + 4..])
  {
    out[at] := v / 0x100_0000 % 0x100;
    out[at + 1] := v / 0x1_0000 % 0x100;
    out[at + 2] := v / 0x100 % 0x100;
    out[at + 3] := v % 0x100;
  }

  method Uint16ToBytes(v: uint16, out: array<byte>, at: nat)
    requires at + 2 <= out.Length
    modifies out
    ensures out[..] == old(out[..at]) + Uint16Bytes(v) + old(out[at + 2..])
  {
    out[at] := v / 0x100;
    out[at + 1] := v % 0x100;
  }
}
