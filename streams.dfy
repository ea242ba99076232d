/** The parts of Java's DataOutputStream, DataInputStream and InetAddress that the
    wire format relies on: big-endian fixed-width integers, one-byte booleans, raw
    byte runs, two-byte-length-prefixed strings, and addresses of 4 or 16 bytes.

    A reader is a pure function of the input not yet read; it returns the value and
    what is still unread after it, or the exception and what is still unread then. */
module Streams {

  type byte = b: int | 0 <= b < 0x100
  type int32 = x: int | -0x8000_0000 <= x < 0x8000_0000
  type int64 = x: int | -0x8000_0000_0000_0000 <= x < 0x8000_0000_0000_0000

  /** A string as the bytes writeUTF would produce for it (at most 65535 of them). */
  type Utf = s: seq<byte> | |s| < 0x1_0000

  /** An IPv4 or IPv6 address, as InetAddress.getAddress returns it. */
  type Address = s: seq<byte> | |s| == 4 || |s| == 16 witness [0, 0, 0, 0]

  /** The exceptions a read can raise. EOF and UnknownHost are IOExceptions;
      NegativeArraySize and IllegalArgument are runtime exceptions. */
  datatype Error = EOF | NegativeArraySize | UnknownHost | IllegalArgument

  predicate IsIOException(e: Error) {
    e == EOF || e == UnknownHost
  }

  /** The outcome of a read: the value and the input still unread, or the
      exception and the input still unread when it was thrown. */
  datatype Read<+T> = Ok(value: T, rest: seq<byte>) | Fail(error: Error, rest: seq<byte>)

  lemma Associative<T>(a: seq<T>, b: seq<T>, c: seq<T>)
    ensures a + (b + c) == a + b + c
  {
  }

  function Pow256(n: nat): (p: nat)
    ensures p > 0
  {
    if n == 0 then 1 else 256 * Pow256(n - 1)
  }

  lemma Pow256Widths()
    ensures Pow256(2) == 0x1_0000
    ensures Pow256(4) == 0x1_0000_0000
    ensures Pow256(8) == 0x1_0000_0000_0000_0000
  {
    assert Pow256(1) == 256;
    assert Pow256(2) == 0x1_0000;
    assert Pow256(3) == 0x100_0000;
    assert Pow256(4) == 0x1_0000_0000;
    assert Pow256(5) == 0x100_0000_0000;
    assert Pow256(6) == 0x1_0000_0000_0000;
    assert Pow256(7) == 0x100_0000_0000_0000;
  }

  /** The low `width` base-256 digits of `v`, most significant first. */
  function BigEndian(width: nat, v: nat): (r: seq<byte>)
    ensures |r| == width
  {
    if width == 0 then [] else BigEndian(width - 1, v / 256) + [v % 256]
  }

  /** The number whose big-endian base-256 digits are `s`. */
  function FromBigEndian(s: seq<byte>): (v: nat)
    ensures v < Pow256(|s|)
  {
    if s == [] then 0 else FromBigEndian(s[..|s| - 1]) * 256 + s[|s| - 1]
  }

  lemma {:induction false} FromBigEndianOfBigEndian(width: nat, v: nat)
    requires v < Pow256(width)
    ensures FromBigEndian(BigEndian(width, v)) == v
  {
    if width > 0 {
      var s := BigEndian(width, v);
      assert s[..width - 1] == BigEndian(width - 1, v / 256);
      FromBigEndianOfBigEndian(width - 1, v / 256);
    }
  }

  lemma {:induction false} BigEndianOfFromBigEndian(s: seq<byte>)
    ensures BigEndian(|s|, FromBigEndian(s)) == s
  {
    if s != [] {
      var init := s[..|s| - 1];
      var v := FromBigEndian(s);
      assert v / 256 == FromBigEndian(init) && v % 256 == s[|s| - 1];
      BigEndianOfFromBigEndian(init);
      assert s == init + [s[|s| - 1]];
    }
  }

  /** Two's complement of a signed value in `width` bytes. */
  function Unsigned(width: nat, x: int): int {
    if x < 0 then x + Pow256(width) else x
  }

  function Signed(width: nat, u: nat): int {
    if 2 * u < Pow256(width) then u else u - Pow256(width)
  }

  /** writeInt */
  function Int32Bytes(x: int32): (r: seq<byte>)
    ensures |r| == 4
  {
    Pow256Widths();
    BigEndian(4, Unsigned(4, x))
  }

  /** writeLong */
  function Int64Bytes(x: int64): (r: seq<byte>)
    ensures |r| == 8
  {
    Pow256Widths();
    BigEndian(8, Unsigned(8, x))
  }

  /** writeShort of a length below 65536 */
  function Uint16Bytes(n: nat): (r: seq<byte>)
    requires n < 0x1_0000
    ensures |r| == 2
  {
    BigEndian(2, n)
  }

  /** writeBoolean */
  function BooleanByte(b: bool): (r: byte)
    ensures b <==> r != 0
  {
    if b then 1 else 0
  }

  /** writeUTF: a two-byte length, then the bytes. */
  function UtfBytes(s: Utf): (r: seq<byte>)
    ensures |r| == 2 + |s|
  {
    Uint16Bytes(|s|) + s
  }

  function Int32Of(s: seq<byte>): int32
    requires |s| == 4
  {
    Pow256Widths();
    Signed(4, FromBigEndian(s))
  }

  function Int64Of(s: seq<byte>): int64
    requires |s| == 8
  {
    Pow256Widths();
    Signed(8, FromBigEndian(s))
  }

  lemma Int32RoundTrip(x: int32)
    ensures Int32Of(Int32Bytes(x)) == x
  {
    Pow256Widths();
    FromBigEndianOfBigEndian(4, Unsigned(4, x));
  }

  lemma Int64RoundTrip(x: int64)
    ensures Int64Of(Int64Bytes(x)) == x
  {
    Pow256Widths();
    FromBigEndianOfBigEndian(8, Unsigned(8, x));
  }

  lemma Int32BytesOfInt32(s: seq<byte>)
    requires |s| == 4
    ensures Int32Bytes(Int32Of(s)) == s
  {
    Pow256Widths();
    BigEndianOfFromBigEndian(s);
  }

  lemma Int64BytesOfInt64(s: seq<byte>)
    requires |s| == 8
    ensures Int64Bytes(Int64Of(s)) == s
  {
    Pow256Widths();
    BigEndianOfFromBigEndian(s);
  }

  // ---------------------------------------------------------------------------
  // Readers, as functions of the unread input. Every one of them consumes what
  // is left of the input before it throws EOFException, so a failed read leaves
  // nothing unread.

  /** readFully into an array of `n` bytes */
  function ParseFully(s: seq<byte>, n: nat): (r: Read<seq<byte>>)
    ensures r.Ok? <==> n <= |s|
    ensures r.Ok? ==> |r.value| == n && s == r.value + r.rest
    ensures r.Fail? ==> r == Fail(EOF, [])
  {
    if n <= |s| then
      assert s == s[..n] + s[n..];
      Ok(s[..n], s[n..])
    else Fail(EOF, [])
  }

  /** readByte */
  function ParseByte(s: seq<byte>): (r: Read<byte>)
    ensures r.Ok? <==> s != []
    ensures r.Ok? ==> s == [r.value] + r.rest
    ensures r.Fail? ==> r == Fail(EOF, [])
  {
    if s != [] then
      assert s == [s[0]] + s[1..];
      Ok(s[0], s[1..])
    else Fail(EOF, [])
  }

  /** readBoolean: any nonzero byte reads as true */
  function ParseBoolean(s: seq<byte>): (r: Read<bool>)
    ensures r.Ok? <==> s != []
    ensures r.Ok? ==> (r.value <==> s[0] != 0) && r.rest == s[1..]
    ensures r.Fail? ==> r == Fail(EOF, [])
  {
    match ParseByte(s)
    case Ok(b, rest) => Ok(b != 0, rest)
    case Fail(e, rest) => Fail(e, rest)
  }

  /** readInt */
  function ParseInt(s: seq<byte>): (r: Read<int32>)
    ensures r.Ok? <==> 4 <= |s|
    ensures r.Ok? ==> s == Int32Bytes(r.value) + r.rest
    ensures r.Fail? ==> r == Fail(EOF, [])
  {
    match ParseFully(s, 4)
    case Ok(b, rest) => Int32BytesOfInt32(b); Ok(Int32Of(b), rest)
    case Fail(e, rest) => Fail(e, rest)
  }

  /** readLong */
  function ParseLong(s: seq<byte>): (r: Read<int64>)
    ensures r.Ok? <==> 8 <= |s|
    ensures r.Ok? ==> s == Int64Bytes(r.value) + r.rest
    ensures r.Fail? ==> r == Fail(EOF, [])
  {
    match ParseFully(s, 8)
    case Ok(b, rest) => Int64BytesOfInt64(b); Ok(Int64Of(b), rest)
    case Fail(e, rest) => Fail(e, rest)
  }

  /** readUTF: a two-byte unsigned length, then that many bytes */
  function ParseUTF(s: seq<byte>): (r: Read<Utf>)
    ensures r.Ok? ==> s == UtfBytes(r.value) + r.rest
    ensures r.Fail? ==> r == Fail(EOF, [])
  {
    match ParseFully(s, 2)
    case Fail(e, rest) => Fail(e, rest)
    case Ok(lb, rest) =>
      var n := FromBigEndian(lb);
      assert n < 0x1_0000 by { Pow256Widths(); }
      match ParseFully(rest, n)
      case Fail(e, rest') => Fail(e, rest')
      case Ok(b, rest') =>
        assert Uint16Bytes(|b|) == lb by { BigEndianOfFromBigEndian(lb); }
        Associative(lb, b, rest');
        Ok(b, rest')
  }

  lemma ParseIntOfInt32Bytes(x: int32, rest: seq<byte>)
    ensures ParseInt(Int32Bytes(x) + rest) == Ok(x, rest)
  {
    var s := Int32Bytes(x) + rest;
    assert s[..4] == Int32Bytes(x) && s[4..] == rest;
    Int32RoundTrip(x);
  }

  lemma ParseLongOfInt64Bytes(x: int64, rest: seq<byte>)
    ensures ParseLong(Int64Bytes(x) + rest) == Ok(x, rest)
  {
    var s := Int64Bytes(x) + rest;
    assert s[..8] == Int64Bytes(x) && s[8..] == rest;
    Int64RoundTrip(x);
  }

  lemma ParseBooleanOfBooleanByte(b: bool, rest: seq<byte>)
    ensures ParseBoolean([BooleanByte(b)] + rest) == Ok(b, rest)
  {
  }

  lemma ParseUTFOfUtfBytes(u: Utf, rest: seq<byte>)
    ensures ParseUTF(UtfBytes(u) + rest) == Ok(u, rest)
  {
    var l := Uint16Bytes(|u|);
    var s := UtfBytes(u) + rest;
    Associative(l, u, rest);
    assert s[..2] == l && s[2..] == u + rest;
    assert (u + rest)[..|u|] == u && (u + rest)[|u|..] == rest;
    Pow256Widths();
    FromBigEndianOfBigEndian(2, |u|);
  }

  // ---------------------------------------------------------------------------
  // The streams themselves: an output stream is the bytes written so far, an
  // input stream is the bytes that have not been read yet.

  class DataOutputStream {
    var written: seq<byte>

    constructor ()
      ensures written == []
    {
      written := [];
    }

    method WriteByte(b: byte)
      modifies this
      ensures written == old(written) + [b]
    {
      written := written + [b];
    }

    method WriteBoolean(b: bool)
      modifies this
      ensures written == old(written) + [BooleanByte(b)]
    {
      written := written + [BooleanByte(b)];
    }

    method WriteInt(x: int32)
      modifies this
      ensures written == old(written) + Int32Bytes(x)
    {
      written := written + Int32Bytes(x);
    }

    method WriteLong(x: int64)
      modifies this
      ensures written == old(written) + Int64Bytes(x)
    {
      written := written + Int64Bytes(x);
    }

    method Write(bytes: seq<byte>)
      modifies this
      ensures written == old(written) + bytes
    {
      written := written + bytes;
    }

    method WriteUTF(s: Utf)
      modifies this
      ensures written == old(written) + UtfBytes(s)
    {
      written := written + UtfBytes(s);
    }
  }

  class DataInputStream {
    var remaining: seq<byte>

    constructor (data: seq<byte>)
      ensures remaining == data
    {
      remaining := data;
    }

    method ReadByte() returns (r: Read<byte>)
      modifies this
      ensures r == ParseByte(old(remaining)) && remaining == r.rest
    {
      r := ParseByte(remaining);
      remaining := r.rest;
    }

    method ReadBoolean() returns (r: Read<bool>)
      modifies this
      ensures r == ParseBoolean(old(remaining)) && remaining == r.rest
    {
      r := ParseBoolean(remaining);
      remaining := r.rest;
    }

    method ReadInt() returns (r: Read<int32>)
      modifies this
      ensures r == ParseInt(old(remaining)) && remaining == r.rest
    {
      r := ParseInt(remaining);
      remaining := r.rest;
    }

    method ReadLong() returns (r: Read<int64>)
      modifies this
      ensures r == ParseLong(old(remaining)) && remaining == r.rest
    {
      r := ParseLong(remaining);
      remaining := r.rest;
    }

    method ReadFully(n: nat) returns (r: Read<seq<byte>>)
      modifies this
      ensures r == ParseFully(old(remaining), n) && remaining == r.rest
    {
      r := ParseFully(remaining, n);
      remaining := r.rest;
    }

    method ReadUTF() returns (r: Read<Utf>)
      modifies this
      ensures r == ParseUTF(old(remaining)) && remaining == r.rest
    {
      r := ParseUTF(remaining);
      remaining := r.rest;
    }
  }
}
