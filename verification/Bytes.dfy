/** Bytes and the little-endian numbers the packet code reads and writes. */
module Bytes {
  type byte = bv8

  function ToByte(n: nat): byte
    requires n < 256
  {
    n as bv8
  }

  function Val(b: byte): nat { b as nat }

  // Every number below 256 is the number of some byte, put together from its bits.

  lemma OfBits(c0: nat, c1: nat, c2: nat, c3: nat) returns (b: byte)
    requires c0 < 2 && c1 < 2 && c2 < 2 && c3 < 2
    ensures b < 16 && b as int == c0 + 2 * c1 + 4 * c2 + 8 * c3
  {
    b := (if c0 == 0 then 0 else 1) | (if c1 == 0 then 0 else 2) | (if c2 == 0 then 0 else 4) |
        (if c3 == 0 then 0 else 8);
  }

  lemma Nibble(n: nat) returns (b: byte)
    requires n < 16
    ensures b < 16 && b as int == n
  {
    b := OfBits(n % 2, n / 2 % 2, n / 4 % 2, n / 8);
  }

  lemma TwoNibbles(h: byte, l: byte)
    requires h < 16 && l < 16
    ensures ((h << 4) | l) as int == 16 * (h as int) + l as int
  {
  }

  lemma ByteFor(n: nat) returns (b: byte)
    requires n < 256
    ensures b as int == n
  {
    var h := Nibble(n / 16);
    var l := Nibble(n % 16);
    TwoNibbles(h, l);
    b := (h << 4) | l;
  }

  lemma ValIsCast(b: byte)
    ensures Val(b) == b as nat
  {
  }

  lemma ValOfByte(n: nat)
    requires n < 256
    ensures Val(ToByte(n)) == n
  {
    hide *;
    var b := ByteFor(n);
    ValIsCast(b);
    ByteOfVal(b);
  }

  lemma ByteOfVal(b: byte)
    ensures Val(b) < 256 && ToByte(Val(b)) == b
  {
  }

  const U16: nat := 0x1_0000
  const U32: nat := 0x1_0000_0000

  function LE16(n: nat): seq<byte>
    requires n < U16
  {
    [ToByte(n % 256), ToByte(n / 256)]
  }

  function FromLE16(b: seq<byte>): nat
    requires |b| >= 2
  {
    Val(b[0]) + 256 * Val(b[1])
  }

  function LE32(n: nat): seq<byte>
    requires n < U32
  {
    [ToByte(n % 256), ToByte(n / 256 % 256), ToByte(n / 0x1_0000 % 256), ToByte(n / 0x100_0000)]
  }

  function FromLE32(b: seq<byte>): nat
    requires |b| >= 4
  {
    Val(b[0]) + 256 * Val(b[1]) + 0x1_0000 * Val(b[2]) + 0x100_0000 * Val(b[3])
  }

  lemma LE16RoundTrip(n: nat, rest: seq<byte>)
    requires n < U16
    ensures FromLE16(LE16(n) + rest) == n
  {
    hide ToByte, Val;
    ValOfByte(n % 256);
    ValOfByte(n / 256);
  }

  lemma Digits(n: nat)
    ensures n == n % 256 + 256 * (n / 256 % 256) + 0x1_0000 * (n / 0x1_0000 % 256) + 0x100_0000 * (n / 0x100_0000)
    ensures n < U32 ==> n / 0x100_0000 < 256
  {
    var a := n / 256;
    var b := a / 256;
    assert b == n / 0x1_0000;
    assert b / 256 == n / 0x100_0000;
  }

  lemma LE32RoundTrip(n: nat, rest: seq<byte>)
    requires n < U32
    ensures FromLE32(LE32(n) + rest) == n
  {
    hide ToByte, Val;
    Digits(n);
    var b := LE32(n) + rest;
    assert b[0] == ToByte(n % 256) && b[1] == ToByte(n / 256 % 256);
    assert b[2] == ToByte(n / 0x1_0000 % 256) && b[3] == ToByte(n / 0x100_0000);
    ValOfByte(n % 256);
    ValOfByte(n / 256 % 256);
    ValOfByte(n / 0x1_0000 % 256);
    ValOfByte(n / 0x100_0000);
  }

  /** The bytes are the digits of the number, the least significant first. */
  lemma LE16Digits(n: nat)
    requires n < U16
    ensures |LE16(n)| == 2 && n == Val(LE16(n)[0]) + 256 * Val(LE16(n)[1])
  {
    hide ToByte, Val;
    ValOfByte(n % 256);
    ValOfByte(n / 256);
  }

  lemma LE32Digits(n: nat)
    requires n < U32
    ensures |LE32(n)| == 4
    ensures var b := LE32(n); n == Val(b[0]) + 256 * (Val(b[1]) + 256 * (Val(b[2]) + 256 * Val(b[3])))
  {
    hide ToByte, Val;
    Digits(n);
    ValOfByte(n % 256);
    ValOfByte(n / 256 % 256);
    ValOfByte(n / 0x1_0000 % 256);
    ValOfByte(n / 0x100_0000);
  }

  lemma FromLE16Bound(b: seq<byte>)
    requires |b| >= 2
    ensures FromLE16(b) < U16
  {
    hide ToByte, Val;
    ByteOfVal(b[0]);
    ByteOfVal(b[1]);
  }

  lemma FromLE32Bound(b: seq<byte>)
    requires |b| >= 4
    ensures FromLE32(b) < U32
  {
    hide ToByte, Val;
    ByteOfVal(b[0]);
    ByteOfVal(b[1]);
    ByteOfVal(b[2]);
    ByteOfVal(b[3]);
  }

  /** The pieces of a byte stream put together. */
  function Joined(pieces: seq<seq<byte>>): seq<byte> {
    if pieces == [] then [] else Joined(pieces[..|pieces| - 1]) + pieces[|pieces| - 1]
  }

  lemma JoinedNone()
    ensures Joined([]) == []
  {
  }

  lemma JoinedNext(pieces: seq<seq<byte>>, i: nat)
    requires i < |pieces|
    ensures Joined(pieces[..i + 1]) == Joined(pieces[..i]) + pieces[i]
  {
    assert pieces[..i + 1][..i] == pieces[..i];
  }

  lemma {:induction false} JoinedPrefix(pieces: seq<seq<byte>>, i: nat)
    requires i <= |pieces|
    ensures Joined(pieces[..i]) <= Joined(pieces)
    decreases |pieces| - i
  {
    if i == |pieces| {
      assert pieces[..i] == pieces;
    } else {
      JoinedNext(pieces, i);
      JoinedPrefix(pieces, i + 1);
    }
  }
}
