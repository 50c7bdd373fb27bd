/** The streaming SHA-1 of gift-ares/lib/as_sha1.c against the definition in
    FIPS 180-4. The Ares variant only has other constants. */
module Sha1 {
  import opened Bytes

  type word = bv32

  datatype Variant = Standard | Ares

  // ------------------------------------------------- the definition, FIPS 180-4

  function Rotl(x: word, n: bv6): word
    requires n < 32
  {
    (x << n) | (x >> (32 - n))
  }

  function Ch(x: word, y: word, z: word): word { (x & y) ^ (!x & z) }

  function Parity(x: word, y: word, z: word): word { x ^ y ^ z }

  function Maj(x: word, y: word, z: word): word { (x & y) ^ (x & z) ^ (y & z) }

  /** Bit `i` of a word, the least significant being number 0. */
  predicate Bit(x: word, i: bv6)
    requires i < 32
  {
    (x >> i) & 1 == 1
  }

  /** Rotation takes every bit `n` places up, and those that leave at the top come in
      at the bottom. */
  lemma RotlMovesBits(x: word, n: bv6, i: bv6)
    requires n < 32 && i < 32
    ensures Bit(Rotl(x, n), if i + n < 32 then i + n else i + n - 32) <==> Bit(x, i)
  {
    assert var j := if i + n < 32 then i + n else i + n - 32;
      ((((x << n) | (x >> (32 - n))) >> j) & 1) == (x >> i) & 1;
  }

  lemma BitOfHalf(x: word, i: bv6)
    requires 0 < i < 32
    ensures Bit(x, i) <==> Bit(x >> 1, i - 1)
  {
  }

  lemma ChHalf(x: word, y: word, z: word)
    ensures Ch(x, y, z) >> 1 == Ch(x >> 1, y >> 1, z >> 1)
  {
  }

  lemma ChLowest(x: word, y: word, z: word)
    ensures Bit(Ch(x, y, z), 0) <==>
      if Bit(x, 0) then Bit(y, 0) else Bit(z, 0)
  {
  }

  /** The first word chooses between the other two, bit by bit. */
  lemma {:induction false} ChChooses(x: word, y: word, z: word, i: bv6)
    requires i < 32
    ensures Bit(Ch(x, y, z), i) <==>
      if Bit(x, i) then Bit(y, i) else Bit(z, i)
    decreases i
  {
    hide *;
    ChLowest(x, y, z);
    if i > 0 {
      BitOfHalf(x, i);
      BitOfHalf(y, i);
      BitOfHalf(z, i);
      BitOfHalf(Ch(x, y, z), i);
      ChHalf(x, y, z);
      ChChooses(x >> 1, y >> 1, z >> 1, i - 1);
    }
  }

  lemma MajHalf(x: word, y: word, z: word)
    ensures Maj(x, y, z) >> 1 == Maj(x >> 1, y >> 1, z >> 1)
  {
  }

  lemma MajLowest(x: word, y: word, z: word)
    ensures Bit(Maj(x, y, z), 0) <==>
      (Bit(x, 0) && Bit(y, 0)) || (Bit(x, 0) && Bit(z, 0)) || (Bit(y, 0) && Bit(z, 0))
  {
  }

  /** At least two of three bits, in every place. */
  lemma {:induction false} MajIsMajority(x: word, y: word, z: word, i: bv6)
    requires i < 32
    ensures Bit(Maj(x, y, z), i) <==>
      (Bit(x, i) && Bit(y, i)) || (Bit(x, i) && Bit(z, i)) || (Bit(y, i) && Bit(z, i))
    decreases i
  {
    hide *;
    MajLowest(x, y, z);
    if i > 0 {
      BitOfHalf(x, i);
      BitOfHalf(y, i);
      BitOfHalf(z, i);
      BitOfHalf(Maj(x, y, z), i);
      MajHalf(x, y, z);
      MajIsMajority(x >> 1, y >> 1, z >> 1, i - 1);
    }
  }

  lemma XorHalf(x: word, y: word)
    ensures (x ^ y) >> 1 == (x >> 1) ^ (y >> 1)
  {
  }

  lemma ParityHalf(x: word, y: word, z: word)
    ensures Parity(x, y, z) >> 1 == Parity(x >> 1, y >> 1, z >> 1)
  {
    XorHalf(x, y);
    XorHalf(x ^ y, z);
  }

  lemma ParityLowest(x: word, y: word, z: word)
    ensures Bit(Parity(x, y, z), 0) <==>
      ((Bit(x, 0) != Bit(y, 0)) != Bit(z, 0))
  {
  }

  /** An odd number of three bits, in every place. */
  lemma {:induction false} ParityIsOdd(x: word, y: word, z: word, i: bv6)
    requires i < 32
    ensures Bit(Parity(x, y, z), i) <==>
      ((Bit(x, i) != Bit(y, i)) != Bit(z, i))
    decreases i
  {
    hide *;
    ParityLowest(x, y, z);
    if i > 0 {
      BitOfHalf(x, i);
      BitOfHalf(y, i);
      BitOfHalf(z, i);
      BitOfHalf(Parity(x, y, z), i);
      ParityHalf(x, y, z);
      ParityIsOdd(x >> 1, y >> 1, z >> 1, i - 1);
    }
  }

  /** Section 4.1.1. */
  function F(t: nat, x: word, y: word, z: word): word {
    if t < 20 then Ch(x, y, z) else if t < 40 then Parity(x, y, z) else if t < 60 then Maj(x, y, z) else Parity(x, y, z)
  }

  /** The constants of section 4.2.1, and what Ares makes of them. */
  function Constant(v: Variant, n: nat): word {
    if n == 1 then if v == Standard then 0x5a827999 else 0x5a827901
    else if n == 2 then 0x6ed9eba1
    else if n == 3 then if v == Standard then 0x8f1bbcdc else 0x1f1cbcdc
    else 0xca62c1d6
  }

  function K(v: Variant, t: nat): word {
    Constant(v, if t < 20 then 1 else if t < 40 then 2 else if t < 60 then 3 else 4)
  }

  datatype Vars = Vars(a: word, b: word, c: word, d: word, e: word)

  /** Section 5.3.1. */
  function H0(v: Variant): Vars {
    if v == Standard then Vars(0x67452301, 0xefcdab89, 0x98badcfe, 0x10325476, 0xc3d2e1f0)
    else Vars(0x17452301, 0xeacdaf89, 0x98bfdcfe, 0x14325476, 0xc3d2c1f0)
  }

  function Xor(a: word, b: word, c: word, d: word): word { a ^ b ^ c ^ d }

  /** The message schedule, section 6.1.2 step 1. */
  function W(m: seq<word>, t: nat): word
    requires |m| == 16
  {
    if t < 16 then m[t] else Rotl(Xor(W(m, t - 3), W(m, t - 8), W(m, t - 14), W(m, t - 16)), 1)
  }

  /** Addition of words is modulo 2^32. */
  function Sum(a: word, b: word, c: word, d: word, e: word): word { a + b + c + d + e }

  /** One round, section 6.1.2 step 3. */
  function Round(v: Variant, t: nat, s: Vars, w: word): Vars {
    Vars(Sum(Rotl(s.a, 5), F(t, s.b, s.c, s.d), s.e, K(v, t), w), s.a, Rotl(s.b, 30), s.c, s.d)
  }

  function Rounds(v: Variant, m: seq<word>, s: Vars, n: nat): Vars
    requires |m| == 16
  {
    if n == 0 then s else Round(v, n - 1, Rounds(v, m, s, n - 1), W(m, n - 1))
  }

  function Added(h: Vars, s: Vars): Vars {
    Vars(h.a + s.a, h.b + s.b, h.c + s.c, h.d + s.d, h.e + s.e)
  }

  /** Section 6.1.2 step 4. */
  function Compress(v: Variant, h: Vars, m: seq<word>): Vars
    requires |m| == 16
  {
    Added(h, Rounds(v, m, h, 80))
  }

  /** Four bytes as a word, the first in the most significant place. */
  function BigEndian(a: byte, b: byte, c: byte, d: byte): word {
    ((a as bv32) << 24) | ((b as bv32) << 16) | ((c as bv32) << 8) | (d as bv32)
  }

  /** A 64-byte block as 16 words, section 5.2.1. */
  function Words(block: seq<byte>): (m: seq<word>)
    requires |block| == 64
    ensures |m| == 16
  {
    seq(16, i requires 0 <= i < 16 => BigEndian(block[4 * i], block[4 * i + 1], block[4 * i + 2], block[4 * i + 3]))
  }

  /** The hash value after the whole blocks of `bytes`. */
  function Blocks(v: Variant, h: Vars, bytes: seq<byte>): Vars
    decreases |bytes|
  {
    if |bytes| < 64 then h else Blocks(v, Compress(v, h, Words(bytes[..64])), bytes[64..])
  }

  /** The zeros of the padding: the least number that makes room for the length at
      the end of a block. */
  function Zeros(n: nat): nat { (119 - n % 64) % 64 }

  /** A number below 2^64 as eight bytes. */
  function Length64(n: nat): (r: seq<byte>)
    requires n < U32 * U32
    ensures |r| == 8
  {
    BytesOf(n / U32) + BytesOf(n % U32)
  }

  /** A number below 2^32 as four bytes, the most significant first. */
  function BytesOf(n: nat): seq<byte>
    requires n < U32
  {
    [ToByte(n / 0x100_0000), ToByte(n / 0x1_0000 % 256), ToByte(n / 256 % 256), ToByte(n % 256)]
  }

  /** Section 5.1.1. */
  function Pad(message: seq<byte>): seq<byte>
    requires 8 * |message| < U32 * U32
  {
    message + [0x80] + seq(Zeros(|message|), _ => 0) + Length64(8 * |message|)
  }

  function WordBytes(w: word): seq<byte> {
    [((w >> 24) & 0xff) as bv8, ((w >> 16) & 0xff) as bv8, ((w >> 8) & 0xff) as bv8, (w & 0xff) as bv8]
  }

  function Digest(h: Vars): seq<byte> {
    WordBytes(h.a) + WordBytes(h.b) + WordBytes(h.c) + WordBytes(h.d) + WordBytes(h.e)
  }

  /** Section 6.1. */
  function Hash(v: Variant, message: seq<byte>): seq<byte>
    requires 8 * |message| < U32 * U32
  {
    Digest(Blocks(v, H0(v), Pad(message)))
  }

  /** The padding is the shortest that reaches a block border. */
  lemma PadShortest(message: seq<byte>, k: nat)
    requires 8 * |message| < U32 * U32
    ensures |Pad(message)| % 64 == 0 && |Pad(message)| == |message| + 9 + Zeros(|message|)
    ensures (|message| + 9 + k) % 64 == 0 ==> Zeros(|message|) <= k
  {
    hide Length64;
    ZerosShortest(|message|, k);
  }

  lemma ZerosShortest(n: nat, k: nat)
    ensures (n + 9 + Zeros(n)) % 64 == 0 && Zeros(n) < 64
    ensures (n + 9 + k) % 64 == 0 ==> Zeros(n) <= k
  {
    var q, r := n / 64, n % 64;
    assert n == 64 * q + r;
    if k < 64 {
      assert (n + 9 + k) % 64 == (r + 9 + k) % 64;
    }
  }

  lemma {:induction false} BlocksConcat(v: Variant, h: Vars, a: seq<byte>, b: seq<byte>)
    requires |a| % 64 == 0
    ensures Blocks(v, h, a + b) == Blocks(v, Blocks(v, h, a), b)
    decreases |a|
  {
    if a == [] {
      assert a + b == b;
    } else {
      assert |a| >= 64;
      assert (a + b)[..64] == a[..64] && (a + b)[64..] == a[64..] + b;
      BlocksConcat(v, Compress(v, h, Words(a[..64])), a[64..], b);
    }
  }

  lemma BlocksOfOne(v: Variant, h: Vars, b: seq<byte>)
    requires |b| == 64
    ensures Blocks(v, h, b) == Compress(v, h, Words(b))
  {
    assert b[..64] == b && b[64..] == [];
  }

  // ----------------------------------------------------- the unrolled transform

  /** The C macros f1 to f4 use `|` where the definition has exclusive or. */
  function F1(x: word, y: word, z: word): word { (x & y) | (!x & z) }

  function F3(x: word, y: word, z: word): word { (x & y) | (x & z) | (y & z) }

  function Macro(n: nat, x: word, y: word, z: word): word {
    if n == 1 then F1(x, y, z) else if n == 3 then F3(x, y, z) else x ^ y ^ z
  }

  lemma F1IsCh(x: word, y: word, z: word)
    ensures F1(x, y, z) == Ch(x, y, z)
  {
    assert (x & y) | (!x & z) == (x & y) ^ (!x & z);
  }

  lemma F3IsMaj(x: word, y: word, z: word)
    ensures F3(x, y, z) == Maj(x, y, z)
  {
    assert (x & y) | (x & z) | (y & z) == (x & y) ^ (x & z) ^ (y & z);
  }

  /** The macros FA to FT, all the same but for the names of the variables: one
      round that updates two of six names in place instead of moving five values.
      The four values `t, a, b', c, d` afterwards are the round's result. */
  method Step(v: Variant, n: nat, a: word, b: word, c: word, d: word, e: word, w: array<word>, wp: nat,
      ghost m: seq<word>, ghost h: Vars) returns (t: word, b': word)
    requires Scheduled(w, m) && 20 * (n - 1) <= wp < 20 * n <= 80
    requires Rounds(v, m, h, wp) == Vars(a, b, c, d, e)
    ensures Rounds(v, m, h, wp + 1) == Vars(t, a, b', c, d)
  {
    hide *;
    ScheduledAt(w, m, wp);
    RoundsNext(v, m, h, wp);
    MacroIsRound(v, n, wp, Vars(a, b, c, d, e), w[wp]);
    t := Sum(Rotl(a, 5), Macro(n, b, c, d), e, w[wp], Constant(v, n));
    b' := Rotl(b, 30);
  }

  lemma ScheduledAt(w: array<word>, m: seq<word>, t: nat)
    requires Scheduled(w, m) && t < 80
    ensures |m| == 16 && w.Length == 80 && w[t] == W(m, t)
  {
  }

  lemma RoundsNext(v: Variant, m: seq<word>, s: Vars, n: nat)
    requires |m| == 16
    ensures Rounds(v, m, s, n + 1) == Round(v, n, Rounds(v, m, s, n), W(m, n))
  {
    hide W, Round;
  }

  lemma MacroIsRound(v: Variant, n: nat, t: nat, s: Vars, x: word)
    requires 20 * (n - 1) <= t < 20 * n <= 80
    ensures Round(v, t, s, x) == Vars(Sum(Rotl(s.a, 5), Macro(n, s.b, s.c, s.d), s.e, x, Constant(v, n)), s.a,
        Rotl(s.b, 30), s.c, s.d)
  {
    hide Rotl, F1, F3, Ch, Maj, Constant, Sum;
    F1IsCh(s.b, s.c, s.d);
    F3IsMaj(s.b, s.c, s.d);
    SumOrder(Rotl(s.a, 5), Macro(n, s.b, s.c, s.d), s.e, x, Constant(v, n));
  }

  lemma SumOrder(a: word, b: word, c: word, d: word, e: word)
    ensures Sum(a, b, c, d, e) == Sum(a, b, c, e, d)
  {
    assert a + b + c + d + e == a + b + c + e + d;
  }

  ghost predicate Scheduled(w: array<word>, m: seq<word>)
    reads w
  {
    |m| == 16 && w.Length == 80 && forall i :: 0 <= i < 80 ==> w[i] == W(m, i)
  }

  /** Lines FA(1) FB(1) ... of the transform: twenty rounds written out. The names
      that hold the five values are not the same before and after. */
  method First20(v: Variant, w: array<word>, t0: word, a0: word, b0: word, c0: word, d0: word, e0: word,
      ghost m: seq<word>, ghost h: Vars) returns (t: word, a: word, b: word, c: word, d: word, e: word)
    requires Scheduled(w, m) && Rounds(v, m, h, 0) == Vars(a0, b0, c0, d0, e0)
    ensures Rounds(v, m, h, 20) == Vars(e, t, a, b, c)
  {
    hide *;
    t, a, b, c, d, e := t0, a0, b0, c0, d0, e0;
    t, b := Step(v, 1, a, b, c, d, e, w, 0, m, h);
    e, a := Step(v, 1, t, a, b, c, d, w, 1, m, h);
    d, t := Step(v, 1, e, t, a, b, c, w, 2, m, h);
    c, e := Step(v, 1, d, e, t, a, b, w, 3, m, h);
    b, d := Step(v, 1, c, d, e, t, a, w, 4, m, h);
    a, c := Step(v, 1, b, c, d, e, t, w, 5, m, h);
    t, b := Step(v, 1, a, b, c, d, e, w, 6, m, h);
    e, a := Step(v, 1, t, a, b, c, d, w, 7, m, h);
    d, t := Step(v, 1, e, t, a, b, c, w, 8, m, h);
    c, e := Step(v, 1, d, e, t, a, b, w, 9, m, h);
    b, d := Step(v, 1, c, d, e, t, a, w, 10, m, h);
    a, c := Step(v, 1, b, c, d, e, t, w, 11, m, h);
    t, b := Step(v, 1, a, b, c, d, e, w, 12, m, h);
    e, a := Step(v, 1, t, a, b, c, d, w, 13, m, h);
    d, t := Step(v, 1, e, t, a, b, c, w, 14, m, h);
    c, e := Step(v, 1, d, e, t, a, b, w, 15, m, h);
    b, d := Step(v, 1, c, d, e, t, a, w, 16, m, h);
    a, c := Step(v, 1, b, c, d, e, t, w, 17, m, h);
    t, b := Step(v, 1, a, b, c, d, e, w, 18, m, h);
    e, a := Step(v, 1, t, a, b, c, d, w, 19, m, h);
  }

  method Second20(v: Variant, w: array<word>, t0: word, a0: word, b0: word, c0: word, d0: word, e0: word,
      ghost m: seq<word>, ghost h: Vars) returns (t: word, a: word, b: word, c: word, d: word, e: word)
    requires Scheduled(w, m) && Rounds(v, m, h, 20) == Vars(e0, t0, a0, b0, c0)
    ensures Rounds(v, m, h, 40) == Vars(c, d, e, t, a)
  {
    hide *;
    t, a, b, c, d, e := t0, a0, b0, c0, d0, e0;
    d, t := Step(v, 2, e, t, a, b, c, w, 20, m, h);
    c, e := Step(v, 2, d, e, t, a, b, w, 21, m, h);
    b, d := Step(v, 2, c, d, e, t, a, w, 22, m, h);
    a, c := Step(v, 2, b, c, d, e, t, w, 23, m, h);
    t, b := Step(v, 2, a, b, c, d, e, w, 24, m, h);
    e, a := Step(v, 2, t, a, b, c, d, w, 25, m, h);
    d, t := Step(v, 2, e, t, a, b, c, w, 26, m, h);
    c, e := Step(v, 2, d, e, t, a, b, w, 27, m, h);
    b, d := Step(v, 2, c, d, e, t, a, w, 28, m, h);
    a, c := Step(v, 2, b, c, d, e, t, w, 29, m, h);
    t, b := Step(v, 2, a, b, c, d, e, w, 30, m, h);
    e, a := Step(v, 2, t, a, b, c, d, w, 31, m, h);
    d, t := Step(v, 2, e, t, a, b, c, w, 32, m, h);
    c, e := Step(v, 2, d, e, t, a, b, w, 33, m, h);
    b, d := Step(v, 2, c, d, e, t, a, w, 34, m, h);
    a, c := Step(v, 2, b, c, d, e, t, w, 35, m, h);
    t, b := Step(v, 2, a, b, c, d, e, w, 36, m, h);
    e, a := Step(v, 2, t, a, b, c, d, w, 37, m, h);
    d, t := Step(v, 2, e, t, a, b, c, w, 38, m, h);
    c, e := Step(v, 2, d, e, t, a, b, w, 39, m, h);
  }

  method Third20(v: Variant, w: array<word>, t0: word, a0: word, b0: word, c0: word, d0: word, e0: word,
      ghost m: seq<word>, ghost h: Vars) returns (t: word, a: word, b: word, c: word, d: word, e: word)
    requires Scheduled(w, m) && Rounds(v, m, h, 40) == Vars(c0, d0, e0, t0, a0)
    ensures Rounds(v, m, h, 60) == Vars(a, b, c, d, e)
  {
    hide *;
    t, a, b, c, d, e := t0, a0, b0, c0, d0, e0;
    b, d := Step(v, 3, c, d, e, t, a, w, 40, m, h);
    a, c := Step(v, 3, b, c, d, e, t, w, 41, m, h);
    t, b := Step(v, 3, a, b, c, d, e, w, 42, m, h);
    e, a := Step(v, 3, t, a, b, c, d, w, 43, m, h);
    d, t := Step(v, 3, e, t, a, b, c, w, 44, m, h);
    c, e := Step(v, 3, d, e, t, a, b, w, 45, m, h);
    b, d := Step(v, 3, c, d, e, t, a, w, 46, m, h);
    a, c := Step(v, 3, b, c, d, e, t, w, 47, m, h);
    t, b := Step(v, 3, a, b, c, d, e, w, 48, m, h);
    e, a := Step(v, 3, t, a, b, c, d, w, 49, m, h);
    d, t := Step(v, 3, e, t, a, b, c, w, 50, m, h);
    c, e := Step(v, 3, d, e, t, a, b, w, 51, m, h);
    b, d := Step(v, 3, c, d, e, t, a, w, 52, m, h);
    a, c := Step(v, 3, b, c, d, e, t, w, 53, m, h);
    t, b := Step(v, 3, a, b, c, d, e, w, 54, m, h);
    e, a := Step(v, 3, t, a, b, c, d, w, 55, m, h);
    d, t := Step(v, 3, e, t, a, b, c, w, 56, m, h);
    c, e := Step(v, 3, d, e, t, a, b, w, 57, m, h);
    b, d := Step(v, 3, c, d, e, t, a, w, 58, m, h);
    a, c := Step(v, 3, b, c, d, e, t, w, 59, m, h);
  }

  method Fourth20(v: Variant, w: array<word>, t0: word, a0: word, b0: word, c0: word, d0: word, e0: word,
      ghost m: seq<word>, ghost h: Vars) returns (t: word, a: word, b: word, c: word, d: word, e: word)
    requires Scheduled(w, m) && Rounds(v, m, h, 60) == Vars(a0, b0, c0, d0, e0)
    ensures Rounds(v, m, h, 80) == Vars(e, t, a, b, c)
  {
    hide *;
    t, a, b, c, d, e := t0, a0, b0, c0, d0, e0;
    t, b := Step(v, 4, a, b, c, d, e, w, 60, m, h);
    e, a := Step(v, 4, t, a, b, c, d, w, 61, m, h);
    d, t := Step(v, 4, e, t, a, b, c, w, 62, m, h);
    c, e := Step(v, 4, d, e, t, a, b, w, 63, m, h);
    b, d := Step(v, 4, c, d, e, t, a, w, 64, m, h);
    a, c := Step(v, 4, b, c, d, e, t, w, 65, m, h);
    t, b := Step(v, 4, a, b, c, d, e, w, 66, m, h);
    e, a := Step(v, 4, t, a, b, c, d, w, 67, m, h);
    d, t := Step(v, 4, e, t, a, b, c, w, 68, m, h);
    c, e := Step(v, 4, d, e, t, a, b, w, 69, m, h);
    b, d := Step(v, 4, c, d, e, t, a, w, 70, m, h);
    a, c := Step(v, 4, b, c, d, e, t, w, 71, m, h);
    t, b := Step(v, 4, a, b, c, d, e, w, 72, m, h);
    e, a := Step(v, 4, t, a, b, c, d, w, 73, m, h);
    d, t := Step(v, 4, e, t, a, b, c, w, 74, m, h);
    c, e := Step(v, 4, d, e, t, a, b, w, 75, m, h);
    b, d := Step(v, 4, c, d, e, t, a, w, 76, m, h);
    a, c := Step(v, 4, b, c, d, e, t, w, 77, m, h);
    t, b := Step(v, 4, a, b, c, d, e, w, 78, m, h);
    e, a := Step(v, 4, t, a, b, c, d, w, 79, m, h);
  }

  lemma RoundsStart(v: Variant, m: seq<word>, h: Vars)
    requires |m| == 16
    ensures Rounds(v, m, h, 0) == h
  {
  }

  /** Four bytes as a little-endian machine reads them. */
  function LittleEndian(a: byte, b: byte, c: byte, d: byte): word {
    ((d as bv32) << 24) | ((c as bv32) << 16) | ((b as bv32) << 8) | (a as bv32)
  }

  function Swap(t: word): word {
    ((t << 24) & 0xff000000) | ((t << 8) & 0x00ff0000) | ((t >> 8) & 0x0000ff00) | ((t >> 24) & 0x000000ff)
  }

  lemma SwapWords(a: word, b: word, c: word, d: word)
    requires a <= 0xff && b <= 0xff && c <= 0xff && d <= 0xff
    ensures var t := (d << 24) | (c << 16) | (b << 8) | a;
      ((t << 24) & 0xff000000) | ((t << 8) & 0x00ff0000) | ((t >> 8) & 0x0000ff00) | ((t >> 24) & 0x000000ff)
      == (a << 24) | (b << 16) | (c << 8) | d
  {
  }

  lemma SwapIsBigEndian(a: byte, b: byte, c: byte, d: byte)
    ensures Swap(LittleEndian(a, b, c, d)) == BigEndian(a, b, c, d)
  {
    SwapWords(a as word, b as word, c as word, d as word);
  }

  // ------------------------------------------------------------- the bit count

  const U64: nat := U32 * U32

  /** The bit count in two words after `count` more bytes. */
  lemma CountCarries(lo: nat, hi: nat, n: nat, count: nat)
    requires lo < U32 && hi < U32 && count < U32 && hi * U32 + lo == 8 * n % U64
    ensures var clo := (lo + 8 * count % U32) % U32;
      var chi := (hi + (if clo < lo then 1 else 0) + count / 0x2000_0000) % U32;
      chi * U32 + clo == 8 * (n + count) % U64
  {
    var m := 8 * count % U32;
    CountCarry(lo, m);
    var q := hi + (if (lo + m) % U32 < lo then 1 else 0) + count / 0x2000_0000;
    EightTimes(count);
    var k := 8 * n / U64;
    TwoWords(8 * (n + count), k, q, (lo + m) % U32);
  }

  /** The carry is added before the high word. */
  lemma CountInSteps(lo: nat, hi: nat, n: nat, count: nat)
    requires lo < U32 && hi < U32 && count < U32 && hi * U32 + lo == 8 * n % U64
    ensures var clo := (lo + 8 * count % U32) % U32;
      var carried := if clo < lo then (hi + 1) % U32 else hi;
      var chi := (carried + count / 0x2000_0000) % U32;
      clo < U32 && chi < U32 && chi * U32 + clo == 8 * (n + count) % U64
  {
    CountCarries(lo, hi, n, count);
    AddMod(hi, 1, count / 0x2000_0000);
    AddMod(hi, 0, count / 0x2000_0000);
  }

  lemma CountCarry(lo: nat, m: nat)
    requires lo < U32 && m < U32
    ensures lo + m == (if (lo + m) % U32 < lo then U32 else 0) + (lo + m) % U32
  {
  }

  lemma EightTimes(n: nat)
    ensures 8 * n == n / 0x2000_0000 * U32 + 8 * n % U32
  {
  }

  lemma TwoWords(x: nat, k: nat, q: nat, r: nat)
    requires x == k * U64 + q * U32 + r && r < U32
    ensures q % U32 * U32 + r == x % U64
  {
    assert q == q / U32 * U32 + q % U32;
    assert x == (k + q / U32) * U64 + (q % U32 * U32 + r);
    Remainder(x, k + q / U32, q % U32 * U32 + r);
  }

  lemma AddMod(hi: nat, a: nat, b: nat)
    requires hi < U32
    ensures ((hi + a) % U32 + b) % U32 == (hi + a + b) % U32
  {
  }

  lemma Remainder(x: nat, k: nat, r: nat)
    requires x == k * U64 + r && r < U64
    ensures x % U64 == r
  {
  }

  // --------------------------------------------------------------- the context

  /** `digest` is the hash value after the first `n` bytes of `message`, which are
      whole blocks. */
  ghost predicate Covered(v: Variant, digest: Vars, message: seq<byte>, n: nat) {
    n <= |message| && n % 64 == 0 && digest == Blocks(v, H0(v), message[..n])
  }

  lemma NothingCovered(v: Variant)
    ensures Covered(v, H0(v), [], 0)
  {
    hide H0, Compress;
    var none: seq<byte> := [];
    assert none[..0] == none;
  }

  lemma ZeroCount()
    ensures U32 > 0 && 0 * U32 + 0 == 8 * 0 % U64
  {
  }

  lemma NextCovered(v: Variant, digest: Vars, message: seq<byte>, n: nat, more: seq<byte>)
    requires Covered(v, digest, message, n) && |message| - n + |more| == 64
    ensures Covered(v, Compress(v, digest, Words(message[n..] + more)), message + more, |message| + |more|)
  {
    hide Blocks, H0, Compress;
    var block := message[n..] + more;
    BlocksConcat(v, H0(v), message[..n], block);
    BlocksOfOne(v, Blocks(v, H0(v), message[..n]), block);
    assert message + more == message[..n] + block;
    assert (message + more)[..|message| + |more|] == message + more;
  }

  lemma StillCovered(v: Variant, digest: Vars, message: seq<byte>, n: nat, more: seq<byte>)
    requires Covered(v, digest, message, n)
    ensures Covered(v, digest, message + more, n) && n <= |message|
  {
    assert (message + more)[..n] == message[..n];
  }

  class Context {
    const variant: Variant
    const data: array<byte>
    var digest: Vars
    var countLo: nat
    var countHi: nat
    var local: nat
    /** Everything fed so far. */
    ghost var message: seq<byte>

    ghost predicate Counted()
      reads this`countLo, this`countHi, this`message
    {
      countLo < U32 && countHi < U32 && countHi * U32 + countLo == 8 * |message| % U64
    }

    /** `digest` covers the whole blocks, and the rest is in the buffer. */
    ghost predicate Buffered()
      reads this`digest, this`message, this`local, data
    {
      && data.Length == 64 && local < 64 && local <= |message|
      && Covered(variant, digest, message, |message| - local)
      && data[..local] == message[|message| - local..]
    }

    ghost predicate Valid()
      reads this, data
    {
      Buffered() && Counted()
    }

    /** `as_sha1_init` and `as_sha1_ares_init`. */
    constructor (variant: Variant)
      ensures Valid() && message == [] && this.variant == variant && fresh(data)
    {
      this.variant := variant;
      data := new byte[64];
      digest, countLo, countHi, local, message := H0(variant), 0, 0, 0, [];
      new;
      hide *;
      NothingCovered(variant);
      ZeroCount();
      FromParts();
    }

    lemma Parts()
      requires Valid()
      ensures data.Length == 64 && local < 64 && local <= |message| && (|message| - local) % 64 == 0
      ensures Covered(variant, digest, message, |message| - local) && data[..local] == message[|message| - local..]
      ensures local == |message| % 64 && Counted()
      ensures countLo < U32 && countHi < U32 && countHi * U32 + countLo == 8 * |message| % U64
    {
      hide Blocks;
    }

    lemma FromParts()
      requires data.Length == 64 && local < 64 && local <= |message|
      requires Covered(variant, digest, message, |message| - local) && data[..local] == message[|message| - local..]
      requires countLo < U32 && countHi < U32 && countHi * U32 + countLo == 8 * |message| % U64
      ensures Valid()
    {
      hide Covered;
    }

    /** The words of the block, as a little-endian machine gets them. */
    method LoadWords(w: array<word>)
      requires data.Length == 64 && w.Length == 80
      modifies w
      ensures forall j :: 0 <= j < 16 ==> w[j] == W(Words(data[..]), j)
    {
      hide *;
      for i := 0 to 16
        invariant forall j :: 0 <= j < i ==> w[j] == W(Words(data[..]), j)
      {
        var t := LittleEndian(data[4 * i], data[4 * i + 1], data[4 * i + 2], data[4 * i + 3]);
        SwapIsBigEndian(data[4 * i], data[4 * i + 1], data[4 * i + 2], data[4 * i + 3]);
        WordsAt(data[..], i);
        w[i] := Swap(t);
      }
    }

    /** `sha_transform` and `sha_ares_transform`. */
    method Transform()
      requires data.Length == 64
      modifies this`digest
      ensures digest == Compress(variant, old(digest), Words(data[..]))
    {
      hide *;
      ghost var m := Words(data[..]);
      var w := new word[80];
      LoadWords(w);
      Expand(w, m);
      var h := digest;
      var t: word, a, b, c, d, e := 0, h.a, h.b, h.c, h.d, h.e;
      RoundsStart(variant, m, h);
      t, a, b, c, d, e := First20(variant, w, t, a, b, c, d, e, m, h);
      t, a, b, c, d, e := Second20(variant, w, t, a, b, c, d, e, m, h);
      t, a, b, c, d, e := Third20(variant, w, t, a, b, c, d, e, m, h);
      t, a, b, c, d, e := Fourth20(variant, w, t, a, b, c, d, e, m, h);
      digest := Added(h, Vars(e, t, a, b, c));
      CompressIs(variant, h, m);
    }

    /** `memcpy` into the buffer. */
    method Copy(at: nat, bytes: seq<byte>)
      requires at + |bytes| <= data.Length
      modifies data
      ensures data[..] == old(data[..at]) + bytes + old(data[at + |bytes|..])
    {
      for i := 0 to |bytes|
        invariant data[..at + i] == old(data[..at]) + bytes[..i]
        invariant forall k :: at + i <= k < data.Length ==> data[k] == old(data[k])
      {
        data[at + i] := bytes[i];
        assert data[..at + i + 1] == data[..at + i] + [bytes[i]];
      }
      assert data[..] == data[..at + |bytes|] + data[at + |bytes|..];
    }

    lemma CountedMeans()
      requires Counted()
      ensures countLo < U32 && countHi < U32 && countHi * U32 + countLo == 8 * |message| % U64
    {
    }

    /** Count `n` more bytes in bits, in two words. */
    method Count(n: nat)
      requires Counted() && n < U32
      modifies this`countLo, this`countHi
      ensures countLo < U32 && countHi < U32 && countHi * U32 + countLo == 8 * (|message| + n) % U64
    {
      CountedMeans();
      CountInSteps(countLo, countHi, |message|, n);
      hide *;
      var clo := (countLo + 8 * n % U32) % U32;
      if clo < countLo {
        countHi := (countHi + 1) % U32;
      }
      countLo := clo;
      countHi := (countHi + n / 0x2000_0000) % U32;
    }

    /** Hash the full buffer, which holds the part of the message from `n` on and
        then `more`. */
    method TakeBlock(ghost n: nat, ghost more: seq<byte>)
      requires data.Length == 64 && Covered(variant, digest, message, n) && n <= |message|
      requires data[..] == message[n..] + more
      modifies this`digest, this`message
      ensures message == old(message) + more && Covered(variant, digest, message, |message|)
    {
      hide *;
      NextCovered(variant, digest, message, n, more);
      Transform();
      message := message + more;
    }

    /** `as_sha1_update`, first part: fill up a buffer that is not empty. */
    method TopUp(buffer: seq<byte>) returns (pos: nat)
      requires data.Length == 64 && 0 < local < 64 && local <= |message|
      requires Covered(variant, digest, message, |message| - local) && data[..local] == message[|message| - local..]
      modifies this`local, this`digest, this`message, data
      ensures pos <= |buffer| && message == old(message) + buffer[..pos] && local <= 64 && local <= |message|
      ensures local < 64 ==>
        pos == |buffer| && Covered(variant, digest, message, |message| - local) &&
        data[..local] == message[|message| - local..]
      ensures local == 64 ==> Covered(variant, digest, message, |message|)
    {
      hide *;
      pos := if 64 - local > |buffer| then |buffer| else 64 - local;
      ghost var n := |message| - local;
      Copy(local, buffer[..pos]);
      local := local + pos;
      if local < 64 {
        StillCovered(variant, digest, message, n, buffer);
        message := message + buffer;
      } else {
        TakeBlock(n, buffer[..pos]);
      }
    }

    /** `as_sha1_update`, second part: whole blocks, then keep the rest. */
    method TakeBlocks(buffer: seq<byte>)
      requires data.Length == 64 && Covered(variant, digest, message, |message|)
      modifies this`local, this`digest, this`message, data
      ensures local < 64 && message == old(message) + buffer && local <= |message|
      ensures Covered(variant, digest, message, |message| - local) && data[..local] == message[|message| - local..]
    {
      hide *;
      var pos := 0;
      while |buffer| - pos >= 64
        invariant pos <= |buffer| && message == old(message) + buffer[..pos]
        invariant Covered(variant, digest, message, |message|)
      {
        Copy(0, buffer[pos..pos + 64]);
        TakeBlock(|message|, buffer[pos..pos + 64]);
        pos := pos + 64;
      }
      Copy(0, buffer[pos..]);
      local := |buffer| - pos;
      StillCovered(variant, digest, message, |message|, buffer[pos..]);
      message := message + buffer[pos..];
    }

    /** `as_sha1_update`. */
    method Update(buffer: seq<byte>)
      requires Valid() && |buffer| < U32
      modifies this, data
      ensures Valid() && message == old(message) + buffer
    {
      hide *;
      Parts();
      Count(|buffer|);
      var pos := 0;
      if local > 0 {
        pos := TopUp(buffer);
      }
      if local == 0 || local == 64 {
        TakeBlocks(buffer[pos..]);
      }
      assert buffer == buffer[..pos] + buffer[pos..];
      FromParts();
    }

    /** `as_sha1_final`. */
    method Final() returns (out: seq<byte>)
      requires Valid() && 8 * |message| < U64
      modifies this, data
      ensures out == Hash(variant, old(message))
    {
      hide *;
      Parts();
      ghost var whole := message;
      ghost var n := |message| - local;
      CountIsLength(countLo, countHi, |message|);
      var count := countLo / 8 % 64;
      assert count == local;
      data[count] := 0x80;
      count := count + 1;
      assert data[..count] == message[n..] + [0x80];
      if count > 56 {
        Copy(count, seq(64 - count, _ => 0));
        TakeBlock(n, [0x80] + seq(64 - count, _ => 0));
        Copy(0, seq(56, _ => 0));
        Copy(56, BytesOf(countHi) + BytesOf(countLo));
        TakeBlock(|message|, seq(56, _ => 0) + (BytesOf(countHi) + BytesOf(countLo)));
        PadTwo(whole);
      } else {
        Copy(count, seq(56 - count, _ => 0));
        Copy(56, BytesOf(countHi) + BytesOf(countLo));
        TakeBlock(n, [0x80] + seq(56 - count, _ => 0) + (BytesOf(countHi) + BytesOf(countLo)));
        PadOne(whole);
      }
      CoveredIs(variant, digest, message);
      out := Digest(digest);
      HashIs(variant, whole);
    }
  }

  /** However the message is cut into pieces, the result is its hash. */
  method HashPieces(v: Variant, pieces: seq<seq<byte>>) returns (out: seq<byte>)
    requires 8 * |Joined(pieces)| < U64 && forall i :: 0 <= i < |pieces| ==> |pieces[i]| < U32
    ensures out == Hash(v, Joined(pieces))
  {
    hide *;
    var c := new Context(v);
    JoinedNone();
    for i := 0 to |pieces|
      invariant c.Valid() && fresh(c) && fresh(c.data) && c.variant == v && c.message == Joined(pieces[..i])
    {
      c.Update(pieces[i]);
      JoinedNext(pieces, i);
    }
    assert pieces[..|pieces|] == pieces;
    out := c.Final();
  }

  lemma CountIsLength(lo: nat, hi: nat, n: nat)
    requires lo < U32 && hi < U32 && hi * U32 + lo == 8 * n % U64 && 8 * n < U64
    ensures lo / 8 % 64 == n % 64
    ensures Length64(8 * n) == BytesOf(hi) + BytesOf(lo)
  {
    hide BytesOf;
    assert 8 * n == hi * U32 + lo;
    TwoParts(8 * n, hi, lo);
    var m := n - hi * 0x2000_0000;
    assert lo == 8 * m;
    assert n == 64 * (hi * 0x80_0000) + m;
    SameRemainder(n, hi * 0x80_0000, m);
  }

  lemma TwoParts(x: nat, hi: nat, lo: nat)
    requires x == hi * U32 + lo && lo < U32
    ensures x / U32 == hi && x % U32 == lo
  {
  }

  lemma SameRemainder(n: nat, k: nat, m: nat)
    requires n == 64 * k + m
    ensures n % 64 == m % 64
  {
  }

  lemma PadOne(message: seq<byte>)
    requires 8 * |message| < U64 && |message| % 64 < 56
    ensures Pad(message) == message + ([0x80] + seq(55 - |message| % 64, _ => 0) + Length64(8 * |message|))
  {
    hide Length64;
    assert Zeros(|message|) == 55 - |message| % 64;
  }

  lemma PadTwo(message: seq<byte>)
    requires 8 * |message| < U64 && |message| % 64 >= 56
    ensures Pad(message) == message + ([0x80] + seq(63 - |message| % 64, _ => 0)) +
        (seq(56, _ => 0) + Length64(8 * |message|))
  {
    hide Length64;
    assert Zeros(|message|) == 63 - |message| % 64 + 56;
  }

  lemma CoveredIs(v: Variant, digest: Vars, message: seq<byte>)
    requires Covered(v, digest, message, |message|)
    ensures digest == Blocks(v, H0(v), message)
  {
    hide H0;
    assert message[..|message|] == message;
  }

  lemma HashIs(v: Variant, message: seq<byte>)
    requires 8 * |message| < U64
    ensures Hash(v, message) == Digest(Blocks(v, H0(v), Pad(message)))
  {
    hide H0, Digest, Blocks, Pad;
  }

  /** The rest of the message schedule. */
  method Expand(w: array<word>, ghost m: seq<word>)
    requires |m| == 16 && w.Length == 80 && forall j :: 0 <= j < 16 ==> w[j] == W(m, j)
    modifies w
    ensures Scheduled(w, m)
  {
    hide *;
    for i := 16 to 80
      invariant forall j :: 0 <= j < i ==> w[j] == W(m, j)
    {
      WLater(m, i);
      w[i] := Xor(w[i - 3], w[i - 8], w[i - 14], w[i - 16]);
      w[i] := Rotl(w[i], 1);
    }
    IsScheduled(w, m);
  }

  lemma WordsAt(block: seq<byte>, i: nat)
    requires |block| == 64 && i < 16
    ensures W(Words(block), i) == BigEndian(block[4 * i], block[4 * i + 1], block[4 * i + 2], block[4 * i + 3])
  {
  }

  lemma WLater(m: seq<word>, i: nat)
    requires |m| == 16 && i >= 16
    ensures W(m, i) == Rotl(Xor(W(m, i - 3), W(m, i - 8), W(m, i - 14), W(m, i - 16)), 1)
  {
  }

  lemma IsScheduled(w: array<word>, m: seq<word>)
    requires |m| == 16 && w.Length == 80 && forall i :: 0 <= i < 80 ==> w[i] == W(m, i)
    ensures Scheduled(w, m)
  {
  }

  lemma CompressIs(v: Variant, h: Vars, m: seq<word>)
    requires |m| == 16
    ensures Compress(v, h, m) == Added(h, Rounds(v, m, h, 80))
  {
  }
}
