/** The key-chained cipher of gift-ares/lib/as_crypt.c. */
module Cipher {
  import opened Bytes

  /** A key is a 16 bit number. */
  type key = k: nat | k < 0x1_0000

  /** The multiplier and the summand of the key update. */
  datatype Code = Code(mul: key, add: key)

  function Xor(a: byte, b: byte): byte { a ^ b }

  function HighByte(k: key): byte { ToByte(k / 256) }

  /** The key after a byte whose encrypted form is `c`. */
  function Next(k: key, c: byte, code: Code): key { ((k + Val(c)) * code.mul + code.add) % 0x1_0000 }

  /** `munge` on a value. */
  function Munge(s: seq<byte>, k: key, code: Code): seq<byte> {
    if s == [] then [] else
      var c := Xor(s[0], HighByte(k));
      [c] + Munge(s[1..], Next(k, c, code), code)
  }

  function MungeKey(s: seq<byte>, k: key, code: Code): key {
    if s == [] then k else MungeKey(s[1..], Next(k, Xor(s[0], HighByte(k)), code), code)
  }

  /** `unmunge` on a value. */
  function Unmunge(s: seq<byte>, k: key, code: Code): seq<byte> {
    if s == [] then [] else [Xor(s[0], HighByte(k))] + Unmunge(s[1..], Next(k, s[0], code), code)
  }

  function UnmungeKey(s: seq<byte>, k: key, code: Code): key {
    if s == [] then k else UnmungeKey(s[1..], Next(k, s[0], code), code)
  }

  lemma XorTwice(a: byte, b: byte)
    ensures Xor(Xor(a, b), b) == a
  {
    assert (a ^ b) ^ b == a;
  }

  lemma {:induction false} MungeLength(s: seq<byte>, k: key, code: Code)
    ensures |Munge(s, k, code)| == |s|
  {
    hide Xor, HighByte, Next;
    if s != [] {
      MungeLength(s[1..], Next(k, Xor(s[0], HighByte(k)), code), code);
    }
  }

  lemma {:induction false} UnmungeLength(s: seq<byte>, k: key, code: Code)
    ensures |Unmunge(s, k, code)| == |s|
  {
    hide Xor, HighByte, Next;
    if s != [] {
      UnmungeLength(s[1..], Next(k, s[0], code), code);
    }
  }

  /** Decryption undoes encryption, and both sides end with the same key. */
  lemma {:induction false} UnmungeOfMunge(s: seq<byte>, k: key, code: Code)
    ensures Unmunge(Munge(s, k, code), k, code) == s
    ensures UnmungeKey(Munge(s, k, code), k, code) == MungeKey(s, k, code)
  {
    hide Xor, HighByte, Next;
    if s != [] {
      var c := Xor(s[0], HighByte(k));
      var rest := Munge(s[1..], Next(k, c, code), code);
      XorTwice(s[0], HighByte(k));
      UnmungeOfMunge(s[1..], Next(k, c, code), code);
      assert ([c] + rest)[1..] == rest;
    }
  }

  /** Encryption undoes decryption. */
  lemma {:induction false} MungeOfUnmunge(s: seq<byte>, k: key, code: Code)
    ensures Munge(Unmunge(s, k, code), k, code) == s
  {
    hide Xor, HighByte, Next;
    if s != [] {
      var rest := Unmunge(s[1..], Next(k, s[0], code), code);
      XorTwice(s[0], HighByte(k));
      MungeOfUnmunge(s[1..], Next(k, s[0], code), code);
      assert ([Xor(s[0], HighByte(k))] + rest)[1..] == rest;
    }
  }

  lemma MungeNext(s: seq<byte>, k: key, code: Code)
    requires s != []
    ensures var c := Xor(s[0], HighByte(k));
      && Munge(s, k, code) == [c] + Munge(s[1..], Next(k, c, code), code)
      && MungeKey(s, k, code) == MungeKey(s[1..], Next(k, c, code), code)
  {
    hide Xor, HighByte, Next;
  }

  lemma UnmungeNext(s: seq<byte>, k: key, code: Code)
    requires s != []
    ensures Unmunge(s, k, code) == [Xor(s[0], HighByte(k))] + Unmunge(s[1..], Next(k, s[0], code), code)
    ensures UnmungeKey(s, k, code) == UnmungeKey(s[1..], Next(k, s[0], code), code)
  {
    hide Xor, HighByte, Next;
  }

  lemma NothingMunged(k: key, code: Code)
    ensures Munge([], k, code) == [] && MungeKey([], k, code) == k
    ensures Unmunge([], k, code) == [] && UnmungeKey([], k, code) == k
  {
  }

  /** Encrypting in pieces, with the key carried over, is encrypting the whole. */
  lemma {:induction false} MungeConcat(a: seq<byte>, b: seq<byte>, k: key, code: Code)
    ensures Munge(a + b, k, code) == Munge(a, k, code) + Munge(b, MungeKey(a, k, code), code)
    ensures MungeKey(a + b, k, code) == MungeKey(b, MungeKey(a, k, code), code)
  {
    hide *;
    if a == [] {
      NothingMunged(k, code);
      assert a + b == b;
    } else {
      MungeNext(a, k, code);
      MungeNext(a + b, k, code);
      assert (a + b)[1..] == a[1..] + b && (a + b)[0] == a[0];
      MungeConcat(a[1..], b, Next(k, Xor(a[0], HighByte(k)), code), code);
    }
  }

  lemma {:induction false} UnmungeConcat(a: seq<byte>, b: seq<byte>, k: key, code: Code)
    ensures Unmunge(a + b, k, code) == Unmunge(a, k, code) + Unmunge(b, UnmungeKey(a, k, code), code)
    ensures UnmungeKey(a + b, k, code) == UnmungeKey(b, UnmungeKey(a, k, code), code)
  {
    hide *;
    if a == [] {
      NothingMunged(k, code);
      assert a + b == b;
    } else {
      UnmungeNext(a, k, code);
      UnmungeNext(a + b, k, code);
      assert (a + b)[1..] == a[1..] + b && (a + b)[0] == a[0];
      UnmungeConcat(a[1..], b, Next(k, a[0], code), code);
    }
  }

  /** What has arrived of an encrypted text decrypts to what was sent of it. */
  lemma UnmungePrefix(s: seq<byte>, n: nat, k: key, code: Code)
    requires n <= |s|
    ensures |Munge(s, k, code)| == |s|
    ensures Unmunge(Munge(s, k, code)[..n], k, code) == s[..n]
    ensures UnmungeKey(Munge(s, k, code)[..n], k, code) == MungeKey(s[..n], k, code)
  {
    hide Munge, Unmunge, MungeKey, UnmungeKey;
    MungeLength(s, k, code);
    MungeLength(s[..n], k, code);
    MungeConcat(s[..n], s[n..], k, code);
    assert s == s[..n] + s[n..];
    assert Munge(s, k, code)[..n] == Munge(s[..n], k, code);
    UnmungeOfMunge(s[..n], k, code);
  }

  // ------------------------------------------------------------ the key in closed form

  function Pow(b: nat, e: nat): nat { if e == 0 then 1 else b * Pow(b, e - 1) }

  /** The sum over i < n of c[i] * mul^(m - i) + add * mul^(m - 1 - i). */
  function Spread(c: seq<byte>, n: nat, m: nat, code: Code): int
    requires n <= |c| && n <= m
  {
    if n == 0 then 0 else
      Spread(c, n - 1, m, code) + Val(c[n - 1]) * Pow(code.mul, m - n + 1) + code.add * Pow(code.mul, m - n)
  }

  /** The key after the ciphertext `c`: every byte of it weighs in by a power of the
      multiplier. */
  function KeyAfter(c: seq<byte>, k: key, code: Code): key {
    (k * Pow(code.mul, |c|) + Spread(c, |c|, |c|, code)) % 0x1_0000
  }

  lemma {:induction false} SpreadScaled(c: seq<byte>, n: nat, m: nat, code: Code)
    requires n <= |c| && n <= m
    ensures Spread(c, n, m + 1, code) == Spread(c, n, m, code) * code.mul
  {
    hide Val, Pow;
    if n > 0 {
      SpreadScaled(c, n - 1, m, code);
      Powers(code.mul, m - n + 1);
      Powers(code.mul, m - n);
      Distributed(Spread(c, n - 1, m, code), Val(c[n - 1]), Pow(code.mul, m - n + 1), code.add, Pow(code.mul, m - n),
        code.mul);
    }
  }

  lemma Powers(b: nat, e: nat)
    ensures Pow(b, e + 1) == Pow(b, e) * b && Pow(b, 0) == 1
  {
  }

  lemma Distributed(x: int, c: nat, p: nat, a: nat, q: nat, m: nat)
    ensures (x + c * p + a * q) * m == x * m + c * (p * m) + a * (q * m)
  {
    assert c * p * m == c * (p * m);
    assert a * q * m == a * (q * m);
  }

  lemma {:induction false} SpreadOf(a: seq<byte>, b: seq<byte>, n: nat, m: nat, code: Code)
    requires n <= |a| && n <= |b| && n <= m && a[..n] == b[..n]
    ensures Spread(a, n, m, code) == Spread(b, n, m, code)
  {
    hide Val, Pow;
    if n > 0 {
      assert a[..n - 1] == a[..n][..n - 1] == b[..n][..n - 1] == b[..n - 1];
      assert a[n - 1] == a[..n][n - 1] == b[..n][n - 1] == b[n - 1];
      SpreadOf(a, b, n - 1, m, code);
    }
  }

  lemma Whole(x: int, q: int)
    ensures (x + q * 0x1_0000) % 0x1_0000 == x % 0x1_0000
  {
  }

  /** The wrap-around in the middle does not show at the end. */
  lemma WrapOnce(x: int, c: nat, m: nat, a: nat)
    ensures ((x % 0x1_0000 + c) * m + a) % 0x1_0000 == (x * m + (c * m + a)) % 0x1_0000
  {
    var q, r := x / 0x1_0000, x % 0x1_0000;
    assert x == r + q * 0x1_0000;
    assert x * m == r * m + (q * m) * 0x1_0000;
    Whole((r + c) * m + a, q * m);
  }

  /** The key that encryption and decryption chain through the ciphertext. */
  lemma {:induction false} KeyInClosedForm(c: seq<byte>, k: key, code: Code)
    ensures UnmungeKey(c, k, code) == KeyAfter(c, k, code)
  {
    hide UnmungeKey, Unmunge, HighByte, Val, Pow, Next;
    var n := |c|;
    Powers(code.mul, 0);
    if n == 0 {
      NothingMunged(k, code);
      assert k * 1 == k;
    } else {
      KeyInClosedForm(c[..n - 1], k, code);
      UnmungeOneMore(c, n - 1, k, code);
      assert c[..n] == c;
      KeyAfterNext(c, k, code);
    }
  }

  lemma KeyAfterNext(c: seq<byte>, k: key, code: Code)
    requires c != []
    ensures KeyAfter(c, k, code) == Next(KeyAfter(c[..|c| - 1], k, code), c[|c| - 1], code)
  {
    hide Val, Pow;
    var n := |c| - 1;
    var p, w, v := Pow(code.mul, n), Spread(c, n, n, code), Val(c[n]);
    SpreadOf(c[..n], c, n, n, code);
    SpreadScaled(c, n, n, code);
    Powers(code.mul, n);
    FirstPower(code.mul);
    assert Spread(c, n + 1, n + 1, code) == w * code.mul + v * code.mul + code.add * 1;
    LastWeight(k, p, w, v, code.mul, code.add);
  }

  lemma FirstPower(b: nat)
    ensures Pow(b, 0) == 1 && Pow(b, 1) == b
  {
  }

  lemma LastWeight(k: int, p: nat, w: int, v: nat, m: nat, a: nat)
    ensures ((k * p + w) % 0x1_0000 + v) * m + a >= 0
    ensures (((k * p + w) % 0x1_0000 + v) * m + a) % 0x1_0000 == (k * (p * m) + (w * m + v * m + a * 1)) % 0x1_0000
  {
    WrapOnce(k * p + w, v, m, a);
    assert (k * p + w) * m == k * p * m + w * m && k * p * m == k * (p * m);
  }

  /** Byte `i` is encrypted with the upper half of the key that the ciphertext before it
      gives. */
  lemma MungeAt(s: seq<byte>, k: key, code: Code, i: nat)
    requires i < |s|
    ensures |Munge(s, k, code)| == |s|
    ensures Munge(s, k, code)[i] == s[i] ^ ToByte(KeyAfter(Munge(s, k, code)[..i], k, code) / 256)
    ensures MungeKey(s, k, code) == KeyAfter(Munge(s, k, code), k, code)
  {
    hide Munge, MungeKey, Unmunge, UnmungeKey, Next, KeyAfter, ToByte;
    MungeLength(s, k, code);
    MungeLength(s[..i], k, code);
    MungeOneMore(s, i, k, code);
    MungeConcat(s[..i + 1], s[i + 1..], k, code);
    assert s == s[..i + 1] + s[i + 1..];
    UnmungeOfMunge(s[..i], k, code);
    UnmungeOfMunge(s, k, code);
    KeyInClosedForm(Munge(s[..i], k, code), k, code);
    KeyInClosedForm(Munge(s, k, code), k, code);
    assert Munge(s, k, code)[..i] == Munge(s[..i], k, code);
  }

  /** Decryption takes the same bytes off. */
  lemma UnmungeAt(c: seq<byte>, k: key, code: Code, i: nat)
    requires i < |c|
    ensures |Unmunge(c, k, code)| == |c|
    ensures Unmunge(c, k, code)[i] == c[i] ^ ToByte(KeyAfter(c[..i], k, code) / 256)
  {
    hide Munge, MungeKey, Unmunge, UnmungeKey, Next, KeyAfter, ToByte;
    UnmungeLength(c, k, code);
    UnmungeLength(c[..i], k, code);
    UnmungeOneMore(c, i, k, code);
    UnmungeConcat(c[..i + 1], c[i + 1..], k, code);
    assert c == c[..i + 1] + c[i + 1..];
    KeyInClosedForm(c[..i], k, code);
  }

  // -------------------------------------------------------------------- in place

  /** `munge`. */
  method MungeInPlace(data: array<byte>, from: nat, to: nat, k0: key, code: Code) returns (k: key)
    requires from <= to <= data.Length
    modifies data
    ensures data[..] == old(data[..from]) + Munge(old(data[from..to]), k0, code) + old(data[to..])
    ensures k == MungeKey(old(data[from..to]), k0, code)
  {
    hide *;
    k := k0;
    ghost var before, s := data[..], data[from..to];
    NothingMunged(k0, code);
    assert s[..0] == [];
    assert before == before[..from] + [] + before[from..];
    for i := from to to
      invariant data[..] == before[..from] + Munge(s[..i - from], k0, code) + before[i..]
      invariant |Munge(s[..i - from], k0, code)| == i - from && k == MungeKey(s[..i - from], k0, code)
    {
      ghost var now := data[..];
      MungeOneMore(s, i - from, k0, code);
      assert now[i] == before[i..][0] == s[i - from];
      var c := Xor(data[i], HighByte(k));
      data[i] := c;
      k := Next(k, c, code);
      assert data[..] == now[i := c];
      Moved(before, from, i, Munge(s[..i - from], k0, code), c);
    }
    assert s[..to - from] == s;
  }

  /** One byte more of the buffer is done. */
  lemma Moved(before: seq<byte>, from: nat, i: nat, done: seq<byte>, b: byte)
    requires from <= i < |before| && |done| == i - from
    ensures (before[..from] + done + before[i..])[i := b] == before[..from] + (done + [b]) + before[i + 1..]
  {
  }

  lemma MungeOneMore(s: seq<byte>, i: nat, k: key, code: Code)
    requires i < |s|
    ensures var k' := MungeKey(s[..i], k, code);
      var c := Xor(s[i], HighByte(k'));
      && Munge(s[..i + 1], k, code) == Munge(s[..i], k, code) + [c]
      && MungeKey(s[..i + 1], k, code) == Next(k', c, code)
  {
    hide Xor, HighByte, Next;
    assert s[..i + 1] == s[..i] + [s[i]];
    MungeConcat(s[..i], [s[i]], k, code);
    assert [s[i]][1..] == [];
  }

  lemma UnmungeOneMore(s: seq<byte>, i: nat, k: key, code: Code)
    requires i < |s|
    ensures var k' := UnmungeKey(s[..i], k, code);
      && Unmunge(s[..i + 1], k, code) == Unmunge(s[..i], k, code) + [Xor(s[i], HighByte(k'))]
      && UnmungeKey(s[..i + 1], k, code) == Next(k', s[i], code)
  {
    hide Xor, HighByte, Next;
    assert s[..i + 1] == s[..i] + [s[i]];
    UnmungeConcat(s[..i], [s[i]], k, code);
    assert [s[i]][1..] == [];
  }

  /** `unmunge`. */
  method UnmungeInPlace(data: array<byte>, from: nat, to: nat, k0: key, code: Code) returns (k: key)
    requires from <= to <= data.Length
    modifies data
    ensures data[..] == old(data[..from]) + Unmunge(old(data[from..to]), k0, code) + old(data[to..])
    ensures k == UnmungeKey(old(data[from..to]), k0, code)
  {
    hide *;
    k := k0;
    ghost var before, s := data[..], data[from..to];
    NothingMunged(k0, code);
    assert s[..0] == [];
    assert before == before[..from] + [] + before[from..];
    for i := from to to
      invariant data[..] == before[..from] + Unmunge(s[..i - from], k0, code) + before[i..]
      invariant |Unmunge(s[..i - from], k0, code)| == i - from && k == UnmungeKey(s[..i - from], k0, code)
    {
      ghost var now := data[..];
      UnmungeOneMore(s, i - from, k0, code);
      assert now[i] == before[i..][0] == s[i - from];
      var c := Xor(data[i], HighByte(k));
      k := Next(k, data[i], code);
      data[i] := c;
      assert data[..] == now[i := c];
      Moved(before, from, i, Unmunge(s[..i - from], k0, code), c);
    }
    assert s[..to - from] == s;
  }
}
