/** The example with one block that FIPS 180 publishes, worked out with the definition
    in `Sha1.dfy`: the digest of "abc". It fixes the constants, the rotations and the
    order of everything. */
module Sha1Example {
  import opened Bytes
  import opened Sha1

  const Abc: seq<byte> := [0x61, 0x62, 0x63]

  /** "abc" padded, as words. */
  const M: seq<word> := [0x61626380, 0, 0, 0, 0, 0, 0, 0, 0, 0, 0, 0, 0, 0, 0, 24]

  /** Word `t` of the schedule is `x`. (With a bound variable, because a call with a
      number for its argument would be unfolded all the way down.) */
  ghost predicate IsW(t: nat, x: word) { forall u :: u == t ==> W(M, u) == x }

  /** The variables after `n` rounds. */
  ghost predicate At(n: nat, a: word, b: word, c: word, d: word, e: word) {
    forall k :: k == n ==> Rounds(Standard, M, H0(Standard), k) == Vars(a, b, c, d, e)
  }

  lemma First(t: nat)
    requires t < 16
    ensures IsW(t, M[t])
  {
    assert W(M, t) == M[t];
  }

  lemma Next(t: nat, x3: word, x8: word, x14: word, x16: word, x: word)
    requires t >= 16 && IsW(t - 3, x3) && IsW(t - 8, x8) && IsW(t - 14, x14) && IsW(t - 16, x16)
    requires Rotl(Xor(x3, x8, x14, x16), 1) == x
    ensures IsW(t, x)
  {
    hide Rotl, Xor;
    assert W(M, t - 3) == x3 && W(M, t - 8) == x8 && W(M, t - 14) == x14 && W(M, t - 16) == x16;
    assert W(M, t) == x;
  }

  lemma OneRound(n: nat, a: word, b: word, c: word, d: word, e: word, x: word, a': word, c': word)
    requires n < 80 && At(n, a, b, c, d, e) && IsW(n, x)
    requires Sum(Rotl(a, 5), F(n, b, c, d), e, K(Standard, n), x) == a' && Rotl(b, 30) == c'
    ensures At(n + 1, a', a, c', c, d)
  {
    hide Sum, Rotl, F, K, W, H0, Rounds;
    RoundsNext(Standard, M, H0(Standard), n);
    assert W(M, n) == x && Rounds(Standard, M, H0(Standard), n) == Vars(a, b, c, d, e);
  }

  lemma Schedule16()
    requires IsW(0, 0x61626380) && IsW(1, 0x00000000) && IsW(2, 0x00000000)
    requires IsW(3, 0x00000000) && IsW(4, 0x00000000) && IsW(5, 0x00000000)
    requires IsW(6, 0x00000000) && IsW(7, 0x00000000) && IsW(8, 0x00000000)
    requires IsW(9, 0x00000000) && IsW(10, 0x00000000) && IsW(11, 0x00000000)
    requires IsW(12, 0x00000000) && IsW(13, 0x00000000) && IsW(14, 0x00000000)
    requires IsW(15, 0x00000018)
    ensures IsW(16, 0xc2c4c700) && IsW(17, 0x00000000) && IsW(18, 0x00000030)
    ensures IsW(19, 0x85898e01) && IsW(20, 0x00000000) && IsW(21, 0x00000060)
    ensures IsW(22, 0x0b131c03) && IsW(23, 0x00000030) && IsW(24, 0x85898ec1)
    ensures IsW(25, 0x16263806) && IsW(26, 0x00000000) && IsW(27, 0x00000180)
    ensures IsW(28, 0x2c4c700c) && IsW(29, 0x000000f0) && IsW(30, 0x93afb507)
    ensures IsW(31, 0x5898e048)
  {
    hide IsW;
    Next(16, 0x00000000, 0x00000000, 0x00000000, 0x61626380, 0xc2c4c700);
    Next(17, 0x00000000, 0x00000000, 0x00000000, 0x00000000, 0x00000000);
    Next(18, 0x00000018, 0x00000000, 0x00000000, 0x00000000, 0x00000030);
    Next(19, 0xc2c4c700, 0x00000000, 0x00000000, 0x00000000, 0x85898e01);
    Next(20, 0x00000000, 0x00000000, 0x00000000, 0x00000000, 0x00000000);
    Next(21, 0x00000030, 0x00000000, 0x00000000, 0x00000000, 0x00000060);
    Next(22, 0x85898e01, 0x00000000, 0x00000000, 0x00000000, 0x0b131c03);
    Next(23, 0x00000000, 0x00000018, 0x00000000, 0x00000000, 0x00000030);
    Next(24, 0x00000060, 0xc2c4c700, 0x00000000, 0x00000000, 0x85898ec1);
    Next(25, 0x0b131c03, 0x00000000, 0x00000000, 0x00000000, 0x16263806);
    Next(26, 0x00000030, 0x00000030, 0x00000000, 0x00000000, 0x00000000);
    Next(27, 0x85898ec1, 0x85898e01, 0x00000000, 0x00000000, 0x00000180);
    Next(28, 0x16263806, 0x00000000, 0x00000000, 0x00000000, 0x2c4c700c);
    Next(29, 0x00000000, 0x00000060, 0x00000018, 0x00000000, 0x000000f0);
    Next(30, 0x00000180, 0x0b131c03, 0xc2c4c700, 0x00000000, 0x93afb507);
    Next(31, 0x2c4c700c, 0x00000030, 0x00000000, 0x00000018, 0x5898e048);
  }

  lemma Schedule32()
    requires IsW(16, 0xc2c4c700) && IsW(17, 0x00000000) && IsW(18, 0x00000030)
    requires IsW(19, 0x85898e01) && IsW(20, 0x00000000) && IsW(21, 0x00000060)
    requires IsW(22, 0x0b131c03) && IsW(23, 0x00000030) && IsW(24, 0x85898ec1)
    requires IsW(25, 0x16263806) && IsW(26, 0x00000000) && IsW(27, 0x00000180)
    requires IsW(28, 0x2c4c700c) && IsW(29, 0x000000f0) && IsW(30, 0x93afb507)
    requires IsW(31, 0x5898e048)
    ensures IsW(32, 0x8e9a9202) && IsW(33, 0x00000600) && IsW(34, 0xb131c0f0)
    ensures IsW(35, 0x16263bc6) && IsW(36, 0x4ebed41e) && IsW(37, 0x626380a1)
    ensures IsW(38, 0x16263806) && IsW(39, 0x000018c0) && IsW(40, 0xd2e138c4)
    ensures IsW(41, 0x00000f00) && IsW(42, 0x3afb5079) && IsW(43, 0x898e04e5)
    ensures IsW(44, 0xe2ba3c2b) && IsW(45, 0x000060c0) && IsW(46, 0x053a37cd)
    ensures IsW(47, 0x74458547)
  {
    hide IsW;
    Next(32, 0x000000f0, 0x85898ec1, 0x00000030, 0xc2c4c700, 0x8e9a9202);
    Next(33, 0x93afb507, 0x16263806, 0x85898e01, 0x00000000, 0x00000600);
    Next(34, 0x5898e048, 0x00000000, 0x00000000, 0x00000030, 0xb131c0f0);
    Next(35, 0x8e9a9202, 0x00000180, 0x00000060, 0x85898e01, 0x16263bc6);
    Next(36, 0x00000600, 0x2c4c700c, 0x0b131c03, 0x00000000, 0x4ebed41e);
    Next(37, 0xb131c0f0, 0x000000f0, 0x00000030, 0x00000060, 0x626380a1);
    Next(38, 0x16263bc6, 0x93afb507, 0x85898ec1, 0x0b131c03, 0x16263806);
    Next(39, 0x4ebed41e, 0x5898e048, 0x16263806, 0x00000030, 0x000018c0);
    Next(40, 0x626380a1, 0x8e9a9202, 0x00000000, 0x85898ec1, 0xd2e138c4);
    Next(41, 0x16263806, 0x00000600, 0x00000180, 0x16263806, 0x00000f00);
    Next(42, 0x000018c0, 0xb131c0f0, 0x2c4c700c, 0x00000000, 0x3afb5079);
    Next(43, 0xd2e138c4, 0x16263bc6, 0x000000f0, 0x00000180, 0x898e04e5);
    Next(44, 0x00000f00, 0x4ebed41e, 0x93afb507, 0x2c4c700c, 0xe2ba3c2b);
    Next(45, 0x3afb5079, 0x626380a1, 0x5898e048, 0x000000f0, 0x000060c0);
    Next(46, 0x898e04e5, 0x16263806, 0x8e9a9202, 0x93afb507, 0x053a37cd);
    Next(47, 0xe2ba3c2b, 0x000018c0, 0x00000600, 0x5898e048, 0x74458547);
  }

  lemma Schedule48()
    requires IsW(32, 0x8e9a9202) && IsW(33, 0x00000600) && IsW(34, 0xb131c0f0)
    requires IsW(35, 0x16263bc6) && IsW(36, 0x4ebed41e) && IsW(37, 0x626380a1)
    requires IsW(38, 0x16263806) && IsW(39, 0x000018c0) && IsW(40, 0xd2e138c4)
    requires IsW(41, 0x00000f00) && IsW(42, 0x3afb5079) && IsW(43, 0x898e04e5)
    requires IsW(44, 0xe2ba3c2b) && IsW(45, 0x000060c0) && IsW(46, 0x053a37cd)
    requires IsW(47, 0x74458547)
    ensures IsW(48, 0xda9415ed) && IsW(49, 0x26380a16) && IsW(50, 0x626383a1)
    ensures IsW(51, 0x4ebf54de) && IsW(52, 0x3835b44b) && IsW(53, 0x0000f600)
    ensures IsW(54, 0x1e84c7a3) && IsW(55, 0x98e04d98) && IsW(56, 0x651d16a0)
    ensures IsW(57, 0x62658ca1) && IsW(58, 0x458544d6) && IsW(59, 0x44584cb7)
    ensures IsW(60, 0x7ba06619) && IsW(61, 0x6380aea2) && IsW(62, 0x0ae55269)
    ensures IsW(63, 0x627b49a1)
  {
    hide IsW;
    Next(48, 0x000060c0, 0xd2e138c4, 0xb131c0f0, 0x8e9a9202, 0xda9415ed);
    Next(49, 0x053a37cd, 0x00000f00, 0x16263bc6, 0x00000600, 0x26380a16);
    Next(50, 0x74458547, 0x3afb5079, 0x4ebed41e, 0xb131c0f0, 0x626383a1);
    Next(51, 0xda9415ed, 0x898e04e5, 0x626380a1, 0x16263bc6, 0x4ebf54de);
    Next(52, 0x26380a16, 0xe2ba3c2b, 0x16263806, 0x4ebed41e, 0x3835b44b);
    Next(53, 0x626383a1, 0x000060c0, 0x000018c0, 0x626380a1, 0x0000f600);
    Next(54, 0x4ebf54de, 0x053a37cd, 0xd2e138c4, 0x16263806, 0x1e84c7a3);
    Next(55, 0x3835b44b, 0x74458547, 0x00000f00, 0x000018c0, 0x98e04d98);
    Next(56, 0x0000f600, 0xda9415ed, 0x3afb5079, 0xd2e138c4, 0x651d16a0);
    Next(57, 0x1e84c7a3, 0x26380a16, 0x898e04e5, 0x00000f00, 0x62658ca1);
    Next(58, 0x98e04d98, 0x626383a1, 0xe2ba3c2b, 0x3afb5079, 0x458544d6);
    Next(59, 0x651d16a0, 0x4ebf54de, 0x000060c0, 0x898e04e5, 0x44584cb7);
    Next(60, 0x62658ca1, 0x3835b44b, 0x053a37cd, 0xe2ba3c2b, 0x7ba06619);
    Next(61, 0x458544d6, 0x0000f600, 0x74458547, 0x000060c0, 0x6380aea2);
    Next(62, 0x44584cb7, 0x1e84c7a3, 0xda9415ed, 0x053a37cd, 0x0ae55269);
    Next(63, 0x7ba06619, 0x98e04d98, 0x26380a16, 0x74458547, 0x627b49a1);
  }

  lemma Schedule64()
    requires IsW(48, 0xda9415ed) && IsW(49, 0x26380a16) && IsW(50, 0x626383a1)
    requires IsW(51, 0x4ebf54de) && IsW(52, 0x3835b44b) && IsW(53, 0x0000f600)
    requires IsW(54, 0x1e84c7a3) && IsW(55, 0x98e04d98) && IsW(56, 0x651d16a0)
    requires IsW(57, 0x62658ca1) && IsW(58, 0x458544d6) && IsW(59, 0x44584cb7)
    requires IsW(60, 0x7ba06619) && IsW(61, 0x6380aea2) && IsW(62, 0x0ae55269)
    requires IsW(63, 0x627b49a1)
    ensures IsW(64, 0x7cd45c9d) && IsW(65, 0x000f0000) && IsW(66, 0xfb50753a)
    ensures IsW(67, 0xec6765e8) && IsW(68, 0xba3c2be2) && IsW(69, 0x0060c000)
    ensures IsW(70, 0x3a37cd05) && IsW(71, 0x458546f4) && IsW(72, 0xb8599dd6)
    ensures IsW(73, 0x380a1a26) && IsW(74, 0x01e02203) && IsW(75, 0xe7cc3456)
    ensures IsW(76, 0xe6e60b69) && IsW(77, 0x00f60a00) && IsW(78, 0x5795ef4f)
    ensures IsW(79, 0x822e0879)
  {
    hide IsW;
    Next(64, 0x6380aea2, 0x651d16a0, 0x626383a1, 0xda9415ed, 0x7cd45c9d);
    Next(65, 0x0ae55269, 0x62658ca1, 0x4ebf54de, 0x26380a16, 0x000f0000);
    Next(66, 0x627b49a1, 0x458544d6, 0x3835b44b, 0x626383a1, 0xfb50753a);
    Next(67, 0x7cd45c9d, 0x44584cb7, 0x0000f600, 0x4ebf54de, 0xec6765e8);
    Next(68, 0x000f0000, 0x7ba06619, 0x1e84c7a3, 0x3835b44b, 0xba3c2be2);
    Next(69, 0xfb50753a, 0x6380aea2, 0x98e04d98, 0x0000f600, 0x0060c000);
    Next(70, 0xec6765e8, 0x0ae55269, 0x651d16a0, 0x1e84c7a3, 0x3a37cd05);
    Next(71, 0xba3c2be2, 0x627b49a1, 0x62658ca1, 0x98e04d98, 0x458546f4);
    Next(72, 0x0060c000, 0x7cd45c9d, 0x458544d6, 0x651d16a0, 0xb8599dd6);
    Next(73, 0x3a37cd05, 0x000f0000, 0x44584cb7, 0x62658ca1, 0x380a1a26);
    Next(74, 0x458546f4, 0xfb50753a, 0x7ba06619, 0x458544d6, 0x01e02203);
    Next(75, 0xb8599dd6, 0xec6765e8, 0x6380aea2, 0x44584cb7, 0xe7cc3456);
    Next(76, 0x380a1a26, 0xba3c2be2, 0x0ae55269, 0x7ba06619, 0xe6e60b69);
    Next(77, 0x01e02203, 0x0060c000, 0x627b49a1, 0x6380aea2, 0x00f60a00);
    Next(78, 0xe7cc3456, 0x3a37cd05, 0x7cd45c9d, 0x0ae55269, 0x5795ef4f);
    Next(79, 0xe6e60b69, 0x458546f4, 0x000f0000, 0x627b49a1, 0x822e0879);
  }

  lemma Rounds0()
    requires At(0, 0x67452301, 0xefcdab89, 0x98badcfe, 0x10325476, 0xc3d2e1f0)
    requires IsW(0, 0x61626380) && IsW(1, 0x00000000) && IsW(2, 0x00000000)
    requires IsW(3, 0x00000000) && IsW(4, 0x00000000) && IsW(5, 0x00000000)
    requires IsW(6, 0x00000000) && IsW(7, 0x00000000) && IsW(8, 0x00000000)
    requires IsW(9, 0x00000000) && IsW(10, 0x00000000) && IsW(11, 0x00000000)
    requires IsW(12, 0x00000000) && IsW(13, 0x00000000) && IsW(14, 0x00000000)
    requires IsW(15, 0x00000018) && IsW(16, 0xc2c4c700) && IsW(17, 0x00000000)
    requires IsW(18, 0x00000030) && IsW(19, 0x85898e01)
    ensures At(20, 0xfd9e1d7d, 0xdc64901d, 0x20aa99ca, 0xd3a49608, 0xc82f758b)
  {
    hide IsW, At;
    OneRound(0, 0x67452301, 0xefcdab89, 0x98badcfe, 0x10325476, 0xc3d2e1f0, 0x61626380,
      0x0116fc33, 0x7bf36ae2);
    OneRound(1, 0x0116fc33, 0x67452301, 0x7bf36ae2, 0x98badcfe, 0x10325476, 0x00000000,
      0x8990536d, 0x59d148c0);
    OneRound(2, 0x8990536d, 0x0116fc33, 0x59d148c0, 0x7bf36ae2, 0x98badcfe, 0x00000000,
      0xa1390f08, 0xc045bf0c);
    OneRound(3, 0xa1390f08, 0x8990536d, 0xc045bf0c, 0x59d148c0, 0x7bf36ae2, 0x00000000,
      0xcdd8e11b, 0x626414db);
    OneRound(4, 0xcdd8e11b, 0xa1390f08, 0x626414db, 0xc045bf0c, 0x59d148c0, 0x00000000,
      0xcfd499de, 0x284e43c2);
    OneRound(5, 0xcfd499de, 0xcdd8e11b, 0x284e43c2, 0x626414db, 0xc045bf0c, 0x00000000,
      0x3fc7ca40, 0xf3763846);
    OneRound(6, 0x3fc7ca40, 0xcfd499de, 0xf3763846, 0x284e43c2, 0x626414db, 0x00000000,
      0x993e30c1, 0xb3f52677);
    OneRound(7, 0x993e30c1, 0x3fc7ca40, 0xb3f52677, 0xf3763846, 0x284e43c2, 0x00000000,
      0x9e8c07d4, 0x0ff1f290);
    OneRound(8, 0x9e8c07d4, 0x993e30c1, 0x0ff1f290, 0xb3f52677, 0xf3763846, 0x00000000,
      0x4b6ae328, 0x664f8c30);
    OneRound(9, 0x4b6ae328, 0x9e8c07d4, 0x664f8c30, 0x0ff1f290, 0xb3f52677, 0x00000000,
      0x8351f929, 0x27a301f5);
    OneRound(10, 0x8351f929, 0x4b6ae328, 0x27a301f5, 0x664f8c30, 0x0ff1f290, 0x00000000,
      0xfbda9e89, 0x12dab8ca);
    OneRound(11, 0xfbda9e89, 0x8351f929, 0x12dab8ca, 0x27a301f5, 0x664f8c30, 0x00000000,
      0x63188fe4, 0x60d47e4a);
    OneRound(12, 0x63188fe4, 0xfbda9e89, 0x60d47e4a, 0x12dab8ca, 0x27a301f5, 0x00000000,
      0x4607b664, 0x7ef6a7a2);
    OneRound(13, 0x4607b664, 0x63188fe4, 0x7ef6a7a2, 0x60d47e4a, 0x12dab8ca, 0x00000000,
      0x9128f695, 0x18c623f9);
    OneRound(14, 0x9128f695, 0x4607b664, 0x18c623f9, 0x7ef6a7a2, 0x60d47e4a, 0x00000000,
      0x196bee77, 0x1181ed99);
    OneRound(15, 0x196bee77, 0x9128f695, 0x1181ed99, 0x18c623f9, 0x7ef6a7a2, 0x00000018,
      0x20bdd62f, 0x644a3da5);
    OneRound(16, 0x20bdd62f, 0x196bee77, 0x644a3da5, 0x1181ed99, 0x18c623f9, 0xc2c4c700,
      0x4e925823, 0xc65afb9d);
    OneRound(17, 0x4e925823, 0x20bdd62f, 0xc65afb9d, 0x644a3da5, 0x1181ed99, 0x00000000,
      0x82aa6728, 0xc82f758b);
    OneRound(18, 0x82aa6728, 0x4e925823, 0xc82f758b, 0xc65afb9d, 0x644a3da5, 0x00000030,
      0xdc64901d, 0xd3a49608);
    OneRound(19, 0xdc64901d, 0x82aa6728, 0xd3a49608, 0xc82f758b, 0xc65afb9d, 0x85898e01,
      0xfd9e1d7d, 0x20aa99ca);
  }

  lemma Rounds20()
    requires At(20, 0xfd9e1d7d, 0xdc64901d, 0x20aa99ca, 0xd3a49608, 0xc82f758b)
    requires IsW(20, 0x00000000) && IsW(21, 0x00000060) && IsW(22, 0x0b131c03)
    requires IsW(23, 0x00000030) && IsW(24, 0x85898ec1) && IsW(25, 0x16263806)
    requires IsW(26, 0x00000000) && IsW(27, 0x00000180) && IsW(28, 0x2c4c700c)
    requires IsW(29, 0x000000f0) && IsW(30, 0x93afb507) && IsW(31, 0x5898e048)
    requires IsW(32, 0x8e9a9202) && IsW(33, 0x00000600) && IsW(34, 0xb131c0f0)
    requires IsW(35, 0x16263bc6) && IsW(36, 0x4ebed41e) && IsW(37, 0x626380a1)
    requires IsW(38, 0x16263806) && IsW(39, 0x000018c0)
    ensures At(40, 0x32de1cba, 0x4c986405, 0xf718e5cf, 0x03d447f6, 0xf72eec32)
  {
    hide IsW, At;
    OneRound(20, 0xfd9e1d7d, 0xdc64901d, 0x20aa99ca, 0xd3a49608, 0xc82f758b, 0x00000000,
      0x1a37b0ca, 0x77192407);
    OneRound(21, 0x1a37b0ca, 0xfd9e1d7d, 0x77192407, 0x20aa99ca, 0xd3a49608, 0x00000060,
      0x33a23bfc, 0x7f67875f);
    OneRound(22, 0x33a23bfc, 0x1a37b0ca, 0x7f67875f, 0x77192407, 0x20aa99ca, 0x0b131c03,
      0x21283486, 0x868dec32);
    OneRound(23, 0x21283486, 0x33a23bfc, 0x868dec32, 0x7f67875f, 0x77192407, 0x00000030,
      0xd541f12d, 0x0ce88eff);
    OneRound(24, 0xd541f12d, 0x21283486, 0x0ce88eff, 0x868dec32, 0x7f67875f, 0x85898ec1,
      0xc7567dc6, 0x884a0d21);
    OneRound(25, 0xc7567dc6, 0xd541f12d, 0x884a0d21, 0x0ce88eff, 0x868dec32, 0x16263806,
      0x48413ba4, 0x75507c4b);
    OneRound(26, 0x48413ba4, 0xc7567dc6, 0x75507c4b, 0x884a0d21, 0x0ce88eff, 0x00000000,
      0xbe35fbd5, 0xb1d59f71);
    OneRound(27, 0xbe35fbd5, 0x48413ba4, 0xb1d59f71, 0x75507c4b, 0x884a0d21, 0x00000180,
      0x4aa84d97, 0x12104ee9);
    OneRound(28, 0x4aa84d97, 0xbe35fbd5, 0x12104ee9, 0xb1d59f71, 0x75507c4b, 0x2c4c700c,
      0x8370b52e, 0x6f8d7ef5);
    OneRound(29, 0x8370b52e, 0x4aa84d97, 0x6f8d7ef5, 0x12104ee9, 0xb1d59f71, 0x000000f0,
      0xc5fbaf5d, 0xd2aa1365);
    OneRound(30, 0xc5fbaf5d, 0x8370b52e, 0xd2aa1365, 0x6f8d7ef5, 0x12104ee9, 0x93afb507,
      0x1267b407, 0xa0dc2d4b);
    OneRound(31, 0x1267b407, 0xc5fbaf5d, 0xa0dc2d4b, 0xd2aa1365, 0x6f8d7ef5, 0x5898e048,
      0x3b845d33, 0x717eebd7);
    OneRound(32, 0x3b845d33, 0x1267b407, 0x717eebd7, 0xa0dc2d4b, 0xd2aa1365, 0x8e9a9202,
      0x046faa0a, 0xc499ed01);
    OneRound(33, 0x046faa0a, 0x3b845d33, 0xc499ed01, 0x717eebd7, 0xa0dc2d4b, 0x00000600,
      0x2c0ebc11, 0xcee1174c);
    OneRound(34, 0x2c0ebc11, 0x046faa0a, 0xcee1174c, 0xc499ed01, 0x717eebd7, 0xb131c0f0,
      0x21796ad4, 0x811bea82);
    OneRound(35, 0x21796ad4, 0x2c0ebc11, 0x811bea82, 0xcee1174c, 0xc499ed01, 0x16263bc6,
      0xdcbbb0cb, 0x4b03af04);
    OneRound(36, 0xdcbbb0cb, 0x21796ad4, 0x4b03af04, 0x811bea82, 0xcee1174c, 0x4ebed41e,
      0x0f511fd8, 0x085e5ab5);
    OneRound(37, 0x0f511fd8, 0xdcbbb0cb, 0x085e5ab5, 0x4b03af04, 0x811bea82, 0x626380a1,
      0xdc63973f, 0xf72eec32);
    OneRound(38, 0xdc63973f, 0x0f511fd8, 0xf72eec32, 0x085e5ab5, 0x4b03af04, 0x16263806,
      0x4c986405, 0x03d447f6);
    OneRound(39, 0x4c986405, 0xdc63973f, 0x03d447f6, 0xf72eec32, 0x085e5ab5, 0x000018c0,
      0x32de1cba, 0xf718e5cf);
  }

  lemma Rounds40()
    requires At(40, 0x32de1cba, 0x4c986405, 0xf718e5cf, 0x03d447f6, 0xf72eec32)
    requires IsW(40, 0xd2e138c4) && IsW(41, 0x00000f00) && IsW(42, 0x3afb5079)
    requires IsW(43, 0x898e04e5) && IsW(44, 0xe2ba3c2b) && IsW(45, 0x000060c0)
    requires IsW(46, 0x053a37cd) && IsW(47, 0x74458547) && IsW(48, 0xda9415ed)
    requires IsW(49, 0x26380a16) && IsW(50, 0x626383a1) && IsW(51, 0x4ebf54de)
    requires IsW(52, 0x3835b44b) && IsW(53, 0x0000f600) && IsW(54, 0x1e84c7a3)
    requires IsW(55, 0x98e04d98) && IsW(56, 0x651d16a0) && IsW(57, 0x62658ca1)
    requires IsW(58, 0x458544d6) && IsW(59, 0x44584cb7)
    ensures At(60, 0x3f52de5a, 0x09d785fd, 0x3498bfd4, 0xf211824f, 0xd79915ab)
  {
    hide IsW, At;
    OneRound(40, 0x32de1cba, 0x4c986405, 0xf718e5cf, 0x03d447f6, 0xf72eec32, 0xd2e138c4,
      0xfc87dedf, 0x53261901);
    OneRound(41, 0xfc87dedf, 0x32de1cba, 0x53261901, 0xf718e5cf, 0x03d447f6, 0x00000f00,
      0x970a0d5c, 0x8cb7872e);
    OneRound(42, 0x970a0d5c, 0xfc87dedf, 0x8cb7872e, 0x53261901, 0xf718e5cf, 0x3afb5079,
      0x7f193dc5, 0xff21f7b7);
    OneRound(43, 0x7f193dc5, 0x970a0d5c, 0xff21f7b7, 0x8cb7872e, 0x53261901, 0x898e04e5,
      0xee1b1aaf, 0x25c28357);
    OneRound(44, 0xee1b1aaf, 0x7f193dc5, 0x25c28357, 0xff21f7b7, 0x8cb7872e, 0xe2ba3c2b,
      0x40f28e09, 0x5fc64f71);
    OneRound(45, 0x40f28e09, 0xee1b1aaf, 0x5fc64f71, 0x25c28357, 0xff21f7b7, 0x000060c0,
      0x1c51e1f2, 0xfb86c6ab);
    OneRound(46, 0x1c51e1f2, 0x40f28e09, 0xfb86c6ab, 0x5fc64f71, 0x25c28357, 0x053a37cd,
      0xa01b846c, 0x503ca382);
    OneRound(47, 0xa01b846c, 0x1c51e1f2, 0x503ca382, 0xfb86c6ab, 0x5fc64f71, 0x74458547,
      0xbead02ca, 0x8714787c);
    OneRound(48, 0xbead02ca, 0xa01b846c, 0x8714787c, 0x503ca382, 0xfb86c6ab, 0xda9415ed,
      0xbaf39337, 0x2806e11b);
    OneRound(49, 0xbaf39337, 0xbead02ca, 0x2806e11b, 0x8714787c, 0x503ca382, 0x26380a16,
      0x120731c5, 0xafab40b2);
    OneRound(50, 0x120731c5, 0xbaf39337, 0xafab40b2, 0x2806e11b, 0x8714787c, 0x626383a1,
      0x641db2ce, 0xeebce4cd);
    OneRound(51, 0x641db2ce, 0x120731c5, 0xeebce4cd, 0xafab40b2, 0x2806e11b, 0x4ebf54de,
      0x3847ad66, 0x4481cc71);
    OneRound(52, 0x3847ad66, 0x641db2ce, 0x4481cc71, 0xeebce4cd, 0xafab40b2, 0x3835b44b,
      0xe490436d, 0x99076cb3);
    OneRound(53, 0xe490436d, 0x3847ad66, 0x99076cb3, 0x4481cc71, 0xeebce4cd, 0x0000f600,
      0x27e9f1d8, 0x8e11eb59);
    OneRound(54, 0x27e9f1d8, 0xe490436d, 0x8e11eb59, 0x99076cb3, 0x4481cc71, 0x1e84c7a3,
      0x7b71f76d, 0x792410db);
    OneRound(55, 0x7b71f76d, 0x27e9f1d8, 0x792410db, 0x8e11eb59, 0x99076cb3, 0x98e04d98,
      0x5e6456af, 0x09fa7c76);
    OneRound(56, 0x5e6456af, 0x7b71f76d, 0x09fa7c76, 0x792410db, 0x8e11eb59, 0x651d16a0,
      0xc846093f, 0x5edc7ddb);
    OneRound(57, 0xc846093f, 0x5e6456af, 0x5edc7ddb, 0x09fa7c76, 0x792410db, 0x62658ca1,
      0xd262ff50, 0xd79915ab);
    OneRound(58, 0xd262ff50, 0xc846093f, 0xd79915ab, 0x5edc7ddb, 0x09fa7c76, 0x458544d6,
      0x09d785fd, 0xf211824f);
    OneRound(59, 0x09d785fd, 0xd262ff50, 0xf211824f, 0xd79915ab, 0x5edc7ddb, 0x44584cb7,
      0x3f52de5a, 0x3498bfd4);
  }

  lemma Rounds60()
    requires At(60, 0x3f52de5a, 0x09d785fd, 0x3498bfd4, 0xf211824f, 0xd79915ab)
    requires IsW(60, 0x7ba06619) && IsW(61, 0x6380aea2) && IsW(62, 0x0ae55269)
    requires IsW(63, 0x627b49a1) && IsW(64, 0x7cd45c9d) && IsW(65, 0x000f0000)
    requires IsW(66, 0xfb50753a) && IsW(67, 0xec6765e8) && IsW(68, 0xba3c2be2)
    requires IsW(69, 0x0060c000) && IsW(70, 0x3a37cd05) && IsW(71, 0x458546f4)
    requires IsW(72, 0xb8599dd6) && IsW(73, 0x380a1a26) && IsW(74, 0x01e02203)
    requires IsW(75, 0xe7cc3456) && IsW(76, 0xe6e60b69) && IsW(77, 0x00f60a00)
    requires IsW(78, 0x5795ef4f) && IsW(79, 0x822e0879)
    ensures At(80, 0x42541b35, 0x5738d5e1, 0x21834873, 0x681e6df6, 0xd8fdf6ad)
  {
    hide IsW, At;
    OneRound(60, 0x3f52de5a, 0x09d785fd, 0x3498bfd4, 0xf211824f, 0xd79915ab, 0x7ba06619,
      0xd756c147, 0x4275e17f);
    OneRound(61, 0xd756c147, 0x3f52de5a, 0x4275e17f, 0x3498bfd4, 0xf211824f, 0x6380aea2,
      0x548c9cb2, 0x8fd4b796);
    OneRound(62, 0x548c9cb2, 0xd756c147, 0x8fd4b796, 0x4275e17f, 0x3498bfd4, 0x0ae55269,
      0xb66c020b, 0xf5d5b051);
    OneRound(63, 0xb66c020b, 0x548c9cb2, 0xf5d5b051, 0x8fd4b796, 0x4275e17f, 0x627b49a1,
      0x6b61c9e1, 0x9523272c);
    OneRound(64, 0x6b61c9e1, 0xb66c020b, 0x9523272c, 0xf5d5b051, 0x8fd4b796, 0x7cd45c9d,
      0x19dfa7ac, 0xed9b0082);
    OneRound(65, 0x19dfa7ac, 0x6b61c9e1, 0xed9b0082, 0x9523272c, 0xf5d5b051, 0x000f0000,
      0x101655f9, 0x5ad87278);
    OneRound(66, 0x101655f9, 0x19dfa7ac, 0x5ad87278, 0xed9b0082, 0x9523272c, 0xfb50753a,
      0x0c3df2b4, 0x0677e9eb);
    OneRound(67, 0x0c3df2b4, 0x101655f9, 0x0677e9eb, 0x5ad87278, 0xed9b0082, 0xec6765e8,
      0x78dd4d2b, 0x4405957e);
    OneRound(68, 0x78dd4d2b, 0x0c3df2b4, 0x4405957e, 0x0677e9eb, 0x5ad87278, 0xba3c2be2,
      0x497093c0, 0x030f7cad);
    OneRound(69, 0x497093c0, 0x78dd4d2b, 0x030f7cad, 0x4405957e, 0x0677e9eb, 0x0060c000,
      0x3f2588c2, 0xde37534a);
    OneRound(70, 0x3f2588c2, 0x497093c0, 0xde37534a, 0x030f7cad, 0x4405957e, 0x3a37cd05,
      0xc199f8c7, 0x125c24f0);
    OneRound(71, 0xc199f8c7, 0x3f2588c2, 0x125c24f0, 0xde37534a, 0x030f7cad, 0x458546f4,
      0x39859de7, 0x8fc96230);
    OneRound(72, 0x39859de7, 0xc199f8c7, 0x8fc96230, 0x125c24f0, 0xde37534a, 0xb8599dd6,
      0xedb42de4, 0xf0667e31);
    OneRound(73, 0xedb42de4, 0x39859de7, 0xf0667e31, 0x8fc96230, 0x125c24f0, 0x380a1a26,
      0x11793f6f, 0xce616779);
    OneRound(74, 0x11793f6f, 0xedb42de4, 0xce616779, 0xf0667e31, 0x8fc96230, 0x01e02203,
      0x5ee76897, 0x3b6d0b79);
    OneRound(75, 0x5ee76897, 0x11793f6f, 0x3b6d0b79, 0xce616779, 0xf0667e31, 0xe7cc3456,
      0x63f7dab7, 0xc45e4fdb);
    OneRound(76, 0x63f7dab7, 0x5ee76897, 0xc45e4fdb, 0x3b6d0b79, 0xce616779, 0xe6e60b69,
      0xa079b7d9, 0xd7b9da25);
    OneRound(77, 0xa079b7d9, 0x63f7dab7, 0xd7b9da25, 0xc45e4fdb, 0x3b6d0b79, 0x00f60a00,
      0x860d21cc, 0xd8fdf6ad);
    OneRound(78, 0x860d21cc, 0xa079b7d9, 0xd8fdf6ad, 0xd7b9da25, 0xc45e4fdb, 0x5795ef4f,
      0x5738d5e1, 0x681e6df6);
    OneRound(79, 0x5738d5e1, 0x860d21cc, 0x681e6df6, 0xd8fdf6ad, 0xd7b9da25, 0x822e0879,
      0x42541b35, 0x21834873);
  }

  lemma FirstWords()
    ensures |M| == 16 && M[0] == 0x61626380 && M[15] == 24 && forall t :: 1 <= t < 15 ==> M[t] == 0
  {
  }

  lemma AllRounds()
    ensures At(80, 0x42541b35, 0x5738d5e1, 0x21834873, 0x681e6df6, 0xd8fdf6ad)
  {
    StartAt();
    hide *;
    FirstWords();
    First(0);
    First(1);
    First(2);
    First(3);
    First(4);
    First(5);
    First(6);
    First(7);
    First(8);
    First(9);
    First(10);
    First(11);
    First(12);
    First(13);
    First(14);
    First(15);
    Schedule16();
    Schedule32();
    Schedule48();
    Schedule64();
    Rounds0();
    Rounds20();
    Rounds40();
    Rounds60();
  }

  lemma StartAt()
    ensures At(0, 0x67452301, 0xefcdab89, 0x98badcfe, 0x10325476, 0xc3d2e1f0)
  {
    hide W;
  }

  lemma PaddingOfAbc()
    ensures Pad(Abc) == Abc + [0x80] + seq(52, _ => 0) + [0, 0, 0, 0, 0, 0, 0, 24]
  {
    LengthOfAbc();
    hide Length64;
  }

  lemma WordsOfAbc()
    ensures BigEndian(0x61, 0x62, 0x63, 0x80) == 0x61626380
    ensures BigEndian(0, 0, 0, 0) == 0 && BigEndian(0, 0, 0, 24) == 24
  {
  }

  lemma PaddedAbc()
    ensures |Pad(Abc)| == 64 && Words(Pad(Abc)) == M
  {
    PaddingOfAbc();
    WordsOfAbc();
    FirstWords();
    hide Pad, BigEndian, M;
    var p := Pad(Abc);
    assert p[0] == 0x61 && p[1] == 0x62 && p[2] == 0x63 && p[3] == 0x80 && p[63] == 24;
    assert forall k :: 4 <= k < 63 ==> p[k] == 0;
  }

  lemma LengthOfAbc()
    ensures Length64(24) == [0, 0, 0, 0, 0, 0, 0, 24]
  {
  }

  lemma AbcBlocks()
    ensures 8 * |Abc| < U64
    ensures Blocks(Standard, H0(Standard), Pad(Abc)) ==
      Vars(0xa9993e36, 0x4706816a, 0xba3e2571, 0x7850c26c, 0x9cd0d89d)
  {
    PaddedAbc();
    AllRounds();
    BlocksOfOne(Standard, H0(Standard), Pad(Abc));
    hide Pad, Words, Rounds, W, Blocks, M;
  }

  lemma BytesOfWords()

    ensures WordBytes(0xa9993e36) == [0xa9, 0x99, 0x3e, 0x36]
    ensures WordBytes(0x4706816a) == [0x47, 0x06, 0x81, 0x6a]
    ensures WordBytes(0xba3e2571) == [0xba, 0x3e, 0x25, 0x71]
    ensures WordBytes(0x7850c26c) == [0x78, 0x50, 0xc2, 0x6c]
    ensures WordBytes(0x9cd0d89d) == [0x9c, 0xd0, 0xd8, 0x9d]
  {
  }

  lemma DigestOfWords()
    ensures Digest(Vars(0xa9993e36, 0x4706816a, 0xba3e2571, 0x7850c26c, 0x9cd0d89d)) ==
      [0xa9, 0x99, 0x3e, 0x36, 0x47, 0x06, 0x81, 0x6a, 0xba, 0x3e,
       0x25, 0x71, 0x78, 0x50, 0xc2, 0x6c, 0x9c, 0xd0, 0xd8, 0x9d]
  {
    BytesOfWords();
    hide WordBytes;
  }

  /** The digest of "abc" is a9993e36 4706816a ba3e2571 7850c26c 9cd0d89d. */
  lemma AbcDigest()
    ensures 8 * |Abc| < U64 && Hash(Standard, Abc) ==
      [0xa9, 0x99, 0x3e, 0x36, 0x47, 0x06, 0x81, 0x6a, 0xba, 0x3e,
       0x25, 0x71, 0x78, 0x50, 0xc2, 0x6c, 0x9c, 0xd0, 0xd8, 0x9d]
  {
    hide *;
    AbcBlocks();
    HashIs(Standard, Abc);
    DigestOfWords();
  }
}
