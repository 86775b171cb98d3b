/** The example vectors of appendix C of FIPS 197, one for each key size, round by round. */
module AesVectors {
  import opened Aes
  import opened AesKeySchedule
  import opened AesTableValues
  import opened AesWords
  import AesTables
  import AesField

  const PLAIN: seq<Byte> := [
    Byte(0x00), Byte(0x11), Byte(0x22), Byte(0x33), Byte(0x44), Byte(0x55), Byte(0x66), Byte(0x77),
    Byte(0x88), Byte(0x99), Byte(0xaa), Byte(0xbb), Byte(0xcc), Byte(0xdd), Byte(0xee), Byte(0xff)]

  lemma PlainStart()
    ensures FromBlock(PLAIN) == Of(Quad(0x00112233, 0x44556677, 0x8899aabb, 0xccddeeff))
    ensures AddQuad(Quad(0x00112233, 0x44556677, 0x8899aabb, 0xccddeeff),
                    Quad(0x00010203, 0x04050607, 0x08090a0b, 0x0c0d0e0f)) ==
            Quad(0x00102030, 0x40506070, 0x8090a0b0, 0xc0d0e0f0)
  {
  }

  // ---------- 128 bits ----------

  const KEY128: seq<Byte> := [
    Byte(0x00), Byte(0x01), Byte(0x02), Byte(0x03), Byte(0x04), Byte(0x05), Byte(0x06), Byte(0x07),
    Byte(0x08), Byte(0x09), Byte(0x0a), Byte(0x0b), Byte(0x0c), Byte(0x0d), Byte(0x0e), Byte(0x0f)]

  const CIPHER128: seq<Byte> := [
    Byte(0x69), Byte(0xc4), Byte(0xe0), Byte(0xd8), Byte(0x6a), Byte(0x7b), Byte(0x04), Byte(0x30),
    Byte(0xd8), Byte(0xcd), Byte(0xb7), Byte(0x80), Byte(0x70), Byte(0xb4), Byte(0xc5), Byte(0x5a)]

  lemma Words128_1()
    ensures SubWord(0x0d0e0f0c) == 0xd7ab76fe && SubWord(0x00102030) == 0x63cab704
    ensures SubWord(0x40506070) == 0x0953d051 && SubWord(0x8090a0b0) == 0xcd60e0e7
    ensures SubWord(0xc0d0e0f0) == 0xba70e18c
  {
    hide AesTables.Sbox;
    SboxValues();
  }

  lemma Round128_1()
    ensures NextKeys(4, 1, Quad(0x00010203, 0x04050607, 0x08090a0b, 0x0c0d0e0f),
                     Quad(0x00010203, 0x04050607, 0x08090a0b, 0x0c0d0e0f)) ==
            Quad(0xd6aa74fd, 0xd2af72fa, 0xdaa678f1, 0xd6ab76fe)
    ensures Follow(Quad(0x00102030, 0x40506070, 0x8090a0b0, 0xc0d0e0f0),
                   Quad(0xd6aa74fd, 0xd2af72fa, 0xdaa678f1, 0xd6ab76fe)) ==
            Quad(0x89d810e8, 0x855ace68, 0x2d1843d8, 0xcb128fe4)
  {
    hide SubWord;
    Words128_1();
  }

  lemma Words128_2()
    ensures SubWord(0xab76fed6) == 0x6238bbf6 && SubWord(0x89d810e8) == 0xa761ca9b
    ensures SubWord(0x855ace68) == 0x97be8b45 && SubWord(0x2d1843d8) == 0xd8ad1a61
    ensures SubWord(0xcb128fe4) == 0x1fc97369
  {
    hide AesTables.Sbox;
    SboxValues();
  }

  lemma Round128_2()
    ensures NextKeys(4, 2, Quad(0x00010203, 0x04050607, 0x08090a0b, 0x0c0d0e0f),
                     Quad(0xd6aa74fd, 0xd2af72fa, 0xdaa678f1, 0xd6ab76fe)) ==
            Quad(0xb692cf0b, 0x643dbdf1, 0xbe9bc500, 0x6830b3fe)
    ensures Follow(Quad(0x89d810e8, 0x855ace68, 0x2d1843d8, 0xcb128fe4),
                   Quad(0xb692cf0b, 0x643dbdf1, 0xbe9bc500, 0x6830b3fe)) ==
            Quad(0x4915598f, 0x55e5d7a0, 0xdaca94fa, 0x1f0a63f7)
  {
    hide SubWord;
    Words128_2();
  }

  lemma Words128_3()
    ensures SubWord(0x30b3fe68) == 0x046dbb45 && SubWord(0x4915598f) == 0x3b59cb73
    ensures SubWord(0x55e5d7a0) == 0xfcd90ee0 && SubWord(0xdaca94fa) == 0x5774222d
    ensures SubWord(0x1f0a63f7) == 0xc067fb68
  {
    hide AesTables.Sbox;
    SboxValues();
  }

  lemma Round128_3()
    ensures NextKeys(4, 3, Quad(0xd6aa74fd, 0xd2af72fa, 0xdaa678f1, 0xd6ab76fe),
                     Quad(0xb692cf0b, 0x643dbdf1, 0xbe9bc500, 0x6830b3fe)) ==
            Quad(0xb6ff744e, 0xd2c2c9bf, 0x6c590cbf, 0x0469bf41)
    ensures Follow(Quad(0x4915598f, 0x55e5d7a0, 0xdaca94fa, 0x1f0a63f7),
                   Quad(0xb6ff744e, 0xd2c2c9bf, 0x6c590cbf, 0x0469bf41)) ==
            Quad(0xfa636a28, 0x25b339c9, 0x40668a31, 0x57244d17)
  {
    hide SubWord;
    Words128_3();
  }

  lemma Words128_4()
    ensures SubWord(0x69bf4104) == 0xf90883f2 && SubWord(0xfa636a28) == 0x2dfb0234
    ensures SubWord(0x25b339c9) == 0x3f6d12dd && SubWord(0x40668a31) == 0x09337ec7
    ensures SubWord(0x57244d17) == 0x5b36e3f0
  {
    hide AesTables.Sbox;
    SboxValues();
  }

  lemma Round128_4()
    ensures NextKeys(4, 4, Quad(0xb692cf0b, 0x643dbdf1, 0xbe9bc500, 0x6830b3fe),
                     Quad(0xb6ff744e, 0xd2c2c9bf, 0x6c590cbf, 0x0469bf41)) ==
            Quad(0x47f7f7bc, 0x95353e03, 0xf96c32bc, 0xfd058dfd)
    ensures Follow(Quad(0xfa636a28, 0x25b339c9, 0x40668a31, 0x57244d17),
                   Quad(0x47f7f7bc, 0x95353e03, 0xf96c32bc, 0xfd058dfd)) ==
            Quad(0x24724023, 0x6966b3fa, 0x6ed27532, 0x88425b6c)
  {
    hide SubWord;
    Words128_4();
  }

  lemma Words128_5()
    ensures SubWord(0x058dfdfd) == 0x6b5d5454 && SubWord(0x24724023) == 0x36400926
    ensures SubWord(0x6966b3fa) == 0xf9336d2d && SubWord(0x6ed27532) == 0x9fb59d23
    ensures SubWord(0x88425b6c) == 0xc42c3950
  {
    hide AesTables.Sbox;
    SboxValues();
  }

  lemma Round128_5()
    ensures NextKeys(4, 5, Quad(0xb6ff744e, 0xd2c2c9bf, 0x6c590cbf, 0x0469bf41),
                     Quad(0x47f7f7bc, 0x95353e03, 0xf96c32bc, 0xfd058dfd)) ==
            Quad(0x3caaa3e8, 0xa99f9deb, 0x50f3af57, 0xadf622aa)
    ensures Follow(Quad(0x24724023, 0x6966b3fa, 0x6ed27532, 0x88425b6c),
                   Quad(0x3caaa3e8, 0xa99f9deb, 0x50f3af57, 0xadf622aa)) ==
            Quad(0xc81677bc, 0x9b7ac93b, 0x25027992, 0xb0261996)
  {
    hide SubWord;
    Words128_5();
  }

  lemma Words128_6()
    ensures SubWord(0xf622aaad) == 0x4293ac95 && SubWord(0xc81677bc) == 0xe847f565
    ensures SubWord(0x9b7ac93b) == 0x14dadde2 && SubWord(0x25027992) == 0x3f77b64f
    ensures SubWord(0xb0261996) == 0xe7f7d490
  {
    hide AesTables.Sbox;
    SboxValues();
  }

  lemma Round128_6()
    ensures NextKeys(4, 6, Quad(0x47f7f7bc, 0x95353e03, 0xf96c32bc, 0xfd058dfd),
                     Quad(0x3caaa3e8, 0xa99f9deb, 0x50f3af57, 0xadf622aa)) ==
            Quad(0x5e390f7d, 0xf7a69296, 0xa7553dc1, 0x0aa31f6b)
    ensures Follow(Quad(0xc81677bc, 0x9b7ac93b, 0x25027992, 0xb0261996),
                   Quad(0x5e390f7d, 0xf7a69296, 0xa7553dc1, 0x0aa31f6b)) ==
            Quad(0xc62fe109, 0xf75eedc3, 0xcc79395d, 0x84f9cf5d)
  {
    hide SubWord;
    Words128_6();
  }

  lemma Words128_7()
    ensures SubWord(0xa31f6b0a) == 0x0ac07f67 && SubWord(0xc62fe109) == 0xb415f801
    ensures SubWord(0xf75eedc3) == 0x6858552e && SubWord(0xcc79395d) == 0x4bb6124c
    ensures SubWord(0x84f9cf5d) == 0x5f998a4c
  {
    hide AesTables.Sbox;
    SboxValues();
  }

  lemma Round128_7()
    ensures NextKeys(4, 7, Quad(0x3caaa3e8, 0xa99f9deb, 0x50f3af57, 0xadf622aa),
                     Quad(0x5e390f7d, 0xf7a69296, 0xa7553dc1, 0x0aa31f6b)) ==
            Quad(0x14f9701a, 0xe35fe28c, 0x440adf4d, 0x4ea9c026)
    ensures Follow(Quad(0xc62fe109, 0xf75eedc3, 0xcc79395d, 0x84f9cf5d),
                   Quad(0x14f9701a, 0xe35fe28c, 0x440adf4d, 0x4ea9c026)) ==
            Quad(0xd1876c0f, 0x79c4300a, 0xb45594ad, 0xd66ff41f)
  {
    hide SubWord;
    Words128_7();
  }

  lemma Words128_8()
    ensures SubWord(0xa9c0264e) == 0xd3baf72f && SubWord(0xd1876c0f) == 0x3e175076
    ensures SubWord(0x79c4300a) == 0xb61c0467 && SubWord(0xb45594ad) == 0x8dfc2295
    ensures SubWord(0xd66ff41f) == 0xf6a8bfc0
  {
    hide AesTables.Sbox;
    SboxValues();
  }

  lemma Round128_8()
    ensures NextKeys(4, 8, Quad(0x5e390f7d, 0xf7a69296, 0xa7553dc1, 0x0aa31f6b),
                     Quad(0x14f9701a, 0xe35fe28c, 0x440adf4d, 0x4ea9c026)) ==
            Quad(0x47438735, 0xa41c65b9, 0xe016baf4, 0xaebf7ad2)
    ensures Follow(Quad(0xd1876c0f, 0x79c4300a, 0xb45594ad, 0xd66ff41f),
                   Quad(0x47438735, 0xa41c65b9, 0xe016baf4, 0xaebf7ad2)) ==
            Quad(0xfde3bad2, 0x05e5d0d7, 0x3547964e, 0xf1fe37f1)
  {
    hide SubWord;
    Words128_8();
  }

  lemma Words128_9()
    ensures SubWord(0xbf7ad2ae) == 0x08dab5e4 && SubWord(0xfde3bad2) == 0x5411f4b5
    ensures SubWord(0x05e5d0d7) == 0x6bd9700e && SubWord(0x3547964e) == 0x96a0902f
    ensures SubWord(0xf1fe37f1) == 0xa1bb9aa1
  {
    hide AesTables.Sbox;
    SboxValues();
  }

  lemma Round128_9()
    ensures NextKeys(4, 9, Quad(0x14f9701a, 0xe35fe28c, 0x440adf4d, 0x4ea9c026),
                     Quad(0x47438735, 0xa41c65b9, 0xe016baf4, 0xaebf7ad2)) ==
            Quad(0x549932d1, 0xf0855768, 0x1093ed9c, 0xbe2c974e)
    ensures Follow(Quad(0xfde3bad2, 0x05e5d0d7, 0x3547964e, 0xf1fe37f1),
                   Quad(0x549932d1, 0xf0855768, 0x1093ed9c, 0xbe2c974e)) ==
            Quad(0xbd6e7c3d, 0xf2b5779e, 0x0b61216e, 0x8b10b689)
  {
    hide SubWord;
    Words128_9();
  }

  lemma Words128_10()
    ensures SubWord(0x2c974ebe) == 0x71882fae && SubWord(0xbd6e7c3d) == 0x7a9f1027
    ensures SubWord(0xf2b5779e) == 0x89d5f50b && SubWord(0x0b61216e) == 0x2beffd9f
    ensures SubWord(0x8b10b689) == 0x3dca4ea7
  {
    hide AesTables.Sbox;
    SboxValues();
  }

  lemma Round128_10()
    ensures NextKeys(4, 10, Quad(0x47438735, 0xa41c65b9, 0xe016baf4, 0xaebf7ad2),
                     Quad(0x549932d1, 0xf0855768, 0x1093ed9c, 0xbe2c974e)) ==
            Quad(0x13111d7f, 0xe3944a17, 0xf307a78b, 0x4d2b30c5)
    ensures FollowLast(Quad(0xbd6e7c3d, 0xf2b5779e, 0x0b61216e, 0x8b10b689),
                   Quad(0x13111d7f, 0xe3944a17, 0xf307a78b, 0x4d2b30c5)) ==
            Quad(0x69c4e0d8, 0x6a7b0430, 0xd8cdb780, 0x70b4c55a)
  {
    hide SubWord;
    Words128_10();
  }

  lemma FirstKey128()
    ensures RoundColumns(KEY128, 4, 0) == Of(Quad(0x00010203, 0x04050607, 0x08090a0b, 0x0c0d0e0f))
  {
  }

  /** The 128-bit example: the block encrypts as the standard says, with the schedule of its key. */
  lemma Vector128()
    ensures EncryptBlock(PLAIN, Schedule(KEY128, 128), 128) == CIPHER128
  {
    hide Follow, FollowLast, NextKeys, Trace, RoundColumns, AddQuad, Of, Schedule, EncryptBlock, ToBlock, FromBlock;
    var p, q := FromBlock(PLAIN), Quad(0x00112233, 0x44556677, 0x8899aabb, 0xccddeeff);
    var k0 := Quad(0x00010203, 0x04050607, 0x08090a0b, 0x0c0d0e0f);
    var s0 := Quad(0x00102030, 0x40506070, 0x8090a0b0, 0xc0d0e0f0);
    PlainStart();
    FirstKey128();
    TraceStart(q, KEY128, 128, k0);
    Round128_1();
    TraceStep(p, KEY128, 128, 0, s0, k0, k0);
    var k1 := NextKeys(4, 1, k0, k0);
    var s1 := Follow(s0, k1);
    Round128_2();
    TraceStep(p, KEY128, 128, 1, s1, k0, k1);
    var k2 := NextKeys(4, 2, k0, k1);
    var s2 := Follow(s1, k2);
    Round128_3();
    TraceStep(p, KEY128, 128, 2, s2, k1, k2);
    var k3 := NextKeys(4, 3, k1, k2);
    var s3 := Follow(s2, k3);
    Round128_4();
    TraceStep(p, KEY128, 128, 3, s3, k2, k3);
    var k4 := NextKeys(4, 4, k2, k3);
    var s4 := Follow(s3, k4);
    Round128_5();
    TraceStep(p, KEY128, 128, 4, s4, k3, k4);
    var k5 := NextKeys(4, 5, k3, k4);
    var s5 := Follow(s4, k5);
    Round128_6();
    TraceStep(p, KEY128, 128, 5, s5, k4, k5);
    var k6 := NextKeys(4, 6, k4, k5);
    var s6 := Follow(s5, k6);
    Round128_7();
    TraceStep(p, KEY128, 128, 6, s6, k5, k6);
    var k7 := NextKeys(4, 7, k5, k6);
    var s7 := Follow(s6, k7);
    Round128_8();
    TraceStep(p, KEY128, 128, 7, s7, k6, k7);
    var k8 := NextKeys(4, 8, k6, k7);
    var s8 := Follow(s7, k8);
    Round128_9();
    TraceStep(p, KEY128, 128, 8, s8, k7, k8);
    var k9 := NextKeys(4, 9, k7, k8);
    var s9 := Follow(s8, k9);
    Round128_10();
    TraceEnd(PLAIN, KEY128, 128, s9, k8, k9);
    CipherBytes128();
  }

  lemma CipherBytes128()
    ensures ToBlock(Of(Quad(0x69c4e0d8, 0x6a7b0430, 0xd8cdb780, 0x70b4c55a))) == CIPHER128
  {
  }

  // ---------- 192 bits ----------

  const KEY192: seq<Byte> := [
    Byte(0x00), Byte(0x01), Byte(0x02), Byte(0x03), Byte(0x04), Byte(0x05), Byte(0x06), Byte(0x07),
    Byte(0x08), Byte(0x09), Byte(0x0a), Byte(0x0b), Byte(0x0c), Byte(0x0d), Byte(0x0e), Byte(0x0f),
    Byte(0x10), Byte(0x11), Byte(0x12), Byte(0x13), Byte(0x14), Byte(0x15), Byte(0x16), Byte(0x17)]

  const CIPHER192: seq<Byte> := [
    Byte(0xdd), Byte(0xa9), Byte(0x7c), Byte(0xa4), Byte(0x86), Byte(0x4c), Byte(0xdf), Byte(0xe0),
    Byte(0x6e), Byte(0xaf), Byte(0x70), Byte(0xa0), Byte(0xec), Byte(0x0d), Byte(0x71), Byte(0x91)]

  lemma Words192_1()
    ensures SubWord(0x00102030) == 0x63cab704 && SubWord(0x40506070) == 0x0953d051
    ensures SubWord(0x8090a0b0) == 0xcd60e0e7 && SubWord(0xc0d0e0f0) == 0xba70e18c
  {
    hide AesTables.Sbox;
    SboxValues();
  }

  lemma Round192_1()
    ensures Follow(Quad(0x00102030, 0x40506070, 0x8090a0b0, 0xc0d0e0f0),
                   Quad(0x10111213, 0x14151617, 0x5846f2f9, 0x5c43f4fe)) ==
            Quad(0x4f637606, 0x43e0aa85, 0xaff8c9d0, 0x41fa0de4)
  {
    hide SubWord;
    Words192_1();
  }

  lemma Words192_2()
    ensures SubWord(0x4f637606) == 0x84fb386f && SubWord(0x43e0aa85) == 0x1ae1ac97
    ensures SubWord(0xaff8c9d0) == 0x7941dd70 && SubWord(0x41fa0de4) == 0x832dd769
  {
    hide AesTables.Sbox;
    SboxValues();
  }

  lemma Round192_2()
    ensures NextKeys(6, 2, Quad(0x00010203, 0x04050607, 0x08090a0b, 0x0c0d0e0f),
                     Quad(0x10111213, 0x14151617, 0x5846f2f9, 0x5c43f4fe)) ==
            Quad(0x544afef5, 0x5847f0fa, 0x4856e2e9, 0x5c43f4fe)
    ensures Follow(Quad(0x4f637606, 0x43e0aa85, 0xaff8c9d0, 0x41fa0de4),
                   Quad(0x544afef5, 0x5847f0fa, 0x4856e2e9, 0x5c43f4fe)) ==
            Quad(0xcb02818c, 0x17d2af9c, 0x62aa6442, 0x8bb25fd7)
  {
    hide SubWord;
    Words192_2();
  }

  lemma Words192_3()
    ensures SubWord(0x43f4fe5c) == 0x1abfbb4a && SubWord(0xcb02818c) == 0x1f770c64
    ensures SubWord(0x17d2af9c) == 0xf0b579de && SubWord(0x62aa6442) == 0xaaac432c
    ensures SubWord(0x8bb25fd7) == 0x3d37cf0e
  {
    hide AesTables.Sbox;
    SboxValues();
  }

  lemma Round192_3()
    ensures NextKeys(6, 3, Quad(0x10111213, 0x14151617, 0x5846f2f9, 0x5c43f4fe),
                     Quad(0x544afef5, 0x5847f0fa, 0x4856e2e9, 0x5c43f4fe)) ==
            Quad(0x40f949b3, 0x1cbabd4d, 0x48f043b8, 0x10b7b342)
    ensures Follow(Quad(0xcb02818c, 0x17d2af9c, 0x62aa6442, 0x8bb25fd7),
                   Quad(0x40f949b3, 0x1cbabd4d, 0x48f043b8, 0x10b7b342)) ==
            Quad(0xf75c7778, 0xa327c8ed, 0x8cfebfc1, 0xa6c37f53)
  {
    hide SubWord;
    Words192_3();
  }

  lemma Words192_4()
    ensures SubWord(0xa2a55504) == 0x3a06fcf2 && SubWord(0xf75c7778) == 0x684af5bc
    ensures SubWord(0xa327c8ed) == 0x0acce855 && SubWord(0x8cfebfc1) == 0x64bb0878
    ensures SubWord(0xa6c37f53) == 0x242ed2ed
  {
    hide AesTables.Sbox;
    SboxValues();
  }

  lemma Round192_4()
    ensures NextKeys(6, 4, Quad(0x544afef5, 0x5847f0fa, 0x4856e2e9, 0x5c43f4fe),
                     Quad(0x40f949b3, 0x1cbabd4d, 0x48f043b8, 0x10b7b342)) ==
            Quad(0x58e151ab, 0x04a2a555, 0x7effb541, 0x6245080c)
    ensures Follow(Quad(0xf75c7778, 0xa327c8ed, 0x8cfebfc1, 0xa6c37f53),
                   Quad(0x58e151ab, 0x04a2a555, 0x7effb541, 0x6245080c)) ==
            Quad(0x22ffc916, 0xa8147441, 0x6496f19c, 0x64ae2532)
  {
    hide SubWord;
    Words192_4();
  }

  lemma Words192_5()
    ensures SubWord(0x22ffc916) == 0x9316dd47 && SubWord(0xa8147441) == 0xc2fa9283
    ensures SubWord(0x6496f19c) == 0x4390a1de && SubWord(0x64ae2532) == 0x43e43f23
  {
    hide AesTables.Sbox;
    SboxValues();
  }

  lemma Round192_5()
    ensures NextKeys(6, 5, Quad(0x40f949b3, 0x1cbabd4d, 0x48f043b8, 0x10b7b342),
                     Quad(0x58e151ab, 0x04a2a555, 0x7effb541, 0x6245080c)) ==
            Quad(0x2ab54bb4, 0x3a02f8f6, 0x62e3a95d, 0x66410c08)
    ensures Follow(Quad(0x22ffc916, 0xa8147441, 0x6496f19c, 0x64ae2532),
                   Quad(0x2ab54bb4, 0x3a02f8f6, 0x62e3a95d, 0x66410c08)) ==
            Quad(0x80121e07, 0x76fd1d8a, 0x8d8c31bc, 0x965d1fee)
  {
    hide SubWord;
    Words192_5();
  }

  lemma Words192_6()
    ensures SubWord(0x410c0866) == 0x83fe3033 && SubWord(0x80121e07) == 0xcdc972c5
    ensures SubWord(0x76fd1d8a) == 0x3854a47e && SubWord(0x8d8c31bc) == 0x5d64c765
    ensures SubWord(0x965d1fee) == 0x904cc028
  {
    hide AesTables.Sbox;
    SboxValues();
  }

  lemma Round192_6()
    ensures NextKeys(6, 6, Quad(0x58e151ab, 0x04a2a555, 0x7effb541, 0x6245080c),
                     Quad(0x2ab54bb4, 0x3a02f8f6, 0x62e3a95d, 0x66410c08)) ==
            Quad(0xf5018572, 0x97448d7e, 0xbdf1c6ca, 0x87f33e3c)
    ensures Follow(Quad(0x80121e07, 0x76fd1d8a, 0x8d8c31bc, 0x965d1fee),
                   Quad(0xf5018572, 0x97448d7e, 0xbdf1c6ca, 0x87f33e3c)) ==
            Quad(0x671ef1fd, 0x4e2a1e03, 0xdfdcb1ef, 0x3d789b30)
  {
    hide SubWord;
    Words192_6();
  }

  lemma Words192_7()
    ensures SubWord(0x519b6983) == 0xd114f9ec && SubWord(0x671ef1fd) == 0x8572a154
    ensures SubWord(0x4e2a1e03) == 0x2fe5727b && SubWord(0xdfdcb1ef) == 0x9e86c8df
    ensures SubWord(0x3d789b30) == 0x27bc1404
  {
    hide AesTables.Sbox;
    SboxValues();
  }

  lemma Round192_7()
    ensures NextKeys(6, 7, Quad(0x2ab54bb4, 0x3a02f8f6, 0x62e3a95d, 0x66410c08),
                     Quad(0xf5018572, 0x97448d7e, 0xbdf1c6ca, 0x87f33e3c)) ==
            Quad(0xe5109761, 0x83519b69, 0x34157c9e, 0xa351f1e0)
    ensures Follow(Quad(0x671ef1fd, 0x4e2a1e03, 0xdfdcb1ef, 0x3d789b30),
                   Quad(0xe5109761, 0x83519b69, 0x34157c9e, 0xa351f1e0)) ==
            Quad(0x0c0370d0, 0x0c01e622, 0x166b8acc, 0xd6db3a2c)
  {
    hide SubWord;
    Words192_7();
  }

  lemma Words192_8()
    ensures SubWord(0x0c0370d0) == 0xfe7b5170 && SubWord(0x0c01e622) == 0xfe7c8e93
    ensures SubWord(0x166b8acc) == 0x477f7e4b && SubWord(0xd6db3a2c) == 0xf6b98071
  {
    hide AesTables.Sbox;
    SboxValues();
  }

  lemma Round192_8()
    ensures NextKeys(6, 8, Quad(0xf5018572, 0x97448d7e, 0xbdf1c6ca, 0x87f33e3c),
                     Quad(0xe5109761, 0x83519b69, 0x34157c9e, 0xa351f1e0)) ==
            Quad(0x1ea0372a, 0x99530916, 0x7c439e77, 0xff12051e)
    ensures Follow(Quad(0x0c0370d0, 0x0c01e622, 0x166b8acc, 0xd6db3a2c),
                   Quad(0x1ea0372a, 0x99530916, 0x7c439e77, 0xff12051e)) ==
            Quad(0x7255dad3, 0x0fb80310, 0xe00d6c6b, 0x40d0527c)
  {
    hide SubWord;
    Words192_8();
  }

  lemma Words192_9()
    ensures SubWord(0x12051eff) == 0xc96b7216 && SubWord(0x7255dad3) == 0x40fc5766
    ensures SubWord(0x0fb80310) == 0x766c7bca && SubWord(0xe00d6c6b) == 0xe1d7507f
    ensures SubWord(0x40d0527c) == 0x09700010
  {
    hide AesTables.Sbox;
    SboxValues();
  }

  lemma Round192_9()
    ensures NextKeys(6, 9, Quad(0xe5109761, 0x83519b69, 0x34157c9e, 0xa351f1e0),
                     Quad(0x1ea0372a, 0x99530916, 0x7c439e77, 0xff12051e)) ==
            Quad(0xdd7e0e88, 0x7e2fff68, 0x608fc842, 0xf9dcc154)
    ensures Follow(Quad(0x7255dad3, 0x0fb80310, 0xe00d6c6b, 0x40d0527c),
                   Quad(0xdd7e0e88, 0x7e2fff68, 0x608fc842, 0xf9dcc154)) ==
            Quad(0xa906b254, 0x968af4e9, 0xb4bdb2d2, 0xf0c44336)
  {
    hide SubWord;
    Words192_9();
  }

  lemma Words192_10()
    ensures SubWord(0x8d5a3d7a) == 0x5dbe27da && SubWord(0xa906b254) == 0xd36f3720
    ensures SubWord(0x968af4e9) == 0x907ebf1e && SubWord(0xb4bdb2d2) == 0x8d7a37b5
    ensures SubWord(0xf0c44336) == 0x8c1c1a05
  {
    hide AesTables.Sbox;
    SboxValues();
  }

  lemma Round192_10()
    ensures NextKeys(6, 10, Quad(0x1ea0372a, 0x99530916, 0x7c439e77, 0xff12051e),
                     Quad(0xdd7e0e88, 0x7e2fff68, 0x608fc842, 0xf9dcc154)) ==
            Quad(0x859f5f23, 0x7a8d5a3d, 0xc0c02952, 0xbeefd63a)
    ensures Follow(Quad(0xa906b254, 0x968af4e9, 0xb4bdb2d2, 0xf0c44336),
                   Quad(0x859f5f23, 0x7a8d5a3d, 0xc0c02952, 0xbeefd63a)) ==
            Quad(0x88ec930e, 0xf5e7e4b6, 0xcc32f4c9, 0x06d29414)
  {
    hide SubWord;
    Words192_10();
  }

  lemma Words192_11()
    ensures SubWord(0x88ec930e) == 0xc4cedcab && SubWord(0xf5e7e4b6) == 0xe694694e
    ensures SubWord(0xcc32f4c9) == 0x4b23bfdd && SubWord(0x06d29414) == 0x6fb522fa
  {
    hide AesTables.Sbox;
    SboxValues();
  }

  lemma Round192_11()
    ensures NextKeys(6, 11, Quad(0xdd7e0e88, 0x7e2fff68, 0x608fc842, 0xf9dcc154),
                     Quad(0x859f5f23, 0x7a8d5a3d, 0xc0c02952, 0xbeefd63a)) ==
            Quad(0xde601e78, 0x27bcdf2c, 0xa223800f, 0xd8aeda32)
    ensures Follow(Quad(0x88ec930e, 0xf5e7e4b6, 0xcc32f4c9, 0x06d29414),
                   Quad(0xde601e78, 0x27bcdf2c, 0xa223800f, 0xd8aeda32)) ==
            Quad(0xafb73eeb, 0x1cd1b851, 0x62280f27, 0xfb20d585)
  {
    hide SubWord;
    Words192_11();
  }

  lemma Words192_12()
    ensures SubWord(0xaeda32d8) == 0xe4572361 && SubWord(0xafb73eeb) == 0x79a9b2e9
    ensures SubWord(0x1cd1b851) == 0x9c3e6cd1 && SubWord(0x62280f27) == 0xaa3476cc
    ensures SubWord(0xfb20d585) == 0x0fb70397
  {
    hide AesTables.Sbox;
    SboxValues();
  }

  lemma Round192_12()
    ensures NextKeys(6, 12, Quad(0x859f5f23, 0x7a8d5a3d, 0xc0c02952, 0xbeefd63a),
                     Quad(0xde601e78, 0x27bcdf2c, 0xa223800f, 0xd8aeda32)) ==
            Quad(0xa4970a33, 0x1a78dc09, 0xc418c271, 0xe3a41d5d)
    ensures FollowLast(Quad(0xafb73eeb, 0x1cd1b851, 0x62280f27, 0xfb20d585),
                   Quad(0xa4970a33, 0x1a78dc09, 0xc418c271, 0xe3a41d5d)) ==
            Quad(0xdda97ca4, 0x864cdfe0, 0x6eaf70a0, 0xec0d7191)
  {
    hide SubWord;
    Words192_12();
  }

  lemma FirstKey192()
    ensures RoundColumns(KEY192, 6, 0) == Of(Quad(0x00010203, 0x04050607, 0x08090a0b, 0x0c0d0e0f))
  {
  }

  lemma LastKeyWords192()
    ensures Expand(KEY192, 6, 4) == WordColumn(0x10111213) && Expand(KEY192, 6, 5) == WordColumn(0x14151617)
  {
  }

  lemma SecondKey192()
    ensures RoundColumns(KEY192, 6, 1) == Of(Quad(0x10111213, 0x14151617, 0x5846f2f9, 0x5c43f4fe))
  {
    hide SubWord, WordColumn, Expand;
    FirstKey192();
    LastKeyWords192();
    assert SubWord(0x15161714) == 0x5947f0fa by {
      hide *;
      SecondWord192();
    }
    NextWordIs(KEY192, 6, 6, 0x00010203, 0x14151617);
    NextWordIs(KEY192, 6, 7, 0x04050607, 0x5846f2f9);
  }

  lemma SecondWord192()
    ensures SubWord(0x15161714) == 0x5947f0fa
  {
    hide AesTables.Sbox;
    SboxValues();
  }

  /** The 192-bit example: the block encrypts as the standard says, with the schedule of its key. */
  lemma Vector192()
    ensures EncryptBlock(PLAIN, Schedule(KEY192, 192), 192) == CIPHER192
  {
    hide Follow, FollowLast, NextKeys, Trace, RoundColumns, AddQuad, Of, Schedule, EncryptBlock, ToBlock, FromBlock;
    var p, q := FromBlock(PLAIN), Quad(0x00112233, 0x44556677, 0x8899aabb, 0xccddeeff);
    var k0 := Quad(0x00010203, 0x04050607, 0x08090a0b, 0x0c0d0e0f);
    var s0 := Quad(0x00102030, 0x40506070, 0x8090a0b0, 0xc0d0e0f0);
    PlainStart();
    FirstKey192();
    TraceStart(q, KEY192, 192, k0);
    SecondKey192();
    var k1 := Quad(0x10111213, 0x14151617, 0x5846f2f9, 0x5c43f4fe);
    Round192_1();
    TraceRound(p, KEY192, 192, 0, s0, k0, k0, k1);
    var s1 := Follow(s0, k1);
    Round192_2();
    TraceStep(p, KEY192, 192, 1, s1, k0, k1);
    var k2 := NextKeys(6, 2, k0, k1);
    var s2 := Follow(s1, k2);
    Round192_3();
    TraceStep(p, KEY192, 192, 2, s2, k1, k2);
    var k3 := NextKeys(6, 3, k1, k2);
    var s3 := Follow(s2, k3);
    Round192_4();
    TraceStep(p, KEY192, 192, 3, s3, k2, k3);
    var k4 := NextKeys(6, 4, k2, k3);
    var s4 := Follow(s3, k4);
    Round192_5();
    TraceStep(p, KEY192, 192, 4, s4, k3, k4);
    var k5 := NextKeys(6, 5, k3, k4);
    var s5 := Follow(s4, k5);
    Round192_6();
    TraceStep(p, KEY192, 192, 5, s5, k4, k5);
    var k6 := NextKeys(6, 6, k4, k5);
    var s6 := Follow(s5, k6);
    Round192_7();
    TraceStep(p, KEY192, 192, 6, s6, k5, k6);
    var k7 := NextKeys(6, 7, k5, k6);
    var s7 := Follow(s6, k7);
    Round192_8();
    TraceStep(p, KEY192, 192, 7, s7, k6, k7);
    var k8 := NextKeys(6, 8, k6, k7);
    var s8 := Follow(s7, k8);
    Round192_9();
    TraceStep(p, KEY192, 192, 8, s8, k7, k8);
    var k9 := NextKeys(6, 9, k7, k8);
    var s9 := Follow(s8, k9);
    Round192_10();
    TraceStep(p, KEY192, 192, 9, s9, k8, k9);
    var k10 := NextKeys(6, 10, k8, k9);
    var s10 := Follow(s9, k10);
    Round192_11();
    TraceStep(p, KEY192, 192, 10, s10, k9, k10);
    var k11 := NextKeys(6, 11, k9, k10);
    var s11 := Follow(s10, k11);
    Round192_12();
    TraceEnd(PLAIN, KEY192, 192, s11, k10, k11);
    CipherBytes192();
  }

  lemma CipherBytes192()
    ensures ToBlock(Of(Quad(0xdda97ca4, 0x864cdfe0, 0x6eaf70a0, 0xec0d7191))) == CIPHER192
  {
  }

  // ---------- 256 bits ----------

  const KEY256: seq<Byte> := [
    Byte(0x00), Byte(0x01), Byte(0x02), Byte(0x03), Byte(0x04), Byte(0x05), Byte(0x06), Byte(0x07),
    Byte(0x08), Byte(0x09), Byte(0x0a), Byte(0x0b), Byte(0x0c), Byte(0x0d), Byte(0x0e), Byte(0x0f),
    Byte(0x10), Byte(0x11), Byte(0x12), Byte(0x13), Byte(0x14), Byte(0x15), Byte(0x16), Byte(0x17),
    Byte(0x18), Byte(0x19), Byte(0x1a), Byte(0x1b), Byte(0x1c), Byte(0x1d), Byte(0x1e), Byte(0x1f)]

  const CIPHER256: seq<Byte> := [
    Byte(0x8e), Byte(0xa2), Byte(0xb7), Byte(0xca), Byte(0x51), Byte(0x67), Byte(0x45), Byte(0xbf),
    Byte(0xea), Byte(0xfc), Byte(0x49), Byte(0x90), Byte(0x4b), Byte(0x49), Byte(0x60), Byte(0x89)]

  lemma Words256_1()
    ensures SubWord(0x00102030) == 0x63cab704 && SubWord(0x40506070) == 0x0953d051
    ensures SubWord(0x8090a0b0) == 0xcd60e0e7 && SubWord(0xc0d0e0f0) == 0xba70e18c
  {
    hide AesTables.Sbox;
    SboxValues();
  }

  lemma Round256_1()
    ensures Follow(Quad(0x00102030, 0x40506070, 0x8090a0b0, 0xc0d0e0f0),
                   Quad(0x10111213, 0x14151617, 0x18191a1b, 0x1c1d1e1f)) ==
            Quad(0x4f637606, 0x43e0aa85, 0xefa72132, 0x01a4e705)
  {
    hide SubWord;
    Words256_1();
  }

  lemma Words256_2()
    ensures SubWord(0x1d1e1f1c) == 0xa472c09c && SubWord(0x4f637606) == 0x84fb386f
    ensures SubWord(0x43e0aa85) == 0x1ae1ac97 && SubWord(0xefa72132) == 0xdf5cfd23
    ensures SubWord(0x01a4e705) == 0x7c49946b
  {
    hide AesTables.Sbox;
    SboxValues();
  }

  lemma Round256_2()
    ensures NextKeys(8, 2, Quad(0x00010203, 0x04050607, 0x08090a0b, 0x0c0d0e0f),
                     Quad(0x10111213, 0x14151617, 0x18191a1b, 0x1c1d1e1f)) ==
            Quad(0xa573c29f, 0xa176c498, 0xa97fce93, 0xa572c09c)
    ensures Follow(Quad(0x4f637606, 0x43e0aa85, 0xefa72132, 0x01a4e705),
                   Quad(0xa573c29f, 0xa176c498, 0xa97fce93, 0xa572c09c)) ==
            Quad(0x1859fbc2, 0x8a1c00a0, 0x78ed8aad, 0xc42f6109)
  {
    hide SubWord;
    Words256_2();
  }

  lemma Words256_3()
    ensures SubWord(0xa572c09c) == 0x0640bade && SubWord(0x1859fbc2) == 0xadcb0f25
    ensures SubWord(0x8a1c00a0) == 0x7e9c63e0 && SubWord(0x78ed8aad) == 0xbc557e95
    ensures SubWord(0xc42f6109) == 0x1c15ef01
  {
    hide AesTables.Sbox;
    SboxValues();
  }

  lemma Round256_3()
    ensures NextKeys(8, 3, Quad(0x10111213, 0x14151617, 0x18191a1b, 0x1c1d1e1f),
                     Quad(0xa573c29f, 0xa176c498, 0xa97fce93, 0xa572c09c)) ==
            Quad(0x1651a8cd, 0x0244beda, 0x1a5da4c1, 0x0640bade)
    ensures Follow(Quad(0x1859fbc2, 0x8a1c00a0, 0x78ed8aad, 0xc42f6109),
                   Quad(0x1651a8cd, 0x0244beda, 0x1a5da4c1, 0x0640bade)) ==
            Quad(0x975c66c1, 0xcb9f3fa8, 0xa93a28df, 0x8ee10f63)
  {
    hide SubWord;
    Words256_3();
  }

  lemma Words256_4()
    ensures SubWord(0x40bade06) == 0x09f41d6f && SubWord(0x975c66c1) == 0x884a3378
    ensures SubWord(0xcb9f3fa8) == 0x1fdb75c2 && SubWord(0xa93a28df) == 0xd380349e
    ensures SubWord(0x8ee10f63) == 0x19f876fb
  {
    hide AesTables.Sbox;
    SboxValues();
  }

  lemma Round256_4()
    ensures NextKeys(8, 4, Quad(0xa573c29f, 0xa176c498, 0xa97fce93, 0xa572c09c),
                     Quad(0x1651a8cd, 0x0244beda, 0x1a5da4c1, 0x0640bade)) ==
            Quad(0xae87dff0, 0x0ff11b68, 0xa68ed5fb, 0x03fc1567)
    ensures Follow(Quad(0x975c66c1, 0xcb9f3fa8, 0xa93a28df, 0x8ee10f63),
                   Quad(0xae87dff0, 0x0ff11b68, 0xa68ed5fb, 0x03fc1567)) ==
            Quad(0x1c05f271, 0xa417e04f, 0xf921c5c1, 0x04701554)
  {
    hide SubWord;
    Words256_4();
  }

  lemma Words256_5()
    ensures SubWord(0x03fc1567) == 0x7bb05985 && SubWord(0x1c05f271) == 0x9c6b89a3
    ensures SubWord(0xa417e04f) == 0x49f0e184 && SubWord(0xf921c5c1) == 0x99fda678
    ensures SubWord(0x04701554) == 0xf2515920
  {
    hide AesTables.Sbox;
    SboxValues();
  }

  lemma Round256_5()
    ensures NextKeys(8, 5, Quad(0x1651a8cd, 0x0244beda, 0x1a5da4c1, 0x0640bade),
                     Quad(0xae87dff0, 0x0ff11b68, 0xa68ed5fb, 0x03fc1567)) ==
            Quad(0x6de1f148, 0x6fa54f92, 0x75f8eb53, 0x73b8518d)
    ensures Follow(Quad(0x1c05f271, 0xa417e04f, 0xf921c5c1, 0x04701554),
                   Quad(0x6de1f148, 0x6fa54f92, 0x75f8eb53, 0x73b8518d)) ==
            Quad(0xc357aae1, 0x1b45b7b0, 0xa2c7bd28, 0xa8dc99fa)
  {
    hide SubWord;
    Words256_5();
  }

  lemma Words256_6()
    ensures SubWord(0xb8518d73) == 0x6cd15d8f && SubWord(0xc357aae1) == 0x2e5bacf8
    ensures SubWord(0x1b45b7b0) == 0xaf6ea9e7 && SubWord(0xa2c7bd28) == 0x3ac67a34
    ensures SubWord(0xa8dc99fa) == 0xc286ee2d
  {
    hide AesTables.Sbox;
    SboxValues();
  }

  lemma Round256_6()
    ensures NextKeys(8, 6, Quad(0xae87dff0, 0x0ff11b68, 0xa68ed5fb, 0x03fc1567),
                     Quad(0x6de1f148, 0x6fa54f92, 0x75f8eb53, 0x73b8518d)) ==
            Quad(0xc656827f, 0xc9a79917, 0x6f294cec, 0x6cd5598b)
    ensures Follow(Quad(0xc357aae1, 0x1b45b7b0, 0xa2c7bd28, 0xa8dc99fa),
                   Quad(0xc656827f, 0xc9a79917, 0x6f294cec, 0x6cd5598b)) ==
            Quad(0x7f074143, 0xcb4e243e, 0xc10c815d, 0x8375d54c)
  {
    hide SubWord;
    Words256_6();
  }

  lemma Words256_7()
    ensures SubWord(0x6cd5598b) == 0x5003cb3d && SubWord(0x7f074143) == 0xd2c5831a
    ensures SubWord(0xcb4e243e) == 0x1f2f36b2 && SubWord(0xc10c815d) == 0x78fe0c4c
    ensures SubWord(0x8375d54c) == 0xec9d0329
  {
    hide AesTables.Sbox;
    SboxValues();
  }

  lemma Round256_7()
    ensures NextKeys(8, 7, Quad(0x6de1f148, 0x6fa54f92, 0x75f8eb53, 0x73b8518d),
                     Quad(0xc656827f, 0xc9a79917, 0x6f294cec, 0x6cd5598b)) ==
            Quad(0x3de23a75, 0x524775e7, 0x27bf9eb4, 0x5407cf39)
    ensures Follow(Quad(0x7f074143, 0xcb4e243e, 0xc10c815d, 0x8375d54c),
                   Quad(0x3de23a75, 0x524775e7, 0x27bf9eb4, 0x5407cf39)) ==
            Quad(0xd653a469, 0x6ca0bc0f, 0x5acaab5d, 0xb96c5e7d)
  {
    hide SubWord;
    Words256_7();
  }

  lemma Words256_8()
    ensures SubWord(0x07cf3954) == 0xc58a1220 && SubWord(0xd653a469) == 0xf6ed49f9
    ensures SubWord(0x6ca0bc0f) == 0x50e06576 && SubWord(0x5acaab5d) == 0xbe74624c
    ensures SubWord(0xb96c5e7d) == 0x565058ff
  {
    hide AesTables.Sbox;
    SboxValues();
  }

  lemma Round256_8()
    ensures NextKeys(8, 8, Quad(0xc656827f, 0xc9a79917, 0x6f294cec, 0x6cd5598b),
                     Quad(0x3de23a75, 0x524775e7, 0x27bf9eb4, 0x5407cf39)) ==
            Quad(0x0bdc905f, 0xc27b0948, 0xad5245a4, 0xc1871c2f)
    ensures Follow(Quad(0xd653a469, 0x6ca0bc0f, 0x5acaab5d, 0xb96c5e7d),
                   Quad(0x0bdc905f, 0xc27b0948, 0xad5245a4, 0xc1871c2f)) ==
            Quad(0x5aa85839, 0x5fd28d7d, 0x05e1a388, 0x68f3b9c5)
  {
    hide SubWord;
    Words256_8();
  }

  lemma Words256_9()
    ensures SubWord(0xc1871c2f) == 0x78179c15 && SubWord(0x5aa85839) == 0xbec26a12
    ensures SubWord(0x5fd28d7d) == 0xcfb55dff && SubWord(0x05e1a388) == 0x6bf80ac4
    ensures SubWord(0x68f3b9c5) == 0x450d56a6
  {
    hide AesTables.Sbox;
    SboxValues();
  }

  lemma Round256_9()
    ensures NextKeys(8, 9, Quad(0x3de23a75, 0x524775e7, 0x27bf9eb4, 0x5407cf39),
                     Quad(0x0bdc905f, 0xc27b0948, 0xad5245a4, 0xc1871c2f)) ==
            Quad(0x45f5a660, 0x17b2d387, 0x300d4d33, 0x640a820a)
    ensures Follow(Quad(0x5aa85839, 0x5fd28d7d, 0x05e1a388, 0x68f3b9c5),
                   Quad(0x45f5a660, 0x17b2d387, 0x300d4d33, 0x640a820a)) ==
            Quad(0x4a824851, 0xc57e7e47, 0x643de50c, 0x2af3e8c9)
  {
    hide SubWord;
    Words256_9();
  }

  lemma Words256_10()
    ensures SubWord(0x0a820a64) == 0x67136743 && SubWord(0x4a824851) == 0xd61352d1
    ensures SubWord(0xc57e7e47) == 0xa6f3f3a0 && SubWord(0x643de50c) == 0x4327d9fe
    ensures SubWord(0x2af3e8c9) == 0xe50d9bdd
  {
    hide AesTables.Sbox;
    SboxValues();
  }

  lemma Round256_10()
    ensures NextKeys(8, 10, Quad(0x0bdc905f, 0xc27b0948, 0xad5245a4, 0xc1871c2f),
                     Quad(0x45f5a660, 0x17b2d387, 0x300d4d33, 0x640a820a)) ==
            Quad(0x7ccff71c, 0xbeb4fe54, 0x13e6bbf0, 0xd261a7df)
    ensures Follow(Quad(0x4a824851, 0xc57e7e47, 0x643de50c, 0x2af3e8c9),
                   Quad(0x7ccff71c, 0xbeb4fe54, 0x13e6bbf0, 0xd261a7df)) ==
            Quad(0xc14907f6, 0xca3b3aa0, 0x70e9aa31, 0x3b52b5ec)
  {
    hide SubWord;
    Words256_10();
  }

  lemma Words256_11()
    ensures SubWord(0xd261a7df) == 0xb5ef5c9e && SubWord(0xc14907f6) == 0x783bc542
    ensures SubWord(0xca3b3aa0) == 0x74e280e0 && SubWord(0x70e9aa31) == 0x511eacc7
    ensures SubWord(0x3b52b5ec) == 0xe200d5ce
  {
    hide AesTables.Sbox;
    SboxValues();
  }

  lemma Round256_11()
    ensures NextKeys(8, 11, Quad(0x45f5a660, 0x17b2d387, 0x300d4d33, 0x640a820a),
                     Quad(0x7ccff71c, 0xbeb4fe54, 0x13e6bbf0, 0xd261a7df)) ==
            Quad(0xf01afafe, 0xe7a82979, 0xd7a5644a, 0xb3afe640)
    ensures Follow(Quad(0xc14907f6, 0xca3b3aa0, 0x70e9aa31, 0x3b52b5ec),
                   Quad(0xf01afafe, 0xe7a82979, 0xd7a5644a, 0xb3afe640)) ==
            Quad(0x5f9c6abf, 0xbac634aa, 0x50409fa7, 0x66677653)
  {
    hide SubWord;
    Words256_11();
  }

  lemma Words256_12()
    ensures SubWord(0xafe640b3) == 0x798e096d && SubWord(0x5f9c6abf) == 0xcfde0208
    ensures SubWord(0xbac634aa) == 0xf4b418ac && SubWord(0x50409fa7) == 0x5309db5c
    ensures SubWord(0x66677653) == 0x338538ed
  {
    hide AesTables.Sbox;
    SboxValues();
  }

  lemma Round256_12()
    ensures NextKeys(8, 12, Quad(0x7ccff71c, 0xbeb4fe54, 0x13e6bbf0, 0xd261a7df),
                     Quad(0xf01afafe, 0xe7a82979, 0xd7a5644a, 0xb3afe640)) ==
            Quad(0x2541fe71, 0x9bf50025, 0x8813bbd5, 0x5a721c0a)
    ensures Follow(Quad(0x5f9c6abf, 0xbac634aa, 0x50409fa7, 0x66677653),
                   Quad(0x2541fe71, 0x9bf50025, 0x8813bbd5, 0x5a721c0a)) ==
            Quad(0x51660495, 0x43539503, 0x14fb86e4, 0x01922521)
  {
    hide SubWord;
    Words256_12();
  }

  lemma Words256_13()
    ensures SubWord(0x5a721c0a) == 0xbe409c67 && SubWord(0x51660495) == 0xd133f22a
    ensures SubWord(0x43539503) == 0x1aed2a7b && SubWord(0x14fb86e4) == 0xfa0f4469
    ensures SubWord(0x01922521) == 0x7c4f3ffd
  {
    hide AesTables.Sbox;
    SboxValues();
  }

  lemma Round256_13()
    ensures NextKeys(8, 13, Quad(0xf01afafe, 0xe7a82979, 0xd7a5644a, 0xb3afe640),
                     Quad(0x2541fe71, 0x9bf50025, 0x8813bbd5, 0x5a721c0a)) ==
            Quad(0x4e5a6699, 0xa9f24fe0, 0x7e572baa, 0xcdf8cdea)
    ensures Follow(Quad(0x51660495, 0x43539503, 0x14fb86e4, 0x01922521),
                   Quad(0x4e5a6699, 0xa9f24fe0, 0x7e572baa, 0xcdf8cdea)) ==
            Quad(0x627bceb9, 0x999d5aaa, 0xc945ecf4, 0x23f56da5)
  {
    hide SubWord;
    Words256_13();
  }

  lemma Words256_14()
    ensures SubWord(0xf8cdeacd) == 0x41bd87bd && SubWord(0x627bceb9) == 0xaa218b56
    ensures SubWord(0x999d5aaa) == 0xee5ebeac && SubWord(0xc945ecf4) == 0xdd6ecebf
    ensures SubWord(0x23f56da5) == 0x26e63c06
  {
    hide AesTables.Sbox;
    SboxValues();
  }

  lemma Round256_14()
    ensures NextKeys(8, 14, Quad(0x2541fe71, 0x9bf50025, 0x8813bbd5, 0x5a721c0a),
                     Quad(0x4e5a6699, 0xa9f24fe0, 0x7e572baa, 0xcdf8cdea)) ==
            Quad(0x24fc79cc, 0xbf0979e9, 0x371ac23c, 0x6d68de36)
    ensures FollowLast(Quad(0x627bceb9, 0x999d5aaa, 0xc945ecf4, 0x23f56da5),
                   Quad(0x24fc79cc, 0xbf0979e9, 0x371ac23c, 0x6d68de36)) ==
            Quad(0x8ea2b7ca, 0x516745bf, 0xeafc4990, 0x4b496089)
  {
    hide SubWord;
    Words256_14();
  }

  lemma FirstKey256()
    ensures RoundColumns(KEY256, 8, 0) == Of(Quad(0x00010203, 0x04050607, 0x08090a0b, 0x0c0d0e0f))
  {
  }

  lemma SecondKey256()
    ensures RoundColumns(KEY256, 8, 1) == Of(Quad(0x10111213, 0x14151617, 0x18191a1b, 0x1c1d1e1f))
  {
  }

  /** The 256-bit example: the block encrypts as the standard says, with the schedule of its key. */
  lemma Vector256()
    ensures EncryptBlock(PLAIN, Schedule(KEY256, 256), 256) == CIPHER256
  {
    hide Follow, FollowLast, NextKeys, Trace, RoundColumns, AddQuad, Of, Schedule, EncryptBlock, ToBlock, FromBlock;
    var p, q := FromBlock(PLAIN), Quad(0x00112233, 0x44556677, 0x8899aabb, 0xccddeeff);
    var k0 := Quad(0x00010203, 0x04050607, 0x08090a0b, 0x0c0d0e0f);
    var s0 := Quad(0x00102030, 0x40506070, 0x8090a0b0, 0xc0d0e0f0);
    PlainStart();
    FirstKey256();
    TraceStart(q, KEY256, 256, k0);
    SecondKey256();
    var k1 := Quad(0x10111213, 0x14151617, 0x18191a1b, 0x1c1d1e1f);
    Round256_1();
    TraceRound(p, KEY256, 256, 0, s0, k0, k0, k1);
    var s1 := Follow(s0, k1);
    Round256_2();
    TraceStep(p, KEY256, 256, 1, s1, k0, k1);
    var k2 := NextKeys(8, 2, k0, k1);
    var s2 := Follow(s1, k2);
    Round256_3();
    TraceStep(p, KEY256, 256, 2, s2, k1, k2);
    var k3 := NextKeys(8, 3, k1, k2);
    var s3 := Follow(s2, k3);
    Round256_4();
    TraceStep(p, KEY256, 256, 3, s3, k2, k3);
    var k4 := NextKeys(8, 4, k2, k3);
    var s4 := Follow(s3, k4);
    Round256_5();
    TraceStep(p, KEY256, 256, 4, s4, k3, k4);
    var k5 := NextKeys(8, 5, k3, k4);
    var s5 := Follow(s4, k5);
    Round256_6();
    TraceStep(p, KEY256, 256, 5, s5, k4, k5);
    var k6 := NextKeys(8, 6, k4, k5);
    var s6 := Follow(s5, k6);
    Round256_7();
    TraceStep(p, KEY256, 256, 6, s6, k5, k6);
    var k7 := NextKeys(8, 7, k5, k6);
    var s7 := Follow(s6, k7);
    Round256_8();
    TraceStep(p, KEY256, 256, 7, s7, k6, k7);
    var k8 := NextKeys(8, 8, k6, k7);
    var s8 := Follow(s7, k8);
    Round256_9();
    TraceStep(p, KEY256, 256, 8, s8, k7, k8);
    var k9 := NextKeys(8, 9, k7, k8);
    var s9 := Follow(s8, k9);
    Round256_10();
    TraceStep(p, KEY256, 256, 9, s9, k8, k9);
    var k10 := NextKeys(8, 10, k8, k9);
    var s10 := Follow(s9, k10);
    Round256_11();
    TraceStep(p, KEY256, 256, 10, s10, k9, k10);
    var k11 := NextKeys(8, 11, k9, k10);
    var s11 := Follow(s10, k11);
    Round256_12();
    TraceStep(p, KEY256, 256, 11, s11, k10, k11);
    var k12 := NextKeys(8, 12, k10, k11);
    var s12 := Follow(s11, k12);
    Round256_13();
    TraceStep(p, KEY256, 256, 12, s12, k11, k12);
    var k13 := NextKeys(8, 13, k11, k12);
    var s13 := Follow(s12, k13);
    Round256_14();
    TraceEnd(PLAIN, KEY256, 256, s13, k12, k13);
    CipherBytes256();
  }

  lemma CipherBytes256()
    ensures ToBlock(Of(Quad(0x8ea2b7ca, 0x516745bf, 0xeafc4990, 0x4b496089))) == CIPHER256
  {
  }
}
