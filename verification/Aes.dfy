/** The block cipher of examples/aes_encrypt/aes.c: the round steps on the 4 by 4 state, changed in place, and
    aes_encrypt and aes_decrypt, proved against the cipher of sections 5.1 and 5.3 of FIPS 197 on values. */
module Aes {
  import AesTables
  import AesField

  // A byte, wrapped so that proofs about states and buffers do not look into its bits.
  datatype Byte = Byte(bits: bv8)

  // A state as its four columns.
  datatype Column = Column(r0: Byte, r1: Byte, r2: Byte, r3: Byte)
  datatype State = State(c0: Column, c1: Column, c2: Column, c3: Column)

  // ---------- Bytes ----------

  const ZERO: Byte := Byte(0)

  function Add(a: Byte, b: Byte): Byte { Byte(AesField.Xor(a.bits, b.bits)) }

  function Add4(a: Byte, b: Byte, c: Byte, d: Byte): Byte { Byte(AesField.Sum4(a.bits, b.bits, c.bits, d.bits)) }

  function Sbox(b: Byte): Byte { Byte(AesTables.Sbox(b.bits)) }

  function InvSbox(b: Byte): Byte { Byte(AesTables.InvSbox(b.bits)) }

  // gf_mul[b][k]
  function GfMul(b: Byte, k: nat): Byte
    requires k < 6
  {
    Byte(match k
         case 0 => AesTables.Gf2(b.bits)
         case 1 => AesTables.Gf3(b.bits)
         case 2 => AesTables.Gf9(b.bits)
         case 3 => AesTables.Gf11(b.bits)
         case 4 => AesTables.Gf13(b.bits)
         case _ => AesTables.Gf14(b.bits))
  }

  lemma AddLaws(a: Byte, b: Byte)
    ensures Add(a, b) == Add(b, a)
    ensures Add(a, a) == ZERO && Add(ZERO, a) == a == Add(a, ZERO)
    ensures Add(Add(a, b), b) == a
  {
    hide AesField.Xor;
    AesField.XorLaws(a.bits, b.bits);
    AesField.XorLaws(b.bits, b.bits);
    AesField.XorLaws(a.bits, 0);
    AesField.XorAssociative(a.bits, b.bits, b.bits);
  }

  lemma AddFour(a: Byte, b: Byte, c: Byte, d: Byte)
    ensures Add(Add(Add(a, b), c), d) == Add4(a, b, c, d)
  {
    hide AesField.Xor;
    AesField.XorAssociative(AesField.Xor(a.bits, b.bits), c.bits, d.bits);
  }

  lemma Add4Rotate(a: Byte, b: Byte, c: Byte, d: Byte)
    ensures Add4(a, b, c, d) == Add4(d, a, b, c)
  {
    hide AesField.Sum4;
    AesField.Sum4Rotate(a.bits, b.bits, c.bits, d.bits);
  }

  lemma SboxInverts(b: Byte)
    ensures InvSbox(Sbox(b)) == b
  {
    hide AesTables.Sbox, AesTables.InvSbox;
    AesField.InvSboxInverts(b.bits);
  }

  // ---------- The transformations, on values ----------

  function SubColumn(c: Column): Column {
    Column(Sbox(c.r0), Sbox(c.r1), Sbox(c.r2), Sbox(c.r3))
  }

  function InvSubColumn(c: Column): Column {
    Column(InvSbox(c.r0), InvSbox(c.r1), InvSbox(c.r2), InvSbox(c.r3))
  }

  // Row r of a state moves left by r columns.
  function Shift(s: State): State {
    State(Column(s.c0.r0, s.c1.r1, s.c2.r2, s.c3.r3), Column(s.c1.r0, s.c2.r1, s.c3.r2, s.c0.r3),
          Column(s.c2.r0, s.c3.r1, s.c0.r2, s.c1.r3), Column(s.c3.r0, s.c0.r1, s.c1.r2, s.c2.r3))
  }

  function InvShift(s: State): State {
    State(Column(s.c0.r0, s.c3.r1, s.c2.r2, s.c1.r3), Column(s.c1.r0, s.c0.r1, s.c3.r2, s.c2.r3),
          Column(s.c2.r0, s.c1.r1, s.c0.r2, s.c3.r3), Column(s.c3.r0, s.c2.r1, s.c1.r2, s.c0.r3))
  }

  function MixByte(a: Byte, b: Byte, c: Byte, d: Byte): Byte {
    Add4(GfMul(a, 0), GfMul(b, 1), c, d)
  }

  function InvMixByte(a: Byte, b: Byte, c: Byte, d: Byte): Byte {
    Add4(GfMul(a, 5), GfMul(b, 3), GfMul(c, 4), GfMul(d, 2))
  }

  function MixColumn(c: Column): Column {
    Column(MixByte(c.r0, c.r1, c.r2, c.r3), MixByte(c.r1, c.r2, c.r3, c.r0),
           MixByte(c.r2, c.r3, c.r0, c.r1), MixByte(c.r3, c.r0, c.r1, c.r2))
  }

  function InvMixColumn(c: Column): Column {
    Column(InvMixByte(c.r0, c.r1, c.r2, c.r3), InvMixByte(c.r1, c.r2, c.r3, c.r0),
           InvMixByte(c.r2, c.r3, c.r0, c.r1), InvMixByte(c.r3, c.r0, c.r1, c.r2))
  }

  function AddColumn(c: Column, k: Column): Column {
    Column(Add(c.r0, k.r0), Add(c.r1, k.r1), Add(c.r2, k.r2), Add(c.r3, k.r3))
  }

  // The bytes of a key word, highest first.
  function WordColumn(w: bv32): Column {
    Column(Byte(((w >> 24) & 0xFF) as bv8), Byte(((w >> 16) & 0xFF) as bv8),
           Byte(((w >> 8) & 0xFF) as bv8), Byte((w & 0xFF) as bv8))
  }

  // The four words of round key i.
  function RoundKey(key: seq<bv32>, i: nat): (w: seq<bv32>)
    requires 4 * i + 4 <= |key|
    ensures |w| == 4
  {
    key[4 * i..4 * i + 4]
  }

  function AddKey(s: State, w: seq<bv32>): State
    requires |w| == 4
  {
    State(AddColumn(s.c0, WordColumn(w[0])), AddColumn(s.c1, WordColumn(w[1])),
          AddColumn(s.c2, WordColumn(w[2])), AddColumn(s.c3, WordColumn(w[3])))
  }

  function Sub(s: State): State {
    State(SubColumn(s.c0), SubColumn(s.c1), SubColumn(s.c2), SubColumn(s.c3))
  }

  function InvSub(s: State): State {
    State(InvSubColumn(s.c0), InvSubColumn(s.c1), InvSubColumn(s.c2), InvSubColumn(s.c3))
  }

  function Mix(s: State): State {
    State(MixColumn(s.c0), MixColumn(s.c1), MixColumn(s.c2), MixColumn(s.c3))
  }

  function InvMix(s: State): State {
    State(InvMixColumn(s.c0), InvMixColumn(s.c1), InvMixColumn(s.c2), InvMixColumn(s.c3))
  }

  // ---------- The cipher ----------

  // The state after round key i of the encryption, the last round excepted.
  function Rounds(s: State, key: seq<bv32>, i: nat): State
    requires 4 * i + 4 <= |key|
  {
    AddKey(if i == 0 then s else Mix(Shift(Sub(Rounds(s, key, i - 1)))), RoundKey(key, i))
  }

  // The last round has no MixColumns.
  function Cipher(s: State, key: seq<bv32>, rounds: nat): State
    requires 0 < rounds && 4 * rounds + 4 <= |key|
  {
    AddKey(Shift(Sub(Rounds(s, key, rounds - 1))), RoundKey(key, rounds))
  }

  // From round key i of the decryption, counted down, to the plaintext.
  function InvRounds(s: State, key: seq<bv32>, i: nat): State
    requires 4 * i + 4 <= |key|
    decreases i
  {
    var t := AddKey(s, RoundKey(key, i));
    if i == 0 then t else InvRounds(InvSub(InvShift(InvMix(t))), key, i - 1)
  }

  function InvCipher(s: State, key: seq<bv32>, rounds: nat): State
    requires 0 < rounds && 4 * rounds + 4 <= |key|
  {
    InvRounds(InvSub(InvShift(AddKey(s, RoundKey(key, rounds)))), key, rounds - 1)
  }

  // ---------- Decryption undoes encryption ----------

  lemma AddColumnCancels(c: Column, k: Column)
    ensures AddColumn(AddColumn(c, k), k) == c
  {
    hide Add;
    AddLaws(c.r0, k.r0);
    AddLaws(c.r1, k.r1);
    AddLaws(c.r2, k.r2);
    AddLaws(c.r3, k.r3);
  }

  lemma AddKeyCancels(s: State, w: seq<bv32>)
    requires |w| == 4
    ensures AddKey(AddKey(s, w), w) == s
  {
    hide AddColumn, WordColumn;
    AddColumnCancels(s.c0, WordColumn(w[0]));
    AddColumnCancels(s.c1, WordColumn(w[1]));
    AddColumnCancels(s.c2, WordColumn(w[2]));
    AddColumnCancels(s.c3, WordColumn(w[3]));
  }

  lemma SubColumnInverts(c: Column)
    ensures InvSubColumn(SubColumn(c)) == c
  {
    hide Sbox, InvSbox;
    SboxInverts(c.r0);
    SboxInverts(c.r1);
    SboxInverts(c.r2);
    SboxInverts(c.r3);
  }

  lemma SubInverts(s: State)
    ensures InvSub(Sub(s)) == s
  {
    hide SubColumn, InvSubColumn;
    SubColumnInverts(s.c0);
    SubColumnInverts(s.c1);
    SubColumnInverts(s.c2);
    SubColumnInverts(s.c3);
  }

  lemma ShiftInverts(s: State)
    ensures InvShift(Shift(s)) == s
  {
  }

  // One byte of InvMixColumns after MixColumns: the sums over the four rows transpose, and the matrices multiply
  // to the identity.
  lemma MixByteInverts(a: Byte, b: Byte, c: Byte, d: Byte)
    ensures InvMixByte(MixByte(a, b, c, d), MixByte(b, c, d, a), MixByte(c, d, a, b), MixByte(d, a, b, c)) == a
  {
    MixBitsInvert(a.bits, b.bits, c.bits, d.bits);
    hide AesTables.Gf2, AesTables.Gf3, AesTables.Gf9, AesTables.Gf11, AesTables.Gf13, AesTables.Gf14, AesField.Sum4;
  }

  lemma MixBitsInvert(a: bv8, b: bv8, c: bv8, d: bv8)
    ensures var m0 := AesField.Sum4(AesTables.Gf2(a), AesTables.Gf3(b), c, d);
            var m1 := AesField.Sum4(AesTables.Gf2(b), AesTables.Gf3(c), d, a);
            var m2 := AesField.Sum4(AesTables.Gf2(c), AesTables.Gf3(d), a, b);
            var m3 := AesField.Sum4(AesTables.Gf2(d), AesTables.Gf3(a), b, c);
            AesField.Sum4(AesTables.Gf14(m0), AesTables.Gf11(m1), AesTables.Gf13(m2), AesTables.Gf9(m3)) == a
  {
    hide AesTables.Gf2, AesTables.Gf3, AesTables.Gf9, AesTables.Gf11, AesTables.Gf13, AesTables.Gf14, AesField.Sum4;
    var a2, b2, c2, d2 := AesTables.Gf2(a), AesTables.Gf2(b), AesTables.Gf2(c), AesTables.Gf2(d);
    var a3, b3, c3, d3 := AesTables.Gf3(a), AesTables.Gf3(b), AesTables.Gf3(c), AesTables.Gf3(d);
    AesField.Sum4Rotate(b2, c3, d, a);
    AesField.Sum4Rotate(c2, d3, a, b);
    AesField.Sum4Rotate(b, c2, d3, a);
    AesField.Sum4Rotate(d2, a3, b, c);
    AesField.Sum4Rotate(c, d2, a3, b);
    AesField.Sum4Rotate(b, c, d2, a3);
    AesField.Gf14Linear(a2, b3, c, d);
    AesField.Gf11Linear(a, b2, c3, d);
    AesField.Gf13Linear(a, b, c2, d3);
    AesField.Gf9Linear(a3, b, c, d2);
    AesField.Sum4Transpose(AesTables.Gf14(a2), AesTables.Gf14(b3), AesTables.Gf14(c), AesTables.Gf14(d),
                           AesTables.Gf11(a), AesTables.Gf11(b2), AesTables.Gf11(c3), AesTables.Gf11(d),
                           AesTables.Gf13(a), AesTables.Gf13(b), AesTables.Gf13(c2), AesTables.Gf13(d3),
                           AesTables.Gf9(a3), AesTables.Gf9(b), AesTables.Gf9(c), AesTables.Gf9(d2));
    AesField.MatrixDiagonal(a);
    AesField.MatrixSecond(b);
    AesField.MatrixThird(c);
    AesField.MatrixFourth(d);
    AesField.Sum4Zeros(a);
  }

  // And the other way round, since the entries of the matrices commute.
  lemma InvMixByteInverts(a: Byte, b: Byte, c: Byte, d: Byte)
    ensures MixByte(InvMixByte(a, b, c, d), InvMixByte(b, c, d, a), InvMixByte(c, d, a, b), InvMixByte(d, a, b, c)) == a
  {
    InvMixBitsInvert(a.bits, b.bits, c.bits, d.bits);
    hide AesTables.Gf2, AesTables.Gf3, AesTables.Gf9, AesTables.Gf11, AesTables.Gf13, AesTables.Gf14, AesField.Sum4;
  }

  lemma InvMixBitsInvert(a: bv8, b: bv8, c: bv8, d: bv8)
    ensures var m0 := AesField.Sum4(AesTables.Gf14(a), AesTables.Gf11(b), AesTables.Gf13(c), AesTables.Gf9(d));
            var m1 := AesField.Sum4(AesTables.Gf14(b), AesTables.Gf11(c), AesTables.Gf13(d), AesTables.Gf9(a));
            var m2 := AesField.Sum4(AesTables.Gf14(c), AesTables.Gf11(d), AesTables.Gf13(a), AesTables.Gf9(b));
            var m3 := AesField.Sum4(AesTables.Gf14(d), AesTables.Gf11(a), AesTables.Gf13(b), AesTables.Gf9(c));
            AesField.Sum4(AesTables.Gf2(m0), AesTables.Gf3(m1), m2, m3) == a
  {
    hide AesTables.Gf2, AesTables.Gf3, AesTables.Gf9, AesTables.Gf11, AesTables.Gf13, AesTables.Gf14, AesField.Sum4;
    var a9, b9, c9, d9 := AesTables.Gf9(a), AesTables.Gf9(b), AesTables.Gf9(c), AesTables.Gf9(d);
    var aB, bB, cB, dB := AesTables.Gf11(a), AesTables.Gf11(b), AesTables.Gf11(c), AesTables.Gf11(d);
    var aD, bD, cD, dD := AesTables.Gf13(a), AesTables.Gf13(b), AesTables.Gf13(c), AesTables.Gf13(d);
    var aE, bE, cE, dE := AesTables.Gf14(a), AesTables.Gf14(b), AesTables.Gf14(c), AesTables.Gf14(d);
    AesField.Sum4Rotate(bE, cB, dD, a9);
    AesField.Sum4Rotate(cE, dB, aD, b9);
    AesField.Sum4Rotate(b9, cE, dB, aD);
    AesField.Sum4Rotate(aB, bD, c9, dE);
    AesField.Gf2Linear(aE, bB, cD, d9);
    AesField.Gf3Linear(a9, bE, cB, dD);
    AesField.Sum4Transpose(AesTables.Gf2(aE), AesTables.Gf2(bB), AesTables.Gf2(cD), AesTables.Gf2(d9),
                           AesTables.Gf3(a9), AesTables.Gf3(bE), AesTables.Gf3(cB), AesTables.Gf3(dD),
                           aD, b9, cE, dB, aB, bD, c9, dE);
    EntriesCommute(a);
    EntriesCommute(b);
    EntriesCommute(c);
    EntriesCommute(d);
    AesField.Sum4Zeros(a);
  }

  // The columns of the product of the matrices, in this order.
  lemma EntriesCommute(x: bv8)
    ensures AesField.Sum4(AesTables.Gf2(AesTables.Gf14(x)), AesTables.Gf3(AesTables.Gf9(x)),
                          AesTables.Gf13(x), AesTables.Gf11(x)) == x
    ensures AesField.Sum4(AesTables.Gf2(AesTables.Gf11(x)), AesTables.Gf3(AesTables.Gf14(x)),
                          AesTables.Gf9(x), AesTables.Gf13(x)) == 0
    ensures AesField.Sum4(AesTables.Gf2(AesTables.Gf13(x)), AesTables.Gf3(AesTables.Gf11(x)),
                          AesTables.Gf14(x), AesTables.Gf9(x)) == 0
    ensures AesField.Sum4(AesTables.Gf2(AesTables.Gf9(x)), AesTables.Gf3(AesTables.Gf13(x)),
                          AesTables.Gf11(x), AesTables.Gf14(x)) == 0
  {
    hide AesTables.Gf2, AesTables.Gf3, AesTables.Gf9, AesTables.Gf11, AesTables.Gf13, AesTables.Gf14, AesField.Sum4;
    AesField.Gf2Commutes(x);
    AesField.Gf3Commutes(x);
    AesField.MatrixDiagonal(x);
    AesField.MatrixSecond(x);
    AesField.MatrixThird(x);
    AesField.MatrixFourth(x);
    var x2, x3 := AesTables.Gf2(x), AesTables.Gf3(x);
    AesField.Sum4Swap(AesTables.Gf14(x2), AesTables.Gf11(x), AesTables.Gf13(x), AesTables.Gf9(x3));
    AesField.Sum4Swap(AesTables.Gf14(x3), AesTables.Gf11(x2), AesTables.Gf13(x), AesTables.Gf9(x));
    AesField.Sum4Swap(AesTables.Gf14(x), AesTables.Gf11(x3), AesTables.Gf13(x2), AesTables.Gf9(x));
    AesField.Sum4Swap(AesTables.Gf14(x), AesTables.Gf11(x), AesTables.Gf13(x3), AesTables.Gf9(x2));
    AesField.Sum4Rotate(AesTables.Gf11(x), AesTables.Gf13(x3), AesTables.Gf9(x2), AesTables.Gf14(x));
    AesField.Sum4Rotate(AesTables.Gf9(x2), AesTables.Gf13(x3), AesTables.Gf11(x), AesTables.Gf14(x));
  }

  lemma MixColumnInverts(c: Column)
    ensures InvMixColumn(MixColumn(c)) == c
  {
    hide MixByte, InvMixByte;
    MixByteInverts(c.r0, c.r1, c.r2, c.r3);
    MixByteInverts(c.r1, c.r2, c.r3, c.r0);
    MixByteInverts(c.r2, c.r3, c.r0, c.r1);
    MixByteInverts(c.r3, c.r0, c.r1, c.r2);
  }

  lemma MixInverts(s: State)
    ensures InvMix(Mix(s)) == s
  {
    hide MixColumn, InvMixColumn;
    MixColumnInverts(s.c0);
    MixColumnInverts(s.c1);
    MixColumnInverts(s.c2);
    MixColumnInverts(s.c3);
  }

  lemma {:induction false} InvRoundsInvert(s: State, key: seq<bv32>, i: nat)
    requires 4 * i + 4 <= |key|
    ensures InvRounds(Rounds(s, key, i), key, i) == s
  {
    hide AddKey, Mix, InvMix, Shift, InvShift, Sub, InvSub;
    if i == 0 {
      AddKeyCancels(s, RoundKey(key, 0));
    } else {
      var t := Rounds(s, key, i - 1);
      AddKeyCancels(Mix(Shift(Sub(t))), RoundKey(key, i));
      MixInverts(Shift(Sub(t)));
      ShiftInverts(Sub(t));
      SubInverts(t);
      InvRoundsInvert(s, key, i - 1);
    }
  }

  // For any number of rounds and any key schedule.
  lemma InvCipherInverts(s: State, key: seq<bv32>, rounds: nat)
    requires 0 < rounds && 4 * rounds + 4 <= |key|
    ensures InvCipher(Cipher(s, key, rounds), key, rounds) == s
  {
    hide AddKey, Shift, InvShift, Sub, InvSub, Rounds, InvRounds;
    var t := Rounds(s, key, rounds - 1);
    AddKeyCancels(Shift(Sub(t)), RoundKey(key, rounds));
    ShiftInverts(Sub(t));
    SubInverts(t);
    InvRoundsInvert(s, key, rounds - 1);
  }

  // ---------- Encryption undoes decryption ----------

  lemma InvSboxInverts(b: Byte)
    ensures Sbox(InvSbox(b)) == b
  {
    hide AesTables.Sbox, AesTables.InvSbox;
    AesField.SboxInverts(b.bits);
  }

  lemma InvSubColumnInverts(c: Column)
    ensures SubColumn(InvSubColumn(c)) == c
  {
    hide Sbox, InvSbox;
    InvSboxInverts(c.r0);
    InvSboxInverts(c.r1);
    InvSboxInverts(c.r2);
    InvSboxInverts(c.r3);
  }

  lemma InvSubInverts(s: State)
    ensures Sub(InvSub(s)) == s
  {
    hide SubColumn, InvSubColumn;
    InvSubColumnInverts(s.c0);
    InvSubColumnInverts(s.c1);
    InvSubColumnInverts(s.c2);
    InvSubColumnInverts(s.c3);
  }

  lemma InvShiftInverts(s: State)
    ensures Shift(InvShift(s)) == s
  {
  }

  lemma InvMixColumnInverts(c: Column)
    ensures MixColumn(InvMixColumn(c)) == c
  {
    hide MixByte, InvMixByte;
    InvMixByteInverts(c.r0, c.r1, c.r2, c.r3);
    InvMixByteInverts(c.r1, c.r2, c.r3, c.r0);
    InvMixByteInverts(c.r2, c.r3, c.r0, c.r1);
    InvMixByteInverts(c.r3, c.r0, c.r1, c.r2);
  }

  lemma InvMixInverts(s: State)
    ensures Mix(InvMix(s)) == s
  {
    hide MixColumn, InvMixColumn;
    InvMixColumnInverts(s.c0);
    InvMixColumnInverts(s.c1);
    InvMixColumnInverts(s.c2);
    InvMixColumnInverts(s.c3);
  }

  lemma {:induction false} RoundsInvert(s: State, key: seq<bv32>, i: nat)
    requires 4 * i + 4 <= |key|
    ensures Rounds(InvRounds(s, key, i), key, i) == s
    decreases i
  {
    hide AddKey, Mix, InvMix, Shift, InvShift, Sub, InvSub;
    AddKeyCancels(s, RoundKey(key, i));
    if i == 0 {
    } else {
      var t := AddKey(s, RoundKey(key, i));
      InvMixInverts(t);
      InvShiftInverts(InvMix(t));
      InvSubInverts(InvShift(InvMix(t)));
      RoundsInvert(InvSub(InvShift(InvMix(t))), key, i - 1);
    }
  }

  // For any number of rounds and any key schedule.
  lemma CipherInverts(s: State, key: seq<bv32>, rounds: nat)
    requires 0 < rounds && 4 * rounds + 4 <= |key|
    ensures Cipher(InvCipher(s, key, rounds), key, rounds) == s
  {
    hide AddKey, Shift, InvShift, Sub, InvSub, Rounds, InvRounds;
    var t := AddKey(s, RoundKey(key, rounds));
    RoundsInvert(InvSub(InvShift(t)), key, rounds - 1);
    InvSubInverts(InvShift(t));
    InvShiftInverts(t);
    AddKeyCancels(s, RoundKey(key, rounds));
  }

  // ---------- The round steps, in place ----------

  ghost function ColumnAt(state: array2<Byte>, c: nat): Column
    requires state.Length0 == 4 && state.Length1 == 4 && c < 4
    reads state
  {
    Column(state[0, c], state[1, c], state[2, c], state[3, c])
  }

  ghost function View(state: array2<Byte>): State
    requires state.Length0 == 4 && state.Length1 == 4
    reads state
  {
    State(ColumnAt(state, 0), ColumnAt(state, 1), ColumnAt(state, 2), ColumnAt(state, 3))
  }

  // A step that changes column c only.
  twostate predicate OnlyColumn(state: array2<Byte>, c: nat)
    requires state.Length0 == 4 && state.Length1 == 4 && c < 4
    reads state
  {
    forall d :: 0 <= d < 4 && d != c ==> ColumnAt(state, d) == old(ColumnAt(state, d))
  }

  // The block of statements that AddRoundKey repeats for each column.
  method AddKeyWord(state: array2<Byte>, w: bv32, c: nat)
    requires state.Length0 == 4 && state.Length1 == 4 && c < 4
    modifies state
    ensures ColumnAt(state, c) == AddColumn(old(ColumnAt(state, c)), WordColumn(w))
    ensures OnlyColumn(state, c)
  {
    hide Add, WordColumn;
    var subkey := WordColumn(w);
    state[0, c] := Add(state[0, c], subkey.r0);
    state[1, c] := Add(state[1, c], subkey.r1);
    state[2, c] := Add(state[2, c], subkey.r2);
    state[3, c] := Add(state[3, c], subkey.r3);
  }

  // The round key is the four words from index `at` on.
  method AddRoundKey(state: array2<Byte>, key: seq<bv32>, at: nat)
    requires state.Length0 == 4 && state.Length1 == 4 && at + 4 <= |key|
    modifies state
    ensures View(state) == AddKey(old(View(state)), key[at..at + 4])
  {
    hide AddColumn, WordColumn, ColumnAt;
    AddKeyWord(state, key[at + 0], 0);
    AddKeyWord(state, key[at + 1], 1);
    AddKeyWord(state, key[at + 2], 2);
    AddKeyWord(state, key[at + 3], 3);
  }

  method SubOneColumn(state: array2<Byte>, c: nat)
    requires state.Length0 == 4 && state.Length1 == 4 && c < 4
    modifies state
    ensures ColumnAt(state, c) == SubColumn(old(ColumnAt(state, c)))
    ensures OnlyColumn(state, c)
  {
    hide Sbox;
    state[0, c] := Sbox(state[0, c]);
    state[1, c] := Sbox(state[1, c]);
    state[2, c] := Sbox(state[2, c]);
    state[3, c] := Sbox(state[3, c]);
  }

  method SubBytes(state: array2<Byte>)
    requires state.Length0 == 4 && state.Length1 == 4
    modifies state
    ensures View(state) == Sub(old(View(state)))
  {
    hide SubColumn, ColumnAt;
    SubOneColumn(state, 0);
    SubOneColumn(state, 1);
    SubOneColumn(state, 2);
    SubOneColumn(state, 3);
  }

  method InvSubOneColumn(state: array2<Byte>, c: nat)
    requires state.Length0 == 4 && state.Length1 == 4 && c < 4
    modifies state
    ensures ColumnAt(state, c) == InvSubColumn(old(ColumnAt(state, c)))
    ensures OnlyColumn(state, c)
  {
    hide InvSbox;
    state[0, c] := InvSbox(state[0, c]);
    state[1, c] := InvSbox(state[1, c]);
    state[2, c] := InvSbox(state[2, c]);
    state[3, c] := InvSbox(state[3, c]);
  }

  method InvSubBytes(state: array2<Byte>)
    requires state.Length0 == 4 && state.Length1 == 4
    modifies state
    ensures View(state) == InvSub(old(View(state)))
  {
    hide InvSubColumn, ColumnAt;
    InvSubOneColumn(state, 0);
    InvSubOneColumn(state, 1);
    InvSubOneColumn(state, 2);
    InvSubOneColumn(state, 3);
  }

  method ShiftRows(state: array2<Byte>)
    requires state.Length0 == 4 && state.Length1 == 4
    modifies state
    ensures View(state) == Shift(old(View(state)))
  {
    // Shift left by 1
    var t := state[1, 0];
    state[1, 0] := state[1, 1];
    state[1, 1] := state[1, 2];
    state[1, 2] := state[1, 3];
    state[1, 3] := t;
    // Shift left by 2
    t := state[2, 0];
    state[2, 0] := state[2, 2];
    state[2, 2] := t;
    t := state[2, 1];
    state[2, 1] := state[2, 3];
    state[2, 3] := t;
    // Shift left by 3
    t := state[3, 0];
    state[3, 0] := state[3, 3];
    state[3, 3] := state[3, 2];
    state[3, 2] := state[3, 1];
    state[3, 1] := t;
  }

  method InvShiftRows(state: array2<Byte>)
    requires state.Length0 == 4 && state.Length1 == 4
    modifies state
    ensures View(state) == InvShift(old(View(state)))
  {
    // Shift right by 1
    var t := state[1, 3];
    state[1, 3] := state[1, 2];
    state[1, 2] := state[1, 1];
    state[1, 1] := state[1, 0];
    state[1, 0] := t;
    // Shift right by 2
    t := state[2, 3];
    state[2, 3] := state[2, 1];
    state[2, 1] := t;
    t := state[2, 2];
    state[2, 2] := state[2, 0];
    state[2, 0] := t;
    // Shift right by 3
    t := state[3, 3];
    state[3, 3] := state[3, 0];
    state[3, 0] := state[3, 1];
    state[3, 1] := state[3, 2];
    state[3, 2] := t;
  }

  // The block of statements that MixColumns repeats for each column; the column is copied first.
  method MixOneColumn(state: array2<Byte>, c: nat)
    requires state.Length0 == 4 && state.Length1 == 4 && c < 4
    modifies state
    ensures ColumnAt(state, c) == MixColumn(old(ColumnAt(state, c)))
    ensures OnlyColumn(state, c)
  {
    hide GfMul, Add, Add4;
    var col0, col1, col2, col3 := state[0, c], state[1, c], state[2, c], state[3, c];
    state[0, c] := GfMul(col0, 0);
    state[0, c] := Add(state[0, c], GfMul(col1, 1));
    state[0, c] := Add(state[0, c], col2);
    state[0, c] := Add(state[0, c], col3);
    state[1, c] := col0;
    state[1, c] := Add(state[1, c], GfMul(col1, 0));
    state[1, c] := Add(state[1, c], GfMul(col2, 1));
    state[1, c] := Add(state[1, c], col3);
    state[2, c] := col0;
    state[2, c] := Add(state[2, c], col1);
    state[2, c] := Add(state[2, c], GfMul(col2, 0));
    state[2, c] := Add(state[2, c], GfMul(col3, 1));
    state[3, c] := GfMul(col0, 1);
    state[3, c] := Add(state[3, c], col1);
    state[3, c] := Add(state[3, c], col2);
    state[3, c] := Add(state[3, c], GfMul(col3, 0));
    AddFour(GfMul(col0, 0), GfMul(col1, 1), col2, col3);
    AddFour(col0, GfMul(col1, 0), GfMul(col2, 1), col3);
    Add4Rotate(GfMul(col1, 0), GfMul(col2, 1), col3, col0);
    AddFour(col0, col1, GfMul(col2, 0), GfMul(col3, 1));
    Add4Rotate(GfMul(col2, 0), GfMul(col3, 1), col0, col1);
    Add4Rotate(col1, GfMul(col2, 0), GfMul(col3, 1), col0);
    AddFour(GfMul(col0, 1), col1, col2, GfMul(col3, 0));
    Add4Rotate(GfMul(col3, 0), GfMul(col0, 1), col1, col2);
    Add4Rotate(col2, GfMul(col3, 0), GfMul(col0, 1), col1);
    Add4Rotate(col1, col2, GfMul(col3, 0), GfMul(col0, 1));
  }

  method MixColumns(state: array2<Byte>)
    requires state.Length0 == 4 && state.Length1 == 4
    modifies state
    ensures View(state) == Mix(old(View(state)))
  {
    hide MixColumn, ColumnAt;
    MixOneColumn(state, 0);
    MixOneColumn(state, 1);
    MixOneColumn(state, 2);
    MixOneColumn(state, 3);
  }

  // The block of statements that InvMixColumns repeats for each column.
  method InvMixOneColumn(state: array2<Byte>, c: nat)
    requires state.Length0 == 4 && state.Length1 == 4 && c < 4
    modifies state
    ensures ColumnAt(state, c) == InvMixColumn(old(ColumnAt(state, c)))
    ensures OnlyColumn(state, c)
  {
    hide GfMul, Add, Add4;
    var col0, col1, col2, col3 := state[0, c], state[1, c], state[2, c], state[3, c];
    state[0, c] := GfMul(col0, 5);
    state[0, c] := Add(state[0, c], GfMul(col1, 3));
    state[0, c] := Add(state[0, c], GfMul(col2, 4));
    state[0, c] := Add(state[0, c], GfMul(col3, 2));
    state[1, c] := GfMul(col0, 2);
    state[1, c] := Add(state[1, c], GfMul(col1, 5));
    state[1, c] := Add(state[1, c], GfMul(col2, 3));
    state[1, c] := Add(state[1, c], GfMul(col3, 4));
    state[2, c] := GfMul(col0, 4);
    state[2, c] := Add(state[2, c], GfMul(col1, 2));
    state[2, c] := Add(state[2, c], GfMul(col2, 5));
    state[2, c] := Add(state[2, c], GfMul(col3, 3));
    state[3, c] := GfMul(col0, 3);
    state[3, c] := Add(state[3, c], GfMul(col1, 4));
    state[3, c] := Add(state[3, c], GfMul(col2, 2));
    state[3, c] := Add(state[3, c], GfMul(col3, 5));
    AddFour(GfMul(col0, 5), GfMul(col1, 3), GfMul(col2, 4), GfMul(col3, 2));
    AddFour(GfMul(col0, 2), GfMul(col1, 5), GfMul(col2, 3), GfMul(col3, 4));
    Add4Rotate(GfMul(col1, 5), GfMul(col2, 3), GfMul(col3, 4), GfMul(col0, 2));
    AddFour(GfMul(col0, 4), GfMul(col1, 2), GfMul(col2, 5), GfMul(col3, 3));
    Add4Rotate(GfMul(col2, 5), GfMul(col3, 3), GfMul(col0, 4), GfMul(col1, 2));
    Add4Rotate(GfMul(col1, 2), GfMul(col2, 5), GfMul(col3, 3), GfMul(col0, 4));
    AddFour(GfMul(col0, 3), GfMul(col1, 4), GfMul(col2, 2), GfMul(col3, 5));
    Add4Rotate(GfMul(col3, 5), GfMul(col0, 3), GfMul(col1, 4), GfMul(col2, 2));
    Add4Rotate(GfMul(col2, 2), GfMul(col3, 5), GfMul(col0, 3), GfMul(col1, 4));
    Add4Rotate(GfMul(col1, 4), GfMul(col2, 2), GfMul(col3, 5), GfMul(col0, 3));
  }

  method InvMixColumns(state: array2<Byte>)
    requires state.Length0 == 4 && state.Length1 == 4
    modifies state
    ensures View(state) == InvMix(old(View(state)))
  {
    hide InvMixColumn, ColumnAt;
    InvMixOneColumn(state, 0);
    InvMixOneColumn(state, 1);
    InvMixOneColumn(state, 2);
    InvMixOneColumn(state, 3);
  }

  // ---------- Blocks ----------

  // The sixteen bytes of a block fill the state column by column.
  function FromBlock(b: seq<Byte>): State
    requires |b| == 16
  {
    State(Column(b[0], b[1], b[2], b[3]), Column(b[4], b[5], b[6], b[7]),
          Column(b[8], b[9], b[10], b[11]), Column(b[12], b[13], b[14], b[15]))
  }

  function ToBlock(s: State): (b: seq<Byte>)
    ensures |b| == 16
  {
    [s.c0.r0, s.c0.r1, s.c0.r2, s.c0.r3, s.c1.r0, s.c1.r1, s.c1.r2, s.c1.r3,
     s.c2.r0, s.c2.r1, s.c2.r2, s.c2.r3, s.c3.r0, s.c3.r1, s.c3.r2, s.c3.r3]
  }

  lemma BlockRoundTrip(b: seq<Byte>)
    requires |b| == 16
    ensures ToBlock(FromBlock(b)) == b
  {
  }

  // Row r, column c of the state of a block; section 3.4 of FIPS 197 fills it column by column.
  function At(s: State, r: nat, c: nat): Byte
    requires r < 4 && c < 4
  {
    ToBlock(s)[4 * c + r]
  }

  // Section 5.1.2: row r rotates left by r places.
  lemma ShiftRotatesLeft(s: State, r: nat, c: nat)
    requires r < 4 && c < 4
    ensures At(Shift(s), r, c) == At(s, r, (c + r) % 4)
  {
    if r == 0 {
    } else if r == 1 {
    } else if r == 2 {
    } else {
    }
  }

  // Section 5.3.1: and right again.
  lemma InvShiftRotatesRight(s: State, r: nat, c: nat)
    requires r < 4 && c < 4
    ensures At(InvShift(s), r, (c + r) % 4) == At(s, r, c)
  {
    if r == 0 {
    } else if r == 1 {
    } else if r == 2 {
    } else {
    }
  }

  // How many rounds each direction takes for a key size: the two tests differ.
  function EncryptRounds(keysize: int): nat {
    if keysize != 128 then (if keysize != 192 then 14 else 12) else 10
  }

  function DecryptRounds(keysize: int): nat {
    if keysize > 128 then (if keysize > 192 then 14 else 12) else 10
  }

  lemma RoundCountsAgree(keysize: int)
    ensures EncryptRounds(keysize) == DecryptRounds(keysize) <==> keysize == 128 || keysize >= 192
  {
  }

  function EncryptBlock(b: seq<Byte>, key: seq<bv32>, keysize: int): (c: seq<Byte>)
    requires |b| == 16 && |key| >= 60
    ensures |c| == 16
  {
    ToBlock(Cipher(FromBlock(b), key, EncryptRounds(keysize)))
  }

  function DecryptBlock(b: seq<Byte>, key: seq<bv32>, keysize: int): (c: seq<Byte>)
    requires |b| == 16 && |key| >= 60
    ensures |c| == 16
  {
    ToBlock(InvCipher(FromBlock(b), key, DecryptRounds(keysize)))
  }

  // For every block and every key schedule, and every key size for which both directions take the same rounds.
  lemma DecryptUndoesEncrypt(b: seq<Byte>, key: seq<bv32>, keysize: int)
    requires |b| == 16 && |key| >= 60 && (keysize == 128 || keysize >= 192)
    ensures DecryptBlock(EncryptBlock(b, key, keysize), key, keysize) == b
  {
    hide Cipher, InvCipher;
    var s := FromBlock(b);
    InvCipherInverts(s, key, EncryptRounds(keysize));
    BlockRoundTrip(b);
  }

  // With that the block cipher is a bijection, whatever the schedule.
  lemma EncryptUndoesDecrypt(b: seq<Byte>, key: seq<bv32>, keysize: int)
    requires |b| == 16 && |key| >= 60 && (keysize == 128 || keysize >= 192)
    ensures EncryptBlock(DecryptBlock(b, key, keysize), key, keysize) == b
  {
    hide Cipher, InvCipher;
    var s := FromBlock(b);
    CipherInverts(s, key, EncryptRounds(keysize));
    BlockRoundTrip(b);
  }

  method LoadBlock(input: array<Byte>, state: array2<Byte>)
    requires input.Length == 16 && state.Length0 == 4 && state.Length1 == 4
    modifies state
    ensures View(state) == FromBlock(input[..])
  {
    forall r, c | 0 <= r < 4 && 0 <= c < 4 {
      state[r, c] := input[4 * c + r];
    }
  }

  method StoreBlock(state: array2<Byte>, output: array<Byte>)
    requires output.Length == 16 && state.Length0 == 4 && state.Length1 == 4
    modifies output
    ensures output[..] == ToBlock(View(state))
  {
    forall n | 0 <= n < 16 {
      output[n] := state[n % 4, n / 4];
    }
  }

  method EncryptRound(state: array2<Byte>, key: seq<bv32>, i: nat, ghost start: State)
    requires state.Length0 == 4 && state.Length1 == 4 && 0 < i && 4 * i + 4 <= |key|
    requires View(state) == Rounds(start, key, i - 1)
    modifies state
    ensures View(state) == Rounds(start, key, i)
  {
    hide View, Sub, Shift, Mix, AddKey;
    SubBytes(state);
    ShiftRows(state);
    MixColumns(state);
    AddRoundKey(state, key, 4 * i);
  }

  method EncryptLastRound(state: array2<Byte>, key: seq<bv32>, i: nat, ghost start: State)
    requires state.Length0 == 4 && state.Length1 == 4 && 0 < i && 4 * i + 4 <= |key|
    requires View(state) == Rounds(start, key, i - 1)
    modifies state
    ensures View(state) == Cipher(start, key, i)
  {
    hide View, Sub, Shift, Mix, AddKey;
    SubBytes(state);
    ShiftRows(state);
    AddRoundKey(state, key, 4 * i);
  }

  // aes_encrypt, its unrolled rounds written as one call each.
  method Encrypt(input: array<Byte>, output: array<Byte>, key: seq<bv32>, keysize: int)
    requires input.Length == 16 && output.Length == 16 && |key| >= 60
    modifies output
    ensures output[..] == EncryptBlock(old(input[..]), key, keysize)
  {
    hide View, FromBlock, ToBlock, AddKey, Rounds, Cipher;
    var state := new Byte[4, 4]((r, c) => ZERO);
    LoadBlock(input, state);
    ghost var start := View(state);
    FirstRound(start, key);
    AddRoundKey(state, key, 0);
    EncryptRound(state, key, 1, start);
    EncryptRound(state, key, 2, start);
    EncryptRound(state, key, 3, start);
    EncryptRound(state, key, 4, start);
    EncryptRound(state, key, 5, start);
    EncryptRound(state, key, 6, start);
    EncryptRound(state, key, 7, start);
    EncryptRound(state, key, 8, start);
    EncryptRound(state, key, 9, start);
    if keysize != 128 {
      EncryptRound(state, key, 10, start);
      EncryptRound(state, key, 11, start);
      if keysize != 192 {
        EncryptRound(state, key, 12, start);
        EncryptRound(state, key, 13, start);
        EncryptLastRound(state, key, 14, start);
      } else {
        EncryptLastRound(state, key, 12, start);
      }
    } else {
      EncryptLastRound(state, key, 10, start);
    }
    StoreBlock(state, output);
  }

  lemma FirstRound(s: State, key: seq<bv32>)
    requires |key| >= 4
    ensures Rounds(s, key, 0) == AddKey(s, key[0..0 + 4])
    ensures InvRounds(s, key, 0) == AddKey(s, key[0..0 + 4])
  {
    hide AddKey;
  }

  // What is left to do once round key i has been reached.
  method DecryptRound(state: array2<Byte>, key: seq<bv32>, i: nat, ghost result: State)
    requires state.Length0 == 4 && state.Length1 == 4 && 0 < i && 4 * i + 4 <= |key|
    requires InvRounds(View(state), key, i) == result
    modifies state
    ensures InvRounds(View(state), key, i - 1) == result
  {
    hide View, InvSub, InvShift, InvMix, AddKey;
    AddRoundKey(state, key, 4 * i);
    InvMixColumns(state);
    InvShiftRows(state);
    InvSubBytes(state);
  }

  method DecryptFirstRound(state: array2<Byte>, key: seq<bv32>, i: nat, ghost start: State)
    requires state.Length0 == 4 && state.Length1 == 4 && 0 < i && 4 * i + 4 <= |key|
    requires View(state) == start
    modifies state
    ensures InvRounds(View(state), key, i - 1) == InvCipher(start, key, i)
  {
    hide View, InvSub, InvShift, InvMix, AddKey, InvRounds;
    AddRoundKey(state, key, 4 * i);
    InvShiftRows(state);
    InvSubBytes(state);
  }

  // aes_decrypt; a round here starts with its AddRoundKey and ends before the next.
  method Decrypt(input: array<Byte>, output: array<Byte>, key: seq<bv32>, keysize: int)
    requires input.Length == 16 && output.Length == 16 && |key| >= 60
    modifies output
    ensures output[..] == DecryptBlock(old(input[..]), key, keysize)
  {
    hide View, FromBlock, ToBlock, AddKey, InvRounds, InvCipher;
    var state := new Byte[4, 4]((r, c) => ZERO);
    LoadBlock(input, state);
    ghost var start := View(state);
    ghost var result := InvCipher(start, key, DecryptRounds(keysize));
    if keysize > 128 {
      if keysize > 192 {
        DecryptFirstRound(state, key, 14, start);
        DecryptRound(state, key, 13, result);
        DecryptRound(state, key, 12, result);
      } else {
        DecryptFirstRound(state, key, 12, start);
      }
      DecryptRound(state, key, 11, result);
      DecryptRound(state, key, 10, result);
    } else {
      DecryptFirstRound(state, key, 10, start);
    }
    DecryptRound(state, key, 9, result);
    DecryptRound(state, key, 8, result);
    DecryptRound(state, key, 7, result);
    DecryptRound(state, key, 6, result);
    DecryptRound(state, key, 5, result);
    DecryptRound(state, key, 4, result);
    DecryptRound(state, key, 3, result);
    DecryptRound(state, key, 2, result);
    DecryptRound(state, key, 1, result);
    FirstRound(View(state), key);
    AddRoundKey(state, key, 0);
    StoreBlock(state, output);
  }
}
