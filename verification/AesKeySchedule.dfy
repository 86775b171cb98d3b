/** aes_key_setup of examples/aes_encrypt/aes.c against the key expansion of section 5.2 of FIPS 197.

    The reference works on words as columns of four bytes and takes its round constants from doubling in GF(2^8);
    the code works on 32-bit integers and a table of constants. */
module AesKeySchedule {
  import opened Aes
  import AesTables
  import AesField

  // ---------- The reference ----------

  function RotateColumn(c: Column): Column { Column(c.r1, c.r2, c.r3, c.r0) }

  // The power of x that round constant j holds.
  function PowerOfX(j: nat): bv8 {
    if j == 0 then 1 else AesField.XTime(PowerOfX(j - 1))
  }

  function RoundConstant(j: nat): Column { Column(Byte(PowerOfX(j)), ZERO, ZERO, ZERO) }

  function Change(temp: Column, nk: nat, i: nat): Column
    requires 0 < nk <= i
  {
    if i % nk == 0 then AddColumn(SubColumn(RotateColumn(temp)), RoundConstant(i / nk - 1))
    else if nk > 6 && i % nk == 4 then SubColumn(temp)
    else temp
  }

  function Expand(key: seq<Byte>, nk: nat, i: nat): Column
    requires 0 < nk && |key| == 4 * nk
  {
    if i < nk then Column(key[4 * i], key[4 * i + 1], key[4 * i + 2], key[4 * i + 3])
    else
      AddColumn(Expand(key, nk, i - nk), Change(Expand(key, nk, i - 1), nk, i))
  }

  // ---------- The code ----------

  function Rotate(w: bv32): bv32 { (w << 8) | (w >> 24) }

  function JoinSum(b0: bv8, b1: bv8, b2: bv8, b3: bv8): bv32 {
    (b3 as bv32) + ((b2 as bv32) << 8) + ((b1 as bv32) << 16) + ((b0 as bv32) << 24)
  }

  function JoinOr(b0: bv8, b1: bv8, b2: bv8, b3: bv8): bv32 {
    ((b0 as bv32) << 24) | ((b1 as bv32) << 16) | ((b2 as bv32) << 8) | (b3 as bv32)
  }

  // The lookups of the code index the table by the two nibbles of each byte.
  function SubWord(w: bv32): bv32 {
    JoinSum(AesTables.Sbox(((w >> 24) & 0xFF) as bv8), AesTables.Sbox(((w >> 16) & 0xFF) as bv8),
            AesTables.Sbox(((w >> 8) & 0xFF) as bv8), AesTables.Sbox((w & 0xFF) as bv8))
  }

  const RCON: seq<bv32> := [0x01000000, 0x02000000, 0x04000000, 0x08000000, 0x10000000, 0x20000000, 0x40000000,
                            0x80000000, 0x1b000000, 0x36000000, 0x6c000000, 0xd8000000, 0xab000000, 0x4d000000,
                            0x9a000000]

  function Rcon(j: nat): bv32
    requires j < 15
  {
    RCON[j]
  }

  function XorWord(a: bv32, b: bv32): bv32 { a ^ b }

  lemma RotateIsRotateColumn(w: bv32)
    ensures WordColumn(Rotate(w)) == RotateColumn(WordColumn(w))
  {
  }

  lemma JoinedColumn(b0: bv8, b1: bv8, b2: bv8, b3: bv8)
    ensures WordColumn(JoinSum(b0, b1, b2, b3)) == Column(Byte(b0), Byte(b1), Byte(b2), Byte(b3))
    ensures JoinOr(b0, b1, b2, b3) == JoinSum(b0, b1, b2, b3)
  {
  }

  lemma SubWordIsSubColumn(w: bv32)
    ensures WordColumn(SubWord(w)) == SubColumn(WordColumn(w))
  {
    hide JoinSum, AesTables.Sbox;
    JoinedColumn(AesTables.Sbox(((w >> 24) & 0xFF) as bv8), AesTables.Sbox(((w >> 16) & 0xFF) as bv8),
                 AesTables.Sbox(((w >> 8) & 0xFF) as bv8), AesTables.Sbox((w & 0xFF) as bv8));
  }

  lemma XorWordIsAddColumn(a: bv32, b: bv32)
    ensures WordColumn(XorWord(a, b)) == AddColumn(WordColumn(a), WordColumn(b))
  {
  }

  lemma PowersOfX()
    ensures PowerOfX(0) == 0x01 && PowerOfX(1) == 0x02 && PowerOfX(2) == 0x04 && PowerOfX(3) == 0x08
    ensures PowerOfX(4) == 0x10 && PowerOfX(5) == 0x20 && PowerOfX(6) == 0x40 && PowerOfX(7) == 0x80
    ensures PowerOfX(8) == 0x1B && PowerOfX(9) == 0x36 && PowerOfX(10) == 0x6C && PowerOfX(11) == 0xD8
    ensures PowerOfX(12) == 0xAB && PowerOfX(13) == 0x4D && PowerOfX(14) == 0x9A
  {
  }

  lemma RconIsRoundConstant(j: nat)
    requires j < 15
    ensures WordColumn(Rcon(j)) == RoundConstant(j)
  {
    hide PowerOfX;
    PowersOfX();
  }

  // The number of key words and of rounds for a key size the code accepts.
  function KeyWords(keysize: int): nat {
    if keysize == 128 then 4 else if keysize == 192 then 6 else 8
  }

  // The schedule is right up to word n.
  ghost predicate Scheduled(w: seq<bv32>, key: seq<Byte>, nk: nat, n: nat)
    requires 0 < nk && |key| == 4 * nk
  {
    n <= |w| && forall i :: 0 <= i < n ==> WordColumn(w[i]) == Expand(key, nk, i)
  }

  lemma ConstantInRange(nk: nat, i: nat)
    requires nk in {4, 6, 8} && nk <= i < 60
    ensures (i - 1) / nk < 15
  {
    if nk == 4 {
      assert (i - 1) / 4 < 15;
    } else if nk == 6 {
      assert (i - 1) / 6 < 15;
    } else {
      assert (i - 1) / 8 < 15;
    }
  }

  // What the second loop does to the previous word.
  function ChangeWord(temp: bv32, nk: nat, i: nat): bv32
    requires nk in {4, 6, 8} && nk <= i < 60
  {
    ConstantInRange(nk, i);
    if i % nk == 0 then XorWord(SubWord(Rotate(temp)), Rcon((i - 1) / nk))
    else if nk > 6 && i % nk == 4 then SubWord(temp)
    else temp
  }

  lemma ConstantIndex(nk: nat, i: nat)
    requires nk in {4, 6, 8} && nk <= i < 60 && i % nk == 0
    ensures (i - 1) / nk == i / nk - 1 < 15
  {
    if nk == 4 {
      assert (i - 1) / 4 == i / 4 - 1;
    } else if nk == 6 {
      assert (i - 1) / 6 == i / 6 - 1;
    } else {
      assert (i - 1) / 8 == i / 8 - 1;
    }
  }

  lemma ChangeWordIsChange(temp: bv32, nk: nat, i: nat)
    requires nk in {4, 6, 8} && nk <= i < 60
    ensures WordColumn(ChangeWord(temp, nk, i)) == Change(WordColumn(temp), nk, i)
  {
    hide WordColumn, AddColumn, SubColumn, RotateColumn, SubWord, Rotate, XorWord, Rcon, RoundConstant;
    if i % nk == 0 {
      ConstantIndex(nk, i);
      RotateIsRotateColumn(temp);
      SubWordIsSubColumn(Rotate(temp));
      RconIsRoundConstant(i / nk - 1);
      XorWordIsAddColumn(SubWord(Rotate(temp)), Rcon(i / nk - 1));
    } else if nk > 6 && i % nk == 4 {
      SubWordIsSubColumn(temp);
    }
  }

  lemma NextWordExpands(w: seq<bv32>, key: seq<Byte>, nk: nat, i: nat)
    requires nk in {4, 6, 8} && nk <= i <= |w| && i < 60 && |key| == 4 * nk
    requires Scheduled(w, key, nk, i)
    ensures WordColumn(XorWord(w[i - nk], ChangeWord(w[i - 1], nk, i))) == Expand(key, nk, i)
  {
    hide WordColumn, AddColumn, Change, XorWord, ChangeWord;
    ChangeWordIsChange(w[i - 1], nk, i);
    XorWordIsAddColumn(w[i - nk], ChangeWord(w[i - 1], nk, i));
  }

  // Any other key size leaves the schedule untouched.
  method KeySetup(key: array<Byte>, w: array<bv32>, keysize: int)
    requires w.Length == 60
    requires keysize in {128, 192, 256} ==> key.Length == 4 * KeyWords(keysize)
    modifies w
    ensures keysize in {128, 192, 256} ==>
              Scheduled(w[..], key[..], KeyWords(keysize), 4 * (EncryptRounds(keysize) + 1))
    ensures keysize !in {128, 192, 256} ==> w[..] == old(w[..])
    ensures forall i :: 4 * (EncryptRounds(keysize) + 1) <= i < 60 ==> w[i] == old(w[i])
  {
    hide WordColumn, Expand, XorWord, SubWord, Rotate, Rcon, JoinOr;
    var nb, nr, nk := 4, 0, 0;
    match keysize {
      case 128 => nr, nk := 10, 4;
      case 192 => nr, nk := 12, 6;
      case 256 => nr, nk := 14, 8;
      case _ => return;
    }
    var idx := 0;
    while idx < nk
      invariant forall i :: 4 * (EncryptRounds(keysize) + 1) <= i < 60 ==> w[i] == old(w[i])
      invariant 0 <= idx <= nk && Scheduled(w[..], key[..], nk, idx)
    {
      FirstWord(key[..], nk, idx);
      w[idx] := JoinOr(key[4 * idx].bits, key[4 * idx + 1].bits, key[4 * idx + 2].bits, key[4 * idx + 3].bits);
      idx := idx + 1;
    }
    while idx < nb * (nr + 1)
      invariant forall i :: 4 * (EncryptRounds(keysize) + 1) <= i < 60 ==> w[i] == old(w[i])
      invariant nk <= idx <= nb * (nr + 1) && Scheduled(w[..], key[..], nk, idx)
    {
      var temp := w[idx - 1];
      ConstantInRange(nk, idx);
      if idx % nk == 0 {
        temp := XorWord(SubWord(Rotate(temp)), Rcon((idx - 1) / nk));
      } else if nk > 6 && idx % nk == 4 {
        temp := SubWord(temp);
      }
      NextWordExpands(w[..], key[..], nk, idx);
      w[idx] := XorWord(w[idx - nk], temp);
      idx := idx + 1;
    }
  }

  lemma FirstWord(key: seq<Byte>, nk: nat, i: nat)
    requires |key| == 4 * nk && i < nk
    ensures WordColumn(JoinOr(key[4 * i].bits, key[4 * i + 1].bits, key[4 * i + 2].bits, key[4 * i + 3].bits)) ==
            Expand(key, nk, i)
  {
    hide JoinOr, JoinSum;
    JoinedColumn(key[4 * i].bits, key[4 * i + 1].bits, key[4 * i + 2].bits, key[4 * i + 3].bits);
  }

  // ---------- The whole schedule as a value ----------

  function ColumnWord(c: Column): bv32 { JoinOr(c.r0.bits, c.r1.bits, c.r2.bits, c.r3.bits) }

  // Words past the last round key are never read; they are zero here.
  function Schedule(key: seq<Byte>, keysize: int): (w: seq<bv32>)
    requires |key| == 4 * KeyWords(keysize)
    ensures |w| == 60
  {
    seq(60, i requires 0 <= i < 60 =>
      if i < 4 * (EncryptRounds(keysize) + 1) then ColumnWord(Expand(key, KeyWords(keysize), i)) else 0)
  }

  lemma ColumnWordRoundTrip(w: bv32)
    ensures ColumnWord(WordColumn(w)) == w
  {
  }

  lemma ScheduledIsSchedule(w: seq<bv32>, key: seq<Byte>, keysize: int)
    requires |w| == 60 && |key| == 4 * KeyWords(keysize)
    requires Scheduled(w, key, KeyWords(keysize), 4 * (EncryptRounds(keysize) + 1))
    requires forall i :: 4 * (EncryptRounds(keysize) + 1) <= i < 60 ==> w[i] == 0
    ensures w == Schedule(key, keysize)
  {
    hide WordColumn, ColumnWord, Expand;
    forall i | 0 <= i < 60
      ensures w[i] == Schedule(key, keysize)[i]
    {
      ColumnWordRoundTrip(w[i]);
    }
  }
}
