/** AES rounds on the words of a state, for following the example vectors of appendix C of FIPS 197. */
module AesWords {
  import opened Aes
  import opened AesKeySchedule
  import AesTables
  import AesField

  // A state as its four columns, highest byte first.
  datatype Quad = Quad(a: bv32, b: bv32, c: bv32, d: bv32)

  function Of(q: Quad): State { State(WordColumn(q.a), WordColumn(q.b), WordColumn(q.c), WordColumn(q.d)) }

  // ---------- Rounds on words ----------

  // A byte of a mixed column: doubling is linear, so one doubling of a sum does.
  function MixPart(a: bv8, b: bv8, c: bv8, d: bv8): bv8 { AesField.XTime(a ^ b) ^ b ^ c ^ d }

  function MixParts(a: bv8, b: bv8, c: bv8, d: bv8): bv32 {
    JoinOr(MixPart(a, b, c, d), MixPart(b, c, d, a), MixPart(c, d, a, b), MixPart(d, a, b, c))
  }

  function MixWord(w: bv32): bv32 {
    MixParts(((w >> 24) & 0xFF) as bv8, ((w >> 16) & 0xFF) as bv8, ((w >> 8) & 0xFF) as bv8, (w & 0xFF) as bv8)
  }

  // Row r of each column comes from the column r places to the right.
  function ShiftWord(a: bv32, b: bv32, c: bv32, d: bv32): bv32 {
    (a & 0xFF00_0000) | (b & 0x00FF_0000) | (c & 0x0000_FF00) | (d & 0x0000_00FF)
  }

  function SubShift(p: Quad): Quad {
    var a, b, c, d := SubWord(p.a), SubWord(p.b), SubWord(p.c), SubWord(p.d);
    Quad(ShiftWord(a, b, c, d), ShiftWord(b, c, d, a), ShiftWord(c, d, a, b), ShiftWord(d, a, b, c))
  }

  function AddQuad(p: Quad, k: Quad): Quad {
    Quad(XorWord(p.a, k.a), XorWord(p.b, k.b), XorWord(p.c, k.c), XorWord(p.d, k.d))
  }

  function Follow(p: Quad, k: Quad): Quad {
    var s := SubShift(p);
    AddQuad(Quad(MixWord(s.a), MixWord(s.b), MixWord(s.c), MixWord(s.d)), k)
  }

  function FollowLast(p: Quad, k: Quad): Quad { AddQuad(SubShift(p), k) }

  // ---------- They are the rounds of the cipher ----------

  lemma ShiftBytes(a: bv32, b: bv32, c: bv32, d: bv32)
    ensures WordColumn(ShiftWord(a, b, c, d)) ==
            Column(WordColumn(a).r0, WordColumn(b).r1, WordColumn(c).r2, WordColumn(d).r3)
  {
  }

  lemma SubShiftIs(p: Quad)
    ensures Of(SubShift(p)) == Shift(Sub(Of(p)))
  {
    hide WordColumn, SubWord, ShiftWord, SubColumn;
    SubWordIsSubColumn(p.a);
    SubWordIsSubColumn(p.b);
    SubWordIsSubColumn(p.c);
    SubWordIsSubColumn(p.d);
    var a, b, c, d := SubWord(p.a), SubWord(p.b), SubWord(p.c), SubWord(p.d);
    ShiftBytes(a, b, c, d);
    ShiftBytes(b, c, d, a);
    ShiftBytes(c, d, a, b);
    ShiftBytes(d, a, b, c);
  }

  lemma XorFour(x: bv8, y: bv8, b: bv8, c: bv8, d: bv8)
    ensures (x ^ (y ^ b)) ^ (c ^ d) == (x ^ y) ^ b ^ c ^ d
  {
  }

  lemma MixPartIs(a: bv8, b: bv8, c: bv8, d: bv8)
    ensures AesField.Sum4(AesTables.Gf2(a), AesTables.Gf3(b), c, d) == MixPart(a, b, c, d)
  {
    hide AesTables.Gf2, AesTables.Gf3, AesField.XTime;
    AesField.Doublings(a);
    AesField.Doublings(b);
    AesField.XTimeLinear(a, b);
    assert AesField.XTime(a ^ b) == AesField.XTime(a) ^ AesField.XTime(b);
    XorFour(AesField.XTime(a), AesField.XTime(b), b, c, d);
  }

  lemma MixByteIs(a: bv8, b: bv8, c: bv8, d: bv8)
    ensures MixByte(Byte(a), Byte(b), Byte(c), Byte(d)) == Byte(MixPart(a, b, c, d))
  {
    hide AesTables.Gf2, AesTables.Gf3, AesField.Sum4, MixPart;
    MixPartIs(a, b, c, d);
  }

  lemma MixPartsAre(a: bv8, b: bv8, c: bv8, d: bv8)
    ensures WordColumn(MixParts(a, b, c, d)) == MixColumn(Column(Byte(a), Byte(b), Byte(c), Byte(d)))
  {
    hide MixByte, MixPart, JoinOr, JoinSum, WordColumn;
    JoinedColumn(MixPart(a, b, c, d), MixPart(b, c, d, a), MixPart(c, d, a, b), MixPart(d, a, b, c));
    MixByteIs(a, b, c, d);
    MixByteIs(b, c, d, a);
    MixByteIs(c, d, a, b);
    MixByteIs(d, a, b, c);
  }

  lemma MixWordIs(w: bv32)
    ensures WordColumn(MixWord(w)) == MixColumn(WordColumn(w))
  {
    hide MixParts, MixColumn;
    MixPartsAre(((w >> 24) & 0xFF) as bv8, ((w >> 16) & 0xFF) as bv8, ((w >> 8) & 0xFF) as bv8, (w & 0xFF) as bv8);
  }

  function AddState(s: State, k: State): State {
    State(AddColumn(s.c0, k.c0), AddColumn(s.c1, k.c1), AddColumn(s.c2, k.c2), AddColumn(s.c3, k.c3))
  }

  lemma AddQuadIs(p: Quad, k: Quad)
    ensures Of(AddQuad(p, k)) == AddState(Of(p), Of(k))
  {
    hide WordColumn, XorWord, AddColumn;
    XorWordIsAddColumn(p.a, k.a);
    XorWordIsAddColumn(p.b, k.b);
    XorWordIsAddColumn(p.c, k.c);
    XorWordIsAddColumn(p.d, k.d);
  }

  lemma FollowIs(p: Quad, k: Quad)
    ensures Of(Follow(p, k)) == AddState(Mix(Shift(Sub(Of(p)))), Of(k))
    ensures Of(FollowLast(p, k)) == AddState(Shift(Sub(Of(p))), Of(k))
  {
    hide SubShift, AddQuad, AddState, MixWord, MixColumn, WordColumn, Shift, Sub;
    SubShiftIs(p);
    var s := SubShift(p);
    MixWordIs(s.a);
    MixWordIs(s.b);
    MixWordIs(s.c);
    MixWordIs(s.d);
    var m := Quad(MixWord(s.a), MixWord(s.b), MixWord(s.c), MixWord(s.d));
    AddQuadIs(m, k);
    AddQuadIs(s, k);
    assert Of(m) == Mix(Of(s));
  }

  // ---------- Round keys ----------

  // The four columns of round key i.
  function RoundColumns(key: seq<Byte>, nk: nat, i: nat): State
    requires 0 < nk && |key| == 4 * nk
  {
    State(Expand(key, nk, 4 * i), Expand(key, nk, 4 * i + 1), Expand(key, nk, 4 * i + 2), Expand(key, nk, 4 * i + 3))
  }

  function NextWord(back: bv32, previous: bv32, nk: nat, n: nat): bv32
    requires nk in {4, 6, 8} && nk <= n < 60
  {
    XorWord(back, ChangeWord(previous, nk, n))
  }

  // Round key i from the two before it; the words nk places back are those of j and k.
  function NextKeys(nk: nat, i: nat, j: Quad, k: Quad): Quad
    requires nk in {4, 6, 8} && nk <= 4 * i < 60
  {
    var back := if nk == 4 then k else if nk == 6 then Quad(j.c, j.d, k.a, k.b) else j;
    var a := NextWord(back.a, k.d, nk, 4 * i);
    var b := NextWord(back.b, a, nk, 4 * i + 1);
    var c := NextWord(back.c, b, nk, 4 * i + 2);
    Quad(a, b, c, NextWord(back.d, c, nk, 4 * i + 3))
  }

  lemma NextWordIs(key: seq<Byte>, nk: nat, n: nat, back: bv32, previous: bv32)
    requires nk in {4, 6, 8} && nk <= n < 60 && |key| == 4 * nk
    requires Expand(key, nk, n - nk) == WordColumn(back) && Expand(key, nk, n - 1) == WordColumn(previous)
    ensures Expand(key, nk, n) == WordColumn(NextWord(back, previous, nk, n))
  {
    hide WordColumn, AddColumn, Change, XorWord, ChangeWord;
    ChangeWordIsChange(previous, nk, n);
    XorWordIsAddColumn(back, ChangeWord(previous, nk, n));
  }

  lemma NextKeysAre(key: seq<Byte>, nk: nat, i: nat, j: Quad, k: Quad)
    requires nk in {4, 6, 8} && 0 < i && nk <= 4 * i < 60 && |key| == 4 * nk
    requires RoundColumns(key, nk, i - 1) == Of(k) && (nk > 4 ==> i > 1 && RoundColumns(key, nk, i - 2) == Of(j))
    ensures RoundColumns(key, nk, i) == Of(NextKeys(nk, i, j, k))
  {
    hide WordColumn, NextWord, Expand;
    var back := if nk == 4 then k else if nk == 6 then Quad(j.c, j.d, k.a, k.b) else j;
    var l := NextKeys(nk, i, j, k);
    NextWordIs(key, nk, 4 * i, back.a, k.d);
    NextWordIs(key, nk, 4 * i + 1, back.b, l.a);
    NextWordIs(key, nk, 4 * i + 2, back.c, l.b);
    NextWordIs(key, nk, 4 * i + 3, back.d, l.c);
  }

  // ---------- Following an encryption ----------

  lemma ScheduleColumn(key: seq<Byte>, keysize: int, n: nat)
    requires keysize in {128, 192, 256} && |key| == 4 * KeyWords(keysize) && n < 4 * (EncryptRounds(keysize) + 1)
    ensures WordColumn(Schedule(key, keysize)[n]) == Expand(key, KeyWords(keysize), n)
  {
    hide Expand, WordColumn, JoinOr, JoinSum;
    var c := Expand(key, KeyWords(keysize), n);
    JoinedColumn(c.r0.bits, c.r1.bits, c.r2.bits, c.r3.bits);
  }

  lemma AddRoundColumns(s: State, key: seq<Byte>, keysize: int, i: nat)
    requires keysize in {128, 192, 256} && |key| == 4 * KeyWords(keysize) && i <= EncryptRounds(keysize)
    ensures AddKey(s, RoundKey(Schedule(key, keysize), i)) == AddState(s, RoundColumns(key, KeyWords(keysize), i))
  {
    hide Expand, WordColumn, AddColumn, Schedule;
    ScheduleColumn(key, keysize, 4 * i);
    ScheduleColumn(key, keysize, 4 * i + 1);
    ScheduleColumn(key, keysize, 4 * i + 2);
    ScheduleColumn(key, keysize, 4 * i + 3);
  }

  // After round i the state is s; the round key used is k, and the one before it j.
  ghost predicate Trace(p: State, key: seq<Byte>, keysize: int, i: nat, s: Quad, j: Quad, k: Quad) {
    && keysize in {128, 192, 256} && |key| == 4 * KeyWords(keysize) && i < EncryptRounds(keysize)
    && Rounds(p, Schedule(key, keysize), i) == Of(s)
    && RoundColumns(key, KeyWords(keysize), i) == Of(k)
    && (i > 0 ==> RoundColumns(key, KeyWords(keysize), i - 1) == Of(j))
  }

  lemma TraceStart(p: Quad, key: seq<Byte>, keysize: int, k: Quad)
    requires keysize in {128, 192, 256} && |key| == 4 * KeyWords(keysize)
    requires RoundColumns(key, KeyWords(keysize), 0) == Of(k)
    ensures Trace(Of(p), key, keysize, 0, AddQuad(p, k), k, k)
  {
    hide RoundColumns, Schedule, Of, AddQuad, AddState;
    AddRoundColumns(Of(p), key, keysize, 0);
    AddQuadIs(p, k);
  }

  // One round with a given round key.
  lemma TraceRound(p: State, key: seq<Byte>, keysize: int, i: nat, s: Quad, j: Quad, k: Quad, l: Quad)
    requires Trace(p, key, keysize, i, s, j, k) && i + 1 < EncryptRounds(keysize)
    requires RoundColumns(key, KeyWords(keysize), i + 1) == Of(l)
    ensures Trace(p, key, keysize, i + 1, Follow(s, l), k, l)
  {
    hide RoundColumns, Schedule, Of, AddState, Follow, Mix, Shift, Sub;
    AddRoundColumns(Mix(Shift(Sub(Of(s)))), key, keysize, i + 1);
    FollowIs(s, l);
  }

  // One round, its key included.
  lemma TraceStep(p: State, key: seq<Byte>, keysize: int, i: nat, s: Quad, j: Quad, k: Quad)
    requires Trace(p, key, keysize, i, s, j, k) && i + 1 < EncryptRounds(keysize)
    requires KeyWords(keysize) > 4 ==> i > 0
    ensures KeyWords(keysize) <= 4 * (i + 1)
    ensures var l := NextKeys(KeyWords(keysize), i + 1, j, k);
            Trace(p, key, keysize, i + 1, Follow(s, l), k, l)
  {
    hide RoundColumns, Schedule, Of, Follow, NextKeys;
    NextKeysAre(key, KeyWords(keysize), i + 1, j, k);
    TraceRound(p, key, keysize, i, s, j, k, NextKeys(KeyWords(keysize), i + 1, j, k));
  }

  lemma TraceEnd(b: seq<Byte>, key: seq<Byte>, keysize: int, s: Quad, j: Quad, k: Quad)
    requires |b| == 16 && keysize in {128, 192, 256}
    requires Trace(FromBlock(b), key, keysize, EncryptRounds(keysize) - 1, s, j, k)
    ensures var l := NextKeys(KeyWords(keysize), EncryptRounds(keysize), j, k);
            EncryptBlock(b, Schedule(key, keysize), keysize) == ToBlock(Of(FollowLast(s, l)))
  {
    hide RoundColumns, Schedule, Of, AddState, FollowLast, NextKeys, Shift, Sub, Rounds;
    var n := EncryptRounds(keysize);
    var l := NextKeys(KeyWords(keysize), n, j, k);
    NextKeysAre(key, KeyWords(keysize), n, j, k);
    AddRoundColumns(Shift(Sub(Of(s))), key, keysize, n);
    FollowIs(s, l);
  }
}
