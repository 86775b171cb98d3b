/** The table-driven CRC-32 of examples/ndpi_stats/ndpi_util.c, with an 8-byte little-endian accum_t.

    The reference is the serial shift register of section 3.2.9 of IEEE 802.3: it takes the message bits one at
    a time, lowest bit of each byte first, starts from all ones and complements its final state.  The code keeps
    the complement of that register, steps a byte at a time through `table`, and eight bytes at a time through
    `wtable`; both tables are built at run time. */
module Crc32 {

  const POLYNOMIAL: bv32 := 0xEDB88320

  // Exclusive or and complement under names of their own, so that proofs about long sums go by congruence.
  function Xor(a: bv32, b: bv32): bv32 { a ^ b }

  function Not(a: bv32): bv32 { !a }

  // ---------- The reference register ----------

  predicate Odd(x: bv32) { x & 1 != 0 }

  function ShiftBit(crc: bv32, bit: bool): bv32 {
    Xor(crc >> 1, if Odd(crc) != bit then POLYNOMIAL else 0)
  }

  function ShiftBits(crc: bv32, bits: seq<bool>): bv32
    decreases |bits|
  {
    if bits == [] then crc else ShiftBits(ShiftBit(crc, bits[0]), bits[1..])
  }

  function Half(x: bv32): bv32 { x >> 1 }

  // The low n bits of a word, lowest first.
  function LowBits(w: bv32, n: nat): seq<bool>
    decreases n
  {
    if n == 0 then [] else [Odd(w)] + LowBits(Half(w), n - 1)
  }

  function ByteBits(b: bv8): seq<bool> { LowBits(b as bv32, 8) }

  function MessageBits(data: seq<bv8>): seq<bool> {
    if data == [] then [] else MessageBits(data[..|data| - 1]) + ByteBits(data[|data| - 1])
  }

  function ReferenceCrc(data: seq<bv8>): bv32 {
    Not(ShiftBits(0xFFFF_FFFF, MessageBits(data)))
  }

  // ---------- What the code computes, step by step ----------

  // One turn of the loop in crc32_for_byte.
  function TableBit(r: bv32): bv32 {
    Xor(if Odd(r) then 0 else POLYNOMIAL, r >> 1)
  }

  function TableBits(r: bv32, n: nat): bv32 {
    if n == 0 then r else TableBit(TableBits(r, n - 1))
  }

  function TableEntry(r: bv32): bv32 {
    Xor(TableBits(r, 8), 0xFF00_0000)
  }

  // The byte step with the input byte already added to the register.
  function Absorb(x: bv32): bv32 {
    Xor(TableEntry(Low(x)), x >> 8)
  }

  function Wide(b: bv8): bv32 { b as bv32 }

  function ByteStep(crc: bv32, b: bv8): bv32 {
    Absorb(Xor(crc, Wide(b)))
  }

  function Run(crc: bv32, data: seq<bv8>): bv32 {
    if data == [] then crc else ByteStep(Run(crc, data[..|data| - 1]), data[|data| - 1])
  }

  // The inner loop of init_tables: j bytes, all zero but number k, which is i.
  function WordRun(k: nat, i: bv32, j: nat): bv32 {
    if j == 0 then 0
    else
      var w := WordRun(k, i, j - 1);
      Absorb(if j - 1 == k then Xor(w, i) else w)
  }

  function WordEntry(k: nat, i: bv32): bv32 {
    Xor(WordRun(k, i, 8), if k == 0 then 0 else WordRun(0, 0, 8))
  }

  // ---------- Linear algebra over GF(2) ----------

  // The register step without input: multiplication by x modulo the polynomial.
  function Feedback(x: bv32): bv32 { if Odd(x) then POLYNOMIAL else 0 }

  function Double(x: bv32): bv32 { Xor(x >> 1, Feedback(x)) }

  function Double8(x: bv32): bv32 {
    Double(Double(Double(Double(Double(Double(Double(Double(x))))))))
  }

  // n zero bytes through the linear part.
  function Advance(x: bv32, n: nat): bv32 {
    if n == 0 then x else Double8(Advance(x, n - 1))
  }

  // n zero bytes through the affine step, from an empty register.
  function ZeroRun(n: nat): bv32 {
    if n == 0 then 0 else Absorb(ZeroRun(n - 1))
  }

  lemma XorDefinition(a: bv32, b: bv32)
    ensures Xor(a, b) == a ^ b
  {
  }

  lemma XorAssociative(a: bv32, b: bv32, c: bv32)
    ensures Xor(Xor(a, b), c) == Xor(a, Xor(b, c))
  {
    assert (a ^ b) ^ c == a ^ (b ^ c);
  }

  lemma XorLaws(a: bv32, b: bv32)
    ensures Xor(a, b) == Xor(b, a)
    ensures Xor(a, a) == 0 && Xor(a, 0) == a
  {
  }

  lemma XorExchange(a: bv32, b: bv32, c: bv32, d: bv32)
    ensures Xor(Xor(a, b), Xor(c, d)) == Xor(Xor(a, c), Xor(b, d))
  {
    XorAssociative(a, b, Xor(c, d));
    XorAssociative(b, c, d);
    XorAssociative(c, b, d);
    XorAssociative(a, c, Xor(b, d));
    XorLaws(b, c);
  }

  lemma XorComplement(a: bv32, b: bv32)
    ensures Not(Xor(a, b)) == Xor(Not(a), b)
  {
  }

  lemma XorShift(x: bv32, y: bv32)
    ensures Xor(x, y) >> 1 == Xor(x >> 1, y >> 1)
  {
    hide Xor;
    XorDefinition(x, y);
    XorDefinition(x >> 1, y >> 1);
  }

  lemma FeedbackLinear(x: bv32, y: bv32)
    ensures Feedback(Xor(x, y)) == Xor(Feedback(x), Feedback(y))
  {
  }

  lemma DoubleLinear(x: bv32, y: bv32)
    ensures Double(Xor(x, y)) == Xor(Double(x), Double(y))
  {
    XorShift(x, y);
    FeedbackLinear(x, y);
    XorExchange(x >> 1, y >> 1, Feedback(x), Feedback(y));
  }

  lemma Double8Linear(x: bv32, y: bv32)
    ensures Double8(Xor(x, y)) == Xor(Double8(x), Double8(y))
  {
    var x1, y1 := Double(x), Double(y);
    var x2, y2 := Double(x1), Double(y1);
    var x3, y3 := Double(x2), Double(y2);
    var x4, y4 := Double(x3), Double(y3);
    var x5, y5 := Double(x4), Double(y4);
    var x6, y6 := Double(x5), Double(y5);
    var x7, y7 := Double(x6), Double(y6);
    DoubleLinear(x, y);
    DoubleLinear(x1, y1);
    DoubleLinear(x2, y2);
    DoubleLinear(x3, y3);
    DoubleLinear(x4, y4);
    DoubleLinear(x5, y5);
    DoubleLinear(x6, y6);
    DoubleLinear(x7, y7);
  }

  lemma {:induction false} AdvanceLinear(x: bv32, y: bv32, n: nat)
    ensures Advance(Xor(x, y), n) == Xor(Advance(x, n), Advance(y, n))
  {
    hide Xor, Double8;
    if n == 0 {
    } else {
      AdvanceLinear(x, y, n - 1);
      Double8Linear(Advance(x, n - 1), Advance(y, n - 1));
    }
  }

  lemma {:induction false} AdvanceShift(x: bv32, n: nat)
    ensures Advance(Double8(x), n) == Advance(x, n + 1)
  {
    hide Double8;
    if n == 0 {
    } else {
      AdvanceShift(x, n - 1);
    }
  }

  // ---------- The byte step against the reference ----------

  function Low(x: bv32): bv32 { x & 0xFF }

  function High(x: bv32): bv32 { x & 0xFFFF_FF00 }

  lemma SplitLowByte(x: bv32)
    ensures x == Xor(Low(x), High(x))
    ensures Low(x) <= 0xFF && High(x) & 0xFF == 0 && High(x) >> 8 == x >> 8
  {
  }

  // Eight doublings of a word with an empty low byte only shift it.
  lemma DoubleShifts(x: bv32)
    requires x & 0xFF == 0
    ensures Double8(x) == x >> 8
  {
  }

  // The ones that n steps of the table have shifted in from above.
  function TopOnes(n: nat): bv32 {
    if n == 0 then 0 else Xor(Half(TopOnes(n - 1)), 0x8000_0000)
  }

  lemma OddComplement(d: bv32)
    ensures Odd(Not(d)) == !Odd(d)
  {
    assert !d & 1 == 1 - (d & 1);
  }

  lemma HalfComplement(d: bv32)
    ensures Half(Not(d)) == Xor(Not(Half(d)), 0x8000_0000)
  {
    assert !d >> 1 == !(d >> 1) ^ 0x8000_0000;
  }

  lemma OddSum(z: bv32, m: bv32)
    requires !Odd(m)
    ensures Odd(Xor(z, m)) == Odd(z)
  {
    assert m & 1 == 0;
    assert (z ^ m) & 1 == (z & 1) ^ (m & 1);
  }

  // A step of the table is a doubling between complements, but for the highest bit.
  lemma TableBitOfComplement(d: bv32)
    ensures TableBit(Not(d)) == Xor(Not(Double(d)), 0x8000_0000)
  {
    hide Xor, Not, Odd;
    OddComplement(d);
    HalfComplement(d);
    var h := Not(Half(d));
    XorComplement(Half(d), Feedback(d));
    XorAssociative(Feedback(d), h, 0x8000_0000);
    XorLaws(Feedback(d), h);
  }

  // Ones above the lowest bit only move down.
  lemma TableBitShifts(z: bv32, m: bv32)
    requires !Odd(m)
    ensures TableBit(Xor(z, m)) == Xor(TableBit(z), Half(m))
  {
    hide Xor, Odd;
    OddSum(z, m);
    XorShift(z, m);
    XorAssociative(if Odd(z) then 0 else POLYNOMIAL, Half(z), Half(m));
  }

  lemma TopOnesEven(n: nat)
    requires n < 8
    ensures !Odd(TopOnes(n)) && TopOnes(8) == 0xFF00_0000
  {
    assert TopOnes(1) == 0x8000_0000;
    assert TopOnes(2) == 0xC000_0000;
    assert TopOnes(3) == 0xE000_0000;
    assert TopOnes(4) == 0xF000_0000;
    assert TopOnes(5) == 0xF800_0000;
    assert TopOnes(6) == 0xFC00_0000;
    assert TopOnes(7) == 0xFE00_0000;
  }

  lemma {:induction false} TableBitsAreDoublings(y: bv32, n: nat)
    requires n <= 8
    ensures TableBits(y, n) == Xor(Not(DoubleTimes(Not(y), n)), TopOnes(n))
  {
    hide Xor, Not, Double, TableBit, Half, Odd;
    if n == 0 {
      NotTwice(y);
      XorLaws(y, 0);
    } else {
      TableBitsAreDoublings(y, n - 1);
      DoubleTimesLast(Not(y), n - 1);
      var d, m := DoubleTimes(Not(y), n - 1), TopOnes(n - 1);
      TopOnesEven(n - 1);
      TableBitShifts(Not(d), m);
      TableBitOfComplement(d);
      XorAssociative(Not(Double(d)), 0x8000_0000, Half(m));
      XorLaws(0x8000_0000, Half(m));
    }
  }

  lemma {:induction false} DoubleTimesLast(x: bv32, n: nat)
    ensures DoubleTimes(x, n + 1) == Double(DoubleTimes(x, n))
    decreases n
  {
    hide Double;
    if n == 0 {
      assert DoubleTimes(x, 1) == DoubleTimes(Double(x), 0);
    } else {
      DoubleTimesLast(Double(x), n - 1);
    }
  }

  lemma NotTwice(x: bv32)
    ensures Not(Not(x)) == x
  {
  }

  lemma TableEntryIsDouble8(y: bv32)
    ensures TableEntry(y) == Not(Double8(Not(y)))
  {
    hide Xor, Not, Double, TopOnes, DoubleTimes, TableBits;
    TableBitsAreDoublings(y, 8);
    DoubleTimesUnroll(Not(y));
    TopOnesEven(0);
    var z := Not(Double8(Not(y)));
    XorAssociative(z, 0xFF00_0000, 0xFF00_0000);
    XorLaws(0xFF00_0000, z);
    XorLaws(z, z);
  }

  // The code's register is the complement of the reference register.
  lemma AbsorbIsDouble8(x: bv32)
    ensures Absorb(x) == Not(Double8(Not(x)))
  {
    hide Xor, Not, Double8, TableEntry, Low, High;
    var lo, hi := Low(x), High(x);
    SplitLowByte(x);
    TableEntryIsDouble8(lo);
    XorComplement(lo, hi);
    Double8Linear(Not(lo), hi);
    DoubleShifts(hi);
    XorComplement(Double8(Not(lo)), x >> 8);
    assert Absorb(x) == Xor(TableEntry(lo), x >> 8);
  }

  lemma AbsorbAffine(x: bv32, y: bv32)
    ensures Absorb(Xor(x, y)) == Xor(Absorb(x), Double8(y))
  {
    hide Xor, Not, Double8, Absorb;
    AbsorbIsDouble8(x);
    AbsorbIsDouble8(Xor(x, y));
    XorComplement(x, y);
    Double8Linear(Not(x), y);
    XorComplement(Double8(Not(x)), Double8(y));
  }

  lemma FeedbackOfSum(crc: bv32, b: bv32)
    ensures Feedback(Xor(crc, b)) == if Odd(crc) != Odd(b) then POLYNOMIAL else 0
  {
  }

  // Feeding one bit of a byte that was added to the register beforehand.
  lemma DoubleFeedsBit(crc: bv32, b: bv32)
    ensures Double(Xor(crc, b)) == Xor(ShiftBit(crc, Odd(b)), Half(b))
  {
    hide Xor, Odd, Feedback;
    XorShift(crc, b);
    FeedbackOfSum(crc, b);
    var f := Feedback(Xor(crc, b));
    XorAssociative(crc >> 1, b >> 1, f);
    XorLaws(b >> 1, f);
    XorAssociative(crc >> 1, f, b >> 1);
  }

  lemma ShiftBitsCons(crc: bv32, bit: bool, bits: seq<bool>)
    ensures ShiftBits(crc, [bit] + bits) == ShiftBits(ShiftBit(crc, bit), bits)
  {
    hide ShiftBit;
    assert ([bit] + bits)[1..] == bits;
  }

  // What is left of a word without its low n bits.
  function Remaining(b: bv32, n: nat): bv32
    decreases n
  {
    if n == 0 then b else Remaining(Half(b), n - 1)
  }

  function DoubleTimes(x: bv32, n: nat): bv32
    decreases n
  {
    if n == 0 then x else DoubleTimes(Double(x), n - 1)
  }

  lemma {:induction false} BitsThroughRegister(crc: bv32, b: bv32, n: nat)
    ensures Xor(ShiftBits(crc, LowBits(b, n)), Remaining(b, n)) == DoubleTimes(Xor(crc, b), n)
    decreases n
  {
    hide Xor, ShiftBit, Double;
    if n == 0 {
    } else {
      var bit := Odd(b);
      ShiftBitsCons(crc, bit, LowBits(Half(b), n - 1));
      BitsThroughRegister(ShiftBit(crc, bit), Half(b), n - 1);
      DoubleFeedsBit(crc, b);
    }
  }

  lemma DoubleTimesUnroll(x: bv32)
    ensures DoubleTimes(x, 8) == Double8(x)
  {
    hide Double;
    assert DoubleTimes(x, 8) == DoubleTimes(Double(Double(x)), 6);
    assert DoubleTimes(x, 8) == DoubleTimes(Double(Double(Double(Double(x)))), 4);
    assert DoubleTimes(x, 8) == DoubleTimes(Double(Double(Double(Double(Double(Double(x)))))), 2);
  }

  lemma RemainingUnroll(b: bv32)
    ensures Remaining(b, 8) == b >> 8
  {
    assert Remaining(b, 8) == Remaining(Half(Half(b)), 6);
    assert Remaining(b, 8) == Remaining(Half(Half(Half(Half(b)))), 4);
    assert Remaining(b, 8) == Remaining(Half(Half(Half(Half(Half(Half(b)))))), 2);
  }

  lemma ByteThroughRegister(crc: bv32, b: bv8)
    ensures ShiftBits(crc, ByteBits(b)) == Double8(Xor(crc, Wide(b)))
  {
    hide Xor, ShiftBits, Double8, LowBits, Remaining, DoubleTimes;
    var w := Wide(b);
    BitsThroughRegister(crc, w, 8);
    RemainingUnroll(w);
    XorLaws(ShiftBits(crc, ByteBits(b)), 0);
    DoubleTimesUnroll(Xor(crc, w));
  }

  lemma ByteStepIsReference(crc: bv32, b: bv8)
    ensures ByteStep(crc, b) == Not(ShiftBits(Not(crc), ByteBits(b)))
  {
    hide Xor, Not, Double8, Absorb, ShiftBits;
    AbsorbIsDouble8(Xor(crc, Wide(b)));
    XorComplement(crc, Wide(b));
    ByteThroughRegister(Not(crc), b);
  }

  lemma {:induction false} ShiftBitsAppend(crc: bv32, s: seq<bool>, t: seq<bool>)
    ensures ShiftBits(crc, s + t) == ShiftBits(ShiftBits(crc, s), t)
    decreases |s|
  {
    hide ShiftBit;
    if s == [] {
      assert s + t == t;
    } else {
      assert (s + t)[1..] == s[1..] + t;
      ShiftBitsAppend(ShiftBit(crc, s[0]), s[1..], t);
    }
  }

  // Running the code's byte step over a message keeps it the complement of the reference register.
  lemma {:induction false} RunIsReference(data: seq<bv8>)
    ensures Run(0, data) == ReferenceCrc(data)
  {
    hide ByteStep, ShiftBits, Not;
    if data == [] {
      EmptyRegister();
    } else {
      var n := |data| - 1;
      var before := ShiftBits(0xFFFF_FFFF, MessageBits(data[..n]));
      RunIsReference(data[..n]);
      ShiftBitsAppend(0xFFFF_FFFF, MessageBits(data[..n]), ByteBits(data[n]));
      ByteStepIsReference(Not(before), data[n]);
      DoubleComplement(before);
    }
  }

  lemma EmptyRegister()
    ensures Not(ShiftBits(0xFFFF_FFFF, [])) == 0
  {
  }

  lemma DoubleComplement(x: bv32)
    ensures Not(Not(x)) == x
  {
  }

  lemma {:induction false} RunAppend(crc: bv32, s: seq<bv8>, t: seq<bv8>)
    ensures Run(crc, s + t) == Run(Run(crc, s), t)
  {
    hide ByteStep;
    if t == [] {
      assert s + t == s;
    } else {
      assert (s + t)[..|s + t| - 1] == s + t[..|t| - 1];
      RunAppend(crc, s, t[..|t| - 1]);
    }
  }

  // ---------- Folding the register into the next bytes ----------

  // What is left of a register after n bytes have been shifted out of it.
  function DropByte(x: bv32): bv32 { x >> 8 }

  function ShiftOut(crc: bv32, n: nat): bv32 {
    if n == 0 then crc else DropByte(ShiftOut(crc, n - 1))
  }

  function FoldedByte(b: bv8, e: bv32): bv32 { Xor(Wide(b), Low(e)) }

  // m is t with the bytes of the register, lowest first, added to it.
  ghost predicate Folded(crc: bv32, t: seq<bv8>, m: seq<bv8>) {
    |m| == |t| && forall j :: 0 <= j < |t| ==> Wide(m[j]) == FoldedByte(t[j], ShiftOut(crc, j))
  }

  lemma AbsorbHigh(z: bv32, e: bv32)
    ensures Absorb(Xor(z, High(e))) == Xor(Absorb(z), DropByte(e))
  {
    hide Xor, Absorb, Double8, High;
    SplitLowByte(e);
    AbsorbAffine(z, High(e));
    DoubleShifts(High(e));
  }

  lemma FoldByte(state: bv32, e: bv32, b: bv8, m: bv8)
    requires Wide(m) == FoldedByte(b, e)
    ensures ByteStep(Xor(state, e), b) == Xor(ByteStep(state, m), DropByte(e))
  {
    hide Xor, Absorb, Low, High;
    var w, lo, hi := Wide(b), Low(e), High(e);
    SplitLowByte(e);
    calc {
      Xor(Xor(state, e), w);
      { XorAssociative(state, e, w); XorLaws(e, w); XorAssociative(w, lo, hi); }
      Xor(state, Xor(Xor(w, lo), hi));
      { XorAssociative(state, Xor(w, lo), hi); }
      Xor(Xor(state, Xor(w, lo)), hi);
    }
    AbsorbHigh(Xor(state, Wide(m)), e);
  }

  lemma {:induction false} RunFolded(crc: bv32, t: seq<bv8>, m: seq<bv8>)
    requires Folded(crc, t, m)
    ensures Run(crc, t) == Xor(Run(0, m), ShiftOut(crc, |t|))
  {
    hide Xor, ByteStep, Low, DropByte;
    if t == [] {
      XorLaws(0, crc);
      XorLaws(crc, 0);
    } else {
      var n := |t| - 1;
      RunFolded(crc, t[..n], m[..n]);
      FoldByte(Run(0, m[..n]), ShiftOut(crc, n), t[n], m[n]);
    }
  }

  lemma ShiftedOut(crc: bv32)
    ensures ShiftOut(crc, 1) == crc >> 8 && ShiftOut(crc, 2) == crc >> 16 && ShiftOut(crc, 3) == crc >> 24
    ensures ShiftOut(crc, 4) == 0 && ShiftOut(crc, 5) == 0 && ShiftOut(crc, 6) == 0 && ShiftOut(crc, 7) == 0
    ensures ShiftOut(crc, 8) == 0
  {
    hide DropByte;
    DroppedBytes(crc);
    assert ShiftOut(crc, 1) == crc >> 8;
    assert ShiftOut(crc, 2) == crc >> 16;
    assert ShiftOut(crc, 3) == crc >> 24;
    assert ShiftOut(crc, 4) == 0;
    assert ShiftOut(crc, 5) == 0;
    assert ShiftOut(crc, 6) == 0;
    assert ShiftOut(crc, 7) == 0;
  }

  lemma DroppedBytes(crc: bv32)
    ensures DropByte(crc) == crc >> 8 && DropByte(crc >> 8) == crc >> 16 && DropByte(crc >> 16) == crc >> 24
    ensures DropByte(crc >> 24) == 0 && DropByte(0) == 0
  {
  }

  // ---------- Eight bytes at once ----------

  lemma {:induction false} WordRunSplit(k: nat, i: bv32, j: nat)
    ensures WordRun(k, i, j) == if j <= k then ZeroRun(j) else Xor(ZeroRun(j), Advance(i, j - k))
  {
    hide Xor, Absorb, Double8;
    if j == 0 {
    } else {
      WordRunSplit(k, i, j - 1);
      if j - 1 >= k {
        AbsorbAffine(ZeroRun(j - 1), Advance(i, j - 1 - k));
      }
    }
  }

  lemma {:induction false} AdvanceZero(n: nat)
    ensures Advance(0, n) == 0
  {
    hide Double8;
    DoubleShifts(0);
    if n == 0 {
    } else {
      AdvanceZero(n - 1);
    }
  }

  // The entries of wtable: the constant part sits in the first block only.
  lemma WordEntryClosedForm(k: nat, i: bv32)
    requires k < 8
    ensures WordEntry(k, i) == if k == 0 then Xor(ZeroRun(8), Advance(i, 8)) else Advance(i, 8 - k)
  {
    hide Xor, ZeroRun, Advance, WordRun;
    var z, a := ZeroRun(8), Advance(i, 8 - k);
    WordRunSplit(k, i, 8);
    WordRunSplit(0, 0, 8);
    AdvanceZero(8);
    XorLaws(z, 0);
    if k == 0 {
      XorLaws(Xor(z, a), 0);
    } else {
      XorLaws(z, a);
      XorAssociative(a, z, z);
      XorLaws(a, 0);
    }
  }

  // The linear part of a run over m from an empty register.
  function LinearRun(m: seq<bv8>): bv32 {
    if m == [] then 0 else Double8(Xor(LinearRun(m[..|m| - 1]), Wide(m[|m| - 1])))
  }

  lemma {:induction false} RunSplits(m: seq<bv8>)
    ensures Run(0, m) == Xor(ZeroRun(|m|), LinearRun(m))
  {
    hide Xor, Absorb, Double8;
    if m == [] {
      XorLaws(0, 0);
    } else {
      var n := |m| - 1;
      var v, w := LinearRun(m[..n]), Wide(m[n]);
      RunSplits(m[..n]);
      XorAssociative(ZeroRun(n), v, w);
      AbsorbAffine(ZeroRun(n), Xor(v, w));
    }
  }

  // The sum the inner loop of __crc32 forms over the first j bytes of a word.
  function WordSum(m: seq<bv8>, j: nat): bv32
    requires j <= |m| <= 8
  {
    if j == 0 then 0 else Xor(WordSum(m, j - 1), WordEntry(j - 1, Wide(m[j - 1])))
  }

  lemma {:induction false} WordSumAdvances(m: seq<bv8>, j: nat)
    requires 0 < j <= |m| == 8
    ensures WordSum(m, j) == Xor(ZeroRun(8), Advance(LinearRun(m[..j]), 8 - j))
  {
    hide Xor, Double8, WordEntry, ZeroRun, Advance, Wide;
    var n := j - 1;
    var w, z := Wide(m[n]), ZeroRun(8);
    assert m[..j][..n] == m[..n];
    WordEntryClosedForm(n, w);
    AdvanceShift(Xor(LinearRun(m[..n]), w), 8 - j);
    AdvanceLinear(LinearRun(m[..n]), w, 8 - n);
    if n == 0 {
      AdvanceZero(8);
      XorLaws(0, Xor(z, Advance(w, 8)));
      XorLaws(Xor(z, Advance(w, 8)), 0);
      XorLaws(0, Advance(w, 8));
      XorLaws(Advance(w, 8), 0);
    } else {
      WordSumAdvances(m, n);
      XorAssociative(z, Advance(LinearRun(m[..n]), 8 - n), Advance(w, 8 - n));
    }
  }

  // XORing eight wtable entries is eight affine byte steps.
  lemma WordSumIsRun(m: seq<bv8>)
    requires |m| == 8
    ensures WordSum(m, 8) == Run(0, m)
  {
    hide Xor, ZeroRun;
    assert m[..8] == m;
    WordSumAdvances(m, 8);
    RunSplits(m);
  }

  // ---------- The code ----------

  function ByteInt(b: bv8): nat { b as int }

  function Word(i: nat): bv32
    requires i < 0x100
  {
    i as bv32
  }

  lemma ByteIndex(b: bv8)
    ensures ByteInt(b) < 0x100 && Word(ByteInt(b)) == Wide(b)
  {
    assert (b as int) as bv8 == b;
    IntByte(b as int);
  }

  lemma IntByte(i: int)
    requires 0 <= i < 0x100
    ensures Wide(i as bv8) == Word(i)
  {
  }

  // The index into `table`: the low byte of the register plus the input byte.
  function Index(crc: bv32, b: bv8): (i: nat)
    ensures i < 0x100
  {
    ByteInt(((crc & 0xFF) as bv8) ^ b)
  }

  lemma IndexIsLowByte(crc: bv32, b: bv8)
    ensures Word(Index(crc, b)) == Low(Xor(crc, Wide(b)))
  {
    ByteIndex(((crc & 0xFF) as bv8) ^ b);
    assert (((crc & 0xFF) as bv8) ^ b) as bv32 == (crc ^ (b as bv32)) & 0xFF;
  }

  lemma ByteAddsNothingHigh(crc: bv32, b: bv8)
    ensures Xor(crc, Wide(b)) >> 8 == crc >> 8
  {
  }

  lemma TableBitDefinition(r: bv32)
    ensures TableBit(r) == (if r & 1 != 0 then 0 else POLYNOMIAL) ^ (r >> 1)
  {
    hide Xor;
    XorDefinition(if r & 1 != 0 then 0 else POLYNOMIAL, r >> 1);
  }

  ghost predicate TableBuilt(table: seq<bv32>) {
    |table| == 0x100 && forall i :: 0 <= i < 0x100 ==> table[i] == TableEntry(Word(i))
  }

  // The first n entries of wtable; block k of 256 entries belongs to byte k of a word.
  ghost predicate WordTableBuilt(wtable: seq<bv32>, n: nat) {
    n <= |wtable| == 0x800 && forall x :: 0 <= x < n ==> wtable[x] == WordEntry(x / 0x100, Word(x % 0x100))
  }

  // The register added to a little-endian 64-bit load of eight bytes.
  function AddLoaded(crc: bv32, d0: bv8, d1: bv8, d2: bv8, d3: bv8, d4: bv8, d5: bv8, d6: bv8, d7: bv8): bv64 {
    (crc as bv64) ^
    ((d0 as bv64) | ((d1 as bv64) << 8) | ((d2 as bv64) << 16) | ((d3 as bv64) << 24) |
     ((d4 as bv64) << 32) | ((d5 as bv64) << 40) | ((d6 as bv64) << 48) | ((d7 as bv64) << 56))
  }

  // The accumulator of __crc32: the register added to the next eight bytes.
  function Accumulator(crc: bv32, d: seq<bv8>): bv64
    requires |d| == 8
  {
    AddLoaded(crc, d[0], d[1], d[2], d[3], d[4], d[5], d[6], d[7])
  }

  // Byte j of a 64-bit word: (uint8_t)(a >> 8 * j).
  function WordByte(a: bv64, j: nat): bv8
    requires j < 8
  {
    match j
    case 0 => (a & 0xFF) as bv8
    case 1 => ((a >> 8) & 0xFF) as bv8
    case 2 => ((a >> 16) & 0xFF) as bv8
    case 3 => ((a >> 24) & 0xFF) as bv8
    case 4 => ((a >> 32) & 0xFF) as bv8
    case 5 => ((a >> 40) & 0xFF) as bv8
    case 6 => ((a >> 48) & 0xFF) as bv8
    case _ => ((a >> 56) & 0xFF) as bv8
  }

  function WordBytes(a: bv64): (m: seq<bv8>)
    ensures |m| == 8 && forall j :: 0 <= j < 8 ==> m[j] == WordByte(a, j)
  {
    seq(8, j requires 0 <= j < 8 => WordByte(a, j))
  }

  // Adding the register to a loaded word adds its four bytes to the first four bytes of the word.
  lemma LoadedBytesLow(crc: bv32, d0: bv8, d1: bv8, d2: bv8, d3: bv8, d4: bv8, d5: bv8, d6: bv8, d7: bv8)
    ensures var a := AddLoaded(crc, d0, d1, d2, d3, d4, d5, d6, d7);
            && Wide(WordByte(a, 0)) == Xor(Wide(d0), Low(crc))
            && Wide(WordByte(a, 1)) == Xor(Wide(d1), Low(crc >> 8))
            && Wide(WordByte(a, 2)) == Xor(Wide(d2), Low(crc >> 16))
            && Wide(WordByte(a, 3)) == Xor(Wide(d3), Low(crc >> 24))
  {
  }

  lemma LoadedBytesHigh(crc: bv32, d0: bv8, d1: bv8, d2: bv8, d3: bv8, d4: bv8, d5: bv8, d6: bv8, d7: bv8)
    ensures var a := AddLoaded(crc, d0, d1, d2, d3, d4, d5, d6, d7);
            WordByte(a, 4) == d4 && WordByte(a, 5) == d5 && WordByte(a, 6) == d6 && WordByte(a, 7) == d7
  {
  }

  lemma AccumulatorBytes(crc: bv32, d: seq<bv8>)
    requires |d| == 8
    ensures var a := Accumulator(crc, d);
            && Wide(WordByte(a, 0)) == Xor(Wide(d[0]), Low(crc))
            && Wide(WordByte(a, 1)) == Xor(Wide(d[1]), Low(crc >> 8))
            && Wide(WordByte(a, 2)) == Xor(Wide(d[2]), Low(crc >> 16))
            && Wide(WordByte(a, 3)) == Xor(Wide(d[3]), Low(crc >> 24))
            && WordByte(a, 4) == d[4] && WordByte(a, 5) == d[5] && WordByte(a, 6) == d[6] && WordByte(a, 7) == d[7]
  {
    hide WordByte, AddLoaded, Xor, Low, Wide;
    LoadedBytesLow(crc, d[0], d[1], d[2], d[3], d[4], d[5], d[6], d[7]);
    LoadedBytesHigh(crc, d[0], d[1], d[2], d[3], d[4], d[5], d[6], d[7]);
  }

  lemma FoldedRegister(crc: bv32, j: nat, b: bv8)
    requires j < 8
    ensures FoldedByte(b, ShiftOut(crc, j)) ==
            match j
            case 0 => Xor(Wide(b), Low(crc))
            case 1 => Xor(Wide(b), Low(crc >> 8))
            case 2 => Xor(Wide(b), Low(crc >> 16))
            case 3 => Xor(Wide(b), Low(crc >> 24))
            case _ => Wide(b)
  {
    hide ShiftOut, Xor, Low;
    ShiftOutNothing(crc);
    ShiftedOut(crc);
    assert j >= 4 ==> ShiftOut(crc, j) == 0;
    FoldNothing(b);
  }

  lemma AccumulatorByte(crc: bv32, d: seq<bv8>, j: nat)
    requires |d| == 8 && j < 8
    ensures Wide(WordByte(Accumulator(crc, d), j)) == FoldedByte(d[j], ShiftOut(crc, j))
  {
    hide WordByte, Accumulator, ShiftOut, FoldedByte, Xor, Low, Wide;
    AccumulatorBytes(crc, d);
    FoldedRegister(crc, j, d[j]);
  }

  lemma ShiftOutNothing(crc: bv32)
    ensures ShiftOut(crc, 0) == crc
  {
  }

  lemma FoldNothing(b: bv8)
    ensures FoldedByte(b, 0) == Wide(b)
  {
  }

  lemma AccumulatorIsFolded(crc: bv32, d: seq<bv8>)
    requires |d| == 8
    ensures Folded(crc, d, WordBytes(Accumulator(crc, d)))
  {
    hide FoldedByte, WordByte, Accumulator, ShiftOut, Wide;
    forall j | 0 <= j < 8
      ensures Wide(WordBytes(Accumulator(crc, d))[j]) == FoldedByte(d[j], ShiftOut(crc, j))
    {
      AccumulatorByte(crc, d, j);
    }
  }

  // One word of __crc32: the eight lookups advance the register over eight bytes.
  lemma WordStep(crc: bv32, d: seq<bv8>)
    requires |d| == 8
    ensures WordSum(WordBytes(Accumulator(crc, d)), 8) == Run(crc, d)
  {
    hide Xor, WordByte, Accumulator, WordEntry, FoldedByte, ShiftOut;
    var m := WordBytes(Accumulator(crc, d));
    AccumulatorIsFolded(crc, d);
    RunFolded(crc, d, m);
    WordSumIsRun(m);
    assert ShiftOut(crc, 8) == 0 by { ShiftedOut(crc); }
    XorLaws(Run(0, m), 0);
  }

  method Crc32ForByte(r0: bv32) returns (r: bv32)
    ensures r == TableEntry(r0)
  {
    hide Xor, TableBit;
    r := r0;
    for j := 0 to 8
      invariant r == TableBits(r0, j)
    {
      TableBitDefinition(r);
      r := (if r & 1 != 0 then 0 else POLYNOMIAL) ^ (r >> 1);
    }
    XorDefinition(r, 0xFF00_0000);
    r := r ^ 0xFF00_0000;
  }

  lemma LookupEntry(table: seq<bv32>, crc: bv32, b: bv8)
    requires TableBuilt(table)
    ensures table[Index(crc, b)] == TableEntry(Low(Xor(crc, Wide(b))))
  {
    hide Low, TableEntry, Xor, Index, Wide, Word;
    IndexIsLowByte(crc, b);
  }

  lemma ByteStepParts(crc: bv32, b: bv8)
    ensures ByteStep(crc, b) == Xor(TableEntry(Low(Xor(crc, Wide(b)))), crc >> 8)
  {
    hide Low, TableEntry, Xor, Wide;
    ByteAddsNothingHigh(crc, b);
  }

  lemma Lookup(table: seq<bv32>, crc: bv32, b: bv8)
    requires TableBuilt(table)
    ensures table[Index(crc, b)] ^ (crc >> 8) == ByteStep(crc, b)
  {
    hide Low, TableEntry, Xor, Index, Wide, Word, ByteStep;
    LookupEntry(table, crc, b);
    ByteStepParts(crc, b);
    XorDefinition(table[Index(crc, b)], crc >> 8);
  }

  // Adding the byte before the lookup or to the index makes no difference.
  lemma WordRunStep(k: nat, i: nat, j: nat, w: bv32, b: bv8)
    requires i < 0x100 && w == WordRun(k, Word(i), j) && b == if j == k then i as bv8 else 0
    ensures WordRun(k, Word(i), j + 1) == ByteStep(w, b)
  {
    hide Xor, Absorb;
    IntByte(i);
    XorLaws(w, 0);
  }

  lemma WordEntryFromTable(k: nat, i: nat, first: bv32)
    requires i < 0x100 && first == if k != 0 then WordEntry(0, Word(0)) else 0
    ensures WordEntry(k, Word(i)) == Xor(WordRun(k, Word(i), 8), first)
  {
    assert Word(0) == 0;
    hide Xor, WordRun, Word;
    XorLaws(WordRun(0, 0, 8), 0);
  }

  lemma WordTableExtended(wtable: seq<bv32>, k: nat, i: nat, entry: bv32)
    requires |wtable| == 0x800 && k < 8 && i < 0x100 && WordTableBuilt(wtable, 0x100 * k + i)
    requires entry == Xor(WordRun(k, Word(i), 8), if k != 0 then wtable[0] else 0)
    ensures WordTableBuilt(wtable[0x100 * k + i := entry], 0x100 * k + i + 1)
  {
    hide WordEntry, WordRun, Xor, Word;
    var n := 0x100 * k + i;
    assert n / 0x100 == k && n % 0x100 == i;
    WordEntryFromTable(k, i, if k != 0 then wtable[0] else 0);
  }

  // The tables are static: zero at first, then built by the first call and kept.
  class Tables {
    const table: array<bv32>
    const wtable: array<bv32>

    ghost predicate Built()
      reads table, wtable
    {
      TableBuilt(table[..]) && WordTableBuilt(wtable[..], 0x800)
    }

    ghost predicate Valid()
      reads table, wtable
    {
      && table.Length == 0x100 && wtable.Length == 0x800 && table != wtable
      && (table[0] != 0 ==> Built())
    }

    constructor ()
      ensures Valid() && fresh(table) && fresh(wtable)
    {
      table := new bv32[0x100](_ => 0);
      wtable := new bv32[0x800](_ => 0);
    }

    method BuildTable()
      requires table.Length == 0x100
      modifies table
      ensures TableBuilt(table[..])
    {
      hide TableEntry, Word;
      for i := 0 to 0x100
        invariant forall x :: 0 <= x < i ==> table[x] == TableEntry(Word(x))
      {
        table[i] := Crc32ForByte(Word(i));
      }
    }

    // The innermost loop of init_tables.
    method BuildWord(k: nat, i: nat) returns (w: bv32)
      requires table.Length == 0x100 && TableBuilt(table[..]) && i < 0x100
      ensures w == WordRun(k, Word(i), 8)
    {
      hide TableEntry, ByteStep, Index, Word;
      w := 0;
      for j := 0 to 8
        invariant w == WordRun(k, Word(i), j)
      {
        var b: bv8 := if j == k then i as bv8 else 0;
        WordRunStep(k, i, j, w, b);
        Lookup(table[..], w, b);
        w := table[Index(w, b)] ^ (w >> 8);
      }
    }

    method BuildEntry(k: nat, i: nat)
      requires table.Length == 0x100 && wtable.Length == 0x800 && table != wtable
      requires TableBuilt(table[..]) && k < 8 && i < 0x100
      requires WordTableBuilt(wtable[..], 0x100 * k + i)
      modifies wtable
      ensures WordTableBuilt(wtable[..], 0x100 * k + i + 1)
    {
      hide TableBuilt, WordTableBuilt, WordEntry, WordRun, Xor, Word;
      var w := BuildWord(k, i);
      var n := 0x100 * k + i;
      var first := if k != 0 then wtable[0] else 0;
      WordTableExtended(wtable[..], k, i, Xor(w, first));
      wtable[n] := Xor(w, first);
      assert wtable[..] == old(wtable[..])[n := Xor(w, first)];
    }

    method InitTables()
      requires Valid()
      modifies table, wtable
      ensures Valid() && Built()
    {
      hide TableEntry, WordEntry, Word;
      BuildTable();
      for k := 0 to 8
        invariant TableBuilt(table[..]) && WordTableBuilt(wtable[..], 0x100 * k)
      {
        for i := 0 to 0x100
          invariant TableBuilt(table[..]) && WordTableBuilt(wtable[..], 0x100 * k + i)
        {
          BuildEntry(k, i);
        }
      }
    }

    method EnsureTables()
      requires Valid()
      modifies table, wtable
      ensures Valid() && Built() && table[0] != 0
    {
      if table[0] == 0 {
        InitTables();
        FirstEntryIsNotZero();
      }
    }

    // __crc32, which takes the register by reference.
    method Crc32(data: seq<bv8>, crc0: bv32) returns (crc: bv32)
      requires Valid()
      modifies table, wtable
      ensures Valid() && Built() && table[0] != 0
      ensures crc == Run(crc0, data)
    {
      EnsureTables();
      hide TableEntry, WordEntry, ByteStep;
      var words := |data| / 8;
      crc := SumWords(data, words, crc0);
      for i := 8 * words to |data|
        invariant Valid() && Built() && table[0] != 0
        invariant crc == Run(crc0, data[..i])
      {
        crc := AbsorbByte(data, i, crc0, crc);
      }
      assert data[..|data|] == data;
    }

    // One turn of the byte-wise tail loop.
    method AbsorbByte(data: seq<bv8>, i: nat, ghost crc0: bv32, crc1: bv32) returns (crc: bv32)
      requires table.Length == 0x100 && TableBuilt(table[..])
      requires i < |data| && crc1 == Run(crc0, data[..i])
      ensures crc == Run(crc0, data[..i + 1])
    {
      hide TableEntry, ByteStep, Index;
      assert data[..i + 1][..i] == data[..i];
      Lookup(table[..], crc1, data[i]);
      crc := table[Index(crc1, data[i])] ^ (crc1 >> 8);
    }

    // The word loop.
    method SumWords(data: seq<bv8>, words: nat, crc0: bv32) returns (crc: bv32)
      requires wtable.Length == 0x800 && WordTableBuilt(wtable[..], 0x800)
      requires 8 * words <= |data|
      ensures crc == Run(crc0, data[..8 * words])
    {
      hide WordTableBuilt, Run, Accumulator, WordSum;
      crc := crc0;
      EmptyRun(crc0, data[..0]);
      for i := 0 to words
        invariant crc == Run(crc0, data[..8 * i])
      {
        var d := data[8 * i..8 * i + 8];
        WordStep(crc, d);
        RunAppend(crc0, data[..8 * i], d);
        assert data[..8 * i] + d == data[..8 * (i + 1)];
        crc := SumWord(Accumulator(crc, d));
      }
    }

    // The inner loop of __crc32: one lookup for each byte of the accumulator.
    method SumWord(a: bv64) returns (crc: bv32)
      requires wtable.Length == 0x800 && WordTableBuilt(wtable[..], 0x800)
      ensures crc == WordSum(WordBytes(a), 8)
    {
      hide Xor, WordByte, WordEntry, ByteInt, WordTableBuilt, Wide, Word;
      crc := 0;
      for j := 0 to 8
        invariant crc == WordSum(WordBytes(a), j)
      {
        var entry := LookupWordByte(j, WordByte(a, j));
        XorDefinition(crc, entry);
        crc := crc ^ entry;
      }
    }

    method LookupWordByte(j: nat, b: bv8) returns (entry: bv32)
      requires wtable.Length == 0x800 && WordTableBuilt(wtable[..], 0x800) && j < 8
      ensures entry == WordEntry(j, Wide(b))
    {
      WordTableLookup(wtable[..], j, b);
      hide WordEntry, ByteInt, Wide, Word;
      entry := wtable[0x100 * j + ByteInt(b)];
    }

    method EthernetCrc32(data: seq<bv8>) returns (crc: bv32)
      requires Valid()
      modifies table, wtable
      ensures Valid()
      ensures crc == ReferenceCrc(data)
    {
      hide Run, ReferenceCrc;
      crc := Crc32(data, 0);
      RunIsReference(data);
    }
  }

  lemma EmptyRun(crc: bv32, data: seq<bv8>)
    requires data == []
    ensures Run(crc, data) == crc
  {
  }

  lemma WordTableLookup(wtable: seq<bv32>, j: nat, b: bv8)
    requires WordTableBuilt(wtable, 0x800) && j < 8
    ensures ByteInt(b) < 0x100 && wtable[0x100 * j + ByteInt(b)] == WordEntry(j, Wide(b))
  {
    hide WordEntry, ByteInt, Wide, Word;
    ByteIndex(b);
    var n := 0x100 * j + ByteInt(b);
    assert n / 0x100 == j && n % 0x100 == ByteInt(b);
  }

  lemma FirstEntryIsNotZero()
    ensures TableEntry(0) != 0
  {
    TableEntryIsDouble8(0);
  }

  // The receiver's check of section 3.2.9: a message followed by its own CRC, lowest byte first, always leaves
  // the same remainder.
  function Trailer(crc: bv32): seq<bv8> {
    [(crc & 0xFF) as bv8, ((crc >> 8) & 0xFF) as bv8, ((crc >> 16) & 0xFF) as bv8, ((crc >> 24) & 0xFF) as bv8]
  }

  lemma TrailerByte(crc: bv32)
    ensures var t := Trailer(crc);
            && |t| == 4
            && Wide(t[0]) == Low(crc) && Wide(t[1]) == Low(crc >> 8)
            && Wide(t[2]) == Low(crc >> 16) && Wide(t[3]) == Low(crc >> 24)
  {
  }

  lemma TrailerFoldsToZero(crc: bv32)
    ensures Folded(crc, Trailer(crc), [0, 0, 0, 0])
  {
    assert Wide(0) == 0;
    hide Xor, Low, Trailer, FoldedByte, ShiftOut, Wide;
    var t := Trailer(crc);
    TrailerByte(crc);
    ShiftedOut(crc);
    ShiftOutNothing(crc);
    FoldedToZero(t[0], crc);
    FoldedToZero(t[1], crc >> 8);
    FoldedToZero(t[2], crc >> 16);
    FoldedToZero(t[3], crc >> 24);
  }

  lemma FoldedToZero(b: bv8, e: bv32)
    requires Wide(b) == Low(e)
    ensures FoldedByte(b, e) == 0
  {
  }

  lemma TrailerResidue(data: seq<bv8>)
    ensures ReferenceCrc(data + Trailer(ReferenceCrc(data))) == 0x2144_DF1C
  {
    hide Run, ReferenceCrc, Trailer, ShiftOut, Xor;
    var crc := ReferenceCrc(data);
    RunIsReference(data);
    RunIsReference(data + Trailer(crc));
    RunAppend(0, data, Trailer(crc));
    TrailerFoldsToZero(crc);
    RunFolded(crc, Trailer(crc), [0, 0, 0, 0]);
    TrailerByte(crc);
    assert ShiftOut(crc, 4) == 0 by { ShiftedOut(crc); }
    XorLaws(Run(0, [0, 0, 0, 0]), 0);
    ZeroBytesResidue();
  }

  // The remainder of four zero bytes, through 0xD202EF8D, 0x41D912FF and 0xFF41D912.
  lemma ZeroBytesResidue()
    ensures Run(0, [0, 0, 0, 0]) == 0x2144_DF1C
  {
    hide ByteStep;
    var s: seq<bv8> := [0, 0, 0, 0];
    assert s[..3][..2] == s[..2] && s[..2][..1] == s[..1] && s[..1][..0] == [];
    ZeroByteSteps();
    assert Run(0, s[..1]) == 0xD202_EF8D;
    assert Run(0, s[..2]) == 0x41D9_12FF;
    assert Run(0, s[..3]) == 0xFF41_D912;
  }

  lemma ZeroByteSteps()
    ensures ByteStep(0, 0) == 0xD202_EF8D && ByteStep(0xD202_EF8D, 0) == 0x41D9_12FF
    ensures ByteStep(0x41D9_12FF, 0) == 0xFF41_D912 && ByteStep(0xFF41_D912, 0) == 0x2144_DF1C
  {
    hide ByteStep;
    ZeroByteStep(0);
    ZeroByteStep(0xD202_EF8D);
    ZeroByteStep(0x41D9_12FF);
    ZeroByteStep(0xFF41_D912);
  }

  lemma ZeroByteStep(crc: bv32)
    ensures ByteStep(crc, 0) == Not(Double8(Not(crc)))
  {
    hide Xor, Absorb, Not, Double8;
    XorLaws(crc, 0);
    AbsorbIsDouble8(crc);
  }
}
