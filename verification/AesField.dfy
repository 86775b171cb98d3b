/** Multiplication in GF(2^8), as in section 4.2 of FIPS 197, and what the lookup tables are in terms of it. */
module AesField {
  import opened AesTables

  function Xor(a: bv8, b: bv8): bv8 { a ^ b }

  function Sum4(a: bv8, b: bv8, c: bv8, d: bv8): bv8 { Xor(Xor(a, b), Xor(c, d)) }

  function Feedback(a: bv8): bv8 { if a & 0x80 != 0 then 0x1B else 0 }

  // Multiplication by x modulo x^8 + x^4 + x^3 + x + 1.
  function XTime(a: bv8): bv8 { Xor(a << 1, Feedback(a)) }

  // Shift and add: the sum of the multiples of a by the powers of x that b has.
  function Times(a: bv8, b: bv8): bv8 {
    var a1 := (a << 1) ^ (if a & 0x80 != 0 then 0x1B else 0);
    var a2 := (a1 << 1) ^ (if a1 & 0x80 != 0 then 0x1B else 0);
    var a3 := (a2 << 1) ^ (if a2 & 0x80 != 0 then 0x1B else 0);
    var a4 := (a3 << 1) ^ (if a3 & 0x80 != 0 then 0x1B else 0);
    var a5 := (a4 << 1) ^ (if a4 & 0x80 != 0 then 0x1B else 0);
    var a6 := (a5 << 1) ^ (if a5 & 0x80 != 0 then 0x1B else 0);
    var a7 := (a6 << 1) ^ (if a6 & 0x80 != 0 then 0x1B else 0);
    (if b & 0x01 != 0 then a else 0) ^ (if b & 0x02 != 0 then a1 else 0) ^
    (if b & 0x04 != 0 then a2 else 0) ^ (if b & 0x08 != 0 then a3 else 0) ^
    (if b & 0x10 != 0 then a4 else 0) ^ (if b & 0x20 != 0 then a5 else 0) ^
    (if b & 0x40 != 0 then a6 else 0) ^ (if b & 0x80 != 0 then a7 else 0)
  }

  // ---------- Sums ----------

  lemma XorDefinition(a: bv8, b: bv8)
    ensures Xor(a, b) == a ^ b
  {
  }

  lemma XorAssociative(a: bv8, b: bv8, c: bv8)
    ensures Xor(Xor(a, b), c) == Xor(a, Xor(b, c))
  {
    assert (a ^ b) ^ c == a ^ (b ^ c);
  }

  lemma XorLaws(a: bv8, b: bv8)
    ensures Xor(a, b) == Xor(b, a)
    ensures Xor(a, a) == 0 && Xor(0, a) == a == Xor(a, 0)
  {
  }

  lemma XorExchange(a: bv8, b: bv8, c: bv8, d: bv8)
    ensures Xor(Xor(a, b), Xor(c, d)) == Xor(Xor(a, c), Xor(b, d))
  {
    hide Xor;
    XorAssociative(a, b, Xor(c, d));
    XorAssociative(b, c, d);
    XorAssociative(c, b, d);
    XorAssociative(a, c, Xor(b, d));
    XorLaws(b, c);
  }

  lemma Sum4Rotate(a: bv8, b: bv8, c: bv8, d: bv8)
    ensures Sum4(a, b, c, d) == Sum4(d, a, b, c)
  {
    hide Xor;
    XorLaws(Xor(a, b), Xor(c, d));
    XorLaws(c, d);
    XorExchange(d, c, a, b);
    XorLaws(c, b);
  }

  lemma Sum4Zeros(a: bv8)
    ensures Sum4(a, 0, 0, 0) == a
  {
  }

  lemma Sum4Add(a0: bv8, a1: bv8, a2: bv8, a3: bv8, b0: bv8, b1: bv8, b2: bv8, b3: bv8)
    ensures Xor(Sum4(a0, a1, a2, a3), Sum4(b0, b1, b2, b3)) ==
            Sum4(Xor(a0, b0), Xor(a1, b1), Xor(a2, b2), Xor(a3, b3))
  {
    hide Xor;
    XorExchange(Xor(a0, a1), Xor(a2, a3), Xor(b0, b1), Xor(b2, b3));
    XorExchange(a0, a1, b0, b1);
    XorExchange(a2, a3, b2, b3);
  }

  lemma Sum4Transpose(a0: bv8, a1: bv8, a2: bv8, a3: bv8, b0: bv8, b1: bv8, b2: bv8, b3: bv8,
                      c0: bv8, c1: bv8, c2: bv8, c3: bv8, d0: bv8, d1: bv8, d2: bv8, d3: bv8)
    ensures Sum4(Sum4(a0, a1, a2, a3), Sum4(b0, b1, b2, b3), Sum4(c0, c1, c2, c3), Sum4(d0, d1, d2, d3)) ==
            Sum4(Sum4(a0, b0, c0, d0), Sum4(a1, b1, c1, d1), Sum4(a2, b2, c2, d2), Sum4(a3, b3, c3, d3))
  {
    hide Xor;
    Sum4Add(a0, a1, a2, a3, b0, b1, b2, b3);
    Sum4Add(c0, c1, c2, c3, d0, d1, d2, d3);
    Sum4Add(Xor(a0, b0), Xor(a1, b1), Xor(a2, b2), Xor(a3, b3), Xor(c0, d0), Xor(c1, d1), Xor(c2, d2), Xor(c3, d3));
  }

  // ---------- Linearity ----------

  lemma ShiftLinear(a: bv8, b: bv8)
    ensures Xor(a, b) << 1 == Xor(a << 1, b << 1)
  {
    hide Xor;
    XorDefinition(a, b);
    XorDefinition(a << 1, b << 1);
  }

  lemma FeedbackLinear(a: bv8, b: bv8)
    ensures Feedback(Xor(a, b)) == Xor(Feedback(a), Feedback(b))
  {
  }

  lemma XTimeLinear(a: bv8, b: bv8)
    ensures XTime(Xor(a, b)) == Xor(XTime(a), XTime(b))
  {
    hide Xor, Feedback;
    ShiftLinear(a, b);
    FeedbackLinear(a, b);
    XorExchange(a << 1, b << 1, Feedback(a), Feedback(b));
  }

  // ---------- The gf_mul table ----------

  // Quarter by quarter, which keeps each case small.

  lemma Gf2Times(x: bv8)
    ensures Gf2(x) == Times(x, 2)
  {
  }

  lemma Gf3Times(x: bv8)
    ensures Gf3(x) == Times(x, 3)
  {
  }

  lemma Gf9Times(x: bv8)
    ensures Gf9(x) == Times(x, 9)
  {
    if x < 0x40 {
    } else if x < 0x80 {
    } else if x < 0xC0 {
    } else {
    }
  }

  lemma Gf11Times(x: bv8)
    ensures Gf11(x) == Times(x, 11)
  {
    if x < 0x40 {
    } else if x < 0x80 {
    } else if x < 0xC0 {
    } else {
    }
  }

  lemma Gf13Times(x: bv8)
    ensures Gf13(x) == Times(x, 13)
  {
    if x < 0x40 {
    } else if x < 0x80 {
    } else if x < 0xC0 {
    } else {
    }
  }

  lemma Gf14Times(x: bv8)
    ensures Gf14(x) == Times(x, 14)
  {
    if x < 0x40 {
    } else if x < 0x80 {
    } else if x < 0xC0 {
    } else {
    }
  }

  // Every column is multiplication by its constant.
  lemma TableIsTimes(x: bv8)
    ensures Gf2(x) == Times(x, 2) && Gf3(x) == Times(x, 3) && Gf9(x) == Times(x, 9)
    ensures Gf11(x) == Times(x, 11) && Gf13(x) == Times(x, 13) && Gf14(x) == Times(x, 14)
  {
    Gf2Times(x);
    Gf3Times(x);
    Gf9Times(x);
    Gf11Times(x);
    Gf13Times(x);
    Gf14Times(x);
  }

  lemma Gf9Doublings(x: bv8)
    ensures var x1 := XTime(x); var x2 := XTime(x1); var x3 := XTime(x2); Gf9(x) == Xor(x3, x)
  {
    hide Gf9;
    Gf9Times(x);
  }

  lemma Gf11Doublings(x: bv8)
    ensures var x1 := XTime(x); var x2 := XTime(x1); var x3 := XTime(x2); Gf11(x) == Xor(x3, Xor(x1, x))
  {
    if x < 0x40 {
    } else if x < 0x80 {
    } else if x < 0xC0 {
    } else {
    }
  }

  lemma Gf13Doublings(x: bv8)
    ensures var x1 := XTime(x); var x2 := XTime(x1); var x3 := XTime(x2); Gf13(x) == Xor(x3, Xor(x2, x))
  {
    if x < 0x40 {
    } else if x < 0x80 {
    } else if x < 0xC0 {
    } else {
    }
  }

  lemma Gf14Doublings(x: bv8)
    ensures var x1 := XTime(x); var x2 := XTime(x1); var x3 := XTime(x2); Gf14(x) == Xor(x3, Xor(x2, x1))
  {
    if x < 0x40 {
    } else if x < 0x80 {
    } else if x < 0xC0 {
    } else {
    }
  }

  // Doubling distributes over a sum of four, three times over.
  lemma XTimeSum(a: bv8, b: bv8, c: bv8, d: bv8)
    ensures XTime(Sum4(a, b, c, d)) == Sum4(XTime(a), XTime(b), XTime(c), XTime(d))
  {
    hide XTime, Xor;
    XTimeLinear(Xor(a, b), Xor(c, d));
    XTimeLinear(a, b);
    XTimeLinear(c, d);
  }

  lemma Gf9Linear(a: bv8, b: bv8, c: bv8, d: bv8)
    ensures Gf9(Sum4(a, b, c, d)) == Sum4(Gf9(a), Gf9(b), Gf9(c), Gf9(d))
  {
    hide Gf9, XTime, Xor, Sum4;
    var a1, b1, c1, d1 := XTime(a), XTime(b), XTime(c), XTime(d);
    var a2, b2, c2, d2 := XTime(a1), XTime(b1), XTime(c1), XTime(d1);
    var a3, b3, c3, d3 := XTime(a2), XTime(b2), XTime(c2), XTime(d2);
    XTimeSum(a, b, c, d);
    XTimeSum(a1, b1, c1, d1);
    XTimeSum(a2, b2, c2, d2);
    Gf9Doublings(Sum4(a, b, c, d));
    Gf9Doublings(a);
    Gf9Doublings(b);
    Gf9Doublings(c);
    Gf9Doublings(d);
    Sum4Add(a3, b3, c3, d3, a, b, c, d);
  }

  lemma Gf11Linear(a: bv8, b: bv8, c: bv8, d: bv8)
    ensures Gf11(Sum4(a, b, c, d)) == Sum4(Gf11(a), Gf11(b), Gf11(c), Gf11(d))
  {
    hide Gf11, XTime, Xor, Sum4;
    var a1, b1, c1, d1 := XTime(a), XTime(b), XTime(c), XTime(d);
    var a2, b2, c2, d2 := XTime(a1), XTime(b1), XTime(c1), XTime(d1);
    var a3, b3, c3, d3 := XTime(a2), XTime(b2), XTime(c2), XTime(d2);
    XTimeSum(a, b, c, d);
    XTimeSum(a1, b1, c1, d1);
    XTimeSum(a2, b2, c2, d2);
    Gf11Doublings(Sum4(a, b, c, d));
    Gf11Doublings(a);
    Gf11Doublings(b);
    Gf11Doublings(c);
    Gf11Doublings(d);
    Sum4Add(a1, b1, c1, d1, a, b, c, d);
    Sum4Add(a3, b3, c3, d3, Xor(a1, a), Xor(b1, b), Xor(c1, c), Xor(d1, d));
  }

  lemma Gf13Linear(a: bv8, b: bv8, c: bv8, d: bv8)
    ensures Gf13(Sum4(a, b, c, d)) == Sum4(Gf13(a), Gf13(b), Gf13(c), Gf13(d))
  {
    hide Gf13, XTime, Xor, Sum4;
    var a1, b1, c1, d1 := XTime(a), XTime(b), XTime(c), XTime(d);
    var a2, b2, c2, d2 := XTime(a1), XTime(b1), XTime(c1), XTime(d1);
    var a3, b3, c3, d3 := XTime(a2), XTime(b2), XTime(c2), XTime(d2);
    XTimeSum(a, b, c, d);
    XTimeSum(a1, b1, c1, d1);
    XTimeSum(a2, b2, c2, d2);
    Gf13Doublings(Sum4(a, b, c, d));
    Gf13Doublings(a);
    Gf13Doublings(b);
    Gf13Doublings(c);
    Gf13Doublings(d);
    Sum4Add(a2, b2, c2, d2, a, b, c, d);
    Sum4Add(a3, b3, c3, d3, Xor(a2, a), Xor(b2, b), Xor(c2, c), Xor(d2, d));
  }

  lemma Gf14Linear(a: bv8, b: bv8, c: bv8, d: bv8)
    ensures Gf14(Sum4(a, b, c, d)) == Sum4(Gf14(a), Gf14(b), Gf14(c), Gf14(d))
  {
    hide Gf14, XTime, Xor, Sum4;
    var a1, b1, c1, d1 := XTime(a), XTime(b), XTime(c), XTime(d);
    var a2, b2, c2, d2 := XTime(a1), XTime(b1), XTime(c1), XTime(d1);
    var a3, b3, c3, d3 := XTime(a2), XTime(b2), XTime(c2), XTime(d2);
    XTimeSum(a, b, c, d);
    XTimeSum(a1, b1, c1, d1);
    XTimeSum(a2, b2, c2, d2);
    Gf14Doublings(Sum4(a, b, c, d));
    Gf14Doublings(a);
    Gf14Doublings(b);
    Gf14Doublings(c);
    Gf14Doublings(d);
    Sum4Add(a2, b2, c2, d2, a1, b1, c1, d1);
    Sum4Add(a3, b3, c3, d3, Xor(a2, a1), Xor(b2, b1), Xor(c2, c1), Xor(d2, d1));
  }

  // ---------- The inverse of the MixColumns matrix ----------

  // The product of the two matrices has ones on its diagonal and zeros elsewhere.  With x1 to x4 the doublings of
  // a byte, every entry is a sum in which all but the wanted terms occur an even number of times.
  lemma Doublings(a: bv8)
    ensures Gf2(a) == XTime(a) && Gf3(a) == Xor(XTime(a), a)
  {
  }

  // The doublings of 3 a from those of a.
  lemma TripledDoublings(a: bv8)
    ensures var x1 := XTime(a); var x2 := XTime(x1); var x3 := XTime(x2); var x4 := XTime(x3);
            var y := Xor(x1, a); var y1 := XTime(y); var y2 := XTime(y1);
            y1 == Xor(x2, x1) && y2 == Xor(x3, x2) && XTime(y2) == Xor(x4, x3)
  {
    hide XTime, Xor;
    var x1 := XTime(a);
    var x2 := XTime(x1);
    XTimeLinear(x1, a);
    XTimeLinear(x2, x1);
    XTimeLinear(XTime(x2), x2);
  }

  lemma CancelDiagonal(a: bv8, x1: bv8, x2: bv8, x3: bv8, x4: bv8)
    ensures Sum4(Xor(x4, Xor(x3, x2)), Xor(x3, Xor(x1, a)),
                 Xor(x3, Xor(x2, a)), Xor(Xor(x4, x3), Xor(x1, a))) == a
  {
    hide Xor;
    var s1 := Xor(x3, x2);
    XorDefinition(x3, x2);
    var s2 := Xor(x4, s1);
    XorDefinition(x4, s1);
    var s3 := Xor(x1, a);
    XorDefinition(x1, a);
    var s4 := Xor(x3, s3);
    XorDefinition(x3, s3);
    var s5 := Xor(x2, a);
    XorDefinition(x2, a);
    var s6 := Xor(x3, s5);
    XorDefinition(x3, s5);
    var s7 := Xor(x4, x3);
    XorDefinition(x4, x3);
    var s8 := Xor(s7, s3);
    XorDefinition(s7, s3);
    var s9 := Xor(s2, s4);
    XorDefinition(s2, s4);
    var s10 := Xor(s6, s8);
    XorDefinition(s6, s8);
    var s11 := Xor(s9, s10);
    XorDefinition(s9, s10);
  }

  lemma MatrixDiagonal(a: bv8)
    ensures Sum4(Gf14(Gf2(a)), Gf11(a), Gf13(a), Gf9(Gf3(a))) == a
  {
    hide Gf2, Gf3, Gf9, Gf11, Gf13, Gf14, XTime, Xor, Sum4;
    var x1 := XTime(a);
    var x2 := XTime(x1);
    var x3 := XTime(x2);
    var y := Xor(x1, a);
    Doublings(a);
    TripledDoublings(a);
    Gf14Doublings(x1);
    Gf11Doublings(a);
    Gf13Doublings(a);
    Gf9Doublings(y);
    CancelDiagonal(a, x1, x2, x3, XTime(x3));
  }

  lemma CancelSecond(a: bv8, x1: bv8, x2: bv8, x3: bv8, x4: bv8)
    ensures Sum4(Xor(Xor(x4, x3), Xor(Xor(x3, x2), Xor(x2, x1))), Xor(x4, Xor(x2, x1)),
                 Xor(x3, Xor(x2, a)), Xor(x3, a)) == 0
  {
    hide Xor;
    var s1 := Xor(x4, x3);
    XorDefinition(x4, x3);
    var s2 := Xor(x3, x2);
    XorDefinition(x3, x2);
    var s3 := Xor(x2, x1);
    XorDefinition(x2, x1);
    var s4 := Xor(s2, s3);
    XorDefinition(s2, s3);
    var s5 := Xor(s1, s4);
    XorDefinition(s1, s4);
    var s6 := Xor(x4, s3);
    XorDefinition(x4, s3);
    var s7 := Xor(x2, a);
    XorDefinition(x2, a);
    var s8 := Xor(x3, s7);
    XorDefinition(x3, s7);
    var s9 := Xor(x3, a);
    XorDefinition(x3, a);
    var s10 := Xor(s5, s6);
    XorDefinition(s5, s6);
    var s11 := Xor(s8, s9);
    XorDefinition(s8, s9);
    var s12 := Xor(s10, s11);
    XorDefinition(s10, s11);
  }

  lemma MatrixSecond(a: bv8)
    ensures Sum4(Gf14(Gf3(a)), Gf11(Gf2(a)), Gf13(a), Gf9(a)) == 0
  {
    hide Gf2, Gf3, Gf9, Gf11, Gf13, Gf14, XTime, Xor, Sum4;
    var x1 := XTime(a);
    var x2 := XTime(x1);
    var x3 := XTime(x2);
    var y := Xor(x1, a);
    Doublings(a);
    TripledDoublings(a);
    Gf14Doublings(y);
    Gf11Doublings(x1);
    Gf13Doublings(a);
    Gf9Doublings(a);
    CancelSecond(a, x1, x2, x3, XTime(x3));
  }

  lemma CancelThird(a: bv8, x1: bv8, x2: bv8, x3: bv8, x4: bv8)
    ensures Sum4(Xor(x3, Xor(x2, x1)), Xor(Xor(x4, x3), Xor(Xor(x2, x1), Xor(x1, a))),
                 Xor(x4, Xor(x3, x1)), Xor(x3, a)) == 0
  {
    hide Xor;
    var s1 := Xor(x2, x1);
    XorDefinition(x2, x1);
    var s2 := Xor(x3, s1);
    XorDefinition(x3, s1);
    var s3 := Xor(x4, x3);
    XorDefinition(x4, x3);
    var s4 := Xor(x1, a);
    XorDefinition(x1, a);
    var s5 := Xor(s1, s4);
    XorDefinition(s1, s4);
    var s6 := Xor(s3, s5);
    XorDefinition(s3, s5);
    var s7 := Xor(x3, x1);
    XorDefinition(x3, x1);
    var s8 := Xor(x4, s7);
    XorDefinition(x4, s7);
    var s9 := Xor(x3, a);
    XorDefinition(x3, a);
    var s10 := Xor(s2, s6);
    XorDefinition(s2, s6);
    var s11 := Xor(s8, s9);
    XorDefinition(s8, s9);
    var s12 := Xor(s10, s11);
    XorDefinition(s10, s11);
  }

  lemma MatrixThird(a: bv8)
    ensures Sum4(Gf14(a), Gf11(Gf3(a)), Gf13(Gf2(a)), Gf9(a)) == 0
  {
    hide Gf2, Gf3, Gf9, Gf11, Gf13, Gf14, XTime, Xor, Sum4;
    var x1 := XTime(a);
    var x2 := XTime(x1);
    var x3 := XTime(x2);
    var y := Xor(x1, a);
    Doublings(a);
    TripledDoublings(a);
    Gf14Doublings(a);
    Gf11Doublings(y);
    Gf13Doublings(x1);
    Gf9Doublings(a);
    CancelThird(a, x1, x2, x3, XTime(x3));
  }

  lemma CancelFourthLeft(a: bv8, x1: bv8, x2: bv8, x3: bv8)
    ensures Xor(Xor(x3, Xor(x2, x1)), Xor(x3, Xor(x1, a))) == Xor(x2, a)
  {
    hide Xor;
    XorExchange(x3, Xor(x2, x1), x3, Xor(x1, a));
    XorLaws(x3, x3);
    XorAssociative(x2, x1, Xor(x1, a));
    XorAssociative(x1, x1, a);
    XorLaws(x1, 0);
    XorLaws(a, 0);
    XorLaws(Xor(x2, a), 0);
  }

  lemma CancelFourthRight(a: bv8, x1: bv8, x2: bv8, x3: bv8, x4: bv8)
    ensures Xor(Xor(Xor(x4, x3), Xor(Xor(x3, x2), Xor(x1, a))), Xor(x4, x1)) == Xor(x2, a)
  {
    hide Xor;
    var s1 := Xor(x4, x3);
    var s2 := Xor(x3, x2);
    var s3 := Xor(x1, a);
    XorDefinition(x4, x3);
    XorDefinition(x3, x2);
    XorDefinition(x1, a);
    XorDefinition(s2, s3);
    XorDefinition(s1, Xor(s2, s3));
    XorDefinition(x4, x1);
    XorDefinition(Xor(s1, Xor(s2, s3)), Xor(x4, x1));
    XorDefinition(x2, a);
  }

  lemma CancelFourth(a: bv8, x1: bv8, x2: bv8, x3: bv8, x4: bv8)
    ensures Sum4(Xor(x3, Xor(x2, x1)), Xor(x3, Xor(x1, a)),
                 Xor(Xor(x4, x3), Xor(Xor(x3, x2), Xor(x1, a))), Xor(x4, x1)) == 0
  {
    hide Xor;
    CancelFourthLeft(a, x1, x2, x3);
    CancelFourthRight(a, x1, x2, x3, x4);
    XorLaws(Xor(x2, a), 0);
  }

  lemma MatrixFourth(a: bv8)
    ensures Sum4(Gf14(a), Gf11(a), Gf13(Gf3(a)), Gf9(Gf2(a))) == 0
  {
    hide Gf2, Gf3, Gf9, Gf11, Gf13, Gf14, XTime, Xor, Sum4;
    var x1 := XTime(a);
    var x2 := XTime(x1);
    var x3 := XTime(x2);
    var y := Xor(x1, a);
    Doublings(a);
    TripledDoublings(a);
    Gf14Doublings(a);
    Gf11Doublings(a);
    Gf13Doublings(y);
    Gf9Doublings(x1);
    CancelFourth(a, x1, x2, x3, XTime(x3));
  }

  // ---------- The other way round ----------

  lemma Gf2Linear(a: bv8, b: bv8, c: bv8, d: bv8)
    ensures Gf2(Sum4(a, b, c, d)) == Sum4(Gf2(a), Gf2(b), Gf2(c), Gf2(d))
  {
    hide Gf2, Gf3, XTime, Xor, Sum4;
    XTimeSum(a, b, c, d);
    Doublings(Sum4(a, b, c, d));
    Doublings(a);
    Doublings(b);
    Doublings(c);
    Doublings(d);
  }

  lemma Gf3Linear(a: bv8, b: bv8, c: bv8, d: bv8)
    ensures Gf3(Sum4(a, b, c, d)) == Sum4(Gf3(a), Gf3(b), Gf3(c), Gf3(d))
  {
    hide Gf2, Gf3, XTime, Xor, Sum4;
    XTimeSum(a, b, c, d);
    Doublings(Sum4(a, b, c, d));
    Doublings(a);
    Doublings(b);
    Doublings(c);
    Doublings(d);
    Sum4Add(XTime(a), XTime(b), XTime(c), XTime(d), a, b, c, d);
  }

  // The entries of the two matrices commute.
  lemma Gf2Commutes(a: bv8)
    ensures Gf2(Gf9(a)) == Gf9(Gf2(a)) && Gf2(Gf11(a)) == Gf11(Gf2(a))
    ensures Gf2(Gf13(a)) == Gf13(Gf2(a)) && Gf2(Gf14(a)) == Gf14(Gf2(a))
  {
    hide Gf2, Gf3, Gf9, Gf11, Gf13, Gf14, XTime, Xor;
    var x1 := XTime(a);
    var x2 := XTime(x1);
    var x3 := XTime(x2);
    Doublings(a);
    Doublings(Gf9(a));
    Doublings(Gf11(a));
    Doublings(Gf13(a));
    Doublings(Gf14(a));
    AllDoublings(a);
    AllDoublings(x1);
    XTimeLinear(x3, a);
    XTimeLinear(x3, Xor(x1, a));
    XTimeLinear(x1, a);
    XTimeLinear(x3, Xor(x2, a));
    XTimeLinear(x2, a);
    XTimeLinear(x3, Xor(x2, x1));
    XTimeLinear(x2, x1);
  }

  lemma AllDoublings(x: bv8)
    ensures var x1 := XTime(x); var x2 := XTime(x1); var x3 := XTime(x2);
            && Gf9(x) == Xor(x3, x) && Gf11(x) == Xor(x3, Xor(x1, x))
            && Gf13(x) == Xor(x3, Xor(x2, x)) && Gf14(x) == Xor(x3, Xor(x2, x1))
  {
    hide Gf9, Gf11, Gf13, Gf14, XTime, Xor;
    Gf9Doublings(x);
    Gf11Doublings(x);
    Gf13Doublings(x);
    Gf14Doublings(x);
  }

  lemma Gf3Commutes(a: bv8)
    ensures Gf3(Gf9(a)) == Gf9(Gf3(a)) && Gf3(Gf11(a)) == Gf11(Gf3(a))
    ensures Gf3(Gf13(a)) == Gf13(Gf3(a)) && Gf3(Gf14(a)) == Gf14(Gf3(a))
  {
    hide Gf2, Gf3, Gf9, Gf11, Gf13, Gf14, XTime, Xor;
    var x1 := XTime(a);
    var x2 := XTime(x1);
    var x3 := XTime(x2);
    var x4 := XTime(x3);
    Doublings(a);
    Doublings(Gf9(a));
    Doublings(Gf11(a));
    Doublings(Gf13(a));
    Doublings(Gf14(a));
    Gf2Commutes(a);
    AllDoublings(a);
    AllDoublings(x1);
    AllDoublings(Xor(x1, a));
    TripledDoublings(a);
    XorExchange(x4, x1, x3, a);
    XorExchange(x4, Xor(x2, x1), x3, Xor(x1, a));
    XorExchange(x4, Xor(x3, x1), x3, Xor(x2, a));
    XorExchange(x3, x1, x2, a);
    XorExchange(x4, Xor(x3, x2), x3, Xor(x2, x1));
  }

  // The sums of the matrix entries in the order in which MixColumns after its inverse has them.
  lemma Sum4Swap(a: bv8, b: bv8, c: bv8, d: bv8)
    ensures Sum4(a, b, c, d) == Sum4(a, d, c, b) == Sum4(b, a, d, c) == Sum4(c, b, a, d)
  {
    hide Xor;
    XorLaws(a, b);
    XorLaws(c, d);
    XorLaws(b, d);
    XorLaws(d, c);
    XorLaws(a, d);
    XorLaws(c, b);
    XorExchange(a, b, c, d);
    XorExchange(a, d, c, b);
    XorExchange(c, b, a, d);
    XorLaws(Xor(a, c), Xor(b, d));
    XorLaws(a, c);
  }

  // ---------- The S-box ----------

  lemma InvSboxInverts(x: bv8)
    ensures InvSbox(Sbox(x)) == x
  {
    if x < 0x40 {
    } else if x < 0x80 {
    } else if x < 0xC0 {
    } else {
    }
  }

  lemma SboxInverts(x: bv8)
    ensures Sbox(InvSbox(x)) == x
  {
    if x < 0x40 {
    } else if x < 0x80 {
    } else if x < 0xC0 {
    } else {
    }
  }

  // The S-box of section 5.1.1 of FIPS 197: an affine map over GF(2) after inversion in the field, zero going
  // to zero.  InverseOf undoes the affine map, so it names the field inverse the S-box stands for.
  function Affine(y: bv8): bv8 {
    y ^ ((y << 1) | (y >> 7)) ^ ((y << 2) | (y >> 6)) ^ ((y << 3) | (y >> 5)) ^ ((y << 4) | (y >> 4)) ^ 0x63
  }

  function InverseOf(x: bv8): bv8 {
    var s := Sbox(x);
    ((s << 1) | (s >> 7)) ^ ((s << 3) | (s >> 5)) ^ ((s << 6) | (s >> 2)) ^ 0x05
  }

  lemma SboxIsAffineInverse(x: bv8)
    ensures Sbox(x) == Affine(InverseOf(x))
    ensures if x == 0 then InverseOf(x) == 0 else Times(x, InverseOf(x)) == 1
  {
  }
}
