/** GF(256) with polynomial 285. Bytes are numbers under 256; exclusive or and the
    carry-less product are defined bit by bit, so every law is proved by induction. */
module Field {

  type Byte = x: nat | x < 256

  function Zeros(n: nat): (v: seq<Byte>)
    ensures |v| == n && forall i | 0 <= i < n :: v[i] == 0
  {
    seq(n, i => 0)
  }

  // ---- exclusive or ----

  function Xor(a: nat, b: nat): nat {
    if a == 0 && b == 0 then 0
    else 2 * Xor(a / 2, b / 2) + (a % 2 + b % 2) % 2
  }

  lemma {:induction false} XorComm(a: nat, b: nat)
    ensures Xor(a, b) == Xor(b, a)
  {
    if a != 0 || b != 0 { XorComm(a / 2, b / 2); }
  }

  lemma {:induction false} XorZero(a: nat)
    ensures Xor(a, 0) == a
  {
    if a != 0 { XorZero(a / 2); }
  }

  lemma {:induction false} XorSelf(a: nat)
    ensures Xor(a, a) == 0
  {
    if a != 0 { XorSelf(a / 2); }
  }

  lemma {:induction false} XorAssoc(a: nat, b: nat, c: nat)
    ensures Xor(Xor(a, b), c) == Xor(a, Xor(b, c))
    decreases a + b + c
  {
    hide Xor;
    if a == 0 && b == 0 && c == 0 {
      XorZero(0);
    } else {
      XorAssoc(a / 2, b / 2, c / 2);
      var l, r := Xor(Xor(a, b), c), Xor(a, Xor(b, c));
      assert l / 2 == Xor(Xor(a / 2, b / 2), c / 2) by {
        XorHalf(a, b);
        XorHalf(Xor(a, b), c);
      }
      assert r / 2 == Xor(a / 2, Xor(b / 2, c / 2)) by {
        XorHalf(b, c);
        XorHalf(a, Xor(b, c));
      }
      assert l % 2 == r % 2 by { LowBitAssoc(a, b, c); }
      assert l == 2 * (l / 2) + l % 2 && r == 2 * (r / 2) + r % 2;
    }
  }

  lemma {:induction false} LowBitAssoc(a: nat, b: nat, c: nat)
    ensures Xor(Xor(a, b), c) % 2 == Xor(a, Xor(b, c)) % 2
  {
    hide Xor;
    XorHalf(a, b);
    XorHalf(b, c);
    XorHalf(Xor(a, b), c);
    XorHalf(a, Xor(b, c));
    ParityAssoc(a % 2, b % 2, c % 2);
  }

  lemma {:induction false} ParityAssoc(a: nat, b: nat, c: nat)
    requires a < 2 && b < 2 && c < 2
    ensures ((a + b) % 2 + c) % 2 == (a + (b + c) % 2) % 2
  {
  }

  lemma {:induction false} XorHalf(a: nat, b: nat)
    ensures Xor(a, b) / 2 == Xor(a / 2, b / 2)
    ensures Xor(a, b) % 2 == (a % 2 + b % 2) % 2
  {
  }

  function Pow2(n: nat): (p: nat)
    ensures p > 0
  {
    if n == 0 then 1 else 2 * Pow2(n - 1)
  }

  lemma {:induction false} XorBound(a: nat, b: nat, n: nat)
    requires a < Pow2(n) && b < Pow2(n)
    ensures Xor(a, b) < Pow2(n)
  {
    if n > 0 && (a != 0 || b != 0) { XorBound(a / 2, b / 2, n - 1); }
  }

  lemma {:induction false} Pow2Values()
    ensures Pow2(7) == 128 && Pow2(8) == 256 && Pow2(9) == 512
  {
    assert Pow2(3) == 8;
    assert Pow2(6) == 64;
  }

  /** The top bit of an exclusive or is the exclusive or of the top bits. */
  lemma {:induction false} XorTop(a: nat, b: nat, n: nat)
    requires a < 2 * Pow2(n) && b < 2 * Pow2(n)
    ensures Xor(a, b) >= Pow2(n) <==> (a >= Pow2(n)) != (b >= Pow2(n))
  {
    if n > 0 {
      XorTop(a / 2, b / 2, n - 1);
      XorHalf(a, b);
    } else {
      assert a < 2 && b < 2;
      XorHalf(a, b);
    }
  }

  // ---- bytes ----

  function Add(a: Byte, b: Byte): Byte {
    Pow2Values();
    XorBound(a, b, 8);
    Xor(a, b)
  }

  /** Multiplication by x: double and reduce. */
  function Shift(a: Byte): Byte {
    if 2 * a < 256 then 2 * a
    else
      assert Xor(2 * a, 285) < 256 by {
        Pow2Values();
        XorTop(2 * a, 285, 8);
      }
      Xor(2 * a, 285)
  }

  /** Carry-less product modulo the polynomial; the right factor may be any bit string. */
  function Times(a: Byte, b: nat): Byte
    decreases b
  {
    if b == 0 then 0 else Add(if b % 2 == 1 then a else 0, Times(Shift(a), b / 2))
  }

  function Mul(a: Byte, b: Byte): Byte {
    Times(a, b)
  }

  lemma {:induction false} AddComm(a: Byte, b: Byte)
    ensures Add(a, b) == Add(b, a)
  {
    XorComm(a, b);
  }

  lemma {:induction false} AddAssoc(a: Byte, b: Byte, c: Byte)
    ensures Add(Add(a, b), c) == Add(a, Add(b, c))
  {
    XorAssoc(a, b, c);
  }

  lemma {:induction false} AddZero(a: Byte)
    ensures Add(a, 0) == a && Add(0, a) == a && Add(a, a) == 0
  {
    XorZero(a);
    XorComm(0, a);
    XorSelf(a);
  }

  lemma {:induction false} AddCancel(a: Byte, b: Byte)
    ensures Add(a, b) == 0 <==> a == b
    ensures Add(Add(a, b), b) == a
  {
    AddAssoc(a, b, b);
    AddZero(a);
    AddZero(b);
  }

  lemma {:induction false} AddSwap(a: Byte, b: Byte, c: Byte, d: Byte)
    ensures Add(Add(a, b), Add(c, d)) == Add(Add(a, c), Add(b, d))
  {
    AddAssoc(a, b, Add(c, d));
    AddAssoc(b, c, d);
    AddComm(b, c);
    AddAssoc(c, b, d);
    AddAssoc(a, c, Add(b, d));
  }

  lemma {:induction false} XorDouble(a: nat, b: nat)
    ensures Xor(2 * a, 2 * b) == 2 * Xor(a, b)
  {
  }

  lemma {:induction false} ShiftAdd(a: Byte, b: Byte)
    ensures Shift(Add(a, b)) == Add(Shift(a), Shift(b))
  {
    Pow2Values();
    XorTop(a, b, 7);
    XorDouble(a, b);
    var x, y := 2 * a, 2 * b;
    if a >= 128 && b >= 128 {
      XorComm(y, 285);
      XorAssoc(x, 285, Xor(285, y));
      XorAssoc(285, 285, y);
      XorSelf(285);
      XorComm(0, y);
      XorZero(y);
    } else if a >= 128 {
      XorAssoc(x, 285, y);
      XorComm(285, y);
      XorAssoc(x, y, 285);
    } else if b >= 128 {
      XorAssoc(x, y, 285);
    }
  }

  lemma {:induction false} TimesAddLeft(a: Byte, b: Byte, c: nat)
    ensures Times(Add(a, b), c) == Add(Times(a, c), Times(b, c))
    decreases c
  {
    AddZero(0);
    if c != 0 {
      ShiftAdd(a, b);
      TimesAddLeft(Shift(a), Shift(b), c / 2);
      var x, y := if c % 2 == 1 then a else 0, if c % 2 == 1 then b else 0;
      AddSwap(x, y, Times(Shift(a), c / 2), Times(Shift(b), c / 2));
    }
  }

  lemma {:induction false} TimesAddRight(a: Byte, b: nat, c: nat)
    ensures Times(a, Xor(b, c)) == Add(Times(a, b), Times(a, c))
    decreases b + c
  {
    if b == 0 && c == 0 {
      AddZero(0);
    } else {
      TimesAddRight(Shift(a), b / 2, c / 2);
      TimesStep(a, b);
      TimesStep(a, c);
      TimesStep(a, Xor(b, c));
      XorHalf(b, c);
      var x, y := if b % 2 == 1 then a else 0, if c % 2 == 1 then a else 0;
      BitSum(a, b % 2, c % 2);
      AddSwap(x, y, Times(Shift(a), b / 2), Times(Shift(a), c / 2));
    }
  }

  lemma {:induction false} BitSum(a: Byte, b: nat, c: nat)
    requires b < 2 && c < 2
    ensures (if (b + c) % 2 == 1 then a else 0) == Add(if b == 1 then a else 0, if c == 1 then a else 0)
  {
    AddZero(a);
    AddZero(0);
  }

  lemma {:induction false} TimesStep(a: Byte, b: nat)
    ensures Times(a, b) == Add(if b % 2 == 1 then a else 0, Times(Shift(a), b / 2))
  {
    AddZero(0);
  }

  lemma {:induction false} TimesShift(a: Byte, b: nat)
    ensures Times(Shift(a), b) == Shift(Times(a, b))
    decreases b
  {
    if b != 0 {
      TimesShift(Shift(a), b / 2);
      ShiftAdd(if b % 2 == 1 then a else 0, Times(Shift(a), b / 2));
    }
  }

  lemma {:induction false} TimesZero(b: nat)
    ensures Times(0, b) == 0
  {
    AddZero(0);
    if b != 0 { TimesZero(b / 2); }
  }

  /** The polynomial itself multiplies to nothing. */
  lemma {:induction false} TimesPolynomial(a: Byte)
    ensures Times(a, 285) == 0
    decreases a
  {
    if a == 0 {
      TimesZero(285);
    } else if a == 1 {
      PolynomialOfOne();
    } else {
      var h: Byte := a / 2;
      TimesPolynomial(h);
      TimesPolynomial(a % 2);
      TimesShift(h, 285);
      SplitLowBit(a);
      TimesAddLeft(Shift(h), a % 2, 285);
      AddZero(0);
    }
  }

  lemma {:induction false} SplitLowBit(a: Byte)
    ensures Add(Shift(a / 2), a % 2) == a
  {
    hide Xor;
    var half, bit := a / 2, a % 2;
    assert Shift(half) == 2 * half && 2 * half / 2 == half && 2 * half % 2 == 0 && bit / 2 == 0 && bit % 2 == bit;
    XorHalf(2 * half, bit);
    XorZero(half);
  }

  /** One doubling step of an exclusive or. */
  lemma {:induction false} XorFrom(a: nat, b: nat, r: nat)
    requires Xor(a / 2, b / 2) == r / 2 && (a % 2 + b % 2) % 2 == r % 2
    ensures Xor(a, b) == r
  {
    XorHalf(a, b);
  }

  lemma {:induction false} SomeSums()
    ensures Xor(256, 285) == 29 && Xor(16, 29) == 13 && Xor(8, 13) == 5 && Xor(4, 5) == 1
  {
    hide Xor;
    XorZero(0);
    XorFrom(1, 1, 0); XorFrom(2, 2, 0); XorFrom(4, 4, 0); XorFrom(8, 8, 0); XorFrom(16, 17, 1); XorFrom(32, 35, 3); XorFrom(64, 71, 7); XorFrom(128, 142, 14); XorFrom(256, 285, 29);
    XorFrom(2, 3, 1); XorFrom(4, 7, 3); XorFrom(8, 14, 6); XorFrom(16, 29, 13);
    XorFrom(4, 6, 2); XorFrom(8, 13, 5);
    XorFrom(4, 5, 1);
  }

  lemma {:induction false} PolynomialOfOne()
    ensures Times(1, 285) == 0
  {
    SomeSums();
    hide Times, Xor;
    TimesStep(29, 1);
    TimesZeroRight(Shift(29));
    AddZero(29);
    TimesStep(128, 2);
    TimesStep(64, 4);
    TimesStep(32, 8);
    TimesStep(16, 17);
    TimesStep(8, 35);
    TimesStep(4, 71);
    TimesStep(2, 142);
    TimesStep(1, 285);
    AddZero(1);
  }

  lemma {:induction false} TimesZeroRight(a: Byte)
    ensures Times(a, 0) == 0
  {
  }

  lemma {:induction false} MulShift(a: Byte, b: Byte)
    ensures Mul(a, Shift(b)) == Shift(Mul(a, b))
  {
    assert Times(a, 2 * b) == Shift(Times(a, b)) by {
      hide Times;
      TimesStep(a, 2 * b);
      AddZero(Times(Shift(a), b));
      TimesShift(a, b);
    }
    if 2 * b >= 256 {
      hide Times, Xor;
      TimesAddRight(a, 2 * b, 285);
      TimesPolynomial(a);
      AddZero(Times(a, 2 * b));
    }
  }

  // ---- the field laws ----

  lemma {:induction false} MulAdd(a: Byte, b: Byte, c: Byte)
    ensures Mul(a, Add(b, c)) == Add(Mul(a, b), Mul(a, c))
    ensures Mul(Add(b, c), a) == Add(Mul(b, a), Mul(c, a))
  {
    TimesAddRight(a, b, c);
    TimesAddLeft(b, c, a);
  }

  lemma {:induction false} MulZero(a: Byte)
    ensures Mul(a, 0) == 0 && Mul(0, a) == 0
  {
    TimesZero(a);
  }

  lemma {:induction false} MulOneRight(a: Byte)
    ensures Mul(a, 1) == a
  {
    TimesStep(a, 1);
    TimesZeroRight(Shift(a));
    AddZero(a);
  }

  /** The product by a byte, from the product by its upper half. */
  lemma {:induction false} MulHalf(a: Byte, b: Byte)
    ensures Mul(a, b) == Add(Shift(Mul(a, b / 2)), if b % 2 == 1 then a else 0)
    ensures Mul(b, a) == Add(Shift(Mul(b / 2, a)), if b % 2 == 1 then Mul(1, a) else 0)
  {
    hide Times, Xor;
    SplitLowBit(b);
    MulAdd(a, Shift(b / 2), b % 2);
    MulShift(a, b / 2);
    TimesShift(b / 2, a);
    MulZero(a);
    MulOneRight(a);
  }

  lemma {:induction false} MulOneLeft(a: Byte)
    ensures Mul(1, a) == a
    decreases a
  {
    if a == 0 {
      MulZero(1);
    } else {
      hide Mul, Xor;
      MulHalf(1, a);
      MulOneLeft(a / 2);
      SplitLowBit(a);
    }
  }

  lemma {:induction false} MulComm(a: Byte, b: Byte)
    ensures Mul(a, b) == Mul(b, a)
    decreases b
  {
    if b == 0 {
      MulZero(a);
    } else {
      hide Mul, Xor, Shift, Add;
      MulComm(a, b / 2);
      MulHalf(a, b);
      MulOneLeft(a);
    }
  }

  lemma {:induction false} MulAssoc(a: Byte, b: Byte, c: Byte)
    ensures Mul(Mul(a, b), c) == Mul(a, Mul(b, c))
    decreases c
  {
    hide Mul, Xor, Shift, Add;
    if c == 0 {
      MulZero(Mul(a, b));
      MulZero(a);
      MulZero(b);
    } else {
      var low: Byte := if c % 2 == 1 then b else 0;
      MulAssoc(a, b, c / 2);
      MulHalf(Mul(a, b), c);
      MulHalf(b, c);
      MulAdd(a, Shift(Mul(b, c / 2)), low);
      MulShift(a, Mul(b, c / 2));
      MulZero(a);
    }
  }

  // ---- powers of x ----

  function Exp(n: nat): Byte {
    if n == 0 then 1 else Shift(Exp(n - 1))
  }

  lemma {:induction false} ShiftNonzero(a: Byte)
    ensures Shift(a) == 0 <==> a == 0
  {
    if 2 * a >= 256 {
      XorHalf(2 * a, 285);
    }
  }

  lemma {:induction false} ExpNonzero(n: nat)
    ensures Exp(n) != 0
  {
    if n > 0 {
      ExpNonzero(n - 1);
      ShiftNonzero(Exp(n - 1));
    }
  }

  lemma {:induction false} ExpAdd(m: nat, n: nat)
    ensures Mul(Exp(m), Exp(n)) == Exp(m + n)
  {
    hide Mul, Shift;
    if n == 0 {
      MulOneRight(Exp(m));
    } else {
      ExpAdd(m, n - 1);
      MulShift(Exp(m), Exp(n - 1));
    }
  }

  lemma {:induction false} Reductions()
    ensures Xor(256, 285) == 29 && Xor(464, 285) == 205 && Xor(410, 285) == 135 && Xor(270, 285) == 19
  {
    hide Xor;
    XorZero(0);
    XorFrom(1, 1, 0); XorFrom(2, 2, 0); XorFrom(4, 4, 0); XorFrom(8, 8, 0); XorFrom(16, 17, 1); XorFrom(32, 35, 3); XorFrom(64, 71, 7); XorFrom(128, 142, 14); XorFrom(256, 285, 29);
    XorFrom(3, 2, 1); XorFrom(7, 4, 3); XorFrom(14, 8, 6); XorFrom(29, 17, 12); XorFrom(58, 35, 25); XorFrom(116, 71, 51); XorFrom(232, 142, 102); XorFrom(464, 285, 205);
    XorFrom(6, 4, 2); XorFrom(12, 8, 4); XorFrom(25, 17, 8); XorFrom(51, 35, 16); XorFrom(102, 71, 33); XorFrom(205, 142, 67); XorFrom(410, 285, 135);
    XorFrom(33, 35, 2); XorFrom(67, 71, 4); XorFrom(135, 142, 9); XorFrom(270, 285, 19);
  }

  lemma {:induction false} MoreReductions()
    ensures Xor(312, 285) == 37 && Xor(296, 285) == 53 && Xor(442, 285) == 167 && Xor(334, 285) == 83
  {
    hide Xor;
    XorZero(0);
    XorFrom(1, 1, 0); XorFrom(2, 2, 0); XorFrom(4, 4, 0); XorFrom(9, 8, 1); XorFrom(19, 17, 2); XorFrom(39, 35, 4); XorFrom(78, 71, 9); XorFrom(156, 142, 18); XorFrom(312, 285, 37);
    XorFrom(18, 17, 3); XorFrom(37, 35, 6); XorFrom(74, 71, 13); XorFrom(148, 142, 26); XorFrom(296, 285, 53);
    XorFrom(3, 2, 1); XorFrom(6, 4, 2); XorFrom(13, 8, 5); XorFrom(27, 17, 10); XorFrom(55, 35, 20); XorFrom(110, 71, 41); XorFrom(221, 142, 83); XorFrom(442, 285, 167);
    XorFrom(5, 4, 1); XorFrom(10, 8, 2); XorFrom(20, 17, 5); XorFrom(41, 35, 10); XorFrom(83, 71, 20); XorFrom(167, 142, 41); XorFrom(334, 285, 83);
  }

  lemma {:induction false} Sums()
    ensures Xor(128, 16) == 144 && Xor(144, 8) == 152 && Xor(19, 29) == 14 && Xor(14, 64) == 78
    ensures Xor(212, 148) == 64 && Xor(64, 74) == 10
  {
    hide Xor;
    XorZero(0);
    XorFrom(1, 0, 1); XorFrom(2, 0, 2); XorFrom(4, 0, 4); XorFrom(8, 1, 9); XorFrom(16, 2, 18); XorFrom(32, 4, 36); XorFrom(64, 8, 72); XorFrom(128, 16, 144);
    XorFrom(9, 0, 9); XorFrom(18, 1, 19); XorFrom(36, 2, 38); XorFrom(72, 4, 76); XorFrom(144, 8, 152);
    XorFrom(1, 1, 0); XorFrom(2, 3, 1); XorFrom(4, 7, 3); XorFrom(9, 14, 7); XorFrom(19, 29, 14);
    XorFrom(0, 1, 1); XorFrom(0, 2, 2); XorFrom(0, 4, 4); XorFrom(1, 8, 9); XorFrom(3, 16, 19); XorFrom(7, 32, 39); XorFrom(14, 64, 78);
    XorFrom(3, 2, 1); XorFrom(6, 4, 2); XorFrom(13, 9, 4); XorFrom(26, 18, 8); XorFrom(53, 37, 16); XorFrom(106, 74, 32); XorFrom(212, 148, 64);
    XorFrom(2, 2, 0); XorFrom(4, 4, 0); XorFrom(8, 9, 1); XorFrom(16, 18, 2); XorFrom(32, 37, 5); XorFrom(64, 74, 10);
  }

  lemma {:induction false} MoreSums()
    ensures Xor(8, 2) == 10 && Xor(74, 156) == 214 && Xor(64, 4) == 68 && Xor(205, 16) == 221
    ensures Xor(166, 167) == 1
  {
    hide Xor;
    XorZero(0);
    XorFrom(1, 0, 1); XorFrom(2, 0, 2); XorFrom(4, 1, 5); XorFrom(8, 2, 10);
    XorFrom(0, 1, 1); XorFrom(1, 2, 3); XorFrom(2, 4, 6); XorFrom(4, 9, 13); XorFrom(9, 19, 26); XorFrom(18, 39, 53); XorFrom(37, 78, 107); XorFrom(74, 156, 214);
    XorFrom(4, 0, 4); XorFrom(8, 0, 8); XorFrom(16, 1, 17); XorFrom(32, 2, 34); XorFrom(64, 4, 68);
    XorFrom(3, 0, 3); XorFrom(6, 0, 6); XorFrom(12, 1, 13); XorFrom(25, 2, 27); XorFrom(51, 4, 55); XorFrom(102, 8, 110); XorFrom(205, 16, 221);
    XorFrom(1, 1, 0); XorFrom(2, 2, 0); XorFrom(5, 5, 0); XorFrom(10, 10, 0); XorFrom(20, 20, 0); XorFrom(41, 41, 0); XorFrom(83, 83, 0); XorFrom(166, 167, 1);
  }

  lemma {:induction false} FirstPowers()
    ensures Exp(1) == 2 && Exp(2) == 4 && Exp(3) == 8 && Exp(4) == 16 && Exp(6) == 64 && Exp(7) == 128
    ensures Exp(8) == 29 && Exp(12) == 205 && Exp(14) == 19 && Exp(15) == 38 && Exp(17) == 152
  {
    Reductions();
    hide Xor;
    assert Exp(4) == 16;
    assert Exp(8) == 29;
    assert Exp(12) == 205;
    assert Exp(14) == 19;
  }

  /** Squaring adds: (b + c)^2 = b^2 + c^2. */
  lemma {:induction false} Square(b: Byte, c: Byte)
    ensures Mul(Add(b, c), Add(b, c)) == Add(Mul(b, b), Mul(c, c))
  {
    hide Mul, Add;
    MulAdd(Add(b, c), b, c);
    MulAdd(b, b, c);
    MulAdd(c, b, c);
    MulComm(b, c);
    AddAssoc(Mul(b, b), Mul(c, b), Add(Mul(b, c), Mul(c, c)));
    AddAssoc(Mul(c, b), Mul(b, c), Mul(c, c));
    AddZero(Mul(b, c));
    AddZero(Mul(c, c));
  }

  lemma {:induction false} Power34()
    ensures Exp(34) == 78 && Exp(35) == 156 && Exp(37) == 74 && Exp(38) == 148 && Exp(41) == 212
  {
    FirstPowers();
    Sums();
    MoreReductions();
    hide Xor, Mul;
    ExpAdd(17, 17);
    Square(144, 8);
    Square(128, 16);
    ExpAdd(7, 7);
    ExpAdd(4, 4);
    ExpAdd(3, 3);
    assert Exp(34) == 78;
    assert Exp(36) == 37;
    assert Exp(38) == 148;
    assert Exp(39) == 53;
  }

  lemma {:induction false} Power51()
    ensures Exp(51) == 10
  {
    hide Exp, Xor, Mul;
    FirstPowers();
    Sums();
    Power34();
    ExpAdd(34, 17);
    MulAdd(78, 144, 8);
    MulAdd(78, 128, 16);
    ExpAdd(34, 7);
    ExpAdd(34, 4);
    ExpAdd(34, 3);
  }

  lemma {:induction false} Power85()
    ensures Exp(85) == 214
  {
    hide Exp, Xor, Mul;
    FirstPowers();
    MoreSums();
    Power34();
    Power51();
    ExpAdd(34, 51);
    MulAdd(78, 8, 2);
    ExpAdd(34, 3);
    ExpAdd(34, 1);
  }

  lemma {:induction false} Power204()
    ensures Exp(204) == 221 && Exp(205) == 167 && Exp(207) == 166
  {
    FirstPowers();
    MoreSums();
    MoreReductions();
    Power51();
    hide Xor, Mul;
    ExpAdd(51, 51);
    Square(8, 2);
    ExpAdd(3, 3);
    ExpAdd(1, 1);
    ExpAdd(102, 102);
    Square(64, 4);
    ExpAdd(6, 6);
    ExpAdd(2, 2);
    assert Exp(204) == 221;
    assert Exp(206) == 83;
  }

  lemma {:induction false} Power255()
    ensures Exp(255) == 1
  {
    hide Exp, Xor, Mul;
    FirstPowers();
    MoreSums();
    Power51();
    Power204();
    ExpAdd(204, 51);
    MulAdd(221, 8, 2);
    ExpAdd(204, 3);
    ExpAdd(204, 1);
  }

  // ---- x generates every nonzero byte ----

  lemma {:induction false} ExpPeriod(m: nat, q: nat, r: nat)
    requires Exp(m) == 1
    ensures Exp(q * m + r) == Exp(r)
  {
    hide Exp, Mul;
    if q > 0 {
      ExpPeriod(m, q - 1, r);
      ExpAdd(m, (q - 1) * m + r);
      MulOneLeft(Exp((q - 1) * m + r));
      assert m + ((q - 1) * m + r) == q * m + r;
    }
  }

  lemma {:induction false} ProperDivisor(m: nat, k: nat)
    requires m * k == 255 && k >= 2
    ensures 15 % m == 0 || 51 % m == 0 || 85 % m == 0
  {
    MulGrows(m, k);
    if k <= 15 {
      SmallDivisor(k, m);
    } else {
      SmallDivisor(m, k);
    }
  }

  lemma {:induction false} MulGrows(m: nat, k: nat)
    ensures m >= 16 && k >= 16 ==> m * k >= 256
    ensures k <= 1 ==> m * k <= m
  {
    if m >= 16 && k >= 16 {
      assert m * k == (m - 16) * k + 16 * k;
    }
  }

  lemma {:induction false} SmallDivisor(d: nat, e: nat)
    requires d * e == 255 && d <= 15
    ensures (d, e) in {(1, 255), (3, 85), (5, 51), (15, 17)}
  {
    assert d in {1, 2, 3, 4, 5, 6, 7, 8, 9, 10, 11, 12, 13, 14, 15};
  }

  lemma {:induction false} LeastPeriod(d: nat) returns (m: nat)
    requires 0 < d && Exp(d) == 1
    ensures 0 < m <= d && Exp(m) == 1
    ensures forall i | 0 < i < m :: Exp(i) != 1
    decreases d
  {
    if exists i :: 0 < i < d && Exp(i) == 1 {
      var i :| 0 < i < d && Exp(i) == 1;
      m := LeastPeriod(i);
    } else {
      m := d;
    }
  }

  lemma {:induction false} PowersNotOne()
    ensures Exp(15) != 1 && Exp(51) != 1 && Exp(85) != 1 && Exp(255) == 1
  {
    hide Exp;
    FirstPowers();
    Power51();
    Power85();
    Power255();
  }

  /** x has order exactly 255. */
  lemma {:induction false} NoSmallerPeriod(d: nat)
    requires 0 < d < 255
    ensures Exp(d) != 1
  {
    hide Exp;
    PowersNotOne();
    if Exp(d) == 1 {
      var m := LeastPeriod(d);
      var q, r := 255 / m, 255 % m;
      ExpPeriod(m, q, r);
      assert 255 == q * m + r;
      MulGrows(m, q);
      ProperDivisor(m, q);
      PeriodHits(m, 15);
      PeriodHits(m, 51);
      PeriodHits(m, 85);
    }
  }

  lemma {:induction false} PeriodHits(m: nat, n: nat)
    requires m > 0 && Exp(m) == 1
    ensures n % m == 0 ==> Exp(n) == 1
  {
    if n % m == 0 {
      ExpPeriod(m, n / m, 0);
      assert n == (n / m) * m + 0;
    }
  }

  lemma {:induction false} ExpInjective(i: nat, j: nat)
    requires i < j < 255
    ensures Exp(i) != Exp(j)
  {
    hide Exp, Mul;
    PowersNotOne();
    NoSmallerPeriod(j - i);
    ExpAdd(255 - i, i);
    ExpAdd(255 - i, j);
    ExpAdd(255, j - i);
    MulOneLeft(Exp(j - i));
  }

  function Powers(n: nat): set<nat> {
    set i | 0 <= i < n :: Exp(i)
  }

  lemma {:induction false} PowersCount(n: nat)
    requires n <= 255
    ensures |Powers(n)| == n
  {
    hide Exp;
    if n > 0 {
      PowersCount(n - 1);
      forall i | 0 <= i < n - 1 ensures Exp(i) != Exp(n - 1) {
        ExpInjective(i, n - 1);
      }
      assert Powers(n) == Powers(n - 1) + {Exp(n - 1)};
    } else {
      assert Powers(0) == {};
    }
  }

  function Under(n: nat): set<nat>
    ensures forall x :: x in Under(n) <==> 1 <= x < n
  {
    if n <= 1 then {} else Under(n - 1) + {n - 1}
  }

  lemma {:induction false} UnderCount(n: nat)
    requires n > 0
    ensures |Under(n)| == n - 1
  {
    if n > 1 {
      UnderCount(n - 1);
      assert Under(n) == Under(n - 1) + {n - 1} && n - 1 !in Under(n - 1);
    } else {
      assert Under(n) == {};
    }
  }

  lemma {:induction false} SameSize<T>(a: set<T>, b: set<T>)
    requires a <= b && |a| == |b|
    ensures a == b
  {
    assert b == a + (b - a);
  }

  lemma {:induction false} LogExists(a: Byte)
    requires a != 0
    ensures exists i :: 0 <= i < 255 && Exp(i) == a
  {
    hide Exp;
    PowersCount(255);
    UnderCount(256);
    forall x | x in Powers(255) ensures x in Under(256) {
      var i :| 0 <= i < 255 && Exp(i) == x;
      ExpNonzero(i);
    }
    SameSize(Powers(255), Under(256));
    assert a in Under(256);
  }

  ghost function Log(a: Byte): (i: nat)
    requires a != 0
    ensures i < 255 && Exp(i) == a
  {
    LogExists(a);
    var i :| 0 <= i < 255 && Exp(i) == a;
    i
  }

  ghost function Inv(a: Byte): (b: Byte)
    requires a != 0
    ensures Mul(a, b) == 1 && b != 0
  {
    hide Mul, Exp, Log;
    ExpAdd(Log(a), 255 - Log(a));
    PowersNotOne();
    ExpNonzero(255 - Log(a));
    Exp(255 - Log(a))
  }

  /** A field has no zero divisors. */
  lemma {:induction false} MulNonzero(a: Byte, b: Byte)
    ensures Mul(a, b) == 0 <==> a == 0 || b == 0
  {
    hide Mul;
    MulZero(a);
    MulZero(b);
    if a != 0 && b != 0 {
      ExpAdd(Log(a), Log(b));
      ExpNonzero(Log(a) + Log(b));
    }
  }

  // ---- the tables ----

  /** `exp` holds 512 powers (the last two stay 0), `log` the logarithm of each nonzero byte. */
  datatype Tables = Tables(exp: seq<Byte>, log: seq<Byte>)

  ghost predicate ValidTables(t: Tables) {
    && |t.exp| == 512 && |t.log| == 256
    && (forall i | 0 <= i < 510 :: t.exp[i] == Exp(i))
    && (forall a: Byte | a != 0 :: t.log[a] < 255 && Exp(t.log[a]) == a)
  }

  lemma {:induction false} ExpWraps(i: nat)
    ensures Exp(255 + i) == Exp(i)
  {
    hide Exp;
    PowersNotOne();
    ExpPeriod(255, 1, i);
    assert 1 * 255 + i == 255 + i;
  }

  lemma {:induction false} ExpNext(n: nat)
    ensures Exp(n + 1) == Shift(Exp(n))
    ensures Powers(n + 1) == Powers(n) + {Exp(n)}
  {
  }

  method BuildTables() returns (t: Tables)
    ensures ValidTables(t)
  {
    hide Exp;
    var exp := new Byte[512](i => 0);
    var log := new Byte[256](i => 0);
    var x: nat := 1;
    var power := 0;
    ExpZero();
    while power < 255
      invariant 0 <= power <= 255 && x < 256
      invariant x == Exp(power)
      invariant forall i | 0 <= i < power :: exp[i] == Exp(i)
      invariant forall a: Byte | a in Powers(power) :: log[a] < power && exp[log[a]] == a
    {
      exp[power] := x;
      log[x] := power;
      ExpNext(power);
      x := 2 * x;
      if x >= 256 {
        x := Xor(x, 285);
      }
      power := power + 1;
    }
    forall a: Byte | a != 0 ensures log[a] < 255 && Exp(log[a]) == a {
      LogExists(a);
      assert a in Powers(255);
    }
    forall i | 0 <= i < 257 {
      exp[255 + i] := exp[i];
    }
    forall i | 0 <= i < 510 ensures exp[i] == Exp(i) {
      if i >= 255 { ExpWraps(i - 255); }
    }
    t := Tables(exp[..], log[..]);
  }

  lemma {:induction false} ExpZero()
    ensures Exp(0) == 1 && Powers(0) == {}
  {
  }

  function TableMul(t: Tables, a: Byte, b: Byte): (r: Byte)
    requires ValidTables(t)
    ensures r == Mul(a, b)
  {
    if a == 0 || b == 0 then
      MulZero(a);
      MulZero(b);
      0
    else
      var i: nat, j: nat := t.log[a], t.log[b];
      ExpAdd(i, j);
      t.exp[i + j]
  }

  function TableInv(t: Tables, a: Byte): (r: Byte)
    requires ValidTables(t) && a != 0
    ensures Mul(a, r) == 1
  {
    var i: nat := t.log[a];
    ExpAdd(i, 255 - i);
    PowersNotOne();
    t.exp[255 - i]
  }
}
