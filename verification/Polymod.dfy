/** The Bech32m checksum of BIP-350: a linear step over 30-bit words. */
module Polymod {
  import opened Arithmetic
  import opened Field
  import opened Regroup

  const GENERATOR: seq<nat> := [996825010, 642813549, 513874426, 1027748829, 705979059]
  const BECH32M_CONST: nat := 734539939

  /** 2^25: above it, a word's top five bits. */
  const TOP: nat := 33554432

  const WORD: nat := 1073741824

  // ---- exclusive or of shifted words ----

  lemma {:induction false} XorSwap(a: nat, b: nat, c: nat, d: nat)
    ensures Xor(Xor(a, b), Xor(c, d)) == Xor(Xor(a, c), Xor(b, d))
  {
    hide Xor;
    XorAssoc(a, b, Xor(c, d));
    XorAssoc(b, c, d);
    XorComm(b, c);
    XorAssoc(c, b, d);
    XorAssoc(a, c, Xor(b, d));
  }

  lemma {:induction false} XorCancel(a: nat, b: nat)
    ensures Xor(a, b) == 0 <==> a == b
    ensures Xor(Xor(a, b), b) == a
  {
    hide Xor;
    XorAssoc(a, b, b);
    XorSelf(b);
    XorZero(a);
    XorComm(0, b);
    XorZero(b);
  }

  /** All but the low `n` bits. */
  function High(a: nat, n: nat): nat {
    if n == 0 then a else High(a / 2, n - 1)
  }

  /** The low `n` bits. */
  function Low(a: nat, n: nat): nat {
    if n == 0 then 0 else 2 * Low(a / 2, n - 1) + a % 2
  }

  lemma {:induction false} HighLow(a: nat, n: nat)
    ensures a == High(a, n) * Pow2(n) + Low(a, n) && Low(a, n) < Pow2(n)
  {
    if n > 0 {
      HighLow(a / 2, n - 1);
      Twice(High(a / 2, n - 1), Pow2(n - 1));
    }
  }

  lemma {:induction false} XorSplit(a: nat, b: nat, n: nat)
    ensures Xor(High(a, n), High(b, n)) == High(Xor(a, b), n)
    ensures Xor(Low(a, n), Low(b, n)) == Low(Xor(a, b), n)
  {
    hide Xor, High, Low;
    Halve(a, n);
    Halve(b, n);
    Halve(Xor(a, b), n);
    if n == 0 {
      XorZero(0);
    } else {
      XorHalf(a, b);
      XorSplit(a / 2, b / 2, n - 1);
      XorHalf(Low(a, n), Low(b, n));
      SameHalves(Low(Xor(a, b), n), Xor(Low(a, n), Low(b, n)));
    }
  }

  lemma {:induction false} Halve(a: nat, n: nat)
    ensures n == 0 ==> High(a, n) == a && Low(a, n) == 0
    ensures n > 0 ==> High(a, n) == High(a / 2, n - 1)
    ensures n > 0 ==> Low(a, n) / 2 == Low(a / 2, n - 1) && Low(a, n) % 2 == a % 2
  {}

  lemma {:induction false} HighZero(n: nat)
    ensures High(0, n) == 0
  {
    if n > 0 { HighZero(n - 1); }
  }

  lemma {:induction false} SameHalves(l: nat, r: nat)
    requires l / 2 == r / 2 && l % 2 == r % 2
    ensures l == r
  {}

  lemma {:induction false} XorUp(a: nat, b: nat, n: nat)
    ensures Xor(a * Pow2(n), b * Pow2(n)) == Xor(a, b) * Pow2(n)
  {
    hide Xor;
    if n > 0 {
      XorUp(a, b, n - 1);
      XorDouble(a * Pow2(n - 1), b * Pow2(n - 1));
      Twice(a, Pow2(n - 1));
      Twice(b, Pow2(n - 1));
      Twice(Xor(a, b), Pow2(n - 1));
    }
  }

  lemma {:induction false} Twice(a: nat, p: nat)
    ensures a * (2 * p) == 2 * (a * p)
  {}

  /** Disjoint bits: exclusive or is addition. */
  lemma {:induction false} XorJoin(a: nat, v: nat, n: nat)
    requires v < Pow2(n)
    ensures Xor(a * Pow2(n), v) == a * Pow2(n) + v
  {
    hide Xor;
    if n == 0 {
      XorZero(a);
    } else {
      var x := a * Pow2(n - 1);
      XorJoin(a, v / 2, n - 1);
      Twice(a, Pow2(n - 1));
      XorHalf(2 * x, v);
      var r := Xor(2 * x, v);
      assert r == 2 * (r / 2) + r % 2;
    }
  }

  // ---- the step ----

  function Feedback(top: nat, gens: seq<nat>): nat {
    if gens == [] then 0 else Xor(if top % 2 == 1 then gens[0] else 0, Feedback(top / 2, gens[1..]))
  }

  /** A word moved up one group, its top five bits fed back. */
  function Shifted(chk: nat): nat {
    Xor(chk % TOP * 32, Feedback(chk / TOP, GENERATOR))
  }

  function Step(chk: nat, v: nat): nat {
    Xor(Shifted(chk), v)
  }

  lemma {:induction false} Sizes()
    ensures Pow2(5) == 32 && Pow2(25) == TOP && Pow2(30) == WORD
  {
    assert Pow2(5) == 32;
    Pow2Add(5, 5);
    Pow2Add(10, 10);
    Pow2Add(20, 5);
    Pow2Add(25, 5);
  }

  lemma {:induction false} FeedbackBound(top: nat, gens: seq<nat>)
    requires forall i | 0 <= i < |gens| :: gens[i] < WORD
    ensures Feedback(top, gens) < WORD
  {
    Sizes();
    if gens != [] {
      FeedbackBound(top / 2, gens[1..]);
      XorBound(if top % 2 == 1 then gens[0] else 0, Feedback(top / 2, gens[1..]), 30);
    }
  }

  lemma {:induction false} StepBound(chk: nat, v: nat)
    requires v < WORD
    ensures Shifted(chk) < WORD && Step(chk, v) < WORD
  {
    hide Xor, Feedback;
    Sizes();
    FeedbackBound(chk / TOP, GENERATOR);
    XorBound(chk % TOP * 32, Feedback(chk / TOP, GENERATOR), 30);
    XorBound(Shifted(chk), v, 30);
  }

  lemma {:induction false} FeedbackLinear(a: nat, b: nat, gens: seq<nat>)
    ensures Feedback(Xor(a, b), gens) == Xor(Feedback(a, gens), Feedback(b, gens))
  {
    hide Xor;
    XorZero(0);
    if gens != [] {
      XorHalf(a, b);
      FeedbackLinear(a / 2, b / 2, gens[1..]);
      var g := gens[0];
      var x, y := if a % 2 == 1 then g else 0, if b % 2 == 1 then g else 0;
      XorZero(g);
      XorComm(0, g);
      XorSelf(g);
      XorSwap(x, Feedback(a / 2, gens[1..]), y, Feedback(b / 2, gens[1..]));
    }
  }

  lemma {:induction false} TopBits(a: nat)
    ensures a / TOP == High(a, 25) && a % TOP == Low(a, 25)
  {
    hide High, Low;
    Sizes();
    HighLow(a, 25);
  }

  lemma {:induction false} ShiftedLinear(a: nat, b: nat)
    ensures Shifted(Xor(a, b)) == Xor(Shifted(a), Shifted(b))
  {
    hide Xor, Feedback;
    Sizes();
    XorSplit(a, b, 25);
    TopBits(a);
    TopBits(b);
    TopBits(Xor(a, b));
    XorUp(a % TOP, b % TOP, 5);
    FeedbackLinear(a / TOP, b / TOP, GENERATOR);
    XorSwap(a % TOP * 32, Feedback(a / TOP, GENERATOR), b % TOP * 32, Feedback(b / TOP, GENERATOR));
  }

  lemma {:induction false} StepLinear(a: nat, b: nat, u: nat, v: nat)
    ensures Step(Xor(a, b), Xor(u, v)) == Xor(Step(a, u), Step(b, v))
  {
    hide Xor, Shifted;
    ShiftedLinear(a, b);
    XorSwap(Shifted(a), Shifted(b), u, v);
  }

  // ---- no two words step to one ----

  function Bit(x: nat, k: nat): nat {
    High(x, k) % 2
  }

  lemma {:induction false} XorBit(a: nat, b: nat, k: nat)
    ensures Bit(Xor(a, b), k) == (Bit(a, k) + Bit(b, k)) % 2
  {
    hide Xor, High, Low;
    XorSplit(a, b, k);
    XorHalf(High(a, k), High(b, k));
  }

  /** Sum, over the generators picked by `top`, of bit `k`. */
  function BitSum(top: nat, gens: seq<nat>, k: nat): nat {
    if gens == [] then 0 else (if top % 2 == 1 then Bit(gens[0], k) else 0) + BitSum(top / 2, gens[1..], k)
  }

  lemma {:induction false} FeedbackBit(top: nat, gens: seq<nat>, k: nat)
    ensures Bit(Feedback(top, gens), k) == BitSum(top, gens, k) % 2
  {
    hide Xor;
    HighZero(k);
    if gens != [] {
      FeedbackBit(top / 2, gens[1..], k);
      XorBit(if top % 2 == 1 then gens[0] else 0, Feedback(top / 2, gens[1..]), k);
    }
  }

  /** The low five bits of the generators. */
  lemma {:induction false} GeneratorBits(k: nat)
    requires k < 5
    ensures Bit(GENERATOR[0], k) == if k == 1 || k == 4 then 1 else 0
    ensures Bit(GENERATOR[1], k) == if k == 0 || k == 2 || k == 3 then 1 else 0
    ensures Bit(GENERATOR[2], k) == if k == 1 || k == 3 || k == 4 then 1 else 0
    ensures Bit(GENERATOR[3], k) == if k == 1 then 0 else 1
    ensures Bit(GENERATOR[4], k) == if k == 2 || k == 3 then 0 else 1
  {
    var g := GENERATOR;
    forall i | 0 <= i < 5 ensures High(g[i], k) == if k == 0 then g[i] else if k == 1 then g[i] / 2
        else if k == 2 then g[i] / 4 else if k == 3 then g[i] / 8 else g[i] / 16 {
      HighSmall(g[i], k);
    }
  }

  lemma {:induction false} HighSmall(x: nat, k: nat)
    requires k < 5
    ensures High(x, k) == if k == 0 then x else if k == 1 then x / 2 else if k == 2 then x / 4 else if k == 3 then x / 8 else x / 16
  {
    var a, b, c := x / 2, x / 4, x / 8;
    assert a / 2 == b && b / 2 == c && c / 2 == x / 16;
    assert High(x, 1) == High(a, 0) && High(a, 1) == High(b, 0) && High(b, 1) == High(c, 0) && High(c, 1) == High(x / 16, 0);
    assert High(x, 2) == High(a, 1) && High(a, 2) == High(b, 1) && High(b, 2) == High(c, 1);
    assert High(x, 3) == High(a, 2) && High(a, 3) == High(b, 2);
    assert High(x, 4) == High(a, 3);
  }

  lemma {:induction false} BitSumOf(top: nat, k: nat)
    ensures BitSum(top, GENERATOR, k) ==
      (if top % 2 == 1 then Bit(GENERATOR[0], k) else 0) + (if top / 2 % 2 == 1 then Bit(GENERATOR[1], k) else 0) +
      (if top / 4 % 2 == 1 then Bit(GENERATOR[2], k) else 0) + (if top / 8 % 2 == 1 then Bit(GENERATOR[3], k) else 0) +
      (if top / 16 % 2 == 1 then Bit(GENERATOR[4], k) else 0)
  {
    hide Bit;
    var g := GENERATOR;
    assert g[1..][1..] == g[2..] && g[2..][1..] == g[3..] && g[3..][1..] == g[4..] && g[4..][1..] == [];
    assert top / 2 / 2 == top / 4 && top / 4 / 2 == top / 8 && top / 8 / 2 == top / 16;
    assert BitSum(top / 16, g[4..], k) == if top / 16 % 2 == 1 then Bit(g[4], k) else 0;
    assert BitSum(top / 8, g[3..], k) == (if top / 8 % 2 == 1 then Bit(g[3], k) else 0) + BitSum(top / 16, g[4..], k);
    assert BitSum(top / 4, g[2..], k) == (if top / 4 % 2 == 1 then Bit(g[2], k) else 0) + BitSum(top / 8, g[3..], k);
    assert BitSum(top / 2, g[1..], k) == (if top / 2 % 2 == 1 then Bit(g[1], k) else 0) + BitSum(top / 4, g[2..], k);
  }

  /** The sum of bits `k`, written with the bits of `top`. */
  function LowSum(k: nat, t0: nat, t1: nat, t2: nat, t3: nat, t4: nat): nat {
    match k
    case 0 => t1 + t3 + t4
    case 1 => t0 + t2 + t4
    case 2 => t1 + t3
    case 3 => t1 + t2 + t3
    case _ => t0 + t2 + t3 + t4
  }

  lemma {:induction false} BitSumIs(top: nat, k: nat, t0: nat, t1: nat, t2: nat, t3: nat, t4: nat)
    requires k < 5
    requires t0 == top % 2 && t1 == top / 2 % 2 && t2 == top / 4 % 2 && t3 == top / 8 % 2 && t4 == top / 16 % 2
    ensures BitSum(top, GENERATOR, k) == LowSum(k, t0, t1, t2, t3, t4)
  {
    hide BitSum, Bit;
    BitSumOf(top, k);
    GeneratorBits(k);
  }

  lemma {:induction false} FeedbackEven(top: nat, k: nat)
    requires k < 5 && Feedback(top, GENERATOR) % 32 == 0
    ensures BitSum(top, GENERATOR, k) % 2 == 0
  {
    hide Feedback, BitSum, Bit;
    var f := Feedback(top, GENERATOR);
    Sizes();
    assert f == f / 32 * 32;
    FeedbackBit(top, GENERATOR, k);
    LowBitsZero(f / 32, 5, k);
  }

  /** No choice of generators cancels in the low five bits. */
  lemma {:induction false} FeedbackKernel(top: nat)
    requires top < 32 && Feedback(top, GENERATOR) % 32 == 0
    ensures top == 0
  {
    hide Feedback, BitSum;
    var t0, t1, t2, t3, t4 := top % 2, top / 2 % 2, top / 4 % 2, top / 8 % 2, top / 16 % 2;
    forall k | 0 <= k < 5 ensures LowSum(k, t0, t1, t2, t3, t4) % 2 == 0 {
      FeedbackEven(top, k);
      BitSumIs(top, k, t0, t1, t2, t3, t4);
    }
    OnlyZero(t0, t1, t2, t3, t4);
    assert top == t0 + 2 * t1 + 4 * t2 + 8 * t3 + 16 * t4;
  }

  lemma {:induction false} OnlyZero(t0: nat, t1: nat, t2: nat, t3: nat, t4: nat)
    requires t0 < 2 && t1 < 2 && t2 < 2 && t3 < 2 && t4 < 2
    requires forall k | 0 <= k < 5 :: LowSum(k, t0, t1, t2, t3, t4) % 2 == 0
    ensures t0 == t1 == t2 == t3 == t4 == 0
  {
    assert LowSum(0, t0, t1, t2, t3, t4) % 2 == 0 && LowSum(1, t0, t1, t2, t3, t4) % 2 == 0;
    assert LowSum(2, t0, t1, t2, t3, t4) % 2 == 0 && LowSum(3, t0, t1, t2, t3, t4) % 2 == 0;
    assert LowSum(4, t0, t1, t2, t3, t4) % 2 == 0;
  }

  /** A multiple of 2^m has no bit below `m`. */
  lemma {:induction false} LowBitsZero(q: nat, m: nat, k: nat)
    requires k < m
    ensures Bit(q * Pow2(m), k) == 0
  {
    Twice(q, Pow2(m - 1));
    var half := q * Pow2(m - 1);
    assert q * Pow2(m) == 2 * half;
    Halve(2 * half, k);
    if k > 0 {
      assert 2 * half / 2 == half;
      LowBitsZero(q, m - 1, k - 1);
    }
  }

  lemma {:induction false} ShiftedKernel(c: nat)
    requires c < WORD && Shifted(c) == 0
    ensures c == 0
  {
    hide Xor, Feedback;
    XorCancel(c % TOP * 32, Feedback(c / TOP, GENERATOR));
    FeedbackKernel(c / TOP);
    FeedbackNone(GENERATOR);
  }

  lemma {:induction false} StepInjective(c: nat, d: nat, v: nat)
    requires c < WORD && d < WORD && Step(c, v) == Step(d, v)
    ensures c == d
  {
    hide Xor, Shifted;
    Sizes();
    XorCancel(Shifted(c), v);
    XorCancel(Shifted(d), v);
    ShiftedLinear(c, d);
    XorCancel(Shifted(c), Shifted(d));
    XorBound(c, d, 30);
    ShiftedKernel(Xor(c, d));
    XorCancel(c, d);
  }

  // ---- whole words ----

  function Fold(chk: nat, groups: Groups): nat {
    if groups == [] then chk else Step(Fold(chk, groups[..|groups| - 1]), groups[|groups| - 1])
  }

  lemma {:induction false} FoldBound(chk: nat, groups: Groups)
    requires chk < WORD
    ensures Fold(chk, groups) < WORD
  {
    hide Step;
    if groups != [] {
      StepBound(Fold(chk, groups[..|groups| - 1]), groups[|groups| - 1]);
    }
  }

  lemma {:induction false} FoldAppend(chk: nat, a: Groups, b: Groups)
    ensures Fold(chk, a + b) == Fold(Fold(chk, a), b)
  {
    hide Step;
    if b == [] {
      assert a + b == a;
    } else {
      var n := |b| - 1;
      FoldAppend(chk, a, b[..n]);
      assert (a + b)[..|a + b| - 1] == a + b[..n];
    }
  }

  /** Changing one group changes the checksum, at every length. */
  lemma {:induction false} OneChange(chk: nat, groups: Groups, i: nat, v: Byte)
    requires chk < WORD && i < |groups| && v != groups[i]
    ensures Fold(chk, groups[i := v]) != Fold(chk, groups)
  {
    hide Step;
    var n := |groups| - 1;
    var a, b := groups[..n], groups[i := v][..n];
    FoldBound(chk, a);
    FoldBound(chk, b);
    if i == n {
      assert a == b;
      StepsDiffer(Fold(chk, a), groups[n], v);
    } else {
      OneChange(chk, a, i, v);
      assert b == a[i := v];
      if Step(Fold(chk, a), groups[n]) == Step(Fold(chk, b), groups[n]) {
        StepInjective(Fold(chk, a), Fold(chk, b), groups[n]);
      }
    }
  }

  lemma {:induction false} StepsDiffer(c: nat, u: nat, v: nat)
    requires u != v
    ensures Step(c, u) != Step(c, v)
  {
    hide Xor, Shifted;
    XorComm(Shifted(c), u);
    XorComm(Shifted(c), v);
    XorCancel(u, Shifted(c));
    XorCancel(v, Shifted(c));
  }

  // ---- the six check groups ----

  /** Folding six groups is folding six zeros, plus the number the groups spell. */
  lemma {:induction false} FoldSplit(chk: nat, groups: Groups)
    requires Fits(groups, 5) && |groups| <= 6
    ensures Value(groups, 5) < Pow2(5 * |groups|)
    ensures Fold(chk, groups) == Xor(Fold(chk, Zeros(|groups|)), Value(groups, 5))
  {
    hide Xor, Shifted, Pow2;
    Sizes();
    if groups == [] {
      XorZero(chk);
      assert Pow2(0) == 1 by { Pow2Zero(); }
    } else {
      var n := |groups| - 1;
      var front, last := groups[..n], groups[n];
      FoldSplit(chk, front);
      var x, y := Fold(chk, Zeros(n)), Value(front, 5);
      assert Zeros(n + 1)[..n] == Zeros(n);
      Pow2Add(5 * n, 5);
      ProductBelow(y, Pow2(5 * n), last, 32);
      Pow2Grows(5 * n, 25);
      XorZero(last);
      XorComm(0, last);
      StepLinear(x, y, 0, last);
      SmallStep(y, last);
    }
  }

  lemma {:induction false} Pow2Zero()
    ensures Pow2(0) == 1
  {}

  lemma {:induction false} SmallStep(y: nat, v: nat)
    requires y < TOP && v < 32
    ensures Step(y, v) == y * 32 + v
  {
    hide Xor;
    Sizes();
    FeedbackNone(GENERATOR);
    XorZero(y * 32);
    XorJoin(y, v, 5);
  }

  lemma {:induction false} FeedbackNone(gens: seq<nat>)
    ensures Feedback(0, gens) == 0
  {
    if gens != [] {
      FeedbackNone(gens[1..]);
      XorZero(0);
    }
  }

  /** The word the six check groups must spell after `data`. */
  function Residue(chk: nat, data: Groups): nat {
    Xor(Fold(chk, data + Zeros(6)), BECH32M_CONST)
  }

  /** A checksum passes exactly when its six groups spell the residue. */
  lemma {:induction false} ChecksumExact(chk: nat, data: Groups, check: Groups)
    requires |check| == 6 && Fits(check, 5)
    ensures Fold(chk, data + check) == BECH32M_CONST <==> Value(check, 5) == Residue(chk, data)
  {
    hide Xor, Fold, Value;
    FoldAppend(chk, data, check);
    FoldAppend(chk, data, Zeros(6));
    FoldSplit(Fold(chk, data), check);
    var z, v := Fold(chk, data + Zeros(6)), Value(check, 5);
    XorCancel(v, z);
    XorComm(z, v);
    XorCancel(BECH32M_CONST, z);
    XorComm(z, BECH32M_CONST);
  }

  /** `polymod_step`: one generator at a time. */
  method PolymodStep(chk: nat, value: nat) returns (next: nat)
    ensures next == Step(chk, value)
  {
    hide Xor, Feedback;
    var top := chk / TOP;
    next := Xor(chk % TOP * 32, value);
    StepStart(chk, value);
    var bit := 0;
    while bit < |GENERATOR|
      invariant 0 <= bit <= 5
      invariant Xor(next, Feedback(High(top, bit), GENERATOR[bit..])) == Step(chk, value)
    {
      var picked := if High(top, bit) % 2 == 1 then GENERATOR[bit] else 0;
      FeedbackStep(High(top, bit), GENERATOR[bit..]);
      HighNext(top, bit);
      XorAssoc(next, picked, Feedback(High(top, bit + 1), GENERATOR[bit + 1..]));
      assert GENERATOR[bit..][1..] == GENERATOR[bit + 1..];
      next := Xor(next, picked);
      bit := bit + 1;
    }
    FeedbackEnd(High(top, 5));
    XorZero(next);
  }

  lemma {:induction false} StepStart(chk: nat, value: nat)
    ensures Xor(Xor(chk % TOP * 32, value), Feedback(chk / TOP, GENERATOR)) == Step(chk, value)
  {
    hide Xor, Feedback;
    var a, f := chk % TOP * 32, Feedback(chk / TOP, GENERATOR);
    XorAssoc(a, value, f);
    XorComm(value, f);
    XorAssoc(a, f, value);
  }

  lemma {:induction false} FeedbackStep(top: nat, gens: seq<nat>)
    requires gens != []
    ensures Feedback(top, gens) == Xor(if top % 2 == 1 then gens[0] else 0, Feedback(top / 2, gens[1..]))
  {}

  lemma {:induction false} FeedbackEnd(top: nat)
    ensures Feedback(top, []) == 0
  {}

  lemma {:induction false} HighNext(a: nat, n: nat)
    ensures High(a, n + 1) == High(a, n) / 2
  {
    if n > 0 { HighNext(a / 2, n - 1); }
  }
}
