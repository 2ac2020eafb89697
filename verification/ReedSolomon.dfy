/** Systematic Reed-Solomon coding: each byte position of the shards is a polynomial of
    degree under k, read at the shard indices; its values at 0 to k-1 are the data. */
module ReedSolomon {
  import opened Field
  import opened Matrix

  // ---- polynomials ----

  /** Value at `a` of the polynomial with coefficients `c`, lowest first. */
  function Eval(c: Vec, a: Byte): Byte {
    if c == [] then 0 else Add(c[0], Mul(a, Eval(c[1..], a)))
  }

  function Pow(a: Byte, n: nat): Byte {
    if n == 0 then 1 else Mul(Pow(a, n - 1), a)
  }

  /** Quotient of `c` by the factor with root `a`. */
  function Quotient(c: Vec, a: Byte): (q: Vec)
    ensures |q| == if c == [] then 0 else |c| - 1
  {
    if |c| <= 1 then [] else [Eval(c[1..], a)] + Quotient(c[1..], a)
  }

  /** c(x) + c(a) = (x + a) q(x). */
  lemma {:induction false} Factor(c: Vec, a: Byte, x: Byte)
    ensures Add(Eval(c, x), Eval(c, a)) == Mul(Add(x, a), Eval(Quotient(c, a), x))
  {
    hide Mul, Add;
    if c == [] {
      AddZero(0);
      MulZero(Add(x, a));
    } else if |c| == 1 {
      assert c[1..] == [];
      MulZero(x);
      MulZero(a);
      AddZero(c[0]);
      MulZero(Add(x, a));
    } else {
      var d := c[1..];
      var q := Quotient(d, a);
      Factor(d, a, x);
      assert Quotient(c, a)[1..] == q;
      FactorStep(c[0], a, x, Eval(d, a), Eval(d, x), Eval(q, x));
    }
  }

  /** The step of the division: with d(x) = d(a) + (x + a) q, the quotient grows by d(a) + x q. */
  lemma {:induction false} FactorStep(c0: Byte, a: Byte, x: Byte, da: Byte, dx: Byte, q: Byte)
    requires Add(dx, da) == Mul(Add(x, a), q)
    ensures Add(Add(c0, Mul(x, dx)), Add(c0, Mul(a, da))) == Mul(Add(x, a), Add(da, Mul(x, q)))
  {
    hide Mul, Add;
    calc {
      Add(Add(c0, Mul(x, dx)), Add(c0, Mul(a, da)));
      { AddSwap(c0, Mul(x, dx), c0, Mul(a, da)); AddZero(c0); AddZero(Add(Mul(x, dx), Mul(a, da))); }
      Add(Mul(x, dx), Mul(a, da));
      { AddCancel(dx, da); AddComm(Add(dx, da), da); MulAdd(x, Add(dx, da), da); }
      Add(Add(Mul(x, Add(dx, da)), Mul(x, da)), Mul(a, da));
      { AddAssoc(Mul(x, Add(dx, da)), Mul(x, da), Mul(a, da)); MulAdd(da, x, a); }
      Add(Mul(x, Add(dx, da)), Mul(Add(x, a), da));
      { MulComm(x, Mul(Add(x, a), q)); MulAssoc(Add(x, a), q, x); MulComm(q, x); }
      Add(Mul(Add(x, a), Mul(x, q)), Mul(Add(x, a), da));
      { AddComm(Mul(Add(x, a), Mul(x, q)), Mul(Add(x, a), da)); MulAdd(Add(x, a), da, Mul(x, q)); }
      Mul(Add(x, a), Add(da, Mul(x, q)));
    }
  }

  lemma {:induction false} QuotientZero(c: Vec, a: Byte)
    requires c != [] && Eval(c, a) == 0 && Quotient(c, a) == Zeros(|c| - 1)
    ensures c == Zeros(|c|)
  {
    if |c| == 1 {
      assert c[1..] == [];
      MulZero(a);
      AddZero(c[0]);
    } else {
      var d := c[1..];
      assert Quotient(c, a)[0] == 0;
      assert Quotient(d, a) == Quotient(c, a)[1..] == Zeros(|d| - 1);
      QuotientZero(d, a);
      MulZero(a);
      AddZero(c[0]);
      assert c == [c[0]] + d;
    }
  }

  predicate DistinctPoints(points: seq<nat>) {
    forall i, j | 0 <= i < j < |points| :: points[i] != points[j]
  }

  /** A polynomial with as many distinct roots as coefficients is zero. */
  lemma {:induction false} RootsVanish(c: Vec, points: seq<nat>)
    requires |points| == |c| && DistinctPoints(points)
    requires forall i | 0 <= i < |points| :: points[i] < 256 && Eval(c, points[i]) == 0
    ensures c == Zeros(|c|)
    decreases |c|
  {
    hide Mul, Add;
    if c != [] {
      var n := |c| - 1;
      var a: Byte := points[n];
      var q := Quotient(c, a);
      forall i | 0 <= i < n ensures Eval(q, points[i]) == 0 {
        var b: Byte := points[i];
        Factor(c, a, b);
        AddZero(0);
        AddCancel(b, a);
        MulNonzero(Add(b, a), Eval(q, b));
      }
      RootsVanish(q, points[..n]);
      QuotientZero(c, a);
    }
  }

  lemma {:induction false} EvalZeros(n: nat, a: Byte)
    ensures Eval(Zeros(n), a) == 0
  {
    if n > 0 {
      assert Zeros(n)[1..] == Zeros(n - 1);
      EvalZeros(n - 1, a);
      MulZero(a);
      AddZero(0);
    }
  }

  lemma {:induction false} EvalAdd(c: Vec, d: Vec, a: Byte)
    requires |c| == |d|
    ensures Eval(VAdd(c, d), a) == Add(Eval(c, a), Eval(d, a))
  {
    hide Mul, Add;
    if c == [] {
      AddZero(0);
    } else {
      EvalAdd(c[1..], d[1..], a);
      assert VAdd(c, d)[1..] == VAdd(c[1..], d[1..]);
      MulAdd(a, Eval(c[1..], a), Eval(d[1..], a));
      AddSwap(c[0], d[0], Mul(a, Eval(c[1..], a)), Mul(a, Eval(d[1..], a)));
    }
  }

  /** Two polynomials of the same length that agree at as many points are equal. */
  lemma {:induction false} Interpolation(c: Vec, d: Vec, points: seq<nat>)
    requires |c| == |d| == |points| && DistinctPoints(points)
    requires forall i | 0 <= i < |points| :: points[i] < 256 && Eval(c, points[i]) == Eval(d, points[i])
    ensures c == d
  {
    hide Mul, Add, Eval;
    forall i | 0 <= i < |points| ensures Eval(VAdd(c, d), points[i]) == 0 {
      EvalAdd(c, d, points[i]);
      AddZero(Eval(c, points[i]));
    }
    RootsVanish(VAdd(c, d), points);
    forall i | 0 <= i < |c| ensures c[i] == d[i] {
      assert VAdd(c, d)[i] == 0;
      AddCancel(c[i], d[i]);
    }
  }

  // ---- Vandermonde matrices ----

  function VRow(a: Byte, k: nat): (row: Vec)
    ensures |row| == k && forall j | 0 <= j < k :: row[j] == Pow(a, j)
  {
    seq(k, j requires 0 <= j < k => Pow(a, j))
  }

  lemma {:induction false} EvalSnoc(c: Vec, z: Byte, a: Byte)
    ensures Eval(c + [z], a) == Add(Eval(c, a), Mul(Pow(a, |c|), z))
  {
    hide Mul, Add;
    if c == [] {
      assert (c + [z])[1..] == [];
      MulZero(a);
      AddZero(z);
      MulOneLeft(z);
    } else {
      EvalSnoc(c[1..], z, a);
      assert (c + [z])[1..] == c[1..] + [z];
      var p := Pow(a, |c| - 1);
      MulAdd(a, Eval(c[1..], a), Mul(p, z));
      MulAssoc(a, p, z);
      MulComm(a, p);
      AddAssoc(c[0], Mul(a, Eval(c[1..], a)), Mul(Mul(a, p), z));
    }
  }

  lemma {:induction false} RowEvaluates(a: Byte, c: Vec)
    ensures Dot(VRow(a, |c|), c) == Eval(c, a)
  {
    hide Mul, Add;
    if c != [] {
      var n := |c| - 1;
      RowEvaluates(a, c[..n]);
      assert VRow(a, |c|)[..n] == VRow(a, n);
      EvalSnoc(c[..n], c[n], a);
      assert c == c[..n] + [c[n]];
    }
  }

  predicate PointsOk(points: seq<nat>) {
    DistinctPoints(points) && forall i | 0 <= i < |points| :: points[i] < 256
  }

  function Vandermonde(points: seq<nat>, k: nat): (m: Mat)
    requires PointsOk(points)
    ensures |m| == |points| && forall i | 0 <= i < |m| :: |m[i]| == k && m[i] == VRow(points[i], k)
  {
    seq(|points|, i requires 0 <= i < |points| => VRow(points[i], k))
  }

  /** Vandermonde matrices on distinct points are never singular. */
  lemma {:induction false} VandermondeRegular(points: seq<nat>, k: nat)
    requires PointsOk(points) && |points| == k
    ensures TrivialKernel(Vandermonde(points, k), k)
  {
    hide Eval, Dot;
    var v := Vandermonde(points, k);
    forall c: Vec | |c| == k && Apply(v, c) == Zeros(k) ensures c == Zeros(k) {
      forall i | 0 <= i < k ensures Eval(c, points[i]) == 0 {
        RowEvaluates(points[i], c);
        assert Apply(v, c)[i] == Dot(v[i], c);
      }
      RootsVanish(c, points);
    }
  }

  // ---- generator rows ----

  /** Values of the polynomial at the first `k` points. */
  function Heads(c: Vec, k: nat): (d: Vec)
    requires k <= 256
    ensures |d| == k && forall j | 0 <= j < k :: d[j] == Eval(c, j)
  {
    seq(k, j requires 0 <= j < k => Eval(c, j))
  }

  /** `g` turns the data (values at 0 to k-1) into the value at `i`, for every polynomial. */
  ghost predicate Generates(g: Vec, i: nat, k: nat) {
    && k <= 256 && i < 256 && |g| == k
    && forall c: Vec | |c| == k :: Dot(g, Heads(c, k)) == Eval(c, i)
  }

  /** `top` turns data into coefficients. */
  ghost predicate TopInverse(top: Mat, k: nat) {
    && k <= 256 && Matrix.Square(top, k)
    && (forall c: Vec | |c| == k :: Apply(top, Heads(c, k)) == c)
    && (forall d: Vec | |d| == k :: Heads(Apply(top, d), k) == d)
  }

  function FirstPoints(k: nat): (points: seq<nat>)
    requires k <= 256
    ensures |points| == k && PointsOk(points) && forall i | 0 <= i < k :: points[i] == i
  {
    seq(k, i requires 0 <= i < k => i)
  }

  lemma {:induction false} HeadsByRows(c: Vec, k: nat)
    requires |c| == k <= 256
    ensures Apply(Vandermonde(FirstPoints(k), k), c) == Heads(c, k)
  {
    hide Eval, Dot;
    forall j | 0 <= j < k ensures Dot(VRow(j, k), c) == Eval(c, j) {
      RowEvaluates(j, c);
    }
  }

  lemma {:induction false} TopIsInverse(top: Mat, k: nat)
    requires k <= 256 && Inverse(Vandermonde(FirstPoints(k), k), top, k)
    ensures TopInverse(top, k)
  {
    hide Eval, Dot;
    forall c: Vec | |c| == k ensures Apply(top, Heads(c, k)) == c {
      HeadsByRows(c, k);
    }
    forall d: Vec | |d| == k ensures Heads(Apply(top, d), k) == d {
      HeadsByRows(Apply(top, d), k);
    }
  }

  lemma {:induction false} UnitGenerates(i: nat, k: nat)
    requires i < k <= 256
    ensures Generates(Unit(i, k), i, k)
  {
    hide Eval, Dot;
    forall c: Vec | |c| == k ensures Dot(Unit(i, k), Heads(c, k)) == Eval(c, i) {
      DotUnit(i, Unit(i, k), Heads(c, k));
    }
  }

  lemma {:induction false} ParityGenerates(top: Mat, i: nat, k: nat)
    requires TopInverse(top, k) && i < 256
    ensures Generates(RowTimes(VRow(i, k), top, k), i, k)
  {
    hide Eval, Dot, RowTimes, Heads, VRow, Matrix.Apply;
    forall c: Vec | |c| == k ensures Dot(RowTimes(VRow(i, k), top, k), Heads(c, k)) == Eval(c, i) {
      ParityAt(top, i, k, c);
    }
  }

  lemma {:induction false} ParityAt(top: Mat, i: nat, k: nat, c: Vec)
    requires TopInverse(top, k) && i < 256 && |c| == k
    ensures Dot(RowTimes(VRow(i, k), top, k), Heads(c, k)) == Eval(c, i)
  {
    hide Eval, Dot, RowTimes, Heads, VRow, Matrix.Apply;
    RowTimesDot(VRow(i, k), top, k, Heads(c, k));
    RowEvaluates(i, c);
  }

  /** Every data column is the head of some polynomial. */
  lemma {:induction false} Through(top: Mat, k: nat, d: Vec) returns (c: Vec)
    requires TopInverse(top, k) && |d| == k
    ensures k <= 256 && |c| == k && Heads(c, k) == d
  {
    c := Apply(top, d);
  }

  /** Generator rows at distinct indices form a regular matrix. */
  lemma {:induction false} GeneratorRegular(m: Mat, indices: seq<nat>, top: Mat, k: nat)
    requires TopInverse(top, k) && Matrix.Square(m, k) && PointsOk(indices) && |indices| == k
    requires forall j | 0 <= j < k :: Generates(m[j], indices[j], k)
    ensures TrivialKernel(m, k)
  {
    hide TopInverse, Generates, Dot;
    forall d: Vec | |d| == k && Apply(m, d) == Zeros(k) ensures d == Zeros(k) {
      GeneratorKernel(m, indices, top, k, d);
    }
  }

  lemma {:induction false} GeneratorKernel(m: Mat, indices: seq<nat>, top: Mat, k: nat, d: Vec)
    requires TopInverse(top, k) && Matrix.Square(m, k) && PointsOk(indices) && |indices| == k
    requires forall j | 0 <= j < k :: Generates(m[j], indices[j], k)
    requires |d| == k && Apply(m, d) == Zeros(k)
    ensures d == Zeros(k)
  {
    hide Eval, Dot, Mul, Add, TopInverse;
    var c := Through(top, k, d);
    forall j | 0 <= j < k ensures Eval(c, indices[j]) == 0 {
      assert Generates(m[j], indices[j], k);
      assert Apply(m, d)[j] == Dot(m[j], d);
    }
    RootsVanish(c, indices);
    forall j | 0 <= j < k ensures d[j] == 0 {
      EvalZeros(k, j);
      assert Heads(c, k)[j] == Eval(c, j);
    }
  }
}
