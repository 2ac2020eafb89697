/** Vectors and square matrices of field elements, and inversion by Gauss-Jordan
    elimination over matrix and inverse side by side. */
module Matrix {
  import opened Field
  import opened Wrappers

  type Vec = seq<Byte>
  type Mat = seq<Vec>

  predicate Square(m: Mat, k: nat) {
    |m| == k && forall i | 0 <= i < k :: |m[i]| == k
  }

  function VAdd(a: Vec, b: Vec): (v: Vec)
    requires |a| == |b|
    ensures |v| == |a| && forall i | 0 <= i < |a| :: v[i] == Add(a[i], b[i])
  {
    seq(|a|, i requires 0 <= i < |a| => Add(a[i], b[i]))
  }

  function Scale(f: Byte, a: Vec): (v: Vec)
    ensures |v| == |a| && forall i | 0 <= i < |a| :: v[i] == Mul(f, a[i])
  {
    seq(|a|, i requires 0 <= i < |a| => Mul(f, a[i]))
  }

  function Dot(a: Vec, b: Vec): Byte
    requires |a| == |b|
  {
    if a == [] then 0
    else Add(Dot(a[..|a| - 1], b[..|b| - 1]), Mul(a[|a| - 1], b[|b| - 1]))
  }

  /** Matrix times column vector. */
  function Apply(m: Mat, x: Vec): (y: Vec)
    requires forall i | 0 <= i < |m| :: |m[i]| == |x|
    ensures |y| == |m| && forall i | 0 <= i < |m| :: y[i] == Dot(m[i], x)
  {
    seq(|m|, i requires 0 <= i < |m| => Dot(m[i], x))
  }

  /** Row vector times matrix. */
  function RowTimes(r: Vec, m: Mat, k: nat): (v: Vec)
    requires |r| == |m| && forall i | 0 <= i < |m| :: |m[i]| == k
    ensures |v| == k
  {
    if r == [] then Zeros(k)
    else VAdd(RowTimes(r[..|r| - 1], m[..|m| - 1], k), Scale(r[|r| - 1], m[|m| - 1]))
  }

  lemma {:induction false} DotZero(a: Vec, b: Vec)
    requires |a| == |b| && (a == Zeros(|a|) || b == Zeros(|b|))
    ensures Dot(a, b) == 0
  {
    if a != [] {
      var n := |a| - 1;
      if a == Zeros(|a|) { assert a[..n] == Zeros(n); } else { assert b[..n] == Zeros(n); }
      DotZero(a[..n], b[..n]);
      MulZero(a[n]);
      MulZero(b[n]);
      AddZero(0);
    }
  }

  lemma {:induction false} DotAdd(a: Vec, b: Vec, x: Vec)
    requires |a| == |b| == |x|
    ensures Dot(VAdd(a, b), x) == Add(Dot(a, x), Dot(b, x))
  {
    hide Mul, Add;
    if a == [] {
      AddZero(0);
    } else {
      var n := |a| - 1;
      DotAdd(a[..n], b[..n], x[..n]);
      assert VAdd(a, b)[..n] == VAdd(a[..n], b[..n]);
      MulAdd(x[n], a[n], b[n]);
      AddSwap(Dot(a[..n], x[..n]), Dot(b[..n], x[..n]), Mul(a[n], x[n]), Mul(b[n], x[n]));
    }
  }

  lemma {:induction false} DotScale(f: Byte, a: Vec, x: Vec)
    requires |a| == |x|
    ensures Dot(Scale(f, a), x) == Mul(f, Dot(a, x))
  {
    hide Mul, Add;
    if a == [] {
      MulZero(f);
    } else {
      var n := |a| - 1;
      DotScale(f, a[..n], x[..n]);
      assert Scale(f, a)[..n] == Scale(f, a[..n]);
      MulAssoc(f, a[n], x[n]);
      MulAdd(f, Dot(a[..n], x[..n]), Mul(a[n], x[n]));
    }
  }

  /** (r M) x = r (M x). */
  lemma {:induction false} RowTimesDot(r: Vec, m: Mat, k: nat, x: Vec)
    requires |r| == |m| && |x| == k && forall i | 0 <= i < |m| :: |m[i]| == k
    ensures Dot(RowTimes(r, m, k), x) == Dot(r, Apply(m, x))
  {
    hide Mul, Add;
    if r == [] {
      DotZero(Zeros(k), x);
    } else {
      var n := |r| - 1;
      RowTimesDot(r[..n], m[..n], k, x);
      DotAdd(RowTimes(r[..n], m[..n], k), Scale(r[n], m[n]), x);
      DotScale(r[n], m[n], x);
      assert Apply(m, x)[..n] == Apply(m[..n], x);
    }
  }

  /** Row `i` of the identity. */
  function Unit(i: nat, k: nat): (v: Vec)
    requires i < k
    ensures |v| == k && forall j | 0 <= j < k :: v[j] == if j == i then 1 else 0
  {
    seq(k, j => if j == i then 1 else 0)
  }

  lemma {:induction false} DotUnit(i: nat, v: Vec, x: Vec)
    requires |v| == |x| && forall j | 0 <= j < |v| :: v[j] == if j == i then 1 else 0
    ensures Dot(v, x) == if i < |x| then x[i] else 0
  {
    if v != [] {
      var n := |v| - 1;
      DotUnit(i, v[..n], x[..n]);
      MulOneLeft(x[n]);
      MulZero(x[n]);
      AddZero(x[n]);
      if i < n { AddZero(x[i]); }
    }
  }

  // ---- systems of equations ----

  /** `m x = p y`, row by row. */
  ghost predicate Solves(m: Mat, p: Mat, k: nat, x: Vec, y: Vec)
    requires Square(m, k) && Square(p, k) && |x| == k && |y| == k
  {
    forall i | 0 <= i < k :: Dot(m[i], x) == Dot(p[i], y)
  }

  /** `m x = p y` has the same solutions as `a x = y`. */
  ghost predicate Equivalent(a: Mat, m: Mat, p: Mat, k: nat) {
    && Square(a, k) && Square(m, k) && Square(p, k)
    && forall x: Vec, y: Vec | |x| == k && |y| == k :: Apply(a, x) == y <==> Solves(m, p, k, x, y)
  }

  /** `p` undoes `a` on both sides. */
  ghost predicate Inverse(a: Mat, p: Mat, k: nat) {
    && Square(a, k) && Square(p, k)
    && forall x: Vec, y: Vec | |x| == k && |y| == k :: Apply(a, x) == y <==> Apply(p, y) == x
  }

  /** Only the zero vector is sent to zero. */
  ghost predicate TrivialKernel(a: Mat, k: nat)
    requires Square(a, k)
  {
    forall x: Vec | |x| == k && Apply(a, x) == Zeros(k) :: x == Zeros(k)
  }

  function Identity(k: nat): (m: Mat)
    ensures Square(m, k) && forall i | 0 <= i < k :: m[i] == Unit(i, k)
  {
    seq(k, i requires 0 <= i < k => Unit(i, k))
  }

  lemma {:induction false} IdentityStart(a: Mat, k: nat)
    requires Square(a, k)
    ensures Equivalent(a, a, Identity(k), k)
  {
    forall x: Vec, y: Vec | |x| == k && |y| == k
      ensures Apply(a, x) == y <==> Solves(a, Identity(k), k, x, y)
    {
      forall i | 0 <= i < k ensures Dot(Identity(k)[i], y) == y[i] {
        DotUnit(i, Unit(i, k), y);
      }
      if Solves(a, Identity(k), k, x, y) {
        forall i | 0 <= i < k ensures Apply(a, x)[i] == y[i] {
          assert Dot(a[i], x) == Dot(Identity(k)[i], y);
        }
      }
    }
  }

  function Swap(m: Mat, i: nat, j: nat): Mat
    requires i < |m| && j < |m|
  {
    m[i := m[j]][j := m[i]]
  }

  lemma {:induction false} SwapEquivalent(a: Mat, m: Mat, p: Mat, k: nat, i: nat, j: nat)
    requires Equivalent(a, m, p, k) && i < k && j < k
    ensures Equivalent(a, Swap(m, i, j), Swap(p, i, j), k)
  {
    var m', p' := Swap(m, i, j), Swap(p, i, j);
    forall x: Vec, y: Vec | |x| == k && |y| == k
      ensures Solves(m, p, k, x, y) <==> Solves(m', p', k, x, y)
    {
      if Solves(m', p', k, x, y) {
        assert Dot(m'[i], x) == Dot(p'[i], y) && Dot(m'[j], x) == Dot(p'[j], y);
        forall r | 0 <= r < k ensures Dot(m[r], x) == Dot(p[r], y) {
          if r != i && r != j { assert m'[r] == m[r] && p'[r] == p[r]; }
        }
      }
    }
  }

  lemma {:induction false} ScaleEquivalent(a: Mat, m: Mat, p: Mat, k: nat, i: nat, f: Byte)
    requires Equivalent(a, m, p, k) && i < k && f != 0
    ensures Equivalent(a, m[i := Scale(f, m[i])], p[i := Scale(f, p[i])], k)
  {
    hide Mul, Dot;
    var m', p' := m[i := Scale(f, m[i])], p[i := Scale(f, p[i])];
    forall x: Vec, y: Vec | |x| == k && |y| == k
      ensures Solves(m, p, k, x, y) <==> Solves(m', p', k, x, y)
    {
      DotScale(f, m[i], x);
      DotScale(f, p[i], y);
      MulCancel(f, Dot(m[i], x), Dot(p[i], y));
      if Solves(m', p', k, x, y) {
        assert Dot(m'[i], x) == Dot(p'[i], y);
        forall r | 0 <= r < k ensures Dot(m[r], x) == Dot(p[r], y) {
          if r != i { assert m'[r] == m[r] && p'[r] == p[r]; }
        }
      }
    }
  }

  lemma {:induction false} MulCancel(f: Byte, a: Byte, b: Byte)
    requires f != 0
    ensures Mul(f, a) == Mul(f, b) <==> a == b
  {
    hide Mul, Add;
    MulAdd(f, a, b);
    MulNonzero(f, Add(a, b));
    AddCancel(a, b);
    AddCancel(Mul(f, a), Mul(f, b));
  }

  lemma {:induction false} AddRowEquivalent(a: Mat, m: Mat, p: Mat, k: nat, r: nat, i: nat, f: Byte)
    requires Equivalent(a, m, p, k) && i < k && r < k && r != i
    ensures Equivalent(a, m[r := VAdd(m[r], Scale(f, m[i]))], p[r := VAdd(p[r], Scale(f, p[i]))], k)
  {
    hide Mul, Add, Dot;
    var m', p' := m[r := VAdd(m[r], Scale(f, m[i]))], p[r := VAdd(p[r], Scale(f, p[i]))];
    forall x: Vec, y: Vec | |x| == k && |y| == k
      ensures Solves(m, p, k, x, y) <==> Solves(m', p', k, x, y)
    {
      DotScale(f, m[i], x);
      DotScale(f, p[i], y);
      DotAdd(m[r], Scale(f, m[i]), x);
      DotAdd(p[r], Scale(f, p[i]), y);
      AddCancel(Dot(m[r], x), Mul(f, Dot(m[i], x)));
      AddCancel(Dot(p[r], y), Mul(f, Dot(p[i], y)));
      if Solves(m', p', k, x, y) {
        assert Dot(m'[i], x) == Dot(p'[i], y) && Dot(m'[r], x) == Dot(p'[r], y);
        forall s | 0 <= s < k ensures Dot(m[s], x) == Dot(p[s], y) {
          if s != r { assert m'[s] == m[s] && p'[s] == p[s]; }
        }
      }
    }
  }

  // ---- elimination ----

  /** The first `col` columns are those of the identity. */
  ghost predicate Reduced(m: Mat, k: nat, col: nat)
    requires Square(m, k) && col <= k
  {
    forall i, j | 0 <= i < k && 0 <= j < col :: m[i][j] == if i == j then 1 else 0
  }

  /** Column `col` is cleared in the first `rows` rows and 1 on the diagonal. */
  ghost predicate Cleared(m: Mat, k: nat, col: nat, rows: nat)
    requires Square(m, k) && col < k && rows <= k
  {
    m[col][col] == 1 && forall i | 0 <= i < rows && i != col :: m[i][col] == 0
  }

  lemma {:induction false} ScaleReduced(m: Mat, k: nat, col: nat, f: Byte)
    requires Square(m, k) && col < k && Reduced(m, k, col)
    ensures Reduced(m[col := Scale(f, m[col])], k, col)
  {
    MulZero(f);
  }

  lemma {:induction false} AddRowReduced(m: Mat, k: nat, col: nat, r: nat)
    requires Square(m, k) && col < k && r < k && r != col
    requires Reduced(m, k, col) && Cleared(m, k, col, r)
    ensures var m' := m[r := VAdd(m[r], Scale(m[r][col], m[col]))];
      Reduced(m', k, col) && Cleared(m', k, col, r + 1)
  {
    hide Mul, Add;
    var f := m[r][col];
    MulZero(f);
    MulOneRight(f);
    AddZero(f);
    forall j | 0 <= j < col ensures Add(m[r][j], Mul(f, m[col][j])) == m[r][j] {
      AddZero(m[r][j]);
    }
  }

  lemma {:induction false} DotTail(a: Vec, x: Vec, n: nat)
    requires |a| == |x| && n <= |a| && forall j | n <= j < |a| :: x[j] == 0
    ensures Dot(a, x) == Dot(a[..n], x[..n])
    decreases |a|
  {
    if n == |a| {
      assert a[..n] == a && x[..n] == x;
    } else {
      var l := |a| - 1;
      DotTail(a[..l], x[..l], n);
      assert a[..l][..n] == a[..n] && x[..l][..n] == x[..n];
      MulZero(a[l]);
      AddZero(Dot(a[..l], x[..l]));
    }
  }

  /** A vector the reduced matrix sends to zero, when column `col` has no pivot left. */
  function KernelVector(m: Mat, k: nat, col: nat): (x: Vec)
    requires Square(m, k) && col < k
    ensures |x| == k && x[col] == 1
  {
    seq(k, j requires 0 <= j < k => if j < col then m[j][col] else if j == col then 1 else 0)
  }

  lemma {:induction false} KernelRow(m: Mat, k: nat, col: nat, i: nat)
    requires Square(m, k) && col < k && i < k && Reduced(m, k, col)
    requires i >= col ==> m[i][col] == 0
    ensures Dot(m[i], KernelVector(m, k, col)) == 0
  {
    var x := KernelVector(m, k, col);
    DotTail(m[i], x, col + 1);
    var a, b := m[i][..col + 1], x[..col + 1];
    assert a[..col] == m[i][..col] && b[..col] == x[..col];
    DotUnit(i, a[..col], b[..col]);
    MulOneRight(m[i][col]);
    AddZero(m[i][col]);
    AddZero(0);
  }

  lemma {:induction false} NoPivot(a: Mat, m: Mat, p: Mat, k: nat, col: nat)
    requires Equivalent(a, m, p, k) && col < k && Reduced(m, k, col)
    requires forall i | col <= i < k :: m[i][col] == 0
    ensures !TrivialKernel(a, k)
  {
    var x, y := KernelVector(m, k, col), Zeros(k);
    forall i | 0 <= i < k ensures Dot(m[i], x) == Dot(p[i], y) {
      KernelRow(m, k, col, i);
      DotZero(p[i], y);
    }
    assert Solves(m, p, k, x, y);
    assert Apply(a, x) == Zeros(k);
    assert x[col] != Zeros(k)[col];
  }

  lemma {:induction false} ReducedIsInverse(a: Mat, m: Mat, p: Mat, k: nat)
    requires Equivalent(a, m, p, k) && Reduced(m, k, k)
    ensures Inverse(a, p, k)
  {
    hide Dot, Solves, Reduced;
    forall x: Vec, y: Vec | |x| == k && |y| == k
      ensures Solves(m, p, k, x, y) <==> Apply(p, y) == x
    {
      ReducedSolves(m, p, k, x, y);
    }
  }

  lemma {:induction false} ReducedSolves(m: Mat, p: Mat, k: nat, x: Vec, y: Vec)
    requires Square(m, k) && Square(p, k) && Reduced(m, k, k) && |x| == k && |y| == k
    ensures Solves(m, p, k, x, y) <==> Apply(p, y) == x
  {
    hide Dot;
    forall i | 0 <= i < k ensures Dot(m[i], x) == x[i] {
      DotUnit(i, m[i], x);
    }
    if Apply(p, y) == x {
      forall i | 0 <= i < k ensures Dot(m[i], x) == Dot(p[i], y) {
        assert Apply(p, y)[i] == x[i];
      }
    }
  }

  lemma {:induction false} InverseKernel(a: Mat, p: Mat, k: nat)
    requires Inverse(a, p, k)
    ensures TrivialKernel(a, k)
  {
    forall x: Vec | |x| == k && Apply(a, x) == Zeros(k) ensures x == Zeros(k) {
      assert Apply(p, Zeros(k)) == x;
      forall i | 0 <= i < k ensures x[i] == 0 {
        DotZero(p[i], Zeros(k));
      }
    }
  }

  method ScaleRow(t: Tables, row: Vec, f: Byte) returns (out: Vec)
    requires ValidTables(t)
    ensures out == Scale(f, row)
  {
    out := row;
    var c := 0;
    while c < |row|
      invariant 0 <= c <= |row| && |out| == |row|
      invariant forall j | 0 <= j < c :: out[j] == Mul(f, row[j])
      invariant forall j | c <= j < |row| :: out[j] == row[j]
    {
      MulComm(out[c], f);
      out := out[c := TableMul(t, out[c], f)];
      c := c + 1;
    }
  }

  method AddScaled(t: Tables, row: Vec, f: Byte, pivot: Vec) returns (out: Vec)
    requires ValidTables(t) && |row| == |pivot|
    ensures out == VAdd(row, Scale(f, pivot))
  {
    out := row;
    var c := 0;
    while c < |row|
      invariant 0 <= c <= |row| && |out| == |row|
      invariant forall j | 0 <= j < c :: out[j] == Add(row[j], Mul(f, pivot[j]))
      invariant forall j | c <= j < |row| :: out[j] == row[j]
    {
      out := out[c := Add(out[c], TableMul(t, f, pivot[c]))];
      c := c + 1;
    }
  }

  method FindPivot(m: Mat, k: nat, col: nat) returns (pivot: Option<nat>)
    requires Square(m, k) && col < k
    ensures pivot.Some? ==> col <= pivot.value < k && m[pivot.value][col] != 0
    ensures pivot.None? ==> forall i | col <= i < k :: m[i][col] == 0
  {
    var r := col;
    while r < k
      invariant col <= r <= k
      invariant forall i | col <= i < r :: m[i][col] == 0
    {
      if m[r][col] != 0 {
        return Some(r);
      }
      r := r + 1;
    }
    pivot := None;
  }

  /** One elimination step: clear column `col` in every row but its own. */
  method ClearColumn(t: Tables, ghost a: Mat, matrix: Mat, inverse: Mat, k: nat, col: nat) returns (m: Mat, p: Mat)
    requires ValidTables(t) && Square(matrix, k) && Square(inverse, k) && Equivalent(a, matrix, inverse, k) && col < k
    requires Reduced(matrix, k, col) && matrix[col][col] == 1
    ensures Square(m, k) && Square(p, k) && Equivalent(a, m, p, k) && Reduced(m, k, col + 1)
  {
    hide Mul, Add, Dot, Equivalent;
    m, p := matrix, inverse;
    var row := 0;
    while row < k
      invariant 0 <= row <= k && Square(m, k) && Square(p, k)
      invariant Equivalent(a, m, p, k) && Reduced(m, k, col) && Cleared(m, k, col, row)
    {
      if row != col && m[row][col] != 0 {
        var factor := m[row][col];
        AddRowEquivalent(a, m, p, k, row, col, factor);
        AddRowReduced(m, k, col, row);
        var left := AddScaled(t, m[row], factor, m[col]);
        var right := AddScaled(t, p[row], factor, p[col]);
        m, p := m[row := left], p[row := right];
      }
      row := row + 1;
    }
  }

  /** `invert`: the inverse, or no result exactly when the matrix is singular. */
  method Invert(t: Tables, a: Mat, k: nat) returns (r: Option<Mat>)
    requires ValidTables(t) && Square(a, k)
    ensures r.Some? <==> TrivialKernel(a, k)
    ensures r.Some? ==> Inverse(a, r.value, k)
  {
    hide Mul, Add, Dot, Equivalent, TrivialKernel;
    var m, p := a, Identity(k);
    IdentityStart(a, k);
    var col := 0;
    while col < k
      invariant 0 <= col <= k && Square(m, k) && Square(p, k)
      invariant Equivalent(a, m, p, k) && Reduced(m, k, col)
    {
      var pivot := FindPivot(m, k, col);
      if pivot.None? {
        NoPivot(a, m, p, k, col);
        return None;
      }
      SwapEquivalent(a, m, p, k, col, pivot.value);
      m, p := Swap(m, col, pivot.value), Swap(p, col, pivot.value);
      var scale := TableInv(t, m[col][col]);
      InverseNonzero(m[col][col], scale);
      ScaleEquivalent(a, m, p, k, col, scale);
      ScaleReduced(m, k, col, scale);
      var left := ScaleRow(t, m[col], scale);
      var right := ScaleRow(t, p[col], scale);
      m, p := m[col := left], p[col := right];
      m, p := ClearColumn(t, a, m, p, k, col);
      col := col + 1;
    }
    ReducedIsInverse(a, m, p, k);
    InverseKernel(a, p, k);
    r := Some(p);
  }

  lemma {:induction false} InverseNonzero(a: Byte, b: Byte)
    requires Mul(a, b) == 1
    ensures b != 0 && Mul(b, a) == 1
  {
    MulZero(a);
    MulComm(a, b);
  }
}
