/** Encoding data into n shards and reconstructing it from any k of them. */
module Erasure {
  import opened Field
  import opened Matrix
  import opened ReedSolomon

  const MAX_SHARDS: nat := 256

  datatype Error = Parameters | ShardSet | ShardLength

  datatype Result<+T> = Ok(value: T) | Err(error: Error)

  datatype Shard = Shard(index: nat, bytes: Vec)

  predicate ParametersOk(k: nat, n: nat) {
    1 <= k <= n <= MAX_SHARDS
  }

  // ---- what a coded set of shards is ----

  /** The shards all have length `len`. */
  predicate Even(rows: seq<Vec>, len: nat) {
    forall i | 0 <= i < |rows| :: |rows[i]| == len
  }

  function Column(rows: seq<Vec>, b: nat): (v: Vec)
    requires forall i | 0 <= i < |rows| :: b < |rows[i]|
    ensures |v| == |rows| && forall i | 0 <= i < |rows| :: v[i] == rows[i][b]
  {
    seq(|rows|, i requires 0 <= i < |rows| => rows[i][b])
  }

  /** The polynomial `c` takes the given values at the given points. */
  ghost predicate Passes(c: Vec, points: seq<nat>, values: Vec) {
    |points| == |values| && forall i | 0 <= i < |points| :: points[i] < 256 && Eval(c, points[i]) == values[i]
  }

  /** Byte `b` of the rows lies on one polynomial with k coefficients. */
  ghost predicate OnCurve(points: seq<nat>, rows: seq<Vec>, b: nat, k: nat)
    requires forall i | 0 <= i < |rows| :: b < |rows[i]|
  {
    exists c: Vec :: |c| == k && Passes(c, points, Column(rows, b))
  }

  /** `rows`, read at `points`, are shards of one codeword of length `len`. */
  ghost predicate Codeword(points: seq<nat>, rows: seq<Vec>, k: nat, len: nat) {
    Even(rows, len) && forall b | 0 <= b < len :: OnCurve(points, rows, b, k)
  }

  function Upto(n: nat): (points: seq<nat>)
    ensures |points| == n && forall i | 0 <= i < n :: points[i] == i
  {
    seq(n, i requires 0 <= i < n => i)
  }

  /** ceil(len / k), at least one byte. */
  function ShardLen(len: nat, k: nat): (l: nat)
    requires k > 0
    ensures l >= 1 && len <= k * l
  {
    assert len <= k * ((len + k - 1) / k);
    if len == 0 then 1 else (len + k - 1) / k
  }

  /** Piece `i` of the data, padded with zeros. */
  function Piece(data: Vec, len: nat, i: nat): (p: Vec)
    ensures |p| == len
    ensures forall b | 0 <= b < len :: p[b] == if i * len + b < |data| then data[i * len + b] else 0
  {
    seq(len, b requires 0 <= b < len => if i * len + b < |data| then data[i * len + b] else 0)
  }

  /** The n shards of `data`: its k padded pieces, extended to a codeword. */
  ghost predicate Encodes(data: Vec, k: nat, n: nat, rows: seq<Vec>) {
    && ParametersOk(k, n) && |rows| == n
    && Codeword(Upto(n), rows, k, ShardLen(|data|, k))
    && forall i | 0 <= i < k :: rows[i] == Piece(data, ShardLen(|data|, k), i)
  }

  function Join(rows: seq<Vec>): Vec {
    if rows == [] then [] else Join(rows[..|rows| - 1]) + rows[|rows| - 1]
  }

  /** `truncate`: shortens, never lengthens. */
  function Truncate(data: Vec, len: nat): Vec {
    if len <= |data| then data[..len] else data
  }

  // ---- codewords are determined by any k rows ----

  /** Two codewords that agree on k distinct indices agree everywhere. */
  lemma {:induction false} CodewordsAgree(k: nat, n: nat, len: nat, rows: seq<Vec>, other: seq<Vec>, indices: seq<nat>)
    requires n <= 256 && |rows| == |other| == n && |indices| == k && DistinctPoints(indices)
    requires Codeword(Upto(n), rows, k, len) && Codeword(Upto(n), other, k, len)
    requires forall j | 0 <= j < k :: indices[j] < n && rows[indices[j]] == other[indices[j]]
    ensures rows == other
  {
    hide Eval;
    forall b, i | 0 <= b < len && 0 <= i < n ensures rows[i][b] == other[i][b] {
      assert OnCurve(Upto(n), rows, b, k) && OnCurve(Upto(n), other, b, k);
      var c: Vec :| |c| == k && Passes(c, Upto(n), Column(rows, b));
      var d: Vec :| |d| == k && Passes(d, Upto(n), Column(other, b));
      SameCurve(c, d, n, Column(rows, b), Column(other, b), indices);
    }
    forall i | 0 <= i < n ensures rows[i] == other[i] {}
  }

  lemma {:induction false} SameCurve(c: Vec, d: Vec, n: nat, x: Vec, y: Vec, indices: seq<nat>)
    requires |c| == |d| == |indices| && DistinctPoints(indices)
    requires Passes(c, Upto(n), x) && Passes(d, Upto(n), y)
    requires forall j | 0 <= j < |indices| :: indices[j] < n && x[indices[j]] == y[indices[j]]
    ensures c == d && x == y
  {
    hide Eval;
    forall j | 0 <= j < |indices| ensures indices[j] < 256 && Eval(c, indices[j]) == Eval(d, indices[j]) {
      assert Upto(n)[indices[j]] == indices[j];
    }
    Interpolation(c, d, indices);
    forall i | 0 <= i < n ensures x[i] == y[i] {
      assert Upto(n)[i] == i;
    }
  }

  lemma {:induction false} EncodingUnique(data: Vec, k: nat, n: nat, rows: seq<Vec>, other: seq<Vec>)
    requires Encodes(data, k, n, rows) && Encodes(data, k, n, other)
    ensures rows == other
  {
    CodewordsAgree(k, n, ShardLen(|data|, k), rows, other, Upto(k));
  }

  lemma {:induction false} JoinAt(rows: seq<Vec>, len: nat, i: nat, b: nat)
    requires Even(rows, len) && i < |rows| && b < len
    ensures |Join(rows)| == |rows| * len && i * len + b < |rows| * len
    ensures Join(rows)[i * len + b] == rows[i][b]
  {
    var n := |rows| - 1;
    JoinLength(rows, len);
    JoinLength(rows[..n], len);
    IndexBelow(i, b, len, |rows|);
    if i < n {
      JoinAt(rows[..n], len, i, b);
    }
  }

  lemma {:induction false} JoinLength(rows: seq<Vec>, len: nat)
    requires Even(rows, len)
    ensures |Join(rows)| == |rows| * len
  {
    if rows != [] {
      var n := |rows| - 1;
      JoinLength(rows[..n], len);
      assert (n + 1) * len == n * len + len;
    }
  }

  lemma {:induction false} IndexBelow(i: nat, b: nat, len: nat, n: nat)
    requires i < n && b < len
    ensures i * len + b < n * len
  {
    assert (i + 1) * len <= n * len;
  }

  /** The data comes back from its own pieces. */
  lemma {:induction false} PiecesJoin(data: Vec, k: nat, pieces: seq<Vec>)
    requires k > 0 && |pieces| == k
    requires forall i | 0 <= i < k :: pieces[i] == Piece(data, ShardLen(|data|, k), i)
    ensures Truncate(Join(pieces), |data|) == data
  {
    var len := ShardLen(|data|, k);
    JoinLength(pieces, len);
    forall m | 0 <= m < |data| ensures Join(pieces)[m] == data[m] {
      var i, b := Locate(m, len, k);
      JoinAt(pieces, len, i, b);
    }
  }

  lemma {:induction false} Locate(m: nat, len: nat, k: nat) returns (i: nat, b: nat)
    requires len > 0 && m < k * len
    ensures i < k && b < len && m == i * len + b
  {
    i, b := m / len, m % len;
    assert i >= k ==> k * len <= i * len;
  }

  // ---- linear combinations of rows ----

  lemma {:induction false} AddNothing(v: Vec, w: Vec)
    requires |v| == |w|
    ensures VAdd(v, Scale(0, w)) == v
  {
    forall i | 0 <= i < |v| ensures Add(v[i], Mul(0, w[i])) == v[i] {
      MulZero(w[i]);
      AddZero(v[i]);
    }
  }

  /** `row_times_matrix`. */
  method RowTimesMatrix(t: Tables, row: Vec, m: Mat, k: nat) returns (out: Vec)
    requires ValidTables(t) && |row| == |m| && forall i | 0 <= i < |m| :: |m[i]| == k
    ensures out == RowTimes(row, m, k)
  {
    hide Mul, Add;
    out := Zeros(k);
    var r := 0;
    while r < |row|
      invariant 0 <= r <= |row|
      invariant out == RowTimes(row[..r], m[..r], k)
    {
      assert row[..r + 1][..r] == row[..r] && m[..r + 1][..r] == m[..r];
      if row[r] != 0 {
        out := AddScaled(t, out, row[r], m[r]);
      } else {
        AddNothing(out, m[r]);
      }
      r := r + 1;
    }
    assert row[..r] == row && m[..r] == m;
  }

  lemma {:induction false} DotNothing()
    ensures Dot([], []) == 0
  {}

  lemma {:induction false} DotNext(coeffs: Vec, rows: seq<Vec>, len: nat, i: nat, b: nat)
    requires i < |coeffs| == |rows| && Even(rows, len) && b < len
    ensures Dot(coeffs[..i + 1], Column(rows[..i + 1], b)) ==
      Add(Dot(coeffs[..i], Column(rows[..i], b)), Mul(coeffs[i], rows[i][b]))
  {
    hide Mul, Add;
    assert coeffs[..i + 1][..i] == coeffs[..i];
    assert Column(rows[..i + 1], b)[..i] == Column(rows[..i], b);
  }

  /** `combine`: byte `b` of the result is the dot product of the coefficients with column `b`. */
  method Combine(t: Tables, coeffs: Vec, rows: seq<Vec>, len: nat) returns (out: Vec)
    requires ValidTables(t) && |coeffs| == |rows| && Even(rows, len)
    ensures |out| == len && forall b | 0 <= b < len :: out[b] == Dot(coeffs, Column(rows, b))
  {
    hide Mul, Add, Dot;
    DotNothing();
    out := Zeros(len);
    var i := 0;
    while i < |coeffs|
      invariant 0 <= i <= |coeffs| && |out| == len
      invariant forall b | 0 <= b < len :: out[b] == Dot(coeffs[..i], Column(rows[..i], b))
    {
      ghost var before := out;
      if coeffs[i] != 0 {
        var table := seq(256, byte requires 0 <= byte < 256 => TableMul(t, coeffs[i], byte));
        var b := 0;
        while b < len
          invariant 0 <= b <= len && |out| == len
          invariant forall j | 0 <= j < b :: out[j] == Add(before[j], Mul(coeffs[i], rows[i][j]))
          invariant forall j | b <= j < len :: out[j] == before[j]
        {
          out := out[b := Add(out[b], table[rows[i][b]])];
          b := b + 1;
        }
      } else {
        AddNothing(out, rows[i]);
        assert Scale(0, rows[i]) == Scale(coeffs[i], rows[i]);
      }
      forall b | 0 <= b < len ensures out[b] == Dot(coeffs[..i + 1], Column(rows[..i + 1], b)) {
        if coeffs[i] == 0 { assert out[b] == VAdd(before, Scale(0, rows[i]))[b]; }
        DotNext(coeffs, rows, len, i, b);
      }
      i := i + 1;
    }
    assert coeffs[..i] == coeffs && rows[..i] == rows;
  }

  /** Row `i` of `out` combines `rows` by the coefficients `coeffs[i]`, byte by byte. */
  ghost predicate Combined(coeffs: Mat, rows: seq<Vec>, len: nat, out: seq<Vec>) {
    && |out| == |coeffs| && Even(rows, len) && Even(out, len)
    && (forall i | 0 <= i < |coeffs| :: |coeffs[i]| == |rows|)
    && forall i, b | 0 <= i < |coeffs| && 0 <= b < len :: out[i][b] == Dot(coeffs[i], Column(rows, b))
  }

  /** The rows of `out`, one `combine` each, as `map_ordered` returns them. */
  method CombineAll(t: Tables, coeffs: Mat, rows: seq<Vec>, len: nat) returns (out: seq<Vec>)
    requires ValidTables(t) && Even(rows, len)
    requires forall i | 0 <= i < |coeffs| :: |coeffs[i]| == |rows|
    ensures Combined(coeffs, rows, len, out)
  {
    hide Dot;
    out := [];
    var i := 0;
    while i < |coeffs|
      invariant 0 <= i <= |coeffs| && |out| == i && Even(out, len)
      invariant forall j, b | 0 <= j < i && 0 <= b < len :: out[j][b] == Dot(coeffs[j], Column(rows, b))
    {
      var row := Combine(t, coeffs[i], rows, len);
      out := out + [row];
      i := i + 1;
    }
  }

  lemma {:induction false} PowStart(point: Byte)
    ensures Pow(point, 0) == 1
  {}

  lemma {:induction false} PowNext(point: Byte, j: nat)
    ensures Pow(point, j + 1) == Mul(Pow(point, j), point)
  {
    hide Mul;
  }

  method VandermondeRow(t: Tables, point: Byte, k: nat) returns (row: Vec)
    requires ValidTables(t)
    ensures row == VRow(point, k)
  {
    hide Mul, Pow;
    PowStart(point);
    row := [];
    var value: Byte := 1;
    var j := 0;
    while j < k
      invariant 0 <= j <= k && |row| == j && value == Pow(point, j)
      invariant forall i | 0 <= i < j :: row[i] == Pow(point, i)
    {
      PowNext(point, j);
      row := row + [value];
      value := TableMul(t, value, point);
      j := j + 1;
    }
  }

  method VandermondeMatrix(t: Tables, points: seq<nat>, k: nat) returns (m: Mat)
    requires ValidTables(t) && PointsOk(points)
    ensures m == Vandermonde(points, k)
  {
    m := [];
    var i := 0;
    while i < |points|
      invariant 0 <= i <= |points| && |m| == i
      invariant forall j | 0 <= j < i :: m[j] == VRow(points[j], k)
    {
      var row := VandermondeRow(t, points[i], k);
      m := m + [row];
      i := i + 1;
    }
  }

  /** The inverse of the Vandermonde matrix on the first k points; it is never singular. */
  method TopRows(t: Tables, k: nat) returns (top: Mat)
    requires ValidTables(t) && k <= 256
    ensures TopInverse(top, k) && Matrix.Square(top, k)
  {
    hide Mul, Add, Dot, Eval;
    var v := VandermondeMatrix(t, FirstPoints(k), k);
    VandermondeRegular(FirstPoints(k), k);
    var inverse := Invert(t, v, k);
    top := inverse.value;
    TopIsInverse(top, k);
  }

  method ParityCoefficients(t: Tables, k: nat, n: nat) returns (parity: Mat, ghost top: Mat)
    requires ValidTables(t) && ParametersOk(k, n)
    ensures TopInverse(top, k)
    ensures |parity| == n - k && forall i | 0 <= i < n - k :: |parity[i]| == k && Generates(parity[i], k + i, k)
  {
    hide Mul, Add, Dot, Eval, RowTimes, Generates, TopInverse;
    var inverse := TopRows(t, k);
    top := inverse;
    parity := [];
    var index := k;
    while index < n
      invariant k <= index <= n && |parity| == index - k
      invariant forall i | 0 <= i < index - k :: |parity[i]| == k && Generates(parity[i], k + i, k)
    {
      var row := VandermondeRow(t, index, k);
      var coeffs := RowTimesMatrix(t, row, inverse, k);
      ParityGenerates(inverse, index, k);
      parity := parity + [coeffs];
      index := index + 1;
    }
  }

  method DecodeMatrix(t: Tables, indices: seq<nat>, k: nat) returns (m: Mat, ghost top: Mat)
    requires ValidTables(t) && k <= 256 && |indices| == k && PointsOk(indices)
    ensures TopInverse(top, k) && Matrix.Square(m, k)
    ensures forall j | 0 <= j < k :: Generates(m[j], indices[j], k)
  {
    hide Mul, Add, Dot, Eval, RowTimes, Generates, TopInverse;
    var inverse := TopRows(t, k);
    top := inverse;
    m := [];
    var j := 0;
    while j < k
      invariant 0 <= j <= k && |m| == j
      invariant forall i | 0 <= i < j :: |m[i]| == k && Generates(m[i], indices[i], k)
    {
      if indices[j] < k {
        UnitGenerates(indices[j], k);
        m := m + [Unit(indices[j], k)];
      } else {
        var row := VandermondeRow(t, indices[j], k);
        var coeffs := RowTimesMatrix(t, row, inverse, k);
        ParityGenerates(inverse, indices[j], k);
        m := m + [coeffs];
      }
      j := j + 1;
    }
  }

  // ---- encoding ----

  /** Splits the data into k zero-padded pieces. */
  method SplitPieces(data: Vec, k: nat, len: nat) returns (pieces: seq<Vec>)
    ensures |pieces| == k && forall i | 0 <= i < k :: pieces[i] == Piece(data, len, i)
  {
    pieces := [];
    var piece := 0;
    while piece < k
      invariant 0 <= piece <= k && |pieces| == piece
      invariant forall i | 0 <= i < piece :: pieces[i] == Piece(data, len, i)
    {
      var buf := Zeros(len);
      var start := piece * len;
      if start < |data| {
        var end := if start + len < |data| then start + len else |data|;
        buf := data[start..end] + buf[end - start..];
      }
      pieces := pieces + [buf];
      piece := piece + 1;
    }
  }

  /** Parity rows computed from generator rows complete the pieces to a codeword. */
  lemma {:induction false} ParityCompletes(top: Mat, k: nat, n: nat, len: nat, parity: Mat, pieces: seq<Vec>, extra: seq<Vec>)
    requires ParametersOk(k, n) && |parity| == n - k && |pieces| == k && Combined(parity, pieces, len, extra)
    requires TopInverse(top, k)
    requires forall i | 0 <= i < n - k :: Generates(parity[i], k + i, k)
    ensures Codeword(Upto(n), pieces + extra, k, len)
  {
    hide Dot, Eval, TopInverse, OnCurve;
    var rows := pieces + extra;
    forall b | 0 <= b < len ensures OnCurve(Upto(n), rows, b, k) {
      var d := Column(pieces, b);
      var c := Through(top, k, d);
      forall i | 0 <= i < n ensures Eval(c, i) == rows[i][b] {
        if i < k {
          assert Heads(c, k)[i] == d[i];
        } else {
          assert Generates(parity[i - k], k + (i - k), k);
        }
      }
      Curve(Upto(n), rows, b, k, c);
    }
  }

  lemma {:induction false} Curve(points: seq<nat>, rows: seq<Vec>, b: nat, k: nat, c: Vec)
    requires |c| == k && forall i | 0 <= i < |rows| :: b < |rows[i]|
    requires Passes(c, points, Column(rows, b))
    ensures OnCurve(points, rows, b, k)
  {}

  /** `encode`, the shard bytes: refused exactly on bad parameters. */
  method EncodeShards(data: Vec, k: nat, n: nat) returns (r: Result<seq<Vec>>)
    ensures r.Ok? <==> ParametersOk(k, n)
    ensures r.Ok? ==> Encodes(data, k, n, r.value)
    ensures r.Err? ==> r.error == Parameters
  {
    hide Dot, TopInverse, Generates, Codeword, Combined;
    if k == 0 || n < k || n > MAX_SHARDS {
      return Err(Parameters);
    }
    var len := ShardLen(|data|, k);
    var pieces := SplitPieces(data, k, len);
    var t := BuildTables();
    var parity, top := ParityCoefficients(t, k, n);
    var extra := CombineAll(t, parity, pieces, len);
    ParityCompletes(top, k, n, len, parity, pieces, extra);
    assert |extra| == n - k by { CombinedLength(parity, pieces, len, extra); }
    r := Ok(pieces + extra);
  }

  lemma {:induction false} CombinedLength(coeffs: Mat, rows: seq<Vec>, len: nat, out: seq<Vec>)
    requires Combined(coeffs, rows, len, out)
    ensures |out| == |coeffs|
  {}

  // ---- reconstruction ----

  function Indices(shards: seq<Shard>): (v: seq<nat>)
    ensures |v| == |shards| && forall i | 0 <= i < |shards| :: v[i] == shards[i].index
  {
    seq(|shards|, i requires 0 <= i < |shards| => shards[i].index)
  }

  function Rows(shards: seq<Shard>): (v: seq<Vec>)
    ensures |v| == |shards| && forall i | 0 <= i < |shards| :: v[i] == shards[i].bytes
  {
    seq(|shards|, i requires 0 <= i < |shards| => shards[i].bytes)
  }

  /** Shard `i` names a fresh index under n. */
  predicate InSet(n: nat, shards: seq<Shard>, i: nat)
    requires i < |shards|
  {
    shards[i].index < n && forall j | 0 <= j < i :: shards[j].index != shards[i].index
  }

  predicate Usable(n: nat, len: nat, shards: seq<Shard>) {
    forall i | 0 <= i < |shards| :: InSet(n, shards, i) && |shards[i].bytes| == len
  }

  /** The first fault met while taking k shards in order. */
  ghost predicate FaultAt(k: nat, n: nat, len: nat, shards: seq<Shard>, i: nat, e: Error) {
    && i < k && i <= |shards| && Usable(n, len, shards[..i])
    && (i == |shards| ==> e == ShardSet)
    && (i < |shards| && !InSet(n, shards, i) ==> e == ShardSet)
    && (i < |shards| && InSet(n, shards, i) ==> |shards[i].bytes| != len && e == ShardLength)
  }

  /** `pieces` continue the given rows to the points 0 to k-1. */
  ghost predicate Decodes(shards: seq<Shard>, k: nat, len: nat, pieces: seq<Vec>) {
    |pieces| == k && Codeword(Indices(shards) + Upto(k), Rows(shards) + pieces, k, len)
  }

  /** `pieces` computed with the inverse of the decode matrix lie on the shards' curve. */
  lemma {:induction false} PiecesDecode(top: Mat, m: Mat, inverse: Mat, k: nat, len: nat, shards: seq<Shard>, pieces: seq<Vec>)
    requires |shards| == k && k <= 256 && PointsOk(Indices(shards))
    requires Matrix.Square(inverse, k) && Matrix.Square(m, k) && Combined(inverse, Rows(shards), len, pieces)
    requires TopInverse(top, k) && Inverse(m, inverse, k)
    requires forall j | 0 <= j < k :: Generates(m[j], Indices(shards)[j], k)
    ensures Decodes(shards, k, len, pieces)
  {
    hide Dot, TopInverse, Inverse, Generates, OnCurve;
    forall b | 0 <= b < len ensures OnCurve(Indices(shards) + Upto(k), Rows(shards) + pieces, b, k) {
      var y, x := Column(Rows(shards), b), Column(pieces, b);
      assert Apply(inverse, y) == x;
      var c := ByteDecodes(top, m, inverse, k, Indices(shards), x, y);
      assert Column(Rows(shards) + pieces, b) == y + x;
      Curve(Indices(shards) + Upto(k), Rows(shards) + pieces, b, k, c);
    }
  }

  /** One byte position: the polynomial through the shards' bytes `y` starts with `x`. */
  lemma {:induction false} ByteDecodes(top: Mat, m: Mat, inverse: Mat, k: nat, indices: seq<nat>, x: Vec, y: Vec) returns (c: Vec)
    requires |indices| == k && k <= 256 && PointsOk(indices)
    requires TopInverse(top, k) && Matrix.Square(m, k) && Inverse(m, inverse, k)
    requires forall j | 0 <= j < k :: Generates(m[j], indices[j], k)
    requires |x| == |y| == k && Apply(inverse, y) == x
    ensures |c| == k && Passes(c, indices + Upto(k), y + x)
  {
    hide Dot, Eval, TopInverse;
    c := Through(top, k, x);
    assert Apply(m, x) == y;
    forall j | 0 <= j < k ensures Eval(c, indices[j]) == y[j] {
      assert Generates(m[j], indices[j], k);
      assert Apply(m, x)[j] == Dot(m[j], x);
    }
    forall i | 0 <= i < k ensures Eval(c, i) == x[i] {
      assert Heads(c, k)[i] == x[i];
    }
  }

  method Decode(shards: seq<Shard>, k: nat, len: nat) returns (pieces: seq<Vec>)
    requires |shards| == k && k <= 256 && PointsOk(Indices(shards)) && Even(Rows(shards), len)
    ensures Decodes(shards, k, len, pieces)
  {
    hide Dot, TopInverse, Generates, Inverse, TrivialKernel, Combined, Decodes;
    var t := BuildTables();
    var m, top := DecodeMatrix(t, Indices(shards), k);
    GeneratorRegular(m, Indices(shards), top, k);
    var inverse := Invert(t, m, k);
    InverseSquare(m, inverse.value, k);
    pieces := CombineAll(t, inverse.value, Rows(shards), len);
    PiecesDecode(top, m, inverse.value, k, len, shards, pieces);
  }

  lemma {:induction false} InverseSquare(a: Mat, p: Mat, k: nat)
    requires Inverse(a, p, k)
    ensures Matrix.Square(p, k)
  {}

  method JoinRows(rows: seq<Vec>) returns (data: Vec)
    ensures data == Join(rows)
  {
    data := [];
    var i := 0;
    while i < |rows|
      invariant 0 <= i <= |rows| && data == Join(rows[..i])
    {
      assert rows[..i + 1][..i] == rows[..i];
      data := data + rows[i];
      i := i + 1;
    }
    assert rows[..i] == rows;
  }

  /** `reconstruct`: uses the first k shards; fails exactly when they are not k usable ones. */
  method Reconstruct(k: nat, n: nat, len: nat, dataLen: nat, shards: seq<Shard>) returns (r: Result<Vec>)
    ensures r.Ok? <==> ParametersOk(k, n) && |shards| >= k && Usable(n, len, shards[..k])
    ensures r.Ok? ==> exists pieces :: Decodes(shards[..k], k, len, pieces) && r.value == Truncate(Join(pieces), dataLen)
    ensures r.Err? && !ParametersOk(k, n) ==> r.error == Parameters
    ensures r.Err? && ParametersOk(k, n) ==> exists i :: FaultAt(k, n, len, shards, i, r.error)
  {
    hide Decodes;
    if k == 0 || n < k || n > MAX_SHARDS {
      return Err(Parameters);
    }
    var taken: seq<Shard> := [];
    var i := 0;
    while i < |shards| && |taken| < k
      invariant 0 <= i <= |shards| && i <= k && taken == shards[..i]
      invariant Usable(n, len, shards[..i])
    {
      if shards[i].index >= n || shards[i].index in Indices(taken) {
        assert FaultAt(k, n, len, shards, i, ShardSet);
        assert |shards| >= k ==> !InSet(n, shards[..k], i);
        return Err(ShardSet);
      }
      if |shards[i].bytes| != len {
        assert FaultAt(k, n, len, shards, i, ShardLength);
        assert |shards| >= k ==> shards[..k][i] == shards[i];
        return Err(ShardLength);
      }
      taken := taken + [shards[i]];
      i := i + 1;
    }
    if |taken| < k {
      assert FaultAt(k, n, len, shards, i, ShardSet);
      return Err(ShardSet);
    }
    UsablePoints(n, len, taken);
    var pieces := Decode(taken, k, len);
    var data := JoinRows(pieces);
    r := Ok(Truncate(data, dataLen));
  }

  lemma {:induction false} UsablePoints(n: nat, len: nat, shards: seq<Shard>)
    requires n <= 256 && Usable(n, len, shards)
    ensures PointsOk(Indices(shards)) && Even(Rows(shards), len)
  {
    var v := Indices(shards);
    forall i, j | 0 <= i < j < |v| ensures v[i] != v[j] {
      assert InSet(n, shards, j);
    }
    forall i | 0 <= i < |v| ensures v[i] < 256 {
      assert InSet(n, shards, i);
    }
  }

  // ---- any k of n ----

  /** The shards are taken from the rows of one codeword. */
  ghost predicate From(shards: seq<Shard>, rows: seq<Vec>) {
    forall j | 0 <= j < |shards| :: shards[j].index < |rows| && shards[j].bytes == rows[shards[j].index]
  }

  /** Decoding shards of a codeword gives back its first k rows. */
  lemma {:induction false} DecodeIsHead(k: nat, n: nat, len: nat, rows: seq<Vec>, shards: seq<Shard>, pieces: seq<Vec>)
    requires ParametersOk(k, n) && |rows| == n && Codeword(Upto(n), rows, k, len)
    requires |shards| == k && DistinctPoints(Indices(shards)) && From(shards, rows)
    requires Decodes(shards, k, len, pieces)
    ensures pieces == rows[..k]
  {
    hide Eval;
    forall b, i | 0 <= b < len && 0 <= i < k ensures b < |pieces[i]| && pieces[i][b] == rows[i][b] {
      DecodeByte(k, n, len, rows, shards, pieces, b, i);
    }
    forall i | 0 <= i < k ensures pieces[i] == rows[i] {
      assert (Rows(shards) + pieces)[k + i] == pieces[i];
    }
  }

  lemma {:induction false} DecodeByte(k: nat, n: nat, len: nat, rows: seq<Vec>, shards: seq<Shard>, pieces: seq<Vec>, b: nat, i: nat)
    requires ParametersOk(k, n) && |rows| == n && Codeword(Upto(n), rows, k, len)
    requires |shards| == k && DistinctPoints(Indices(shards)) && From(shards, rows)
    requires Decodes(shards, k, len, pieces) && b < len && i < k
    ensures b < |pieces[i]| && pieces[i][b] == rows[i][b]
  {
    hide Eval;
    var points, all := Indices(shards) + Upto(k), Rows(shards) + pieces;
    assert all[k + i] == pieces[i] && points[k + i] == i;
    assert OnCurve(Upto(n), rows, b, k) && OnCurve(points, all, b, k);
    var c: Vec :| |c| == k && Passes(c, Upto(n), Column(rows, b));
    var d: Vec :| |d| == k && Passes(d, points, Column(all, b));
    forall j | 0 <= j < k ensures shards[j].index < 256 && Eval(c, shards[j].index) == Eval(d, shards[j].index) {
      assert points[j] == shards[j].index && all[j] == shards[j].bytes;
      assert Upto(n)[shards[j].index] == shards[j].index;
    }
    Interpolation(c, d, Indices(shards));
    assert Upto(n)[i] == i;
  }

  /** Decoding has one result. */
  lemma {:induction false} DecodeUnique(shards: seq<Shard>, k: nat, len: nat, p: seq<Vec>, q: seq<Vec>)
    requires |shards| == k && PointsOk(Indices(shards)) && Decodes(shards, k, len, p) && Decodes(shards, k, len, q)
    ensures p == q
  {
    hide Eval;
    forall i, b | 0 <= i < k && 0 <= b < len
      ensures |p[i]| == |q[i]| == len && p[i][b] == q[i][b]
    {
      DecodeUniqueByte(shards, k, len, p, q, b, i);
    }
    forall i | 0 <= i < k ensures p[i] == q[i] {
      assert (Rows(shards) + p)[k + i] == p[i] && (Rows(shards) + q)[k + i] == q[i];
    }
  }

  lemma {:induction false} DecodeUniqueByte(shards: seq<Shard>, k: nat, len: nat, p: seq<Vec>, q: seq<Vec>, b: nat, i: nat)
    requires |shards| == k && PointsOk(Indices(shards)) && Decodes(shards, k, len, p) && Decodes(shards, k, len, q)
    requires b < len && i < k
    ensures |p[i]| == |q[i]| == len && p[i][b] == q[i][b]
  {
    hide Eval;
    var points, all, all' := Indices(shards) + Upto(k), Rows(shards) + p, Rows(shards) + q;
    assert all[k + i] == p[i] && all'[k + i] == q[i] && points[k + i] == i;
    assert OnCurve(points, all, b, k) && OnCurve(points, all', b, k);
    var c: Vec :| |c| == k && Passes(c, points, Column(all, b));
    var d: Vec :| |d| == k && Passes(d, points, Column(all', b));
    forall j | 0 <= j < k ensures Eval(c, Indices(shards)[j]) == Eval(d, Indices(shards)[j]) {
      assert points[j] == Indices(shards)[j] && all[j] == all'[j];
    }
    Interpolation(c, d, Indices(shards));
  }

  /** Any k distinct shards of an encoding decode to the data. */
  lemma {:induction false} AnyKOfN(data: Vec, k: nat, n: nat, rows: seq<Vec>, shards: seq<Shard>, pieces: seq<Vec>)
    requires Encodes(data, k, n, rows)
    requires |shards| == k && DistinctPoints(Indices(shards)) && From(shards, rows)
    requires Decodes(shards, k, ShardLen(|data|, k), pieces)
    ensures Truncate(Join(pieces), |data|) == data
  {
    DecodeIsHead(k, n, ShardLen(|data|, k), rows, shards, pieces);
    PiecesJoin(data, k, pieces);
  }

  /** `encode` followed by `reconstruct` on the shards at any k distinct chosen indices. */
  method RoundTrip(data: Vec, k: nat, n: nat, chosen: seq<nat>) returns (r: Result<Vec>)
    requires ParametersOk(k, n) && |chosen| == k && DistinctPoints(chosen)
    requires forall j | 0 <= j < k :: chosen[j] < n
    ensures r == Ok(data)
  {
    hide Codeword, Decodes;
    var coded := EncodeShards(data, k, n);
    var rows := coded.value;
    var shards := seq(k, j requires 0 <= j < k => Shard(chosen[j], rows[chosen[j]]));
    var len := ShardLen(|data|, k);
    assert shards[..k] == shards;
    assert Even(rows, len) by { CodewordEven(Upto(n), rows, k, len); }
    forall j | 0 <= j < k ensures InSet(n, shards, j) && |shards[j].bytes| == len {}
    r := Reconstruct(k, n, len, |data|, shards);
    ghost var pieces :| Decodes(shards[..k], k, len, pieces) && r.value == Truncate(Join(pieces), |data|);
    AnyKOfN(data, k, n, rows, shards, pieces);
  }

  lemma {:induction false} CodewordEven(points: seq<nat>, rows: seq<Vec>, k: nat, len: nat)
    requires Codeword(points, rows, k, len)
    ensures Even(rows, len)
  {}
}
