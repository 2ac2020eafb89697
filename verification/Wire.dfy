/** The wire codec: the formats messages are composed from, and one theorem for all of them —
    decoding undoes encoding, and accepted bytes are exactly an encoding. */
module Wire {
  import opened Field
  import opened Hashing
  import opened Wrappers

  /** Field formats, as the encoder's and decoder's calls compose them. */
  datatype Fmt =
    | Num(width: nat)                                   // little-endian integer
    | Raw(len: nat)                                     // bytes one by one
    | Const(byte: Byte)                                 // a fixed tag
    | Blob(lo: nat, hi: nat)                            // length-prefixed, length in bounds
    | Text(hi: nat)                                     // length-prefixed UTF-8
    | ZeroOr(len: nat)                                  // tag 0 and zeros, or tag 1 and bytes
    | Opt(inner: Fmt)                                   // tag 0, or tag 1 and a value
    | Struct(fields: seq<Fmt>)
    | List(elem: Fmt, min: nat, cap: nat, sorted: bool) // count, capacity check, elements
    | Wrapped                                           // a transaction wrapper

  datatype Val =
    | N(n: nat)
    | B(bytes: Bytes)
    | Absent
    | Present(v: Val)
    | L(items: seq<Val>)
    | W(id: nat)

  /** What the formats leave to other crates: the wrapper codec and the UTF-8 test. */
  datatype Env = Env(enc: nat -> Bytes, dec: Bytes -> Option<(nat, Bytes)>, utf8: Bytes -> bool)

  const MIN_WRAPPER: nat := 65

  /** The wrapper codec is two-way and no wrapper is shorter than the declared minimum. */
  ghost predicate WrapperTwoWay(env: Env) {
    && (forall w: nat, r: Bytes :: env.dec(env.enc(w) + r) == Some((w, r)))
    && (forall b: Bytes :: env.dec(b).Some? ==> b == env.enc(env.dec(b).value.0) + env.dec(b).value.1)
    && (forall w: nat :: |env.enc(w)| >= MIN_WRAPPER)
  }

  // ---- integers ----

  function FromLittleEndian(s: Bytes): nat {
    if s == [] then 0
    else
      var low: nat := s[0];
      low + 256 * FromLittleEndian(s[1..])
  }

  lemma {:induction false} LittleEndianBack(x: nat, n: nat)
    requires x < Power256(n)
    ensures FromLittleEndian(LittleEndian(x, n)) == x
  {
    if n > 0 {
      LittleEndianBack(x / 256, n - 1);
      assert LittleEndian(x, n)[1..] == LittleEndian(x / 256, n - 1);
    }
  }

  lemma {:induction false} LittleEndianOf(s: Bytes)
    ensures FromLittleEndian(s) < Power256(|s|) && LittleEndian(FromLittleEndian(s), |s|) == s
  {
    if s != [] {
      LittleEndianOf(s[1..]);
      var x := FromLittleEndian(s);
      assert x % 256 == s[0] && x / 256 == FromLittleEndian(s[1..]);
      assert s == [s[0]] + s[1..];
    }
  }

  // ---- encoding ----

  /** The key a sorted list is ordered by: the first field. */
  function KeyOf(v: Val): nat {
    if v.L? && v.items != [] && v.items[0].N? then v.items[0].n else 0
  }

  predicate Ascending(items: seq<Val>) {
    forall i | 0 <= i < |items| - 1 :: KeyOf(items[i]) < KeyOf(items[i + 1])
  }

  /** The values a format carries. */
  predicate Fits(env: Env, f: Fmt, v: Val)
    decreases f, 0
  {
    match f
    case Num(width) => v.N? && v.n < Power256(width)
    case Raw(len) => v.B? && |v.bytes| == len
    case Const(byte) => v == Absent
    case Blob(lo, hi) => v.B? && lo <= |v.bytes| <= hi && |v.bytes| <= U64_MAX
    case Text(hi) => v.B? && |v.bytes| <= hi && |v.bytes| <= U64_MAX && env.utf8(v.bytes)
    case ZeroOr(len) => v == Absent || (v.Present? && v.v.B? && |v.v.bytes| == len)
    case Opt(inner) => v == Absent || (v.Present? && Fits(env, inner, v.v))
    case Struct(fields) => v.L? && FitAll(env, fields, v.items)
    case List(elem, min, cap, sorted) =>
      v.L? && |v.items| <= cap && |v.items| <= U64_MAX && (sorted ==> Ascending(v.items)) && FitEach(env, elem, v.items)
    case Wrapped => v.W?
  }

  predicate FitAll(env: Env, fields: seq<Fmt>, items: seq<Val>)
    decreases fields, 2
  {
    if fields == [] then items == []
    else items != [] && Fits(env, fields[0], items[0]) && FitAll(env, fields[1..], items[1..])
  }

  predicate FitEach(env: Env, elem: Fmt, items: seq<Val>)
    decreases elem, 1, |items|
  {
    items == [] || (Fits(env, elem, items[0]) && FitEach(env, elem, items[1..]))
  }

  function Enc(env: Env, f: Fmt, v: Val): Bytes
    decreases f, 0
  {
    match f
    case Num(width) => if v.N? then LittleEndian(v.n, width) else []
    case Raw(len) => if v.B? then v.bytes else []
    case Const(byte) => [byte]
    case Blob(lo, hi) => if v.B? then LittleEndian(|v.bytes|, 8) + v.bytes else []
    case Text(hi) => if v.B? then LittleEndian(|v.bytes|, 8) + v.bytes else []
    case ZeroOr(len) => if v.Present? && v.v.B? then [1] + v.v.bytes else [0] + Zeros(len)
    case Opt(inner) => if v.Present? then [1] + Enc(env, inner, v.v) else [0]
    case Struct(fields) => if v.L? then EncAll(env, fields, v.items) else []
    case List(elem, min, cap, sorted) => if v.L? then LittleEndian(|v.items|, 8) + EncEach(env, elem, v.items) else []
    case Wrapped => if v.W? then env.enc(v.id) else []
  }

  function EncAll(env: Env, fields: seq<Fmt>, items: seq<Val>): Bytes
    decreases fields, 2
  {
    if fields == [] || items == [] then [] else Enc(env, fields[0], items[0]) + EncAll(env, fields[1..], items[1..])
  }

  function EncEach(env: Env, elem: Fmt, items: seq<Val>): Bytes
    decreases elem, 1, |items|
  {
    if items == [] then [] else Enc(env, elem, items[0]) + EncEach(env, elem, items[1..])
  }

  // ---- decoding ----

  function Take(b: Bytes, n: nat): Option<(Bytes, Bytes)> {
    if n <= |b| then Some((b[..n], b[n..])) else None
  }

  function DecBlob(b: Bytes): Option<(Bytes, Bytes)> {
    if |b| < 8 then None
    else
      var length := FromLittleEndian(b[..8]);
      Take(b[8..], length)
  }

  /** `bounded_capacity`: the count must leave room for its elements at their least size. */
  predicate Capacity(remaining: nat, count: nat, min: nat) {
    min == 0 || count <= remaining / min
  }

  function Dec(env: Env, f: Fmt, b: Bytes): Option<(Val, Bytes)>
    decreases f, 0
  {
    match f
    case Num(width) =>
      var t := Take(b, width);
      if t.None? then None else Some((N(FromLittleEndian(t.value.0)), t.value.1))
    case Raw(len) =>
      var t := Take(b, len);
      if t.None? then None else Some((B(t.value.0), t.value.1))
    case Const(byte) => if b == [] || b[0] != byte then None else Some((Absent, b[1..]))
    case Blob(lo, hi) =>
      var t := DecBlob(b);
      if t.None? || !(lo <= |t.value.0| <= hi) then None else Some((B(t.value.0), t.value.1))
    case Text(hi) =>
      var t := DecBlob(b);
      if t.None? || |t.value.0| > hi || !env.utf8(t.value.0) then None else Some((B(t.value.0), t.value.1))
    case ZeroOr(len) =>
      if b == [] then None
      else
        var t := Take(b[1..], len);
        if t.None? then None
        else if b[0] == 1 then Some((Present(B(t.value.0)), t.value.1))
        else if b[0] == 0 && t.value.0 == Zeros(len) then Some((Absent, t.value.1))
        else None
    case Opt(inner) =>
      if b == [] then None
      else if b[0] == 0 then Some((Absent, b[1..]))
      else if b[0] == 1 then
        var t := Dec(env, inner, b[1..]);
        if t.None? then None else Some((Present(t.value.0), t.value.1))
      else None
    case Struct(fields) =>
      var t := DecAll(env, fields, b);
      if t.None? then None else Some((L(t.value.0), t.value.1))
    case List(elem, min, cap, sorted) =>
      if |b| < 8 then None
      else
        var count := FromLittleEndian(b[..8]);
        if count > cap || !Capacity(|b| - 8, count, min) then None
        else
          var t := DecEach(env, elem, b[8..], count);
          if t.None? || (sorted && !Ascending(t.value.0)) then None else Some((L(t.value.0), t.value.1))
    case Wrapped =>
      var t := env.dec(b);
      if t.None? then None else Some((W(t.value.0), t.value.1))
  }

  function DecAll(env: Env, fields: seq<Fmt>, b: Bytes): Option<(seq<Val>, Bytes)>
    decreases fields, 2
  {
    if fields == [] then Some(([], b))
    else
      var t := Dec(env, fields[0], b);
      if t.None? then None
      else
        var u := DecAll(env, fields[1..], t.value.1);
        if u.None? then None else Some(([t.value.0] + u.value.0, u.value.1))
  }

  function DecEach(env: Env, elem: Fmt, b: Bytes, count: nat): Option<(seq<Val>, Bytes)>
    decreases elem, 1, count
  {
    if count == 0 then Some(([], b))
    else
      var t := Dec(env, elem, b);
      if t.None? then None
      else
        var u := DecEach(env, elem, t.value.1, count - 1);
        if u.None? then None else Some(([t.value.0] + u.value.0, u.value.1))
  }

  // ---- least sizes ----

  /** A length no encoding of the format falls below. */
  function Least(f: Fmt): nat
    decreases f, 0
  {
    match f
    case Num(width) => width
    case Raw(len) => len
    case Const(byte) => 1
    case Blob(lo, hi) => 8 + lo
    case Text(hi) => 8
    case ZeroOr(len) => 1 + len
    case Opt(inner) => 1
    case Struct(fields) => LeastAll(fields)
    case List(elem, min, cap, sorted) => 8
    case Wrapped => MIN_WRAPPER
  }

  function LeastAll(fields: seq<Fmt>): nat
    decreases fields, 2
  {
    if fields == [] then 0 else Least(fields[0]) + LeastAll(fields[1..])
  }

  /** Every list's declared minimum is honest: no element is shorter. */
  predicate Honest(f: Fmt)
    decreases f, 0
  {
    match f
    case Opt(inner) => Honest(inner)
    case Struct(fields) => HonestAll(fields)
    case List(elem, min, cap, sorted) => min <= Least(elem) && Honest(elem)
    case _ => true
  }

  predicate HonestAll(fields: seq<Fmt>)
    decreases fields, 2
  {
    fields == [] || (Honest(fields[0]) && HonestAll(fields[1..]))
  }

  lemma {:induction false} LeastHolds(env: Env, f: Fmt, v: Val)
    requires WrapperTwoWay(env) && Fits(env, f, v)
    ensures |Enc(env, f, v)| >= Least(f)
    decreases f, 0
  {
    if f.Struct? { LeastHoldsAll(env, f.fields, v.items); }
  }

  lemma {:induction false} LeastHoldsAll(env: Env, fields: seq<Fmt>, items: seq<Val>)
    requires WrapperTwoWay(env) && FitAll(env, fields, items)
    ensures |EncAll(env, fields, items)| >= LeastAll(fields)
    decreases fields, 2
  {
    hide Enc, Least, Fits;
    if fields != [] {
      LeastHolds(env, fields[0], items[0]);
      LeastHoldsAll(env, fields[1..], items[1..]);
    }
  }

  lemma {:induction false} LeastHoldsEach(env: Env, elem: Fmt, items: seq<Val>)
    requires WrapperTwoWay(env) && FitEach(env, elem, items)
    ensures |EncEach(env, elem, items)| >= |items| * Least(elem)
    decreases |items|
  {
    hide Enc, Least, Fits;
    if items != [] {
      LeastHolds(env, elem, items[0]);
      LeastHoldsEach(env, elem, items[1..]);
      assert |items| * Least(elem) == Least(elem) + |items[1..]| * Least(elem);
    }
  }

  /** An honest count is never refused. */
  lemma {:induction false} CapacityHonest(env: Env, elem: Fmt, min: nat, items: seq<Val>, rest: nat)
    requires WrapperTwoWay(env) && FitEach(env, elem, items) && min <= Least(elem)
    ensures Capacity(|EncEach(env, elem, items)| + rest, |items|, min)
  {
    hide EncEach, Least, FitEach, WrapperTwoWay;
    LeastHoldsEach(env, elem, items);
    if min > 0 {
      var total := |EncEach(env, elem, items)| + rest;
      assert |items| * min <= |items| * Least(elem);
      Quotient(total, |items|, min);
    }
  }

  lemma {:induction false} Quotient(total: nat, count: nat, min: nat)
    requires min > 0 && count * min <= total
    ensures count <= total / min
  {
    var q := total / min;
    assert total == q * min + total % min;
    assert count > q ==> count * min >= (q + 1) * min;
    assert (q + 1) * min == q * min + min;
  }

  // ---- decoding undoes encoding ----

  lemma {:induction false} TakeBack(a: Bytes, rest: Bytes)
    ensures Take(a + rest, |a|) == Some((a, rest))
  {
    assert (a + rest)[..|a|] == a && (a + rest)[|a|..] == rest;
  }

  lemma {:induction false} U64Bound()
    ensures Power256(8) == U64_MAX + 1
  {
    assert Power256(2) == 0x1_0000;
    assert Power256(4) == 0x1_0000_0000;
    assert Power256(6) == 0x1_0000_0000_0000;
    assert Power256(8) == 0x1_0000_0000_0000_0000;
  }

  /** A count or length written first reads back, with the rest after it. */
  lemma {:induction false} PrefixBack(n: nat, rest: Bytes)
    requires n <= U64_MAX
    ensures var b := LittleEndian(n, 8) + rest;
      |b| >= 8 && FromLittleEndian(b[..8]) == n && b[8..] == rest
  {
    hide LittleEndian, FromLittleEndian;
    U64Bound();
    LittleEndianBack(n, 8);
    var b := LittleEndian(n, 8) + rest;
    assert b[..8] == LittleEndian(n, 8) && b[8..] == rest;
  }

  lemma {:induction false} BlobBack(bytes: Bytes, rest: Bytes)
    requires |bytes| <= U64_MAX
    ensures DecBlob(LittleEndian(|bytes|, 8) + bytes + rest) == Some((bytes, rest))
  {
    hide LittleEndian, FromLittleEndian;
    PrefixBack(|bytes|, bytes + rest);
    TakeBack(bytes, rest);
    assert LittleEndian(|bytes|, 8) + bytes + rest == LittleEndian(|bytes|, 8) + (bytes + rest);
  }

  /** Every value a format carries decodes back to itself, leaving what follows. */
  lemma {:induction false} DecodesBack(env: Env, f: Fmt, v: Val, rest: Bytes)
    requires WrapperTwoWay(env) && Honest(f) && Fits(env, f, v)
    ensures Dec(env, f, Enc(env, f, v) + rest) == Some((v, rest))
    decreases f, 0
  {
    hide LittleEndian, FromLittleEndian, DecBlob, FitAll, FitEach, DecAll, DecEach, EncAll, EncEach, HonestAll, Least;
    match f {
      case Num(width) =>
        LittleEndianBack(v.n, width);
        TakeBack(LittleEndian(v.n, width), rest);
      case Raw(len) => TakeBack(v.bytes, rest);
      case Const(byte) => assert ([byte] + rest)[1..] == rest;
      case Blob(lo, hi) => BlobBack(v.bytes, rest);
      case Text(hi) => BlobBack(v.bytes, rest);
      case ZeroOr(len) => ZeroOrBack(env, len, v, rest);
      case Opt(inner) =>
        if v.Present? {
          DecodesBack(env, inner, v.v, rest);
          assert ([1] + Enc(env, inner, v.v) + rest)[1..] == Enc(env, inner, v.v) + rest;
        } else {
          assert ([0] + rest)[1..] == rest;
        }
      case Struct(fields) => DecodesAll(env, fields, v.items, rest);
      case List(elem, min, cap, sorted) => ListBack(env, elem, min, cap, sorted, v.items, rest);
      case Wrapped =>
    }
  }

  lemma {:induction false} ZeroOrBack(env: Env, len: nat, v: Val, rest: Bytes)
    requires Fits(env, ZeroOr(len), v)
    ensures Dec(env, ZeroOr(len), Enc(env, ZeroOr(len), v) + rest) == Some((v, rest))
  {
    if v.Present? {
      TakeBack(v.v.bytes, rest);
      assert ([1] + v.v.bytes + rest)[1..] == v.v.bytes + rest;
    } else {
      TakeBack(Zeros(len), rest);
      assert ([0] + Zeros(len) + rest)[1..] == Zeros(len) + rest;
    }
  }

  lemma {:induction false} ListBack(env: Env, elem: Fmt, min: nat, cap: nat, sorted: bool, items: seq<Val>, rest: Bytes)
    requires WrapperTwoWay(env) && Honest(elem) && min <= Least(elem)
    requires Fits(env, List(elem, min, cap, sorted), L(items))
    ensures Dec(env, List(elem, min, cap, sorted), Enc(env, List(elem, min, cap, sorted), L(items)) + rest) == Some((L(items), rest))
    decreases elem, 2
  {
    hide LittleEndian, FromLittleEndian, FitEach, DecEach, EncEach, Least, WrapperTwoWay, Honest, Capacity, Ascending;
    var body := EncEach(env, elem, items);
    PrefixBack(|items|, body + rest);
    assert LittleEndian(|items|, 8) + body + rest == LittleEndian(|items|, 8) + (body + rest);
    CapacityHonest(env, elem, min, items, |rest|);
    DecodesEach(env, elem, items, rest);
  }

  lemma {:induction false} DecodesAll(env: Env, fields: seq<Fmt>, items: seq<Val>, rest: Bytes)
    requires WrapperTwoWay(env) && HonestAll(fields) && FitAll(env, fields, items)
    ensures DecAll(env, fields, EncAll(env, fields, items) + rest) == Some((items, rest))
    decreases fields, 2
  {
    hide Enc, Dec, Fits, Honest, WrapperTwoWay;
    if fields == [] {
      assert EncAll(env, fields, items) + rest == rest;
    } else {
      var head, tail := Enc(env, fields[0], items[0]), EncAll(env, fields[1..], items[1..]);
      assert EncAll(env, fields, items) + rest == head + (tail + rest);
      DecodesBack(env, fields[0], items[0], tail + rest);
      DecodesAll(env, fields[1..], items[1..], rest);
      assert items == [items[0]] + items[1..];
    }
  }

  lemma {:induction false} DecodesEach(env: Env, elem: Fmt, items: seq<Val>, rest: Bytes)
    requires WrapperTwoWay(env) && Honest(elem) && FitEach(env, elem, items)
    ensures DecEach(env, elem, EncEach(env, elem, items) + rest, |items|) == Some((items, rest))
    decreases elem, 1, |items|
  {
    hide Enc, Dec, Fits, Honest, WrapperTwoWay;
    if items == [] {
      assert EncEach(env, elem, items) + rest == rest;
    } else {
      var head, tail := Enc(env, elem, items[0]), EncEach(env, elem, items[1..]);
      assert EncEach(env, elem, items) + rest == head + (tail + rest);
      DecodesBack(env, elem, items[0], tail + rest);
      DecodesEach(env, elem, items[1..], rest);
      assert items == [items[0]] + items[1..];
    }
  }

  // ---- accepted bytes are an encoding ----

  lemma {:induction false} PrefixOf(b: Bytes)
    requires |b| >= 8
    ensures FromLittleEndian(b[..8]) <= U64_MAX && b == LittleEndian(FromLittleEndian(b[..8]), 8) + b[8..]
  {
    hide LittleEndian, FromLittleEndian;
    U64Bound();
    LittleEndianOf(b[..8]);
  }

  lemma {:induction false} BlobOf(b: Bytes)
    requires DecBlob(b).Some?
    ensures var (bytes, rest) := DecBlob(b).value;
      |bytes| <= U64_MAX && b == LittleEndian(|bytes|, 8) + bytes + rest
  {
    hide LittleEndian, FromLittleEndian;
    PrefixOf(b);
    var (bytes, rest) := DecBlob(b).value;
    assert b[8..] == bytes + rest;
    assert LittleEndian(|bytes|, 8) + bytes + rest == LittleEndian(|bytes|, 8) + (bytes + rest);
  }

  /** Whatever a decoder accepts is the encoding of what it returns, followed by what it left. */
  lemma {:induction false} AcceptedIsEncoding(env: Env, f: Fmt, b: Bytes)
    requires WrapperTwoWay(env) && Dec(env, f, b).Some?
    ensures var (v, rest) := Dec(env, f, b).value;
      Fits(env, f, v) && b == Enc(env, f, v) + rest
    decreases f, 0
  {
    hide LittleEndian, FromLittleEndian, DecBlob, FitAll, FitEach, DecAll, DecEach, EncAll, EncEach, Ascending, Capacity;
    match f {
      case Num(width) => LittleEndianOf(b[..width]);
      case Raw(len) =>
      case Const(byte) =>
      case Blob(lo, hi) => BlobOf(b);
      case Text(hi) => BlobOf(b);
      case ZeroOr(len) => ZeroOrOf(env, len, b);
      case Opt(inner) =>
        if b[0] == 1 {
          AcceptedIsEncoding(env, inner, b[1..]);
          var (v, rest) := Dec(env, inner, b[1..]).value;
          assert b == [1] + b[1..];
          assert [1] + (Enc(env, inner, v) + rest) == [1] + Enc(env, inner, v) + rest;
        }
      case Struct(fields) => AcceptedAll(env, fields, b);
      case List(elem, min, cap, sorted) => ListOf(env, elem, min, cap, sorted, b);
      case Wrapped =>
    }
  }

  lemma {:induction false} ZeroOrOf(env: Env, len: nat, b: Bytes)
    requires Dec(env, ZeroOr(len), b).Some?
    ensures var (v, rest) := Dec(env, ZeroOr(len), b).value;
      Fits(env, ZeroOr(len), v) && b == Enc(env, ZeroOr(len), v) + rest
  {
    var t := Take(b[1..], len).value;
    assert b == [b[0]] + b[1..] && b[1..] == t.0 + t.1;
    assert [b[0]] + (t.0 + t.1) == [b[0]] + t.0 + t.1;
  }

  lemma {:induction false} ListOf(env: Env, elem: Fmt, min: nat, cap: nat, sorted: bool, b: Bytes)
    requires WrapperTwoWay(env) && Dec(env, List(elem, min, cap, sorted), b).Some?
    ensures var (v, rest) := Dec(env, List(elem, min, cap, sorted), b).value;
      Fits(env, List(elem, min, cap, sorted), v) && b == Enc(env, List(elem, min, cap, sorted), v) + rest
    decreases elem, 2
  {
    hide LittleEndian, FromLittleEndian, FitEach, DecEach, EncEach, WrapperTwoWay, Capacity, Ascending;
    PrefixOf(b);
    var count := FromLittleEndian(b[..8]);
    AcceptedEach(env, elem, b[8..], count);
    var (items, rest) := DecEach(env, elem, b[8..], count).value;
    assert LittleEndian(count, 8) + (EncEach(env, elem, items) + rest) == LittleEndian(count, 8) + EncEach(env, elem, items) + rest;
  }

  lemma {:induction false} AcceptedAll(env: Env, fields: seq<Fmt>, b: Bytes)
    requires WrapperTwoWay(env) && DecAll(env, fields, b).Some?
    ensures var (items, rest) := DecAll(env, fields, b).value;
      FitAll(env, fields, items) && b == EncAll(env, fields, items) + rest
    decreases fields, 2
  {
    hide Enc, Dec, Fits, WrapperTwoWay;
    if fields != [] {
      AcceptedIsEncoding(env, fields[0], b);
      var (v, left) := Dec(env, fields[0], b).value;
      AcceptedAll(env, fields[1..], left);
      var (tail, rest) := DecAll(env, fields[1..], left).value;
      var items := [v] + tail;
      assert items[1..] == tail;
      assert Enc(env, fields[0], v) + (EncAll(env, fields[1..], tail) + rest) == EncAll(env, fields, items) + rest;
    }
  }

  lemma {:induction false} AcceptedEach(env: Env, elem: Fmt, b: Bytes, count: nat)
    requires WrapperTwoWay(env) && DecEach(env, elem, b, count).Some?
    ensures var (items, rest) := DecEach(env, elem, b, count).value;
      |items| == count && FitEach(env, elem, items) && b == EncEach(env, elem, items) + rest
    decreases elem, 1, count
  {
    hide Enc, Dec, Fits, WrapperTwoWay;
    if count > 0 {
      AcceptedIsEncoding(env, elem, b);
      var (v, left) := Dec(env, elem, b).value;
      AcceptedEach(env, elem, left, count - 1);
      var (tail, rest) := DecEach(env, elem, left, count - 1).value;
      var items := [v] + tail;
      assert items[1..] == tail;
      assert Enc(env, elem, v) + (EncEach(env, elem, tail) + rest) == EncEach(env, elem, items) + rest;
    }
  }

  // ---- whole messages ----

  /** Decode, and refuse bytes after the last field. */
  function FromBytes(env: Env, f: Fmt, b: Bytes): Option<Val> {
    var t := Dec(env, f, b);
    if t.None? || t.value.1 != [] then None else Some(t.value.0)
  }

  /** A message decodes to a value exactly when it is that value's encoding. */
  lemma {:induction false} TwoWay(env: Env, f: Fmt, b: Bytes, v: Val)
    requires WrapperTwoWay(env) && Honest(f)
    ensures FromBytes(env, f, b) == Some(v) <==> Fits(env, f, v) && b == Enc(env, f, v)
  {
    hide Enc, Dec, Fits, Honest, WrapperTwoWay;
    if Fits(env, f, v) && b == Enc(env, f, v) {
      DecodesBack(env, f, v, []);
      assert Enc(env, f, v) + [] == Enc(env, f, v);
    }
    if FromBytes(env, f, b) == Some(v) {
      AcceptedIsEncoding(env, f, b);
      assert Enc(env, f, v) + [] == Enc(env, f, v);
    }
  }

  // ---- the messages ----

  const SIGNATURE_BYTES: nat := 3309
  const PREIMAGE_BYTES: nat := 32
  const NODE_BYTES: nat := 32
  const MAX_PROPOSER: nat := 128
  const MAX_EXTRA_DATA: nat := 32
  const MAX_CREDENTIAL_SIBLINGS: nat := 64
  const MAX_COMMITTEE_REVEALS: nat := 4096
  const MIN_SIBLING: nat := 40
  const MIN_REVEAL: nat := 64
  const MIN_ATTESTATION: nat := 3526
  const MIN_VIEW_CHANGE: nat := 3561

  function Long(): Fmt { Num(8) }

  function Fixed(n: nat): Fmt { Blob(n, n) }

  function HeaderFmt(): Fmt {
    Struct([Long(), Raw(32), Raw(32), Raw(32), Raw(32), Raw(32), Text(MAX_PROPOSER), Long(), Blob(0, MAX_EXTRA_DATA)])
  }

  function MerkleStepFmt(): Fmt { Struct([Raw(32), Opt(Struct([]))]) }

  function MerkleProofFmt(): Fmt { List(MerkleStepFmt(), 0, U64_MAX, false) }

  function BlockFmt(): Fmt { Struct([Long(), Raw(32), ZeroOr(32), Long()]) }

  function CredentialFmt(): Fmt {
    Struct([Long(), Fixed(PREIMAGE_BYTES), List(Fixed(NODE_BYTES), MIN_SIBLING, MAX_CREDENTIAL_SIBLINGS, false)])
  }

  function AttestationFmt(): Fmt {
    Struct([Long(), Long(), Long(), Long(), Fixed(32), BlockFmt(), CredentialFmt(), Fixed(SIGNATURE_BYTES)])
  }

  function RevealFmt(): Fmt { Struct([Long(), CredentialFmt()]) }

  function EnvelopeFmt(): Fmt { Struct([Long(), Long(), BlockFmt(), Fixed(32)]) }

  function AttestationsFmt(): Fmt { List(AttestationFmt(), MIN_ATTESTATION, U64_MAX, true) }

  function RevealsFmt(): Fmt { List(RevealFmt(), MIN_REVEAL, MAX_COMMITTEE_REVEALS, true) }

  function CertificateFmt(): Fmt { Struct([EnvelopeFmt(), AttestationsFmt(), RevealsFmt()]) }

  function StagedCertificateFmt(): Fmt { Struct([EnvelopeFmt(), Const(1), AttestationsFmt(), RevealsFmt()]) }

  function BodyFmt(): Fmt { List(Wrapped, MIN_WRAPPER, U64_MAX, false) }

  function LockedFmt(): Fmt { Struct([HeaderFmt(), BodyFmt()]) }

  function PolFmt(): Fmt { ZeroOr(8) }

  function ViewChangeFmt(): Fmt {
    Struct([Long(), Long(), Long(), Opt(LockedFmt()), AttestationFmt(), Opt(CertificateFmt()), PolFmt(), Fixed(32)])
  }

  function CommitmentFmt(): Fmt { Struct([Fixed(32), Long(), Long(), Long(), Long()]) }

  function CodedProposalFmt(): Fmt {
    Struct([Long(), HeaderFmt(), CommitmentFmt(), Long(), Blob(0, U64_MAX), List(Fixed(32), MIN_SIBLING, U64_MAX, false), AttestationFmt()])
  }

  function LockFmt(): Fmt { Struct([Long(), PolFmt(), Raw(32), HeaderFmt(), BodyFmt(), CertificateFmt()]) }

  function ChainBlockFmt(): Fmt { Struct([HeaderFmt(), Blob(0, U64_MAX), BodyFmt()]) }

  function JustificationFmt(): Fmt { List(ViewChangeFmt(), MIN_VIEW_CHANGE, U64_MAX, false) }

  // ---- the declared minima are honest ----

  lemma {:induction false} LeastFrom(fields: seq<Fmt>, i: nat)
    requires i <= |fields|
    ensures LeastAll(fields[i..]) == if i == |fields| then 0 else Least(fields[i]) + LeastAll(fields[i + 1..])
  {
    hide Least;
    if i < |fields| { assert fields[i..][1..] == fields[i + 1..]; }
  }

  /** The least size of a record, field by field. */
  function Sizes(fields: seq<Fmt>, i: nat): nat
    requires i <= |fields|
    decreases |fields| - i
  {
    if i == |fields| then 0 else Least(fields[i]) + Sizes(fields, i + 1)
  }

  lemma {:induction false} SizesAre(fields: seq<Fmt>, i: nat)
    requires i <= |fields|
    ensures LeastAll(fields[i..]) == Sizes(fields, i)
    decreases |fields| - i
  {
    hide Least;
    LeastFrom(fields, i);
    if i < |fields| { SizesAre(fields, i + 1); }
  }

  lemma {:induction false} LeastStruct(fields: seq<Fmt>)
    ensures Least(Struct(fields)) == Sizes(fields, 0)
  {
    SizesAre(fields, 0);
    assert fields[0..] == fields;
  }

  lemma {:induction false} SizesStep(fields: seq<Fmt>, i: nat, n: nat)
    requires i < |fields| && Least(fields[i]) == n
    ensures Sizes(fields, i) == n + Sizes(fields, i + 1)
  {
    hide Least;
  }

  lemma {:induction false} SizesFour(fields: seq<Fmt>, i: nat, a: nat, b: nat, c: nat, d: nat)
    requires i + 4 <= |fields|
    requires Least(fields[i]) == a && Least(fields[i + 1]) == b && Least(fields[i + 2]) == c && Least(fields[i + 3]) == d
    ensures Sizes(fields, i) == a + b + c + d + Sizes(fields, i + 4)
  {
    hide Least, Sizes;
    SizesStep(fields, i, a);
    SizesStep(fields, i + 1, b);
    SizesStep(fields, i + 2, c);
    SizesStep(fields, i + 3, d);
  }

  lemma {:induction false} SizesEnd(fields: seq<Fmt>)
    ensures Sizes(fields, |fields|) == 0
  {}

  /** Least sizes of the fields that hold no record. */
  lemma {:induction false} PlainLeast(n: nat, m: nat, f: Fmt)
    ensures Least(Num(n)) == n && Least(Raw(n)) == n && Least(Blob(n, m)) == 8 + n && Least(Text(n)) == 8
    ensures Least(ZeroOr(n)) == 1 + n && Least(Opt(f)) == 1 && Least(List(f, n, m, false)) == 8
  {}

  lemma {:induction false} HonestFields(fields: seq<Fmt>)
    requires forall i | 0 <= i < |fields| :: Honest(fields[i])
    ensures HonestAll(fields) && Honest(Struct(fields))
  {
    hide Honest;
    if fields != [] {
      forall i | 0 <= i < |fields[1..]| ensures Honest(fields[1..][i]) { assert fields[1..][i] == fields[i + 1]; }
      HonestFields(fields[1..]);
    }
    HonestStruct(fields);
  }

  lemma {:induction false} HonestStruct(fields: seq<Fmt>)
    ensures Honest(Struct(fields)) == HonestAll(fields)
  {}

  lemma {:induction false} BlockLeast()
    ensures Honest(BlockFmt()) && Least(BlockFmt()) == 81
  {
    var f := BlockFmt().fields;
    HonestFields(f);
    LeastStruct(f);
    assert Sizes(f, 2) == 33 + 8 by { assert Sizes(f, 3) == 8 + Sizes(f, 4); }
    assert Sizes(f, 1) == 32 + Sizes(f, 2) && Sizes(f, 0) == 8 + Sizes(f, 1);
  }

  lemma {:induction false} CredentialLeast()
    ensures Honest(CredentialFmt()) && Least(CredentialFmt()) == 56
  {
    var f := CredentialFmt().fields;
    HonestFields(f);
    LeastStruct(f);
    assert Sizes(f, 2) == 8 + Sizes(f, 3);
    assert Sizes(f, 1) == 40 + Sizes(f, 2) && Sizes(f, 0) == 8 + Sizes(f, 1);
  }

  /** Every attestation takes at least the declared 3526 bytes. */
  lemma {:induction false} AttestationLeast()
    ensures Honest(AttestationFmt()) && Least(AttestationFmt()) == MIN_ATTESTATION
  {
    hide AttestationFmt;
    AttestationHonest();
    AttestationSize();
  }

  lemma {:induction false} AttestationHonest()
    ensures Honest(AttestationFmt())
  {
    hide BlockFmt, CredentialFmt, Least, HonestAll;
    BlockLeast();
    CredentialLeast();
    HonestFields(AttestationFmt().fields);
  }

  lemma {:induction false} AttestationSize()
    ensures Least(AttestationFmt()) == MIN_ATTESTATION
  {
    hide BlockFmt, CredentialFmt, Honest, Least, Sizes, LeastAll;
    BlockLeast();
    CredentialLeast();
    PlainLeast(8, 8, Wrapped);
    PlainLeast(32, 32, Wrapped);
    PlainLeast(SIGNATURE_BYTES, SIGNATURE_BYTES, Wrapped);
    var f := AttestationFmt().fields;
    LeastStruct(f);
    SizesEnd(f);
    SizesFour(f, 4, 40, 81, 56, 3317);
    SizesFour(f, 0, 8, 8, 8, 8);
  }

  lemma {:induction false} RevealLeast()
    ensures Honest(RevealFmt()) && Least(RevealFmt()) == MIN_REVEAL
  {
    hide CredentialFmt;
    CredentialLeast();
    var f := RevealFmt().fields;
    HonestFields(f);
    LeastStruct(f);
    assert Sizes(f, 1) == 56 + Sizes(f, 2) && Sizes(f, 0) == 8 + Sizes(f, 1);
  }

  lemma {:induction false} HeaderHonest()
    ensures Honest(HeaderFmt())
  {
    HonestFields(HeaderFmt().fields);
  }

  lemma {:induction false} MerkleProofHonest()
    ensures Honest(MerkleProofFmt())
  {
    HonestFields([]);
    HonestFields(MerkleStepFmt().fields);
  }

  lemma {:induction false} LockedHonest()
    ensures Honest(LockedFmt()) && Honest(BodyFmt())
  {
    hide HeaderFmt;
    HeaderHonest();
    HonestFields(LockedFmt().fields);
  }

  lemma {:induction false} ChainBlockHonest()
    ensures Honest(ChainBlockFmt())
  {
    hide HeaderFmt, BodyFmt;
    HeaderHonest();
    LockedHonest();
    HonestFields(ChainBlockFmt().fields);
  }

  lemma {:induction false} CertificateHonest()
    ensures Honest(EnvelopeFmt()) && Honest(CertificateFmt()) && Honest(StagedCertificateFmt())
  {
    hide BlockFmt, AttestationFmt, RevealFmt;
    BlockLeast();
    AttestationLeast();
    RevealLeast();
    HonestFields(EnvelopeFmt().fields);
    hide EnvelopeFmt;
    HonestFields(CertificateFmt().fields);
    HonestFields(StagedCertificateFmt().fields);
  }

  lemma {:induction false} ViewChangeHonest()
    ensures Honest(ViewChangeFmt())
  {
    hide LockedFmt, AttestationFmt, CertificateFmt;
    LockedHonest();
    AttestationLeast();
    CertificateHonest();
    HonestFields(ViewChangeFmt().fields);
  }

  /** Every view change takes at least the declared 3561 bytes. */
  lemma {:induction false} ViewChangeLeast()
    ensures Least(ViewChangeFmt()) >= MIN_VIEW_CHANGE && Honest(JustificationFmt())
  {
    hide ViewChangeFmt;
    ViewChangeHonest();
    ViewChangeSize();
  }

  lemma {:induction false} ViewChangeSize()
    ensures Least(ViewChangeFmt()) >= MIN_VIEW_CHANGE
  {
    hide LockedFmt, AttestationFmt, CertificateFmt, Honest, Least, Sizes, LeastAll;
    AttestationSize();
    PlainLeast(8, 8, LockedFmt());
    PlainLeast(32, 32, CertificateFmt());
    var f := ViewChangeFmt().fields;
    LeastStruct(f);
    SizesEnd(f);
    SizesFour(f, 4, MIN_ATTESTATION, 1, 9, 40);
    SizesFour(f, 0, 8, 8, 8, 1);
  }

  lemma {:induction false} CommitmentHonest()
    ensures Honest(CommitmentFmt())
  {
    HonestFields(CommitmentFmt().fields);
  }

  lemma {:induction false} CodedProposalHonest()
    ensures Honest(CodedProposalFmt())
  {
    hide HeaderFmt, AttestationFmt, CommitmentFmt;
    HeaderHonest();
    AttestationLeast();
    CommitmentHonest();
    HonestFields(CodedProposalFmt().fields);
  }

  lemma {:induction false} LockHonest()
    ensures Honest(LockFmt())
  {
    hide HeaderFmt, BodyFmt, CertificateFmt, HonestAll, Least;
    HeaderHonest();
    LockedHonest();
    CertificateHonest();
    HonestFields(LockFmt().fields);
  }

  /** Every message of the wire is two-way exact. */
  lemma {:induction false} MessagesTwoWay(env: Env, f: Fmt, b: Bytes, v: Val)
    requires WrapperTwoWay(env)
    requires f in {HeaderFmt(), MerkleProofFmt(), AttestationFmt(), CredentialFmt(), StagedCertificateFmt(), CertificateFmt(),
      ViewChangeFmt(), CommitmentFmt(), CodedProposalFmt(), LockFmt(), ChainBlockFmt(), JustificationFmt()}
    ensures FromBytes(env, f, b) == Some(v) <==> Fits(env, f, v) && b == Enc(env, f, v)
  {
    hide HeaderFmt, MerkleProofFmt, AttestationFmt, CredentialFmt, StagedCertificateFmt, CertificateFmt, ViewChangeFmt, CommitmentFmt,
      CodedProposalFmt, LockFmt, ChainBlockFmt, JustificationFmt, Honest, Fits, Enc, FromBytes, WrapperTwoWay;
    HeaderHonest();
    MerkleProofHonest();
    ChainBlockHonest();
    CredentialLeast();
    AttestationLeast();
    CertificateHonest();
    ViewChangeHonest();
    ViewChangeLeast();
    CommitmentHonest();
    CodedProposalHonest();
    LockHonest();
    TwoWay(env, f, b, v);
  }

  // ---- justifications ----

  /** `justification_to_bytes`: no records, no bytes. */
  function JustificationToBytes(env: Env, records: seq<Val>): Bytes {
    if records == [] then [] else Enc(env, JustificationFmt(), L(records))
  }

  /** `justification_from_bytes`: a written count of zero is refused. */
  function JustificationFromBytes(env: Env, b: Bytes): Option<seq<Val>> {
    if b == [] then Some([])
    else
      var t := FromBytes(env, JustificationFmt(), b);
      if t.Some? && t.value.L? && t.value.items != [] then Some(t.value.items) else None
  }

  lemma {:induction false} JustificationTwoWay(env: Env, b: Bytes, records: seq<Val>)
    requires WrapperTwoWay(env)
    ensures JustificationFromBytes(env, b) == Some(records) <==>
      (records != [] ==> Fits(env, JustificationFmt(), L(records))) && b == JustificationToBytes(env, records)
  {
    hide ViewChangeFmt, Honest, FromBytes, WrapperTwoWay;
    ViewChangeLeast();
    TwoWay(env, JustificationFmt(), b, L(records));
    if b != [] && JustificationFromBytes(env, b).Some? {
      TwoWay(env, JustificationFmt(), b, FromBytes(env, JustificationFmt(), b).value);
    }
    if records != [] { assert |LittleEndian(|records|, 8)| == 8; }
  }
}
