/** Regrouping bytes into groups of another width: both sides are the digits of one number. */
module Regroup {
  import opened Arithmetic
  import opened Field
  import opened Wrappers

  type Groups = seq<Byte>

  /** The number whose digits, `w` bits each and highest first, are given. */
  function Value(digits: Groups, w: nat): nat {
    if digits == [] then 0 else Value(digits[..|digits| - 1], w) * Pow2(w) + digits[|digits| - 1]
  }

  predicate Fits(digits: Groups, w: nat) {
    forall i | 0 <= i < |digits| :: digits[i] < Pow2(w)
  }

  /** `wide` is `narrow` followed by `slack` zero bits. */
  ghost predicate Extends(narrow: Groups, n: nat, wide: Groups, w: nat, slack: nat) {
    w * |wide| == n * |narrow| + slack && Value(wide, w) == Value(narrow, n) * Pow2(slack)
  }

  ghost predicate Padded(data: Groups, from: nat, out: Groups, to: nat) {
    exists slack: nat :: slack < to && Extends(data, from, out, to, slack)
  }

  ghost predicate Unpadded(data: Groups, from: nat, out: Groups, to: nat) {
    exists slack: nat :: slack < from && slack < to && Extends(out, to, data, from, slack)
  }

  // ---- powers and remainders ----

  lemma {:induction false} Pow2Add(a: nat, b: nat)
    ensures Pow2(a + b) == Pow2(a) * Pow2(b)
  {
    if a > 0 { Pow2Add(a - 1, b); }
  }

  lemma {:induction false} Pow2Byte()
    ensures Pow2(5) == 32 && Pow2(8) == 256
  {
    assert Pow2(4) == 16;
  }

  lemma {:induction false} Pow2Grows(a: nat, b: nat)
    requires a <= b
    ensures Pow2(a) <= Pow2(b)
  {
    if a < b { Pow2Grows(a, b - 1); }
  }

  /** Taking the top digit off the low `bits` bits. */
  lemma {:induction false} PullDigit(acc: nat, p: nat, q: nat)
    requires p > 0 && q > 0
    ensures acc % (p * q) == acc / q % p * q + acc % q
  {
    var d, r, k := acc / q % p, acc % q, acc / q / p;
    Divide(acc, q);
    Divide(acc / q, p);
    ProductBelow(d, p, r, q);
    assert acc == (k * p + d) * q + r;
    assert (k * p + d) * q == k * (p * q) + d * q by { Spread(k, p, d, q); }
    RemainderIs(acc, p * q, k, d * q + r);
  }

  /** Shifting a value in below the low bits. */
  lemma {:induction false} ShiftIn(acc: nat, p: nat, q: nat, v: nat)
    requires p > 0 && q > 0 && v < q
    ensures (acc * q + v) % (p * q) == acc % p * q + v
  {
    var k, r := acc / p, acc % p;
    Divide(acc, p);
    ProductBelow(r, p, v, q);
    assert (k * p + r) * q == k * (p * q) + r * q by { Spread(k, p, r, q); }
    RemainderIs(acc * q + v, p * q, k, r * q + v);
  }

  /** A mask keeps the bits below it. */
  lemma {:induction false} MaskKeeps(x: nat, p: nat, q: nat)
    requires p > 0 && q > 0
    ensures x % (p * q) % q == x % q
  {
    PullDigit(x, p, q);
    RemainderIs(x % (p * q), q, x / q % p, x % q);
  }

  // ---- digits ----

  lemma {:induction false} ValueSnoc(digits: Groups, d: Byte, w: nat)
    ensures Value(digits + [d], w) == Value(digits, w) * Pow2(w) + d
  {
    assert (digits + [d])[..|digits|] == digits;
  }

  lemma {:induction false} ValueInjective(a: Groups, b: Groups, w: nat)
    requires |a| == |b| && Fits(a, w) && Fits(b, w) && Value(a, w) == Value(b, w)
    ensures a == b
  {
    if a != [] {
      var n := |a| - 1;
      RemainderIs(Value(a, w), Pow2(w), Value(a[..n], w), a[n]);
      RemainderIs(Value(b, w), Pow2(w), Value(b[..n], w), b[n]);
      ValueInjective(a[..n], b[..n], w);
      assert a == a[..n] + [a[n]] && b == b[..n] + [b[n]];
    }
  }

  // ---- the loop ----

  /** State between two inputs: `out` and the low `bits` bits of `acc` hold the digits read. */
  ghost predicate Reading(data: Groups, from: nat, out: Groups, to: nat, acc: nat, bits: nat) {
    && Fits(out, to)
    && from * |data| == to * |out| + bits
    && Value(data, from) == Value(out, to) * Pow2(bits) + acc % Pow2(bits)
  }

  lemma {:induction false} ReadDigit(data: Groups, from: nat, out: Groups, to: nat, acc: nat, bits: nat, v: Byte, acc': nat)
    requires Reading(data, from, out, to, acc, bits) && 1 <= from && bits < to && v < Pow2(from)
    requires acc' == (acc * Pow2(from) + v) % Pow2(from + to - 1)
    ensures Reading(data + [v], from, out, to, acc', bits + from)
  {
    var p, q := Pow2(bits), Pow2(from);
    Pow2Add(bits, from);
    Pow2Add(to - 1 - bits, bits + from);
    ShiftIn(acc, p, q, v);
    MaskKeeps(acc * q + v, Pow2(to - 1 - bits), p * q);
    assert acc' % (p * q) == acc % p * q + v;
    ValueSnoc(data, v, from);
    assert from * |data + [v]| == from * |data| + from by { Distribute(from, |data|); }
    Spread(Value(out, to), p, acc % p, q);
  }

  lemma {:induction false} WriteDigit(data: Groups, from: nat, out: Groups, to: nat, acc: nat, bits: nat, d: Byte)
    requires Reading(data, from, out, to, acc, bits) && bits >= to
    requires d == acc / Pow2(bits - to) % Pow2(to)
    ensures Reading(data, from, out + [d], to, acc, bits - to)
  {
    var p, q := Pow2(to), Pow2(bits - to);
    Pow2Add(to, bits - to);
    PullDigit(acc, p, q);
    ValueSnoc(out, d, to);
    Distribute(to, |out|);
    Spread(Value(out, to), p, d, q);
    Reassociate(Value(out, to), p, q);
  }

  /** What is left over, moved up to a whole digit. */
  lemma {:induction false} Leftover(acc: nat, bits: nat, to: nat)
    requires bits <= to
    ensures acc * Pow2(to - bits) % Pow2(to) == acc % Pow2(bits) * Pow2(to - bits)
    ensures acc % Pow2(bits) * Pow2(to - bits) < Pow2(to)
  {
    Pow2Add(bits, to - bits);
    ShiftIn(acc, Pow2(bits), Pow2(to - bits), 0);
    ProductBelow(acc % Pow2(bits), Pow2(bits), 0, Pow2(to - bits));
  }

  lemma {:induction false} PadDigit(data: Groups, from: nat, out: Groups, to: nat, acc: nat, bits: nat, d: Byte)
    requires Reading(data, from, out, to, acc, bits) && bits <= to && d == acc * Pow2(to - bits) % Pow2(to)
    ensures Fits(out + [d], to) && Extends(data, from, out + [d], to, to - bits)
    ensures bits > 0 ==> Padded(data, from, out + [d], to)
  {
    hide Pow2, Value;
    var p, q := Pow2(bits), Pow2(to - bits);
    Pow2Add(bits, to - bits);
    Leftover(acc, bits, to);
    ValueSnoc(out, d, to);
    Distribute(to, |out|);
    Spread(Value(out, to), p, acc % p, q);
    assert Extends(data, from, out + [d], to, to - bits);
  }

  /** No other leftover length is possible, and a nonzero leftover is not a shift. */
  lemma {:induction false} OnlyLeftover(data: Groups, from: nat, out: Groups, to: nat, acc: nat, bits: nat, other: Groups, slack: nat)
    requires Reading(data, from, out, to, acc, bits) && bits < to
    requires slack < to && Extends(other, to, data, from, slack)
    ensures slack == bits && acc % Pow2(bits) == 0
  {
    hide Pow2, Value;
    RemainderIs(from * |data|, to, |out|, bits) by { Commute(to, |out|); }
    RemainderIs(from * |data|, to, |other|, slack) by { Commute(to, |other|); }
    RemainderIs(Value(data, from), Pow2(bits), Value(out, to), acc % Pow2(bits));
    RemainderIs(Value(data, from), Pow2(bits), Value(other, to), 0);
  }

  lemma {:induction false} NotUnpadded(data: Groups, from: nat, out: Groups, to: nat, acc: nat, bits: nat, other: Groups)
    requires Reading(data, from, out, to, acc, bits) && bits < to <= 8
    requires bits >= from || Tail(acc, bits, to) != 0
    ensures !Unpadded(data, from, other, to)
  {
    hide Pow2, Value, Reading, Extends;
    if Unpadded(data, from, other, to) {
      var slack: nat :| slack < from && slack < to && Extends(other, to, data, from, slack);
      OnlyLeftover(data, from, out, to, acc, bits, other, slack);
      Leftover(acc, bits, to);
    }
  }

  /** The inner loop: whole digits move from the accumulator to the output. */
  method Drain(ghost data: Groups, ghost from: nat, acc: nat, held: nat, start: Groups, to: nat)
      returns (out: Groups, bits: nat)
    requires 1 <= to <= 8 && Reading(data, from, start, to, acc, held)
    ensures bits < to && Reading(data, from, out, to, acc, bits)
  {
    hide Reading, Pow2;
    out, bits := start, held;
    while bits >= to
      invariant Reading(data, from, out, to, acc, bits)
    {
      var d := Digit(acc, bits - to, to);
      WriteDigit(data, from, out, to, acc, bits, d);
      bits := bits - to;
      out := out + [d];
    }
  }

  /** `convert_bits`. Padded: total on fitting digits, and the result extends the input by the
      missing bits. Unpadded: succeeds exactly when the input is some digits extended by fewer
      than `from` and `to` zero bits, and returns those digits. */
  method ConvertBits(data: Groups, from: nat, to: nat, pad: bool) returns (r: Option<Groups>)
    requires 1 <= from <= 8 && 1 <= to <= 8
    ensures r.Some? ==> Fits(data, from) && Fits(r.value, to)
    ensures pad ==> (r.Some? <==> Fits(data, from))
    ensures pad && r.Some? ==> Padded(data, from, r.value, to)
    ensures !pad && r.Some? ==> Unpadded(data, from, r.value, to)
    ensures !pad && r.None? && Fits(data, from) ==> forall other :: !Unpadded(data, from, other, to)
  {
    hide Pow2, Value, Reading, Extends, Unpadded, Padded;
    var acc: nat, bits: nat := 0, 0;
    var out: Groups := [];
    ReadingStart(from, to);
    var i := 0;
    while i < |data|
      invariant 0 <= i <= |data| && bits < to
      invariant Fits(data[..i], from) && Reading(data[..i], from, out, to, acc, bits)
    {
      var value := data[i];
      TooWide(value, from);
      if value / Pow2(from) != 0 {
        return None;
      }
      ghost var before := acc;
      acc := (acc * Pow2(from) + value) % Pow2(from + to - 1);
      ReadDigit(data[..i], from, out, to, before, bits, value, acc);
      assert data[..i + 1] == data[..i] + [value];
      out, bits := Drain(data[..i + 1], from, acc, bits + from, out, to);
      i := i + 1;
    }
    assert data[..i] == data;
    ReadingFits(data, from, out, to, acc, bits);
    if pad {
      if bits > 0 {
        var d := Tail(acc, bits, to);
        PadDigit(data, from, out, to, acc, bits, d);
        out := out + [d];
      } else {
        NothingLeft(data, from, out, to, acc, bits);
      }
    } else {
      if bits >= from || Tail(acc, bits, to) != 0 {
        forall other ensures !Unpadded(data, from, other, to) {
          NotUnpadded(data, from, out, to, acc, bits, other);
        }
        return None;
      }
      NothingLeft(data, from, out, to, acc, bits);
    }
    r := Some(out);
  }

  /** The digit of width `to` above the lowest `below` bits. */
  function Digit(acc: nat, below: nat, to: nat): (d: Byte)
    requires to <= 8
    ensures d == acc / Pow2(below) % Pow2(to)
  {
    Pow2Grows(to, 8);
    Pow2Byte();
    acc / Pow2(below) % Pow2(to)
  }

  function Tail(acc: nat, bits: nat, to: nat): (d: Byte)
    requires bits <= to <= 8
    ensures d == acc * Pow2(to - bits) % Pow2(to)
  {
    Pow2Grows(to, 8);
    Pow2Byte();
    acc * Pow2(to - bits) % Pow2(to)
  }

  lemma {:induction false} ReadingStart(from: nat, to: nat)
    ensures Reading([], from, [], to, 0, 0)
  {}

  lemma {:induction false} ReadingFits(data: Groups, from: nat, out: Groups, to: nat, acc: nat, bits: nat)
    requires Reading(data, from, out, to, acc, bits)
    ensures Fits(out, to)
  {}

  lemma {:induction false} TooWide(v: nat, w: nat)
    ensures v / Pow2(w) != 0 <==> v >= Pow2(w)
  {
    if v < Pow2(w) {
      RemainderIs(v, Pow2(w), 0, v);
    } else {
      Divide(v, Pow2(w));
    }
  }

  lemma {:induction false} NothingLeft(data: Groups, from: nat, out: Groups, to: nat, acc: nat, bits: nat)
    requires Reading(data, from, out, to, acc, bits) && bits < to
    requires bits == 0 || acc * Pow2(to - bits) % Pow2(to) == 0
    ensures bits < from ==> Unpadded(data, from, out, to)
    ensures bits == 0 ==> Padded(data, from, out, to)
  {
    if bits > 0 {
      Leftover(acc, bits, to);
      Positive(acc % Pow2(bits), Pow2(to - bits));
    }
    assert Extends(out, to, data, from, bits);
    assert bits == 0 ==> Extends(data, from, out, to, 0);
  }

  // ---- the two directions undo each other ----

  /** Padded regrouping has one result. */
  lemma {:induction false} PaddedUnique(data: Groups, from: nat, a: Groups, b: Groups, to: nat)
    requires Fits(a, to) && Fits(b, to) && Padded(data, from, a, to) && Padded(data, from, b, to)
    ensures a == b
  {
    var x: nat :| x < to && Extends(data, from, a, to, x);
    var y: nat :| y < to && Extends(data, from, b, to, y);
    SameCount(to, |a|, |b|, from * |data|, x, y);
    ValueInjective(a, b, to);
  }

  lemma {:induction false} SameCount(to: nat, a: nat, b: nat, total: int, x: nat, y: nat)
    requires to * a == total + x && to * b == total + y && x < to && y < to
    ensures a == b && x == y
  {
    Above(a, b, to);
    Above(b, a, to);
    Commute(to, a);
    Commute(to, b);
  }

  /** Unpadded regrouping has one result. */
  lemma {:induction false} UnpaddedUnique(data: Groups, from: nat, a: Groups, b: Groups, to: nat)
    requires Fits(a, to) && Fits(b, to) && Unpadded(data, from, a, to) && Unpadded(data, from, b, to)
    ensures a == b
  {
    hide Pow2, Value;
    var x: nat :| x < from && x < to && Extends(a, to, data, from, x);
    var y: nat :| y < from && y < to && Extends(b, to, data, from, y);
    SameCount(to, |b|, |a|, from * |data| - x - y, x, y);
    RemainderIs(Value(data, from), Pow2(x), Value(a, to), 0);
    RemainderIs(Value(data, from), Pow2(x), Value(b, to), 0);
    ValueInjective(a, b, to);
  }

  /** Eight to five padded, and five to eight unpadded, are one relation. */
  lemma {:induction false} RegroupsBack(payload: Groups, groups: Groups)
    ensures Padded(payload, 8, groups, 5) <==> Unpadded(groups, 5, payload, 8)
  {
    if Padded(payload, 8, groups, 5) {
      var x: nat :| x < 5 && Extends(payload, 8, groups, 5, x);
    }
  }
}
