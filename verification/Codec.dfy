/** The encoder's growing buffer and the decoder's advancing position. */
module Codec {
  import opened Field
  import G = Gossip
  import opened Hashing
  import opened Wire
  import opened Wrappers

  datatype Error =
    | Truncated(needed: nat, found: nat)
    | LengthOverrun(length: nat, found: nat)
    | TrailingBytes(count: nat)

  datatype Result<+T> = Ok(value: T) | Err(error: Error)

  class Encoder {
    var buf: Bytes

    constructor ()
      ensures buf == []
    {
      buf := [];
    }

    method PutU64(value: U64)
      modifies this
      ensures buf == old(buf) + LittleEndian(value, 8)
      ensures old(buf) <= buf && |buf| == |old(buf)| + 8 && FromLittleEndian(buf[|old(buf)|..]) == value
    {
      hide FromLittleEndian;
      U64Bound();
      LittleEndianBack(value, 8);
      buf := buf + LittleEndian(value, 8);
      assert buf[|old(buf)|..] == LittleEndian(value, 8);
    }

    method PutBytes(bytes: Bytes)
      requires |bytes| <= U64_MAX
      modifies this
      ensures buf == old(buf) + (LittleEndian(|bytes|, 8) + bytes)
    {
      PutU64(|bytes|);
      buf := buf + bytes;
    }

    /** Writes a value field by field. */
    method Write(env: Env, f: Fmt, v: Val)
      requires Fits(env, f, v)
      modifies this
      ensures buf == old(buf) + Enc(env, f, v)
      decreases f, 0
    {
      hide LittleEndian, EncAll, EncEach, FitAll, FitEach, Ascending;
      match f {
        case Num(width) => buf := buf + LittleEndian(v.n, width);
        case Raw(len) => buf := buf + v.bytes;
        case Const(byte) => buf := buf + [byte];
        case Blob(lo, hi) => PutBytes(v.bytes);
        case Text(hi) => PutBytes(v.bytes);
        case ZeroOr(len) =>
          if v.Present? {
            buf := buf + ([1] + v.v.bytes);
          } else {
            buf := buf + ([0] + Zeros(len));
          }
        case Opt(inner) =>
          if v.Present? {
            buf := buf + [1];
            Write(env, inner, v.v);
            assert old(buf) + [1] + Enc(env, inner, v.v) == old(buf) + ([1] + Enc(env, inner, v.v));
          } else {
            buf := buf + [0];
          }
        case Struct(fields) => WriteAll(env, fields, v.items);
        case List(elem, min, cap, sorted) =>
          PutU64(|v.items|);
          WriteEach(env, elem, v.items);
          assert old(buf) + LittleEndian(|v.items|, 8) + EncEach(env, elem, v.items) == old(buf) + (LittleEndian(|v.items|, 8) + EncEach(env, elem, v.items));
        case Wrapped => buf := buf + env.enc(v.id);
      }
    }

    method WriteAll(env: Env, fields: seq<Fmt>, items: seq<Val>)
      requires FitAll(env, fields, items)
      modifies this
      ensures buf == old(buf) + EncAll(env, fields, items)
      decreases fields, 2
    {
      hide Enc, Fits;
      if fields == [] {
        assert buf + EncAll(env, fields, items) == buf;
        return;
      }
      Write(env, fields[0], items[0]);
      WriteAll(env, fields[1..], items[1..]);
      assert old(buf) + Enc(env, fields[0], items[0]) + EncAll(env, fields[1..], items[1..]) == old(buf) + EncAll(env, fields, items);
    }

    /** The loop over a list's elements. */
    method WriteEach(env: Env, elem: Fmt, items: seq<Val>)
      requires FitEach(env, elem, items)
      modifies this
      ensures buf == old(buf) + EncEach(env, elem, items)
      decreases elem, 1
    {
      hide Enc, Fits;
      var i := 0;
      assert items[0..] == items;
      while i < |items|
        invariant 0 <= i <= |items| && FitEach(env, elem, items[i..])
        invariant buf + EncEach(env, elem, items[i..]) == old(buf) + EncEach(env, elem, items)
      {
        ghost var before := buf;
        assert items[i..][1..] == items[i + 1..];
        Write(env, elem, items[i]);
        assert before + EncEach(env, elem, items[i..]) == buf + EncEach(env, elem, items[i + 1..]);
        i := i + 1;
      }
      assert items[i..] == [] && buf + [] == buf;
    }
  }

  class Decoder {
    const input: Bytes
    var pos: nat

    predicate Valid()
      reads this
    {
      pos <= |input|
    }

    constructor (input: Bytes)
      ensures Valid() && this.input == input && pos == 0
    {
      this.input := input;
      pos := 0;
    }

    /** What is left to read. */
    ghost function Left(): Bytes
      requires Valid()
      reads this
    {
      input[pos..]
    }

    /** `take`. */
    method Take(n: nat) returns (r: Result<Bytes>)
      requires Valid()
      modifies this
      ensures Valid()
      ensures r.Ok? <==> Wire.Take(old(Left()), n).Some?
      ensures r.Ok? ==> Wire.Take(old(Left()), n) == Some((r.value, Left()))
      ensures r.Err? ==> r.error == Truncated(n, |input| - old(pos)) && pos == old(pos)
    {
      var end := pos + n;
      if end > |input| {
        return Err(Truncated(n, |input| - pos));
      }
      var slice := input[pos..end];
      assert slice == input[pos..][..n] && input[end..] == input[pos..][n..];
      pos := end;
      r := Ok(slice);
    }

    method GetU64() returns (r: Result<U64>)
      requires Valid()
      modifies this
      ensures Valid() && (r.Ok? <==> |old(Left())| >= 8)
      ensures r.Ok? ==> r.value == FromLittleEndian(old(Left())[..8]) && Left() == old(Left())[8..]
      ensures r.Err? ==> r.error == Truncated(8, |input| - old(pos)) && pos == old(pos)
    {
      hide FromLittleEndian;
      var t := Take(8);
      if t.Err? {
        return Err(t.error);
      }
      U64Bound();
      LittleEndianOf(t.value);
      r := Ok(FromLittleEndian(t.value));
    }

    /** `get_bytes`: a length past the end is an overrun, not a truncation. */
    method GetBytes() returns (r: Result<Bytes>)
      requires Valid()
      modifies this
      ensures Valid() && (r.Ok? <==> DecBlob(old(Left())).Some?)
      ensures r.Ok? ==> DecBlob(old(Left())) == Some((r.value, Left()))
      ensures r.Err? && |old(Left())| >= 8 ==> r.error == LengthOverrun(FromLittleEndian(old(Left())[..8]), |input| - old(pos) - 8)
    {
      hide FromLittleEndian;
      var length := GetU64();
      if length.Err? {
        return Err(length.error);
      }
      if length.value > |input| - pos {
        return Err(LengthOverrun(length.value, |input| - pos));
      }
      r := Take(length.value);
    }

    method Finish() returns (r: Result<()>)
      requires Valid()
      ensures r == if Left() == [] then Ok(()) else Err(TrailingBytes(|Left()|))
    {
      r := if pos == |input| then Ok(()) else Err(TrailingBytes(|input| - pos));
    }

    /** Reads a value field by field; nothing is promised of the position after a refusal. */
    method Read(env: Env, f: Fmt) returns (r: Option<Val>)
      requires Valid() && WrapperTwoWay(env)
      modifies this
      ensures Valid() && (r.Some? <==> Dec(env, f, old(Left())).Some?)
      ensures r.Some? ==> Dec(env, f, old(Left())) == Some((r.value, Left()))
      decreases f, 0
    {
      hide FromLittleEndian, DecBlob, DecAll, DecEach, Capacity, Ascending;
      match f {
        case Num(width) =>
          var t := Take(width);
          r := if t.Ok? then Some(N(FromLittleEndian(t.value))) else None;
        case Raw(len) =>
          var t := Take(len);
          r := if t.Ok? then Some(B(t.value)) else None;
        case Const(byte) =>
          var t := Take(1);
          r := if t.Ok? && t.value[0] == byte then Some(Absent) else None;
        case Blob(lo, hi) =>
          var t := GetBytes();
          r := if t.Ok? && lo <= |t.value| <= hi then Some(B(t.value)) else None;
        case Text(hi) =>
          var t := GetBytes();
          r := if t.Ok? && |t.value| <= hi && env.utf8(t.value) then Some(B(t.value)) else None;
        case ZeroOr(len) => r := ReadZeroOr(env, len);
        case Opt(inner) => r := ReadOpt(env, inner);
        case Struct(fields) =>
          var t := ReadAll(env, fields);
          r := if t.Some? then Some(L(t.value)) else None;
        case List(elem, min, cap, sorted) => r := ReadList(env, elem, min, cap, sorted);
        case Wrapped =>
          var t := env.dec(input[pos..]);
          if t.Some? {
            assert Left() == env.enc(t.value.0) + t.value.1;
            assert t.value.1 == input[|input| - |t.value.1|..];
            pos := |input| - |t.value.1|;
            r := Some(W(t.value.0));
          } else {
            r := None;
          }
      }
    }

    method ReadZeroOr(env: Env, len: nat) returns (r: Option<Val>)
      requires Valid()
      modifies this
      ensures Valid() && (r.Some? <==> Dec(env, ZeroOr(len), old(Left())).Some?)
      ensures r.Some? ==> Dec(env, ZeroOr(len), old(Left())) == Some((r.value, Left()))
    {
      var tag := Take(1);
      if tag.Err? {
        return None;
      }
      var t := Take(len);
      if t.Err? {
        return None;
      }
      r := if tag.value[0] == 1 then Some(Present(B(t.value)))
        else if tag.value[0] == 0 && t.value == Zeros(len) then Some(Absent)
        else None;
    }

    method ReadOpt(env: Env, inner: Fmt) returns (r: Option<Val>)
      requires Valid() && WrapperTwoWay(env)
      modifies this
      ensures Valid() && (r.Some? <==> Dec(env, Opt(inner), old(Left())).Some?)
      ensures r.Some? ==> Dec(env, Opt(inner), old(Left())) == Some((r.value, Left()))
      decreases inner, 3
    {
      var tag := Take(1);
      if tag.Err? || tag.value[0] > 1 {
        return None;
      }
      if tag.value[0] == 0 {
        return Some(Absent);
      }
      var t := Read(env, inner);
      r := if t.Some? then Some(Present(t.value)) else None;
    }

    method ReadList(env: Env, elem: Fmt, min: nat, cap: nat, sorted: bool) returns (r: Option<Val>)
      requires Valid() && WrapperTwoWay(env)
      modifies this
      ensures Valid() && (r.Some? <==> Dec(env, List(elem, min, cap, sorted), old(Left())).Some?)
      ensures r.Some? ==> Dec(env, List(elem, min, cap, sorted), old(Left())) == Some((r.value, Left()))
      decreases elem, 3
    {
      hide FromLittleEndian, DecEach, Ascending;
      var count := GetU64();
      if count.Err? || count.value > cap || !Capacity(|input| - pos, count.value, min) {
        return None;
      }
      var items := ReadEach(env, elem, count.value);
      r := if items.None? || (sorted && !Ascending(items.value)) then None else Some(L(items.value));
    }

    method ReadAll(env: Env, fields: seq<Fmt>) returns (r: Option<seq<Val>>)
      requires Valid() && WrapperTwoWay(env)
      modifies this
      ensures Valid() && (r.Some? <==> DecAll(env, fields, old(Left())).Some?)
      ensures r.Some? ==> DecAll(env, fields, old(Left())) == Some((r.value, Left()))
      decreases fields, 2
    {
      hide Dec;
      if fields == [] {
        return Some([]);
      }
      var first := Read(env, fields[0]);
      if first.None? {
        return None;
      }
      var rest := ReadAll(env, fields[1..]);
      r := if rest.Some? then Some([first.value] + rest.value) else None;
    }

    /** The loop over a list's elements. */
    method ReadEach(env: Env, elem: Fmt, count: nat) returns (r: Option<seq<Val>>)
      requires Valid() && WrapperTwoWay(env)
      modifies this
      ensures Valid() && (r.Some? <==> DecEach(env, elem, old(Left()), count).Some?)
      ensures r.Some? ==> DecEach(env, elem, old(Left()), count) == Some((r.value, Left()))
      decreases elem, 1
    {
      hide Dec, DecEach;
      var items: seq<Val> := [];
      ghost var all := DecEach(env, elem, Left(), count);
      EachStart(env, elem, Left(), count);
      var i := 0;
      while i < count
        invariant 0 <= i <= count && Valid()
        invariant all == After(items, DecEach(env, elem, Left(), count - i))
      {
        ghost var before := Left();
        EachNext(env, elem, before, count - i, items);
        var v := Read(env, elem);
        if v.None? {
          return None;
        }
        items := items + [v.value];
        i := i + 1;
      }
      EachEnd(env, elem, Left(), items);
      r := Some(items);
    }
  }

  /** What was read, followed by what remains to be read. */
  function After(items: seq<Val>, rest: Option<(seq<Val>, Bytes)>): Option<(seq<Val>, Bytes)> {
    if rest.None? then None else Some((items + rest.value.0, rest.value.1))
  }

  lemma {:induction false} EachStart(env: Env, elem: Fmt, b: Bytes, count: nat)
    ensures DecEach(env, elem, b, count) == After([], DecEach(env, elem, b, count))
  {
    hide DecEach;
    var t := DecEach(env, elem, b, count);
    if t.Some? { assert [] + t.value.0 == t.value.0; }
  }

  lemma {:induction false} EachNext(env: Env, elem: Fmt, b: Bytes, count: nat, items: seq<Val>)
    requires count > 0
    ensures var t := Dec(env, elem, b);
      After(items, DecEach(env, elem, b, count)) ==
      if t.None? then None else After(items + [t.value.0], DecEach(env, elem, t.value.1, count - 1))
  {
    hide Dec;
    var t := Dec(env, elem, b);
    if t.Some? {
      var u := DecEach(env, elem, t.value.1, count - 1);
      if u.Some? { assert items + ([t.value.0] + u.value.0) == items + [t.value.0] + u.value.0; }
    }
  }

  lemma {:induction false} EachEnd(env: Env, elem: Fmt, b: Bytes, items: seq<Val>)
    ensures After(items, DecEach(env, elem, b, 0)) == Some((items, b))
  {
    assert items + [] == items;
  }

  /** A whole message, with nothing after it. */
  method DecodeMessage(env: Env, f: Fmt, bytes: Bytes) returns (r: Option<Val>)
    requires WrapperTwoWay(env)
    ensures r == FromBytes(env, f, bytes)
  {
    hide Dec;
    var decoder := new Decoder(bytes);
    assert decoder.Left() == bytes;
    var v := decoder.Read(env, f);
    if v.None? {
      return None;
    }
    var done := decoder.Finish();
    r := if done.Ok? then v else None;
  }

  method EncodeMessage(env: Env, f: Fmt, v: Val) returns (bytes: Bytes)
    requires Fits(env, f, v)
    ensures bytes == Enc(env, f, v)
  {
    hide Enc, Fits;
    var encoder := new Encoder();
    encoder.Write(env, f, v);
    bytes := encoder.buf;
    assert [] + Enc(env, f, v) == Enc(env, f, v);
  }

  /** `Message::encode`: the tag, then the fields of its kind. */
  method EncodeNote(env: Env, m: G.Note) returns (bytes: Bytes)
    requires G.WellFormed(env, m)
    ensures bytes == G.Encode(env, m)
  {
    hide Enc, Fits, G.PayloadFmt;
    var encoder := new Encoder();
    encoder.buf := encoder.buf + [m.tag];
    encoder.Write(env, G.PayloadFmt(m.tag).value, m.body);
    bytes := encoder.buf;
  }

  /** `Message::decode`: an unknown tag or bytes after the last field are refused. */
  method DecodeNote(env: Env, bytes: Bytes) returns (r: Option<G.Note>)
    requires WrapperTwoWay(env)
    ensures r == G.Decode(env, bytes)
  {
    hide Dec, G.PayloadFmt;
    var decoder := new Decoder(bytes);
    assert decoder.Left() == bytes;
    var tag := decoder.Take(1);
    if tag.Err? || G.PayloadFmt(tag.value[0]).None? {
      return None;
    }
    var v := decoder.Read(env, G.PayloadFmt(tag.value[0]).value);
    if v.None? {
      return None;
    }
    var done := decoder.Finish();
    r := if done.Ok? then Some(G.Note(tag.value[0], v.value)) else None;
  }
}
