/** The parser and printer as they run: a cursor over the characters and an output buffer. */
module JsonParser {
  import J = Json
  import opened Json
  import opened Wrappers

  datatype Result<+T> = Done(value: T) | Fail(error: Error)

  class Parser {
    const chars: string
    var pos: nat
    var depth: nat
    var nodes: nat

    predicate Valid()
      reads this
    {
      pos <= |chars|
    }

    constructor (input: string)
      ensures Valid() && chars == input && pos == 0 && depth == 0 && nodes == 0
    {
      chars, pos, depth, nodes := input, 0, 0, 0;
    }

    function Peek(): (c: Option<char>)
      requires Valid()
      reads this
    {
      if pos < |chars| then Some(chars[pos]) else None
    }

    method Next() returns (c: Option<char>)
      requires Valid()
      modifies this`pos
      ensures Valid() && c == old(Peek()) && pos == old(pos) + if c.Some? then 1 else 0
    {
      c := Peek();
      if c.Some? {
        pos := pos + 1;
      }
    }

    method SkipWs()
      requires Valid()
      modifies this`pos
      ensures Valid() && pos == J.SkipWs(chars, old(pos))
    {
      while pos < |chars| && IsSpace(chars[pos])
        invariant Valid() && J.SkipWs(chars, pos) == J.SkipWs(chars, old(pos))
      {
        pos := pos + 1;
      }
    }

    /** The state after a parsed piece, as the position function gives it. */
    ghost predicate Follows<T>(s: Parsed<T>, r: Result<T>, was: nat, count: nat)
      reads this
    {
      && Valid() && depth == was
      && (s.Ok? ==> r == Done(s.value) && pos == s.pos && nodes == count)
      && (s.Err? ==> r == Fail(s.error))
    }

    /** The count after a piece that counts values. */
    static ghost function Count<T>(s: Parsed<T>): nat {
      if s.Ok? then s.nodes else 0
    }

    method Value() returns (r: Result<Json>)
      requires Valid()
      modifies this
      ensures var s := ParseValue(chars, old(pos), old(depth), old(nodes)); Follows(s, r, old(depth), Count(s))
      decreases |chars| - pos, 2
    {
      hide ParseArray, ParseObject, ParseChars, ParseNumber, J.SkipWs;
      nodes := nodes + 1;
      if nodes > MAX_NODES {
        return Fail(TooManyNodes);
      }
      SkipWs();
      if pos >= |chars| {
        return Fail(ExpectedValue);
      }
      var c := chars[pos];
      if c == '{' || c == '[' {
        r := Nested(c == '{');
      } else if c == '"' {
        var s := String();
        r := if s.Fail? then Fail(s.error) else Done(Str(s.value));
      } else if c == 't' || c == 'f' {
        r := Boolean();
      } else if c == 'n' {
        var ok := Literal("null");
        r := if ok then Done(Null) else Fail(ExpectedWord);
      } else if c == '-' || IsDigit(c) {
        r := Number();
      } else {
        r := Fail(ExpectedValue);
      }
    }

    method Nested(isObject: bool) returns (r: Result<Json>)
      requires Valid() && pos < |chars|
      modifies this
      ensures old(depth) >= MAX_DEPTH ==> Valid() && depth == old(depth) && r == Fail(TooDeep)
      ensures old(depth) < MAX_DEPTH && isObject ==> var s := ParseObject(chars, old(pos), old(depth) + 1, old(nodes)); Follows(s, r, old(depth), Count(s))
      ensures old(depth) < MAX_DEPTH && !isObject ==> var s := ParseArray(chars, old(pos), old(depth) + 1, old(nodes)); Follows(s, r, old(depth), Count(s))
      decreases |chars| - pos, 1
    {
      hide ParseArray, ParseObject;
      if depth >= MAX_DEPTH {
        return Fail(TooDeep);
      }
      depth := depth + 1;
      if isObject {
        r := ReadObject();
      } else {
        r := ReadArray();
      }
      depth := depth - 1;
    }

    method ReadArray() returns (r: Result<Json>)
      requires Valid() && pos < |chars|
      modifies this
      ensures var s := ParseArray(chars, old(pos), old(depth), old(nodes)); Follows(s, r, old(depth), Count(s))
      decreases |chars| - pos, 0
    {
      hide ParseValue, J.SkipWs;
      ghost var start, count := pos, nodes;
      pos := pos + 1;
      SkipWs();
      if pos < |chars| && chars[pos] == ']' {
        pos := pos + 1;
        return Done(Array([]));
      }
      var items: seq<Json> := [];
      while true
        invariant Valid() && start < pos && depth == old(depth)
        invariant ParseItems(chars, pos, depth, nodes, items) == ParseArray(chars, start, depth, count)
        decreases |chars| - pos
      {
        var v := Value();
        if v.Fail? {
          return Fail(v.error);
        }
        items := items + [v.value];
        SkipWs();
        var c := Next();
        if c == Some(']') {
          return Done(Array(items));
        } else if c != Some(',') {
          return Fail(ExpectedComma);
        }
      }
    }

    method ReadObject() returns (r: Result<Json>)
      requires Valid() && pos < |chars|
      modifies this
      ensures var s := ParseObject(chars, old(pos), old(depth), old(nodes)); Follows(s, r, old(depth), Count(s))
      decreases |chars| - pos, 0
    {
      hide ParseField, J.SkipWs;
      ghost var start, count := pos, nodes;
      pos := pos + 1;
      SkipWs();
      if pos < |chars| && chars[pos] == '}' {
        pos := pos + 1;
        return Done(Object([]));
      }
      var fields: seq<Field> := [];
      while true
        invariant Valid() && start < pos && depth == old(depth)
        invariant ParseFields(chars, pos, depth, nodes, fields) == ParseObject(chars, start, depth, count)
        decreases |chars| - pos
      {
        var f := ReadField(fields);
        if f.Fail? {
          return Fail(f.error);
        }
        fields := fields + [f.value];
        SkipWs();
        var c := Next();
        if c == Some('}') {
          return Done(Object(fields));
        } else if c != Some(',') {
          return Fail(ExpectedComma);
        }
      }
    }

    method ReadField(fields: seq<Field>) returns (r: Result<Field>)
      requires Valid()
      modifies this
      ensures var s := ParseField(chars, old(pos), old(depth), old(nodes), Keys(fields)); Follows(s, r, old(depth), Count(s))
      decreases |chars| - pos, 0
    {
      hide ParseValue, ParseChars, J.SkipWs;
      SkipWs();
      if Peek() != Some('"') {
        return Fail(ExpectedKey);
      }
      var key := String();
      if key.Fail? {
        return Fail(key.error);
      }
      if key.value in Keys(fields) {
        return Fail(DuplicateKey);
      }
      SkipWs();
      var colon := Next();
      if colon != Some(':') {
        return Fail(ExpectedColon);
      }
      var v := Value();
      r := if v.Fail? then Fail(v.error) else Done(Field(key.value, v.value));
    }

    method String() returns (r: Result<string>)
      requires Valid() && pos < |chars|
      modifies this`pos
      ensures Follows(ParseChars(chars, old(pos) + 1, ""), r, old(depth), old(nodes))
    {
      hide UnicodeEscape, Simple;
      pos := pos + 1;
      var s := "";
      while true
        invariant Valid() && ParseChars(chars, pos, s) == ParseChars(chars, old(pos) + 1, "")
        decreases |chars| - pos
      {
        var c := Next();
        if c.None? {
          return Fail(Unclosed);
        } else if c.value == '"' {
          return Done(s);
        } else if c.value == '\\' {
          var e := Next();
          if e.None? {
            return Fail(BadEscape);
          } else if e.value == 'u' {
            var u := ReadUnicode();
            if u.Fail? {
              return Fail(u.error);
            }
            s := s + [u.value];
          } else if Simple(e.value) == "" {
            return Fail(BadEscape);
          } else {
            s := s + Simple(e.value);
          }
        } else if c.value < ' ' {
          return Fail(ControlCharacter);
        } else {
          s := s + [c.value];
        }
      }
    }

    method ReadUnicode() returns (r: Result<char>)
      requires Valid()
      modifies this`pos
      ensures Follows(UnicodeEscape(chars, old(pos)), r, old(depth), old(nodes))
    {
      hide HexValue, CodeOf;
      ghost var start := pos;
      NoDigits(chars, start);
      var code := 0;
      var i := 0;
      while i < 4
        invariant 0 <= i <= 4 && Valid() && pos == start + i
        invariant forall j | start <= j < pos :: HexValue(chars[j]) >= 0
        invariant code == CodeOf(chars, start, i) && 0 <= code < Power16(i)
      {
        var c := Next();
        if c.None? || HexValue(c.value) < 0 {
          return Fail(BadEscape);
        }
        NextDigit(chars, start, i);
        code := code * 16 + HexValue(c.value);
        i := i + 1;
      }
      assert Power16(4) == 0x1_0000;
      FourDigits(chars, start);
      if 0xD800 <= code < 0xE000 {
        return Fail(BadCodePoint);
      }
      r := Done(code as char);
    }

    method Number() returns (r: Result<Json>)
      requires Valid() && pos < |chars| && (chars[pos] == '-' || IsDigit(chars[pos]))
      modifies this`pos
      ensures var s := ParseNumber(chars, old(pos), old(nodes)); Follows(s, r, old(depth), Count(s))
    {
      var start := pos;
      if chars[pos] == '-' {
        pos := pos + 1;
      }
      ghost var from := pos;
      while pos < |chars| && IsDigit(chars[pos])
        invariant Valid() && start <= from <= pos && DigitsEnd(chars, pos) == DigitsEnd(chars, from)
        invariant forall i | from <= i < pos :: IsDigit(chars[i])
      {
        pos := pos + 1;
      }
      var text := chars[start..pos];
      if |text| > 1 && text[0] == '0' {
        return Fail(LeadingZero);
      }
      if text[0] == '-' {
        return Fail(BadNumber);
      }
      var n := FromDecimal(text);
      r := if n > U64_MAX then Fail(BadNumber) else Done(Int(n));
    }

    method Boolean() returns (r: Result<Json>)
      requires Valid()
      modifies this`pos
      ensures var t := ParseWord(chars, old(pos), nodes, "true", Bool(true));
        Follows(if t.Ok? then t else ParseWord(chars, old(pos), nodes, "false", Bool(false)), r, old(depth), old(nodes))
    {
      var yes := Literal("true");
      if yes {
        return Done(Bool(true));
      }
      var no := Literal("false");
      r := if no then Done(Bool(false)) else Fail(ExpectedWord);
    }

    method Literal(word: string) returns (ok: bool)
      requires Valid()
      modifies this`pos
      ensures Valid() && ok == At(chars, old(pos), word) && pos == if ok then old(pos) + |word| else old(pos)
    {
      var end := pos + |word|;
      ok := end <= |chars| && chars[pos..end] == word;
      if ok {
        pos := end;
      }
    }
  }

  function Power16(n: nat): nat {
    if n == 0 then 1 else 16 * Power16(n - 1)
  }

  /** The number the first `n` hex digits from `start` spell. */
  function CodeOf(c: string, start: nat, n: nat): int
    requires start + n <= |c|
  {
    if n == 0 then 0 else CodeOf(c, start, n - 1) * 16 + HexValue(c[start + n - 1])
  }

  lemma {:induction false} NoDigits(c: string, start: nat)
    requires start <= |c|
    ensures CodeOf(c, start, 0) == 0
  {}

  lemma {:induction false} NextDigit(c: string, start: nat, n: nat)
    requires start + n < |c|
    ensures CodeOf(c, start, n + 1) == CodeOf(c, start, n) * 16 + HexValue(c[start + n])
    ensures HexValue(c[start + n]) < 16
  {}

  lemma {:induction false} FourDigits(c: string, start: nat)
    requires start + 4 <= |c|
    ensures CodeOf(c, start, 4) == HexValue(c[start]) * 4096 + HexValue(c[start + 1]) * 256 + HexValue(c[start + 2]) * 16 + HexValue(c[start + 3])
  {
    assert CodeOf(c, start, 1) == HexValue(c[start]);
    assert CodeOf(c, start, 2) == HexValue(c[start]) * 16 + HexValue(c[start + 1]);
    assert CodeOf(c, start, 3) == HexValue(c[start]) * 256 + HexValue(c[start + 1]) * 16 + HexValue(c[start + 2]);
  }

  /** `parse`. */
  method ParseText(input: string) returns (r: Outcome)
    ensures r == Parse(input)
  {
    hide ParseValue;
    var parser := new Parser(input);
    parser.SkipWs();
    var v := parser.Value();
    if v.Fail? {
      return Refused(v.error);
    }
    parser.SkipWs();
    r := if parser.pos != |parser.chars| then Trailing else Accepted(v.value);
  }

  /** `write`: appends the text of a value to the buffer. */
  method Write(v: Json, start: string) returns (out: string)
    ensures out == start + Render(v)
    decreases v
  {
    hide Escape, Decimal, RenderItems, RenderFields;
    match v
    case Null => out := start + "null";
    case Bool(b) => out := start + if b then "true" else "false";
    case Int(n) => out := start + Decimal(n);
    case Str(s) => out := WriteText(s, start);
    case Array(items) =>
      out := WriteItems(items, start + "[");
      out := out + "]";
      assert start + "[" + RenderItems(items) + "]" == start + Render(v);
    case Object(fields) =>
      out := WriteFields(fields, start + "{");
      out := out + "}";
      assert start + "{" + RenderFields(fields) + "}" == start + Render(v);
  }

  method WriteItems(items: seq<Json>, start: string) returns (out: string)
    ensures out == start + RenderItems(items)
    decreases items
  {
    hide Render;
    out := start;
    var i := 0;
    while i < |items|
      invariant 0 <= i <= |items| && out == start + RenderItems(items[..i])
    {
      ItemsSnoc(items[..i], items[i]);
      assert items[..i + 1] == items[..i] + [items[i]];
      if i > 0 {
        out := out + ",";
      }
      out := Write(items[i], out);
      i := i + 1;
    }
    assert items[..i] == items;
  }

  method WriteFields(fields: seq<Field>, start: string) returns (out: string)
    ensures out == start + RenderFields(fields)
    decreases fields
  {
    hide Render, WriteString;
    out := start;
    var i := 0;
    while i < |fields|
      invariant 0 <= i <= |fields| && out == start + RenderFields(fields[..i])
    {
      FieldsSnoc(fields[..i], fields[i]);
      assert fields[..i + 1] == fields[..i] + [fields[i]];
      if i > 0 {
        out := out + ",";
      }
      out := WriteText(fields[i].key, out);
      out := out + ":";
      out := Write(fields[i].value, out);
      i := i + 1;
    }
    assert fields[..i] == fields;
  }

  lemma {:induction false} ItemsSnoc(items: seq<Json>, v: Json)
    ensures RenderItems(items + [v]) == RenderItems(items) + (if items == [] then "" else ",") + Render(v)
  {
    hide Render;
    if items != [] {
      ItemsSnoc(items[1..], v);
      assert (items + [v])[1..] == items[1..] + [v];
      if |items| == 1 { assert items[1..] == []; }
    }
  }

  lemma {:induction false} FieldsSnoc(fields: seq<Field>, f: Field)
    ensures RenderFields(fields + [f]) == RenderFields(fields) + (if fields == [] then "" else ",") + WriteString(f.key) + ":" + Render(f.value)
  {
    hide Render, WriteString;
    if fields != [] {
      FieldsSnoc(fields[1..], f);
      assert (fields + [f])[1..] == fields[1..] + [f];
      if |fields| == 1 { assert fields[1..] == []; }
    }
  }

  /** `write_string`. */
  method WriteText(s: string, start: string) returns (out: string)
    ensures out == start + WriteString(s)
  {
    hide EscapeChar;
    out := start + "\"";
    var i := 0;
    assert s[0..] == s;
    while i < |s|
      invariant 0 <= i <= |s| && out + Escape(s[i..]) == start + "\"" + Escape(s)
    {
      assert s[i..][1..] == s[i + 1..];
      assert out + (EscapeChar(s[i]) + Escape(s[i + 1..])) == out + EscapeChar(s[i]) + Escape(s[i + 1..]);
      out := out + EscapeChar(s[i]);
      i := i + 1;
    }
    assert s[i..] == [] && out + "" == out;
    assert start + "\"" + Escape(s) + "\"" == start + WriteString(s);
    out := out + "\"";
  }
}
