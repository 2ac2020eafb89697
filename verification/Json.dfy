/** The gateway's JSON: the printer, the parser as functions of the position, and exactly which
    values come back from their own text. */
module Json {
  import opened Wrappers

  const MAX_DEPTH: nat := 64
  const MAX_NODES: nat := 200_000

  datatype Json =
    | Null
    | Bool(b: bool)
    | Int(n: U64)
    | Str(s: string)
    | Array(items: seq<Json>)
    | Object(fields: seq<Field>)

  datatype Field = Field(key: string, value: Json)

  datatype Error =
    | TooManyNodes | TooDeep | ExpectedValue | ExpectedKey | DuplicateKey | ExpectedColon
    | ExpectedComma | BadEscape | ControlCharacter | Unclosed | BadCodePoint | LeadingZero | BadNumber | ExpectedWord

  /** A parsed value, the position after it and the values counted so far. */
  datatype Parsed<+T> = Ok(value: T, pos: nat, nodes: nat) | Err(error: Error)

  // ---- printing ----

  function HexDigit(d: nat): char
    requires d < 16
  {
    if d < 10 then '0' + d as char else 'a' + (d - 10) as char
  }

  function EscapeChar(c: char): (t: string)
    ensures t != []
  {
    if c == '"' then "\\\""
    else if c == '\\' then "\\\\"
    else if c == '\n' then "\\n"
    else if c == '\r' then "\\r"
    else if c == '\t' then "\\t"
    else if c < ' ' then "\\u00" + [HexDigit(c as int / 16), HexDigit(c as int % 16)]
    else [c]
  }

  function Escape(s: string): string {
    if s == [] then "" else EscapeChar(s[0]) + Escape(s[1..])
  }

  function WriteString(s: string): string {
    "\"" + Escape(s) + "\""
  }

  function Decimal(n: nat): (t: string)
    ensures t != []
  {
    if n < 10 then ['0' + n as char] else Decimal(n / 10) + ['0' + (n % 10) as char]
  }

  function Render(v: Json): string
    decreases v
  {
    match v
    case Null => "null"
    case Bool(b) => if b then "true" else "false"
    case Int(n) => Decimal(n)
    case Str(s) => WriteString(s)
    case Array(items) => "[" + RenderItems(items) + "]"
    case Object(fields) => "{" + RenderFields(fields) + "}"
  }

  function RenderItems(items: seq<Json>): string
    decreases items
  {
    if items == [] then ""
    else if |items| == 1 then Render(items[0])
    else Render(items[0]) + "," + RenderItems(items[1..])
  }

  function RenderFields(fields: seq<Field>): string
    decreases fields
  {
    if fields == [] then ""
    else
      var first := WriteString(fields[0].key) + ":" + Render(fields[0].value);
      if |fields| == 1 then first else first + "," + RenderFields(fields[1..])
  }

  // ---- parsing ----

  predicate IsSpace(c: char) {
    c == ' ' || c == '\t' || c == '\n' || c == '\r'
  }

  predicate IsDigit(c: char) {
    '0' <= c <= '9'
  }

  function SkipWs(c: string, pos: nat): (p: nat)
    requires pos <= |c|
    ensures pos <= p <= |c|
    decreases |c| - pos
  {
    if pos < |c| && IsSpace(c[pos]) then SkipWs(c, pos + 1) else pos
  }

  function HexValue(c: char): int {
    if '0' <= c <= '9' then c as int - '0' as int
    else if 'a' <= c <= 'f' then c as int - 'a' as int + 10
    else if 'A' <= c <= 'F' then c as int - 'A' as int + 10
    else -1
  }

  /** Four hex digits from `pos`, as a scalar value. */
  function UnicodeEscape(c: string, pos: nat): (r: Parsed<char>)
    requires pos <= |c|
    ensures r.Ok? ==> r.pos == pos + 4 <= |c|
  {
    if pos + 4 > |c| || exists i | pos <= i < pos + 4 :: HexValue(c[i]) < 0 then Err(BadEscape)
    else
      var code := HexValue(c[pos]) * 4096 + HexValue(c[pos + 1]) * 256 + HexValue(c[pos + 2]) * 16 + HexValue(c[pos + 3]);
      if 0xD800 <= code < 0xE000 then Err(BadCodePoint) else Ok(code as char, pos + 4, 0)
  }

  /** What a backslash and the character after it stand for, when that is one character. */
  function Simple(c: char): string {
    match c
    case '"' => "\""
    case '\\' => "\\"
    case '/' => "/"
    case 'n' => "\n"
    case 'r' => "\r"
    case 't' => "\t"
    case 'b' => [8 as char]
    case 'f' => [12 as char]
    case _ => ""
  }

  /** The rest of a string, up to and past its closing quote. */
  function ParseChars(c: string, pos: nat, acc: string): (r: Parsed<string>)
    requires pos <= |c|
    ensures r.Ok? ==> pos < r.pos <= |c|
    decreases |c| - pos
  {
    if pos >= |c| then Err(Unclosed)
    else if c[pos] == '"' then Ok(acc, pos + 1, 0)
    else if c[pos] == '\\' then
      if pos + 1 >= |c| then Err(BadEscape)
      else if c[pos + 1] == 'u' then
        var u := UnicodeEscape(c, pos + 2);
        if u.Err? then Err(u.error) else ParseChars(c, u.pos, acc + [u.value])
      else if Simple(c[pos + 1]) == "" then Err(BadEscape)
      else ParseChars(c, pos + 2, acc + Simple(c[pos + 1]))
    else if c[pos] < ' ' then Err(ControlCharacter)
    else ParseChars(c, pos + 1, acc + [c[pos]])
  }

  function DigitsEnd(c: string, pos: nat): (p: nat)
    requires pos <= |c|
    ensures pos <= p <= |c| && forall i | pos <= i < p :: IsDigit(c[i])
    decreases |c| - pos
  {
    if pos < |c| && IsDigit(c[pos]) then DigitsEnd(c, pos + 1) else pos
  }

  function FromDecimal(t: string): nat
    requires forall i | 0 <= i < |t| :: IsDigit(t[i])
  {
    if t == [] then 0
    else
      assert IsDigit(t[|t| - 1]);
      FromDecimal(t[..|t| - 1]) * 10 + (t[|t| - 1] as int - '0' as int)
  }

  function ParseNumber(c: string, pos: nat, nodes: nat): (r: Parsed<Json>)
    requires pos < |c| && (c[pos] == '-' || IsDigit(c[pos]))
    ensures r.Ok? ==> pos < r.pos <= |c| && r.nodes == nodes && r.value.Int?
  {
    var start := if c[pos] == '-' then pos + 1 else pos;
    var end := DigitsEnd(c, start);
    var text := c[pos..end];
    if |text| > 1 && text[0] == '0' then Err(LeadingZero)
    else if c[pos] == '-' then Err(BadNumber)
    else if FromDecimal(text) > U64_MAX then Err(BadNumber)
    else Ok(Int(FromDecimal(text)), end, nodes)
  }

  function ParseWord(c: string, pos: nat, nodes: nat, word: string, v: Json): (r: Parsed<Json>)
    requires pos <= |c| && word != []
    ensures r.Ok? ==> pos < r.pos <= |c| && r.nodes == nodes && r.value == v
  {
    if pos + |word| <= |c| && c[pos..pos + |word|] == word then Ok(v, pos + |word|, nodes) else Err(ExpectedWord)
  }

  function ParseValue(c: string, pos: nat, depth: nat, nodes: nat): (r: Parsed<Json>)
    requires pos <= |c|
    ensures r.Ok? ==> pos < r.pos <= |c|
    decreases |c| - pos, 2
  {
    if nodes + 1 > MAX_NODES then Err(TooManyNodes)
    else
      var p := SkipWs(c, pos);
      if p >= |c| then Err(ExpectedValue)
      else if c[p] == '{' || c[p] == '[' then
        if depth >= MAX_DEPTH then Err(TooDeep)
        else if c[p] == '{' then ParseObject(c, p, depth + 1, nodes + 1)
        else ParseArray(c, p, depth + 1, nodes + 1)
      else if c[p] == '"' then
        var s := ParseChars(c, p + 1, "");
        if s.Err? then Err(s.error) else Ok(Str(s.value), s.pos, nodes + 1)
      else if c[p] == 't' || c[p] == 'f' then
        var t := ParseWord(c, p, nodes + 1, "true", Bool(true));
        if t.Ok? then t else ParseWord(c, p, nodes + 1, "false", Bool(false))
      else if c[p] == 'n' then ParseWord(c, p, nodes + 1, "null", Null)
      else if c[p] == '-' || IsDigit(c[p]) then ParseNumber(c, p, nodes + 1)
      else Err(ExpectedValue)
  }

  function ParseArray(c: string, pos: nat, depth: nat, nodes: nat): (r: Parsed<Json>)
    requires pos < |c|
    ensures r.Ok? ==> pos < r.pos <= |c|
    decreases |c| - pos, 1
  {
    var p := SkipWs(c, pos + 1);
    if p < |c| && c[p] == ']' then Ok(Array([]), p + 1, nodes) else ParseItems(c, p, depth, nodes, [])
  }

  function ParseItems(c: string, pos: nat, depth: nat, nodes: nat, items: seq<Json>): (r: Parsed<Json>)
    requires pos <= |c|
    ensures r.Ok? ==> pos < r.pos <= |c|
    decreases |c| - pos, 3
  {
    var v := ParseValue(c, pos, depth, nodes);
    if v.Err? then Err(v.error)
    else
      var p := SkipWs(c, v.pos);
      if p < |c| && c[p] == ',' then ParseItems(c, p + 1, depth, v.nodes, items + [v.value])
      else if p < |c| && c[p] == ']' then Ok(Array(items + [v.value]), p + 1, v.nodes)
      else Err(ExpectedComma)
  }

  function ParseObject(c: string, pos: nat, depth: nat, nodes: nat): (r: Parsed<Json>)
    requires pos < |c|
    ensures r.Ok? ==> pos < r.pos <= |c|
    decreases |c| - pos, 1
  {
    var p := SkipWs(c, pos + 1);
    if p < |c| && c[p] == '}' then Ok(Object([]), p + 1, nodes) else ParseFields(c, p, depth, nodes, [])
  }

  function Keys(fields: seq<Field>): (k: seq<string>)
    ensures |k| == |fields| && forall i | 0 <= i < |k| :: k[i] == fields[i].key
  {
    seq(|fields|, i requires 0 <= i < |fields| => fields[i].key)
  }

  /** A key not seen yet, a colon and a value. */
  function ParseField(c: string, pos: nat, depth: nat, nodes: nat, seen: seq<string>): (r: Parsed<Field>)
    requires pos <= |c|
    ensures r.Ok? ==> pos < r.pos <= |c|
    decreases |c| - pos, 2
  {
    var k := SkipWs(c, pos);
    if k >= |c| || c[k] != '"' then Err(ExpectedKey)
    else
      var key := ParseChars(c, k + 1, "");
      if key.Err? then Err(key.error)
      else if key.value in seen then Err(DuplicateKey)
      else
        var q := SkipWs(c, key.pos);
        if q >= |c| || c[q] != ':' then Err(ExpectedColon)
        else
          var v := ParseValue(c, q + 1, depth, nodes);
          if v.Err? then Err(v.error) else Ok(Field(key.value, v.value), v.pos, v.nodes)
  }

  function ParseFields(c: string, pos: nat, depth: nat, nodes: nat, fields: seq<Field>): (r: Parsed<Json>)
    requires pos <= |c|
    ensures r.Ok? ==> pos < r.pos <= |c|
    decreases |c| - pos, 3
  {
    var f := ParseField(c, pos, depth, nodes, Keys(fields));
    if f.Err? then Err(f.error)
    else
      var p := SkipWs(c, f.pos);
      if p < |c| && c[p] == ',' then ParseFields(c, p + 1, depth, f.nodes, fields + [f.value])
      else if p < |c| && c[p] == '}' then Ok(Object(fields + [f.value]), p + 1, f.nodes)
      else Err(ExpectedComma)
  }

  datatype Outcome = Accepted(v: Json) | Refused(error: Error) | Trailing

  function Parse(c: string): Outcome {
    var v := ParseValue(c, SkipWs(c, 0), 0, 0);
    if v.Err? then Refused(v.error)
    else if SkipWs(c, v.pos) != |c| then Trailing
    else Accepted(v.value)
  }

  // ---- limits ----

  function Max(a: nat, b: nat): nat {
    if a < b then b else a
  }

  /** How deep containers nest. */
  function Depth(v: Json): nat
    decreases v
  {
    match v
    case Array(items) => 1 + DepthItems(items)
    case Object(fields) => 1 + DepthFields(fields)
    case _ => 0
  }

  function DepthItems(items: seq<Json>): nat
    decreases items
  {
    if items == [] then 0 else Max(Depth(items[0]), DepthItems(items[1..]))
  }

  function DepthFields(fields: seq<Field>): nat
    decreases fields
  {
    if fields == [] then 0 else Max(Depth(fields[0].value), DepthFields(fields[1..]))
  }

  function Nodes(v: Json): nat
    decreases v
  {
    match v
    case Array(items) => 1 + NodesItems(items)
    case Object(fields) => 1 + NodesFields(fields)
    case _ => 1
  }

  function NodesItems(items: seq<Json>): nat
    decreases items
  {
    if items == [] then 0 else Nodes(items[0]) + NodesItems(items[1..])
  }

  function NodesFields(fields: seq<Field>): nat
    decreases fields
  {
    if fields == [] then 0 else Nodes(fields[0].value) + NodesFields(fields[1..])
  }

  /** No object names a key twice. */
  predicate DistinctKeys(v: Json)
    decreases v
  {
    match v
    case Array(items) => forall i | 0 <= i < |items| :: DistinctKeys(items[i])
    case Object(fields) =>
      (forall i, j | 0 <= i < j < |fields| :: fields[i].key != fields[j].key) && forall i | 0 <= i < |fields| :: DistinctKeys(fields[i].value)
    case _ => true
  }

  predicate WithinLimits(v: Json) {
    Depth(v) <= MAX_DEPTH && Nodes(v) <= MAX_NODES && DistinctKeys(v)
  }

  // ---- text at a position ----

  predicate At(c: string, pos: nat, t: string) {
    pos + |t| <= |c| && c[pos..pos + |t|] == t
  }

  lemma {:induction false} AtSplit(c: string, pos: nat, a: string, b: string)
    requires At(c, pos, a + b)
    ensures At(c, pos, a) && At(c, pos + |a|, b)
  {
    assert c[pos..pos + |a|] == c[pos..pos + |a + b|][..|a|];
    assert c[pos + |a|..pos + |a| + |b|] == c[pos..pos + |a + b|][|a|..];
  }

  lemma {:induction false} AtChar(c: string, pos: nat, t: string, i: nat)
    requires At(c, pos, t) && i < |t|
    ensures pos + |t| <= |c| && c[pos + i] == t[i]
  {
    assert c[pos + i] == c[pos..pos + |t|][i];
  }

  // ---- strings ----

  lemma {:induction false} HexRead(d: nat)
    requires d < 16
    ensures HexValue(HexDigit(d)) == d
  {}

  /** One escaped character reads back as itself. */
  lemma {:induction false} CharReads(c: string, pos: nat, ch: char, acc: string)
    requires At(c, pos, EscapeChar(ch))
    ensures ParseChars(c, pos, acc) == ParseChars(c, pos + |EscapeChar(ch)|, acc + [ch])
  {
    var t := EscapeChar(ch);
    AtChar(c, pos, t, 0);
    if |t| == 2 {
      AtChar(c, pos, t, 1);
    } else if ch < ' ' {
      ControlReads(c, pos, ch, acc);
    }
  }

  lemma {:induction false} ControlReads(c: string, pos: nat, ch: char, acc: string)
    requires At(c, pos, EscapeChar(ch)) && ch < ' ' && |EscapeChar(ch)| != 2
    ensures ParseChars(c, pos, acc) == ParseChars(c, pos + |EscapeChar(ch)|, acc + [ch])
  {
    hide UnicodeEscape, HexDigit;
    var t := EscapeChar(ch);
    var n := ch as int;
    assert |t| == 6;
    forall i | 0 <= i < 6 ensures c[pos + i] == t[i] { AtChar(c, pos, t, i); }
    assert c[pos + 2] == '0' && c[pos + 3] == '0' && c[pos + 4] == HexDigit(n / 16) && c[pos + 5] == HexDigit(n % 16);
    ControlEscape(c, pos + 2, ch);
  }

  /** Two zeros and the two hex digits of a control character read as that character. */
  lemma {:induction false} ControlEscape(c: string, pos: nat, ch: char)
    requires pos + 4 <= |c| && ch < ' ' && c[pos] == '0' && c[pos + 1] == '0'
    requires c[pos + 2] == HexDigit(ch as int / 16) && c[pos + 3] == HexDigit(ch as int % 16)
    ensures UnicodeEscape(c, pos) == Ok(ch, pos + 4, 0)
  {
    var n := ch as int;
    assert HexValue('0') == 0;
    HexRead(n / 16);
    HexRead(n % 16);
    hide HexValue, HexDigit;
    forall i | pos <= i < pos + 4 ensures HexValue(c[i]) >= 0 {
      assert i == pos || i == pos + 1 || i == pos + 2 || i == pos + 3;
    }
    assert n == n / 16 * 16 + n % 16;
  }

  lemma {:induction false} CloseReads(c: string, pos: nat, acc: string)
    requires pos < |c| && c[pos] == '"'
    ensures ParseChars(c, pos, acc) == Ok(acc, pos + 1, 0)
  {}

  lemma {:induction false} EscapeReads(c: string, pos: nat, s: string, acc: string)
    requires At(c, pos, Escape(s) + "\"")
    ensures ParseChars(c, pos, acc) == Ok(acc + s, pos + |Escape(s)| + 1, 0)
    decreases |s|
  {
    hide ParseChars, EscapeChar;
    AtSplit(c, pos, Escape(s), "\"");
    if s == [] {
      AtChar(c, pos, "\"", 0);
      CloseReads(c, pos, acc);
      assert acc + s == acc;
    } else {
      var head, tail := EscapeChar(s[0]), Escape(s[1..]);
      assert Escape(s) + "\"" == head + (tail + "\"");
      AtSplit(c, pos, head, tail + "\"");
      CharReads(c, pos, s[0], acc);
      EscapeReads(c, pos + |head|, s[1..], acc + [s[0]]);
      assert acc + [s[0]] + s[1..] == acc + s;
    }
  }

  // ---- numbers ----

  lemma {:induction false} DecimalDigits(n: nat)
    ensures forall i | 0 <= i < |Decimal(n)| :: IsDigit(Decimal(n)[i])
    ensures FromDecimal(Decimal(n)) == n
    ensures n > 0 ==> Decimal(n)[0] != '0'
  {
    var t := Decimal(n);
    if n < 10 {
      assert t[..|t| - 1] == [];
    } else {
      DecimalDigits(n / 10);
      assert t[..|t| - 1] == Decimal(n / 10);
    }
  }

  lemma {:induction false} DigitsStop(c: string, pos: nat, end: nat)
    requires pos <= end <= |c| && (forall i | pos <= i < end :: IsDigit(c[i])) && (end == |c| || !IsDigit(c[end]))
    ensures DigitsEnd(c, pos) == end
    decreases end - pos
  {
    if pos < end { DigitsStop(c, pos + 1, end); }
  }

  lemma {:induction false} NumberReads(c: string, pos: nat, n: U64, nodes: nat)
    requires At(c, pos, Decimal(n))
    requires pos + |Decimal(n)| == |c| || !IsDigit(c[pos + |Decimal(n)|])
    ensures IsDigit(c[pos]) && ParseNumber(c, pos, nodes) == Ok(Int(n), pos + |Decimal(n)|, nodes)
  {
    var t := Decimal(n);
    DecimalDigits(n);
    forall i | pos <= i < pos + |t| ensures IsDigit(c[i]) { AtChar(c, pos, t, i - pos); }
    DigitsStop(c, pos, pos + |t|);
    AtChar(c, pos, t, 0);
  }

  // ---- printing then parsing ----

  /** What follows a number must not continue it. */
  predicate Closed(c: string, end: nat) {
    end == |c| || (end < |c| && !IsDigit(c[end]))
  }

  lemma {:induction false} FirstChar(v: Json)
    ensures Render(v) != [] && !IsSpace(Render(v)[0])
    ensures v.Array? <==> Render(v)[0] == '['
    ensures v.Object? <==> Render(v)[0] == '{'
    ensures v.Str? <==> Render(v)[0] == '"'
    ensures Render(v)[0] != ']' && Render(v)[0] != '}'
  {
    match v
    case Int(n) => DecimalDigits(n);
    case _ =>
  }

  lemma {:induction false} StandsAt(c: string, pos: nat, v: Json)
    requires At(c, pos, Render(v))
    ensures pos < |c| && SkipWs(c, pos) == pos && c[pos] == Render(v)[0] && !IsSpace(c[pos])
  {
    FirstChar(v);
    AtChar(c, pos, Render(v), 0);
  }

  lemma {:induction false} StringReads(s: string, c: string, pos: nat)
    requires At(c, pos, Render(Str(s)))
    ensures pos < |c| && c[pos] == '"' && ParseChars(c, pos + 1, "") == Ok(s, pos + |Render(Str(s))|, 0)
  {
    hide ParseChars, Escape;
    assert Render(Str(s)) == "\"" + (Escape(s) + "\"");
    AtSplit(c, pos, "\"", Escape(s) + "\"");
    EscapeReads(c, pos + 1, s, "");
    assert "" + s == s;
  }

  lemma {:induction false} WordReads(v: Json, c: string, pos: nat, depth: nat, nodes: nat)
    requires (v.Null? || v.Bool?) && At(c, pos, Render(v)) && nodes < MAX_NODES
    ensures ParseValue(c, pos, depth, nodes) == Ok(v, pos + |Render(v)|, nodes + 1)
  {
    hide ParseArray, ParseObject, ParseChars, ParseNumber, RenderItems, RenderFields, Escape, Decimal, SkipWs, DepthItems, DepthFields, NodesItems, NodesFields;
    StandsAt(c, pos, v);
    if v == Bool(false) {
      assert c[pos] == 'f' && "true"[0] == 't';
      assert !At(c, pos, "true") by { NotTrue(c, pos); }
    }
  }

  lemma {:induction false} ValueReads(v: Json, c: string, pos: nat, depth: nat, nodes: nat)
    requires At(c, pos, Render(v)) && Closed(c, pos + |Render(v)|)
    requires depth + Depth(v) <= MAX_DEPTH && nodes + Nodes(v) <= MAX_NODES && DistinctKeys(v)
    ensures ParseValue(c, pos, depth, nodes) == Ok(v, pos + |Render(v)|, nodes + Nodes(v))
    decreases v
  {
    hide ParseArray, ParseObject, ParseChars, ParseNumber, RenderItems, RenderFields, Escape, Decimal, SkipWs, DepthItems, DepthFields, NodesItems, NodesFields;
    StandsAt(c, pos, v);
    FirstChar(v);
    match v {
      case Null => WordReads(v, c, pos, depth, nodes);
      case Bool(b) => WordReads(v, c, pos, depth, nodes);
      case Int(n) => NumberReads(c, pos, n, nodes + 1);
      case Str(s) => StringReads(s, c, pos);
      case Array(items) =>
        assert Render(v) == "[" + (RenderItems(items) + "]");
        AtSplit(c, pos, "[", RenderItems(items) + "]");
        ArrayReads(items, c, pos, depth + 1, nodes + 1);
      case Object(fields) =>
        assert Render(v) == "{" + (RenderFields(fields) + "}");
        AtSplit(c, pos, "{", RenderFields(fields) + "}");
        ObjectReads(fields, c, pos, depth + 1, nodes + 1);
    }
  }

  lemma {:induction false} NotTrue(c: string, pos: nat)
    requires pos < |c| && c[pos] == 'f'
    ensures !At(c, pos, "true")
  {
    if At(c, pos, "true") { AtChar(c, pos, "true", 0); }
  }

  lemma {:induction false} ArrayReads(items: seq<Json>, c: string, pos: nat, depth: nat, nodes: nat)
    requires pos < |c| && At(c, pos + 1, RenderItems(items) + "]")
    requires depth + DepthItems(items) <= MAX_DEPTH && nodes + NodesItems(items) <= MAX_NODES
    requires forall i | 0 <= i < |items| :: DistinctKeys(items[i])
    ensures ParseArray(c, pos, depth, nodes) == Ok(Array(items), pos + 1 + |RenderItems(items)| + 1, nodes + NodesItems(items))
    decreases items, 2
  {
    hide ParseItems, Render, Depth, Nodes, DistinctKeys, DepthItems, NodesItems, At;
    if items == [] {
      EmptyArray();
      AtChar(c, pos + 1, "]", 0);
    } else {
      AtSplit(c, pos + 1, RenderItems(items), "]");
      StandsAtItems(items, c, pos + 1);
      ItemsRead(items, c, pos + 1, depth, nodes, []);
      assert [] + items == items;
    }
  }

  lemma {:induction false} EmptyArray()
    ensures RenderItems([]) + "]" == "]" && RenderItems([]) == "" && DepthItems([]) == 0 && NodesItems([]) == 0
  {}

  lemma {:induction false} StandsAtItems(items: seq<Json>, c: string, pos: nat)
    requires items != [] && At(c, pos, RenderItems(items))
    ensures pos < |c| && SkipWs(c, pos) == pos && c[pos] != ']'
  {
    if |items| > 1 {
      assert RenderItems(items) == Render(items[0]) + ("," + RenderItems(items[1..]));
      AtSplit(c, pos, Render(items[0]), "," + RenderItems(items[1..]));
    }
    StandsAt(c, pos, items[0]);
    FirstChar(items[0]);
  }

  /** Printed items are the first item, then what follows it. */
  lemma {:induction false} ItemsText(items: seq<Json>) returns (more: string)
    requires items != []
    ensures more == if |items| == 1 then "]" else "," + (RenderItems(items[1..]) + "]")
    ensures RenderItems(items) + "]" == Render(items[0]) + more
    ensures DepthItems(items) == Max(Depth(items[0]), DepthItems(items[1..]))
    ensures NodesItems(items) == Nodes(items[0]) + NodesItems(items[1..])
    ensures |items| == 1 ==> NodesItems(items[1..]) == 0
  {
    hide Render, Depth, Nodes;
    more := if |items| == 1 then "]" else "," + (RenderItems(items[1..]) + "]");
    if |items| > 1 {
      assert RenderItems(items) == Render(items[0]) + "," + RenderItems(items[1..]);
    }
  }

  /** After a value, a comma goes on and a bracket ends. */
  lemma {:induction false} ItemsStep(c: string, pos: nat, depth: nat, nodes: nat, done: seq<Json>, v: Json, end: nat, count: nat)
    requires pos <= end < |c| && ParseValue(c, pos, depth, nodes) == Ok(v, end, count)
    ensures c[end] == ',' ==> ParseItems(c, pos, depth, nodes, done) == ParseItems(c, end + 1, depth, count, done + [v])
    ensures c[end] == ']' ==> ParseItems(c, pos, depth, nodes, done) == Ok(Array(done + [v]), end + 1, count)
  {
    hide ParseValue;
  }

  lemma {:induction false} ItemsRead(items: seq<Json>, c: string, pos: nat, depth: nat, nodes: nat, done: seq<Json>)
    requires items != [] && At(c, pos, RenderItems(items) + "]")
    requires depth + DepthItems(items) <= MAX_DEPTH && nodes + NodesItems(items) <= MAX_NODES
    requires forall i | 0 <= i < |items| :: DistinctKeys(items[i])
    ensures ParseItems(c, pos, depth, nodes, done) == Ok(Array(done + items), pos + |RenderItems(items)| + 1, nodes + NodesItems(items))
    decreases items, 1
  {
    hide ParseValue, ParseItems, Render, RenderItems, Depth, Nodes, DistinctKeys, SkipWs, DepthItems, NodesItems, At;
    var end, more := ItemReads(items, c, pos, depth, nodes);
    ItemsStep(c, pos, depth, nodes, done, items[0], end, nodes + Nodes(items[0]));
    if |items| == 1 {
      assert items == [items[0]];
    } else {
      ItemsRead(items[1..], c, end + 1, depth, nodes + Nodes(items[0]), done + [items[0]]);
      assert done + [items[0]] + items[1..] == done + items;
    }
  }

  /** The first printed item reads back, and the text after it stands where it ended. */
  lemma {:induction false} ItemReads(items: seq<Json>, c: string, pos: nat, depth: nat, nodes: nat) returns (end: nat, more: string)
    requires items != [] && At(c, pos, RenderItems(items) + "]")
    requires depth + DepthItems(items) <= MAX_DEPTH && nodes + NodesItems(items) <= MAX_NODES && DistinctKeys(items[0])
    ensures pos <= end < |c| && ParseValue(c, pos, depth, nodes) == Ok(items[0], end, nodes + Nodes(items[0]))
    ensures |items| == 1 ==> c[end] == ']' && end == pos + |RenderItems(items)| && NodesItems(items) == Nodes(items[0])
    ensures |items| > 1 ==> c[end] == ',' && At(c, end + 1, RenderItems(items[1..]) + "]")
    ensures |items| > 1 ==> end + 1 + |RenderItems(items[1..])| == pos + |RenderItems(items)|
    ensures |items| > 1 ==> NodesItems(items) == Nodes(items[0]) + NodesItems(items[1..]) && depth + DepthItems(items[1..]) <= MAX_DEPTH
    decreases items, 0
  {
    hide ParseValue, Render, RenderItems, Depth, Nodes, DistinctKeys, DepthItems, NodesItems, At;
    var first := Render(items[0]);
    more := ItemsText(items);
    AtSplit(c, pos, first, more);
    end := pos + |first|;
    AtChar(c, end, more, 0);
    ValueReads(items[0], c, pos, depth, nodes);
    assert |RenderItems(items) + "]"| == |first + more|;
    if |items| > 1 {
      AtSplit(c, end, ",", RenderItems(items[1..]) + "]");
    }
  }

  lemma {:induction false} ObjectReads(fields: seq<Field>, c: string, pos: nat, depth: nat, nodes: nat)
    requires pos < |c| && At(c, pos + 1, RenderFields(fields) + "}")
    requires depth + DepthFields(fields) <= MAX_DEPTH && nodes + NodesFields(fields) <= MAX_NODES
    requires forall i, j | 0 <= i < j < |fields| :: fields[i].key != fields[j].key
    requires forall i | 0 <= i < |fields| :: DistinctKeys(fields[i].value)
    ensures ParseObject(c, pos, depth, nodes) == Ok(Object(fields), pos + 1 + |RenderFields(fields)| + 1, nodes + NodesFields(fields))
    decreases fields, 1
  {
    hide ParseFields, RenderFields, DistinctKeys, DepthFields, NodesFields, At, SkipWs;
    if fields == [] {
      NoFields();
      AtChar(c, pos + 1, "}", 0);
      NoSpace(c, pos + 1);
    } else {
      var more := FieldsText(fields);
      AtChar(c, pos + 1, RenderFields(fields) + "}", 0);
      NoSpace(c, pos + 1);
      FieldsRead(fields, c, pos + 1, depth, nodes, []);
      assert [] + fields == fields;
    }
  }

  lemma {:induction false} NoSpace(c: string, pos: nat)
    requires pos < |c| && !IsSpace(c[pos])
    ensures SkipWs(c, pos) == pos
  {}

  lemma {:induction false} NoFields()
    ensures RenderFields([]) + "}" == "}" && RenderFields([]) == "" && DepthFields([]) == 0 && NodesFields([]) == 0
  {}

  lemma {:induction false} FieldsStep(c: string, pos: nat, depth: nat, nodes: nat, done: seq<Field>, f: Field, colon: nat, end: nat, count: nat)
    requires pos < colon < end < |c| && c[pos] == '"' && ParseChars(c, pos + 1, "") == Ok(f.key, colon, 0) && c[colon] == ':'
    requires forall i | 0 <= i < |done| :: done[i].key != f.key
    requires ParseValue(c, colon + 1, depth, nodes) == Ok(f.value, end, count)
    ensures c[end] == ',' ==> ParseFields(c, pos, depth, nodes, done) == ParseFields(c, end + 1, depth, count, done + [f])
    ensures c[end] == '}' ==> ParseFields(c, pos, depth, nodes, done) == Ok(Object(done + [f]), end + 1, count)
  {
    hide ParseValue, ParseChars;
    assert f.key !in Keys(done);
    assert f == Field(f.key, f.value);
  }

  lemma {:induction false} FieldsRead(fields: seq<Field>, c: string, pos: nat, depth: nat, nodes: nat, done: seq<Field>)
    requires fields != [] && At(c, pos, RenderFields(fields) + "}")
    requires depth + DepthFields(fields) <= MAX_DEPTH && nodes + NodesFields(fields) <= MAX_NODES
    requires forall i, j | 0 <= i < j < |fields| :: fields[i].key != fields[j].key
    requires forall i, j | 0 <= i < |done| && 0 <= j < |fields| :: done[i].key != fields[j].key
    requires forall i | 0 <= i < |fields| :: DistinctKeys(fields[i].value)
    ensures ParseFields(c, pos, depth, nodes, done) == Ok(Object(done + fields), pos + |RenderFields(fields)| + 1, nodes + NodesFields(fields))
    decreases fields, 0
  {
    hide ParseValue, ParseChars, ParseFields, Render, RenderFields, Depth, Nodes, DistinctKeys, SkipWs, WriteString, DepthFields, NodesFields, At;
    var f := fields[0];
    var more := FieldsText(fields);
    var colon, end := FieldReads(f, c, pos, depth, nodes, more);
    AtChar(c, end, more, 0);
    FieldsStep(c, pos, depth, nodes, done, f, colon, end, nodes + Nodes(f.value));
    if |fields| == 1 {
      assert fields == [f] && fields[1..] == [];
    } else {
      AtSplit(c, end, ",", RenderFields(fields[1..]) + "}");
      FieldsRead(fields[1..], c, end + 1, depth, nodes + Nodes(f.value), done + [f]);
      assert done + [f] + fields[1..] == done + fields;
    }
  }

  /** Printed fields are the first field, then what follows it. */
  lemma {:induction false} FieldsText(fields: seq<Field>) returns (more: string)
    requires fields != []
    ensures more == if |fields| == 1 then "}" else "," + (RenderFields(fields[1..]) + "}")
    ensures RenderFields(fields) + "}" == WriteString(fields[0].key) + ":" + Render(fields[0].value) + more
    ensures RenderFields(fields)[0] == '"'
    ensures DepthFields(fields) == Max(Depth(fields[0].value), DepthFields(fields[1..]))
    ensures NodesFields(fields) == Nodes(fields[0].value) + NodesFields(fields[1..])
    ensures |fields| == 1 ==> NodesFields(fields[1..]) == 0
  {
    hide Render, Escape, Depth, Nodes;
    more := if |fields| == 1 then "}" else "," + (RenderFields(fields[1..]) + "}");
    if |fields| > 1 {
      assert RenderFields(fields) == WriteString(fields[0].key) + ":" + Render(fields[0].value) + "," + RenderFields(fields[1..]);
    }
  }

  lemma {:induction false} Regroup(key: string, value: string, more: string)
    ensures WriteString(key) + ":" + value + more == "\"" + (Escape(key) + "\"") + (":" + (value + more))
    ensures |WriteString(key) + ":" + value| == |Escape(key)| + 3 + |value|
  {
    hide Escape;
    var w := WriteString(key);
    assert w + ":" + value + more == w + (":" + (value + more));
    assert w == "\"" + (Escape(key) + "\"");
  }

  /** One printed field reads back: its key up to the colon, its value up to `end`. */
  lemma {:induction false} FieldReads(f: Field, c: string, pos: nat, depth: nat, nodes: nat, more: string) returns (colon: nat, end: nat)
    requires At(c, pos, WriteString(f.key) + ":" + Render(f.value) + more) && more != [] && !IsDigit(more[0])
    requires depth + Depth(f.value) <= MAX_DEPTH && nodes + Nodes(f.value) <= MAX_NODES && DistinctKeys(f.value)
    ensures pos < colon < end < |c| && c[pos] == '"' && ParseChars(c, pos + 1, "") == Ok(f.key, colon, 0) && c[colon] == ':'
    ensures ParseValue(c, colon + 1, depth, nodes) == Ok(f.value, end, nodes + Nodes(f.value))
    ensures end == pos + |WriteString(f.key) + ":" + Render(f.value)| && At(c, end, more)
    decreases f
  {
    hide ParseValue, ParseChars, Render, Depth, Nodes, DistinctKeys, SkipWs, Escape, WriteString, At;
    var value := Render(f.value);
    Regroup(f.key, value, more);
    colon := KeyReads(c, pos, f.key, ":" + (value + more));
    AtSplit(c, colon, ":", value + more);
    AtChar(c, colon, ":", 0);
    AtSplit(c, colon + 1, value, more);
    end := colon + 1 + |value|;
    AtChar(c, end, more, 0);
    ValueReads(f.value, c, colon + 1, depth, nodes);
  }

  /** A printed key reads back; the text after it stands at the returned position. */
  lemma {:induction false} KeyReads(c: string, pos: nat, key: string, rest: string) returns (p: nat)
    requires At(c, pos, "\"" + (Escape(key) + "\"") + rest)
    ensures p == pos + |Escape(key)| + 2 && pos < |c| && c[pos] == '"' && SkipWs(c, pos) == pos
    ensures ParseChars(c, pos + 1, "") == Ok(key, p, 0) && At(c, p, rest)
  {
    hide Escape, ParseChars;
    p := pos + |Escape(key)| + 2;
    AtSplit(c, pos, "\"" + (Escape(key) + "\""), rest);
    AtSplit(c, pos, "\"", Escape(key) + "\"");
    AtChar(c, pos, "\"", 0);
    EscapeReads(c, pos + 1, key, "");
    assert "" + key == key;
  }

  // ---- what the parser returns is within the limits ----

  lemma {:induction false} DepthAll(items: seq<Json>, limit: nat)
    requires forall i | 0 <= i < |items| :: Depth(items[i]) <= limit
    ensures DepthItems(items) <= limit
  {
    if items != [] { DepthAll(items[1..], limit); }
  }

  lemma {:induction false} DepthAllFields(fields: seq<Field>, limit: nat)
    requires forall i | 0 <= i < |fields| :: Depth(fields[i].value) <= limit
    ensures DepthFields(fields) <= limit
  {
    if fields != [] { DepthAllFields(fields[1..], limit); }
  }

  lemma {:induction false} NodesSnoc(items: seq<Json>, v: Json)
    ensures NodesItems(items + [v]) == NodesItems(items) + Nodes(v)
  {
    if items == [] {
      assert (items + [v])[1..] == [];
    } else {
      NodesSnoc(items[1..], v);
      assert (items + [v])[1..] == items[1..] + [v];
    }
  }

  lemma {:induction false} NodesSnocFields(fields: seq<Field>, f: Field)
    ensures NodesFields(fields + [f]) == NodesFields(fields) + Nodes(f.value)
  {
    if fields == [] {
      assert (fields + [f])[1..] == [];
    } else {
      NodesSnocFields(fields[1..], f);
      assert (fields + [f])[1..] == fields[1..] + [f];
    }
  }

  lemma {:induction false} NoItems()
    ensures RenderItems([]) == "" && DepthItems([]) == 0 && NodesItems([]) == 0
  {}

  lemma {:induction false} ValueWithin(c: string, pos: nat, depth: nat, nodes: nat)
    requires pos <= |c| && depth <= MAX_DEPTH && nodes <= MAX_NODES && ParseValue(c, pos, depth, nodes).Ok?
    ensures var r := ParseValue(c, pos, depth, nodes);
      r.nodes == nodes + Nodes(r.value) && r.nodes <= MAX_NODES && depth + Depth(r.value) <= MAX_DEPTH && DistinctKeys(r.value)
    decreases |c| - pos, 2
  {
    hide ParseItems, ParseFields, ParseChars, SkipWs, NodesItems, NodesFields, DepthItems, DepthFields;
    NoFields();
    NoItems();
    var p := SkipWs(c, pos);
    if c[p] == '[' {
      var q := SkipWs(c, p + 1);
      if !(q < |c| && c[q] == ']') {
        ItemsWithin(c, q, depth + 1, nodes + 1, []);
      }
    } else if c[p] == '{' {
      var q := SkipWs(c, p + 1);
      if !(q < |c| && c[q] == '}') {
        FieldsWithin(c, q, depth + 1, nodes + 1, []);
      }
    }
  }

  lemma {:induction false} ItemsWithin(c: string, pos: nat, depth: nat, nodes: nat, items: seq<Json>)
    requires pos <= |c| && depth <= MAX_DEPTH && nodes <= MAX_NODES && ParseItems(c, pos, depth, nodes, items).Ok?
    requires forall i | 0 <= i < |items| :: depth + Depth(items[i]) <= MAX_DEPTH && DistinctKeys(items[i])
    ensures var r := ParseItems(c, pos, depth, nodes, items);
      r.value.Array? && r.nodes + NodesItems(items) == nodes + NodesItems(r.value.items) && r.nodes <= MAX_NODES
      && depth + DepthItems(r.value.items) <= MAX_DEPTH && DistinctKeys(r.value)
    decreases |c| - pos, 3
  {
    ValueWithin(c, pos, depth, nodes);
    var v := ParseValue(c, pos, depth, nodes);
    var p := SkipWs(c, v.pos);
    var all := items + [v.value];
    NodesSnoc(items, v.value);
    if c[p] == ',' {
      ItemsWithin(c, p + 1, depth, v.nodes, all);
    } else {
      DepthAll(all, MAX_DEPTH - depth);
    }
  }

  /** Fields with distinct keys whose values are in order. */
  predicate FieldsFine(fields: seq<Field>, depth: nat) {
    && (forall i | 0 <= i < |fields| :: depth + Depth(fields[i].value) <= MAX_DEPTH && DistinctKeys(fields[i].value))
    && (forall i, j | 0 <= i < j < |fields| :: fields[i].key != fields[j].key)
  }

  lemma {:induction false} FineSnoc(fields: seq<Field>, depth: nat, f: Field)
    requires FieldsFine(fields, depth) && f.key !in Keys(fields)
    requires depth + Depth(f.value) <= MAX_DEPTH && DistinctKeys(f.value)
    ensures FieldsFine(fields + [f], depth)
  {
    hide Depth, DistinctKeys;
    forall i | 0 <= i < |fields| ensures fields[i].key != f.key { assert Keys(fields)[i] == fields[i].key; }
  }

  lemma {:induction false} ObjectFine(fields: seq<Field>, depth: nat)
    requires depth <= MAX_DEPTH && FieldsFine(fields, depth)
    ensures depth + DepthFields(fields) <= MAX_DEPTH && DistinctKeys(Object(fields))
  {
    DepthAllFields(fields, MAX_DEPTH - depth);
  }

  lemma {:induction false} FieldsWithin(c: string, pos: nat, depth: nat, nodes: nat, fields: seq<Field>)
    requires pos <= |c| && depth <= MAX_DEPTH && nodes <= MAX_NODES && ParseFields(c, pos, depth, nodes, fields).Ok?
    requires FieldsFine(fields, depth)
    ensures var r := ParseFields(c, pos, depth, nodes, fields);
      r.value.Object? && r.nodes + NodesFields(fields) == nodes + NodesFields(r.value.fields) && r.nodes <= MAX_NODES
      && depth + DepthFields(r.value.fields) <= MAX_DEPTH && DistinctKeys(r.value)
    decreases |c| - pos, 3
  {
    hide ParseField, SkipWs, Depth, Nodes, DistinctKeys, FieldsFine, NodesFields, DepthFields;
    var f := ParseField(c, pos, depth, nodes, Keys(fields));
    FieldWithin(c, pos, depth, nodes, Keys(fields));
    var p := SkipWs(c, f.pos);
    NodesSnocFields(fields, f.value);
    FineSnoc(fields, depth, f.value);
    if c[p] == ',' {
      FieldsWithin(c, p + 1, depth, f.nodes, fields + [f.value]);
    } else {
      ObjectFine(fields + [f.value], depth);
    }
  }

  lemma {:induction false} FieldWithin(c: string, pos: nat, depth: nat, nodes: nat, seen: seq<string>)
    requires pos <= |c| && depth <= MAX_DEPTH && nodes <= MAX_NODES && ParseField(c, pos, depth, nodes, seen).Ok?
    ensures var r := ParseField(c, pos, depth, nodes, seen);
      r.nodes == nodes + Nodes(r.value.value) && r.nodes <= MAX_NODES && r.value.key !in seen
      && depth + Depth(r.value.value) <= MAX_DEPTH && DistinctKeys(r.value.value)
    decreases |c| - pos, 2
  {
    hide ParseValue, ParseChars, SkipWs, Depth, Nodes, DistinctKeys;
    var key := ParseChars(c, SkipWs(c, pos) + 1, "");
    ValueWithin(c, SkipWs(c, key.pos) + 1, depth, nodes);
  }

  /** An object naming one key twice is printed and then refused. */
  lemma {:induction false} RepeatedKeyLost(key: string, v: Json, w: Json)
    ensures var twice := Object([Field(key, v), Field(key, w)]); Parse(Render(twice)) != Accepted(twice)
  {
    var twice := Object([Field(key, v), Field(key, w)]);
    RoundTrip(twice);
    assert twice.fields[0].key == twice.fields[1].key;
  }

  /** A value comes back from its own text exactly when it is within the limits. */
  lemma {:induction false} RoundTrip(v: Json)
    ensures Parse(Render(v)) == Accepted(v) <==> WithinLimits(v)
  {
    var c := Render(v);
    assert At(c, 0, c);
    StandsAt(c, 0, v);
    if WithinLimits(v) {
      ValueReads(v, c, 0, 0, 0);
    }
    if Parse(c) == Accepted(v) {
      ValueWithin(c, 0, 0, 0);
    }
  }
}
