/** The text the gateway accepts, as a grammar: the integer-only JSON of RFC 8259, sections 2 to 7.
    The parser accepts exactly the texts the grammar derives, within the limits, and returns what
    they stand for. */
module JsonGrammar {
  import opened Json
  import opened Wrappers

  /** One character of a string: as it is, a backslash and a letter, or four hex digits. */
  datatype Chr = Plain(c: char) | Short(letter: char) | Hex(a: char, b: char, c: char, d: char)

  datatype Tree =
    | Word(v: Json)
    | Number(n: U64)
    | Text(chars: seq<Chr>)
    | List(gap: string, elems: seq<Elem>)
    | Record(gap: string, members: seq<Member>)

  /** White space before and after each element, and around a member's colon. */
  datatype Elem = Elem(before: string, tree: Tree, after: string)
  datatype Member = Member(before: string, key: seq<Chr>, mid: string, gap: string, tree: Tree, after: string)

  // ---- characters ----

  predicate Spaces(s: string) {
    forall i | 0 <= i < |s| :: s[i] == ' ' || s[i] == '\t' || s[i] == '\n' || s[i] == '\r'
  }

  predicate IsHex(c: char) {
    '0' <= c <= '9' || 'a' <= c <= 'f' || 'A' <= c <= 'F'
  }

  function Digit(c: char): nat
    requires IsHex(c)
  {
    if c <= '9' then c as int - 48 else if c <= 'F' then c as int - 55 else c as int - 87
  }

  function Code(a: char, b: char, c: char, d: char): nat
    requires IsHex(a) && IsHex(b) && IsHex(c) && IsHex(d)
  {
    ((Digit(a) * 16 + Digit(b)) * 16 + Digit(c)) * 16 + Digit(d)
  }

  /** The code point a short escape stands for, by the table of section 7. */
  function ShortCode(letter: char): Option<nat> {
    match letter
    case '"' => Some(34)
    case '\\' => Some(92)
    case '/' => Some(47)
    case 'b' => Some(8)
    case 'f' => Some(12)
    case 'n' => Some(10)
    case 'r' => Some(13)
    case 't' => Some(9)
    case _ => None
  }

  predicate OkChr(x: Chr) {
    match x
    case Plain(c) => c as int >= 32 && c != '"' && c != '\\'
    case Short(letter) => ShortCode(letter).Some?
    case Hex(a, b, c, d) => IsHex(a) && IsHex(b) && IsHex(c) && IsHex(d) && !(0xD800 <= Code(a, b, c, d) < 0xE000)
  }

  function ShowChr(x: Chr): (t: string)
    ensures t != []
  {
    match x
    case Plain(c) => [c]
    case Short(letter) => ['\\', letter]
    case Hex(a, b, c, d) => ['\\', 'u', a, b, c, d]
  }

  function MeanChr(x: Chr): char
    requires OkChr(x)
  {
    match x
    case Plain(c) => c
    case Short(letter) => ShortCode(letter).value as char
    case Hex(a, b, c, d) => Code(a, b, c, d) as char
  }

  predicate OkChars(s: seq<Chr>) {
    forall i | 0 <= i < |s| :: OkChr(s[i])
  }

  function ShowChars(s: seq<Chr>): string {
    if s == [] then "" else ShowChr(s[0]) + ShowChars(s[1..])
  }

  function MeanChars(s: seq<Chr>): (t: string)
    requires OkChars(s)
    ensures |t| == |s|
  {
    seq(|s|, i requires 0 <= i < |s| => MeanChr(s[i]))
  }

  lemma {:induction false} HexDigits(c: char)
    ensures HexValue(c) >= 0 <==> IsHex(c)
    ensures IsHex(c) ==> HexValue(c) == Digit(c)
  {
  }

  lemma {:induction false} ShortMeans(letter: char)
    ensures Simple(letter) == "" <==> ShortCode(letter).None?
    ensures ShortCode(letter).Some? ==> Simple(letter) == [ShortCode(letter).value as char]
  {
  }

  /** One character of a string, read at `pos`. */
  lemma {:induction false} ChrReads(c: string, pos: nat, x: Chr, acc: string)
    requires At(c, pos, ShowChr(x)) && OkChr(x)
    ensures pos + |ShowChr(x)| <= |c|
    ensures ParseChars(c, pos, acc) == ParseChars(c, pos + |ShowChr(x)|, acc + [MeanChr(x)])
  {
    var t := ShowChr(x);
    AtChar(c, pos, t, 0);
    match x {
      case Plain(ch) =>
      case Short(letter) =>
        AtChar(c, pos, t, 1);
        ShortMeans(letter);
      case Hex(h, i, j, k) =>
        AtChar(c, pos, t, 1); AtChar(c, pos, t, 2); AtChar(c, pos, t, 3); AtChar(c, pos, t, 4); AtChar(c, pos, t, 5);
        HexReads(c, pos + 2, h, i, j, k);
    }
  }

  lemma {:induction false} HexReads(c: string, pos: nat, h: char, i: char, j: char, k: char)
    requires pos + 4 <= |c| && c[pos] == h && c[pos + 1] == i && c[pos + 2] == j && c[pos + 3] == k
    ensures UnicodeEscape(c, pos).Ok? <==> IsHex(h) && IsHex(i) && IsHex(j) && IsHex(k) && !(0xD800 <= Code(h, i, j, k) < 0xE000)
    ensures UnicodeEscape(c, pos).Ok? ==> UnicodeEscape(c, pos) == Parsed.Ok(Code(h, i, j, k) as char, pos + 4, 0)
  {
    HexDigits(h);
    HexDigits(i);
    HexDigits(j);
    HexDigits(k);
    if IsHex(h) && IsHex(i) && IsHex(j) && IsHex(k) {
      forall x | pos <= x < pos + 4 ensures HexValue(c[x]) >= 0 {}
    } else {
      assert HexValue(c[pos]) < 0 || HexValue(c[pos + 1]) < 0 || HexValue(c[pos + 2]) < 0 || HexValue(c[pos + 3]) < 0;
    }
  }

  lemma {:induction false} CharsRead(c: string, pos: nat, s: seq<Chr>, acc: string)
    requires At(c, pos, ShowChars(s) + "\"") && OkChars(s)
    ensures pos + |ShowChars(s)| < |c|
    ensures ParseChars(c, pos, acc) == Parsed.Ok(acc + MeanChars(s), pos + |ShowChars(s)| + 1, 0)
    decreases |s|
  {
    hide ParseChars, ShowChr, MeanChr, OkChr, At;
    if s == [] {
      assert ShowChars(s) + "\"" == "\"";
      AtChar(c, pos, "\"", 0);
      QuoteEnds(c, pos, acc);
      assert acc + MeanChars(s) == acc;
    } else {
      assert ShowChars(s) + "\"" == ShowChr(s[0]) + (ShowChars(s[1..]) + "\"");
      AtSplit(c, pos, ShowChr(s[0]), ShowChars(s[1..]) + "\"");
      ChrReads(c, pos, s[0], acc);
      CharsRead(c, pos + |ShowChr(s[0])|, s[1..], acc + [MeanChr(s[0])]);
      assert acc + [MeanChr(s[0])] + MeanChars(s[1..]) == acc + MeanChars(s);
    }
  }

  lemma {:induction false} QuoteEnds(c: string, pos: nat, acc: string)
    requires pos < |c| && c[pos] == '"'
    ensures ParseChars(c, pos, acc) == Parsed.Ok(acc, pos + 1, 0)
  {
  }

  /** What an accepted string spells. */
  lemma {:induction false} CharsOf(c: string, pos: nat, acc: string) returns (s: seq<Chr>)
    requires pos <= |c| && ParseChars(c, pos, acc).Ok?
    ensures var r := ParseChars(c, pos, acc);
      OkChars(s) && c[pos..r.pos] == ShowChars(s) + "\"" && r.value == acc + MeanChars(s) && r.nodes == 0
    decreases |c| - pos
  {
    hide ParseChars, ShowChr, MeanChr, OkChr;
    var r := ParseChars(c, pos, acc);
    if c[pos] == '"' {
      QuoteEnds(c, pos, acc);
      s := [];
      assert acc + MeanChars(s) == acc;
    } else {
      var x := ChrOf(c, pos, acc);
      var next := pos + |ShowChr(x)|;
      var rest := CharsOf(c, next, acc + [MeanChr(x)]);
      s := [x] + rest;
      assert s[1..] == rest;
      assert acc + [MeanChr(x)] + MeanChars(rest) == acc + MeanChars(s);
      assert c[pos..r.pos] == c[pos..next] + c[next..r.pos];
    }
  }

  lemma {:induction false} ChrOf(c: string, pos: nat, acc: string) returns (x: Chr)
    requires pos < |c| && c[pos] != '"' && ParseChars(c, pos, acc).Ok?
    ensures OkChr(x) && pos + |ShowChr(x)| <= |c| && c[pos..pos + |ShowChr(x)|] == ShowChr(x)
    ensures ParseChars(c, pos, acc) == ParseChars(c, pos + |ShowChr(x)|, acc + [MeanChr(x)])
  {
    hide UnicodeEscape, Simple;
    if c[pos] != '\\' {
      x := Plain(c[pos]);
      assert c[pos..pos + 1] == [c[pos]];
    } else if c[pos + 1] == 'u' {
      x := Hex(c[pos + 2], c[pos + 3], c[pos + 4], c[pos + 5]);
      HexReads(c, pos + 2, c[pos + 2], c[pos + 3], c[pos + 4], c[pos + 5]);
      assert c[pos..pos + 6] == [c[pos], c[pos + 1], c[pos + 2], c[pos + 3], c[pos + 4], c[pos + 5]];
    } else {
      x := Short(c[pos + 1]);
      ShortMeans(c[pos + 1]);
      assert c[pos..pos + 2] == [c[pos], c[pos + 1]];
    }
  }

  // ---- values ----

  predicate OkTree(t: Tree)
    decreases t
  {
    match t
    case Word(v) => v == Null || v.Bool?
    case Number(n) => true
    case Text(chars) => OkChars(chars)
    case List(gap, elems) => Spaces(gap) && forall i | 0 <= i < |elems| :: OkElem(elems[i])
    case Record(gap, members) => Spaces(gap) && forall i | 0 <= i < |members| :: OkMember(members[i])
  }

  predicate OkElem(e: Elem)
    decreases e
  {
    Spaces(e.before) && OkTree(e.tree) && Spaces(e.after)
  }

  predicate OkMember(m: Member)
    decreases m
  {
    Spaces(m.before) && OkChars(m.key) && Spaces(m.mid) && Spaces(m.gap) && OkTree(m.tree) && Spaces(m.after)
  }

  function Show(t: Tree): string
    decreases t
  {
    match t
    case Word(v) => if v.Bool? then if v.b then "true" else "false" else "null"
    case Number(n) => Decimal(n)
    case Text(chars) => "\"" + (ShowChars(chars) + "\"")
    case List(gap, elems) => "[" + (if elems == [] then gap + "]" else ShowElems(elems))
    case Record(gap, members) => "{" + (if members == [] then gap + "}" else ShowMembers(members))
  }

  /** Elements, commas between them, and the closing bracket. */
  function ShowElems(elems: seq<Elem>): string
    decreases elems
  {
    if elems == [] then "]"
    else elems[0].before + (Show(elems[0].tree) + (elems[0].after + if |elems| == 1 then "]" else "," + ShowElems(elems[1..])))
  }

  function ShowMembers(members: seq<Member>): string
    decreases members
  {
    if members == [] then "}"
    else
      var m := members[0];
      m.before + ("\"" + (ShowChars(m.key) + "\"" + (m.mid + (":" + (m.gap + (Show(m.tree) + (m.after + if |members| == 1 then "}" else "," + ShowMembers(members[1..]))))))))
  }

  /** What a text stands for. */
  function Mean(t: Tree): Json
    requires OkTree(t)
    decreases t
  {
    match t
    case Word(v) => v
    case Number(n) => Int(n)
    case Text(chars) => Str(MeanChars(chars))
    case List(gap, elems) => Array(MeanElems(elems))
    case Record(gap, members) => Object(MeanMembers(members))
  }

  function MeanElems(elems: seq<Elem>): (items: seq<Json>)
    requires forall i | 0 <= i < |elems| :: OkElem(elems[i])
    ensures |items| == |elems|
    decreases elems
  {
    if elems == [] then []
    else
      assert OkElem(elems[0]);
      [Mean(elems[0].tree)] + MeanElems(elems[1..])
  }

  function MeanMembers(members: seq<Member>): (fields: seq<Field>)
    requires forall i | 0 <= i < |members| :: OkMember(members[i])
    ensures |fields| == |members|
    decreases members
  {
    if members == [] then []
    else
      assert OkMember(members[0]);
      [Field(MeanChars(members[0].key), Mean(members[0].tree))] + MeanMembers(members[1..])
  }

  // ---- joining ----

  lemma {:induction false} Join3(a: string, b: string, c: string)
    ensures a + (b + c) == a + b + c && |a + (b + c)| == |a| + |b| + |c|
  {}

  lemma {:induction false} Join4(a: string, b: string, c: string, d: string)
    ensures a + (b + (c + d)) == a + b + (c + d) && |a + (b + (c + d))| == |a| + |b| + |c| + |d|
  {}

  // ---- white space ----

  /** At the end, or at something that is not white space. */
  predicate Solid(c: string, pos: nat) {
    pos == |c| || (pos < |c| && !IsSpace(c[pos]))
  }

  lemma {:induction false} SkipsSpaces(c: string, pos: nat, gap: string)
    requires At(c, pos, gap) && Spaces(gap) && Solid(c, pos + |gap|)
    ensures pos + |gap| <= |c| && SkipWs(c, pos) == pos + |gap|
    decreases |gap|
  {
    hide At, SkipWs;
    if gap == [] {
      AtEnd(c, pos, gap);
      SolidStays(c, pos);
    } else {
      AtChar(c, pos, gap, 0);
      assert gap == gap[..1] + gap[1..];
      AtSplit(c, pos, gap[..1], gap[1..]);
      SkipsSpaces(c, pos + 1, gap[1..]);
      SkipsOne(c, pos);
    }
  }

  lemma {:induction false} AtEnd(c: string, pos: nat, t: string)
    requires At(c, pos, t)
    ensures pos + |t| <= |c|
  {}

  lemma {:induction false} SkipsOne(c: string, pos: nat)
    requires pos < |c| && IsSpace(c[pos])
    ensures SkipWs(c, pos) == SkipWs(c, pos + 1)
  {}

  lemma {:induction false} SolidStays(c: string, pos: nat)
    requires Solid(c, pos)
    ensures SkipWs(c, pos) == pos
  {}

  /** What is skipped is white space, up to something solid. */
  lemma {:induction false} SkippedIsSpace(c: string, pos: nat)
    requires pos <= |c|
    ensures Spaces(c[pos..SkipWs(c, pos)]) && Solid(c, SkipWs(c, pos))
    decreases |c| - pos
  {
    if pos < |c| && IsSpace(c[pos]) {
      SkippedIsSpace(c, pos + 1);
      var end := SkipWs(c, pos);
      assert c[pos..end] == [c[pos]] + c[pos + 1..end];
    }
  }

  // ---- the parser accepts what the grammar derives ----

  lemma {:induction false} FirstOf(t: Tree)
    requires OkTree(t)
    ensures Show(t) != [] && !IsSpace(Show(t)[0]) && Show(t)[0] != ']' && Show(t)[0] != '}'
    ensures t.List? <==> Show(t)[0] == '['
    ensures t.Record? <==> Show(t)[0] == '{'
    ensures t.Text? <==> Show(t)[0] == '"'
  {
    hide ShowElems, ShowMembers, ShowChars;
    if t.Number? { DecimalDigits(t.n); }
  }

  /** A word, number or string, standing where white space ended. */
  lemma {:induction false} ScalarReads(t: Tree, c: string, pos: nat, depth: nat, nodes: nat)
    requires OkTree(t) && !t.List? && !t.Record? && At(c, pos, Show(t)) && Closed(c, pos + |Show(t)|) && nodes < MAX_NODES
    ensures pos <= |c| && ParseValue(c, pos, depth, nodes) == Parsed.Ok(Mean(t), pos + |Show(t)|, nodes + 1)
  {
    match t {
      case Word(v) =>
        assert Render(v) == Show(t);
        WordReads(v, c, pos, depth, nodes);
      case Number(n) => NumberIsRead(c, pos, n, depth, nodes);
      case Text(chars) => TextIsRead(c, pos, chars, depth, nodes);
    }
  }

  lemma {:induction false} NumberIsRead(c: string, pos: nat, n: U64, depth: nat, nodes: nat)
    requires At(c, pos, Decimal(n)) && Closed(c, pos + |Decimal(n)|) && nodes < MAX_NODES
    ensures pos <= |c| && ParseValue(c, pos, depth, nodes) == Parsed.Ok(Int(n), pos + |Decimal(n)|, nodes + 1)
  {
    hide ParseNumber, Decimal, ParseArray, ParseObject, ParseChars, SkipWs;
    AtEnd(c, pos, Decimal(n));
    NumberReads(c, pos, n, nodes + 1);
    SolidStays(c, pos);
  }

  lemma {:induction false} TextIsRead(c: string, pos: nat, chars: seq<Chr>, depth: nat, nodes: nat)
    requires OkChars(chars) && At(c, pos, "\"" + (ShowChars(chars) + "\"")) && nodes < MAX_NODES
    ensures pos <= |c| && ParseValue(c, pos, depth, nodes) == Parsed.Ok(Str(MeanChars(chars)), pos + |ShowChars(chars)| + 2, nodes + 1)
  {
    hide ParseNumber, ParseArray, ParseObject, ParseChars, SkipWs, ShowChars, MeanChars, At;
    AtChar(c, pos, "\"" + (ShowChars(chars) + "\""), 0);
    AtSplit(c, pos, "\"", ShowChars(chars) + "\"");
    CharsRead(c, pos + 1, chars, "");
    assert "" + MeanChars(chars) == MeanChars(chars);
    SolidStays(c, pos);
  }

  /** White space before a value does not matter to the parser. */
  lemma {:induction false} SpaceBefore(c: string, pos: nat, gap: string, depth: nat, nodes: nat)
    requires At(c, pos, gap) && Spaces(gap) && Solid(c, pos + |gap|)
    ensures pos + |gap| <= |c| && ParseValue(c, pos, depth, nodes) == ParseValue(c, pos + |gap|, depth, nodes)
  {
    hide SkipWs, ParseArray, ParseObject, ParseChars, ParseNumber, At;
    SkipsSpaces(c, pos, gap);
    SolidStays(c, pos + |gap|);
  }

  /** A derived text, standing anywhere, reads back as what it stands for. */
  lemma {:induction false} TreeReads(t: Tree, gap: string, c: string, pos: nat, depth: nat, nodes: nat)
    requires OkTree(t) && Spaces(gap) && At(c, pos, gap + Show(t)) && Closed(c, pos + |gap| + |Show(t)|)
    requires depth + Depth(Mean(t)) <= MAX_DEPTH && nodes + Nodes(Mean(t)) <= MAX_NODES && DistinctKeys(Mean(t))
    ensures pos <= |c| && ParseValue(c, pos, depth, nodes) == Parsed.Ok(Mean(t), pos + |gap| + |Show(t)|, nodes + Nodes(Mean(t)))
    decreases t, 2
  {
    hide Show, ParseValue, At, OkTree, Mean, Depth, Nodes, DistinctKeys;
    AtSplit(c, pos, gap, Show(t));
    FirstOf(t);
    AtChar(c, pos + |gap|, Show(t), 0);
    SpaceBefore(c, pos, gap, depth, nodes);
    var at := pos + |gap|;
    if t.List? {
      ListReads(t, c, at, depth, nodes);
    } else if t.Record? {
      RecordReads(t, c, at, depth, nodes);
    } else {
      OneNode(t);
      ScalarReads(t, c, at, depth, nodes);
    }
  }

  lemma {:induction false} OneNode(t: Tree)
    requires OkTree(t) && !t.List? && !t.Record?
    ensures Nodes(Mean(t)) == 1
  {
  }

  lemma {:induction false} ListReads(t: Tree, c: string, pos: nat, depth: nat, nodes: nat)
    requires OkTree(t) && t.List? && At(c, pos, Show(t))
    requires depth + Depth(Mean(t)) <= MAX_DEPTH && nodes + Nodes(Mean(t)) <= MAX_NODES && DistinctKeys(Mean(t))
    ensures pos <= |c| && ParseValue(c, pos, depth, nodes) == Parsed.Ok(Mean(t), pos + |Show(t)|, nodes + Nodes(Mean(t)))
    decreases t, 1
  {
    hide ParseValue, ParseArray, At, ShowElems, MeanElems, DepthItems, NodesItems, SkipWs;
    AtChar(c, pos, Show(t), 0);
    OpensArray(c, pos, depth, nodes);
    var rest := if t.elems == [] then t.gap + "]" else ShowElems(t.elems);
    AtSplit(c, pos, "[", rest);
    if t.elems == [] {
      AtSplit(c, pos + 1, t.gap, "]");
      AtChar(c, pos + 1 + |t.gap|, "]", 0);
      SkipsSpaces(c, pos + 1, t.gap);
      EmptyList(c, pos, depth + 1, nodes + 1);
      NoElems();
    } else {
      assert forall i | 0 <= i < |t.elems| :: DistinctKeys(MeanElems(t.elems)[i]);
      ElemsInArray(t.elems, c, pos, depth + 1, nodes + 1);
    }
  }

  lemma {:induction false} OpensArray(c: string, pos: nat, depth: nat, nodes: nat)
    requires pos < |c| && c[pos] == '[' && depth < MAX_DEPTH && nodes < MAX_NODES
    ensures ParseValue(c, pos, depth, nodes) == ParseArray(c, pos, depth + 1, nodes + 1)
  {
    hide ParseArray, SkipWs;
    SolidStays(c, pos);
  }

  lemma {:induction false} ElemsInArray(elems: seq<Elem>, c: string, pos: nat, depth: nat, nodes: nat)
    requires elems != [] && (forall i | 0 <= i < |elems| :: OkElem(elems[i])) && pos < |c| && At(c, pos + 1, ShowElems(elems))
    requires depth + DepthItems(MeanElems(elems)) <= MAX_DEPTH && nodes + NodesItems(MeanElems(elems)) <= MAX_NODES
    requires forall i | 0 <= i < |elems| :: DistinctKeys(MeanElems(elems)[i])
    ensures ParseArray(c, pos, depth, nodes) ==
      Parsed.Ok(Array(MeanElems(elems)), pos + 1 + |ShowElems(elems)|, nodes + NodesItems(MeanElems(elems)))
    decreases elems, 2
  {
    hide ParseItems, ParseArray, SkipWs, At, ShowElems, MeanElems, DepthItems, NodesItems, DistinctKeys;
    assert OkElem(elems[0]);
    var at := ElemsStart(elems, c, pos + 1);
    ListStarts(c, pos, depth, nodes, at);
    ElemsRead(elems, c, pos + 1, depth, nodes, []);
    ItemsSkipSpace(c, pos + 1, at, depth, nodes, []);
    assert [] + MeanElems(elems) == MeanElems(elems);
  }

  lemma {:induction false} NoElems()
    ensures MeanElems([]) == [] && NodesItems([]) == 0
  {}

  lemma {:induction false} EmptyList(c: string, pos: nat, depth: nat, nodes: nat)
    requires pos < |c| && SkipWs(c, pos + 1) < |c| && c[SkipWs(c, pos + 1)] == ']'
    ensures ParseArray(c, pos, depth, nodes) == Parsed.Ok(Array([]), SkipWs(c, pos + 1) + 1, nodes)
  {
    hide SkipWs;
  }

  lemma {:induction false} ListStarts(c: string, pos: nat, depth: nat, nodes: nat, at: nat)
    requires pos < |c| && SkipWs(c, pos + 1) == at < |c| && c[at] != ']'
    ensures ParseArray(c, pos, depth, nodes) == ParseItems(c, at, depth, nodes, [])
  {
    hide SkipWs, ParseItems;
  }

  /** Where the first element begins. */
  lemma {:induction false} ElemsStart(elems: seq<Elem>, c: string, pos: nat) returns (at: nat)
    requires elems != [] && OkElem(elems[0]) && At(c, pos, ShowElems(elems))
    ensures pos <= at < |c| && SkipWs(c, pos) == at && c[at] != ']' && Solid(c, at)
    ensures at == pos + |elems[0].before| && At(c, pos, elems[0].before)
  {
    hide At, SkipWs, Show, OkTree;
    var e := elems[0];
    var tail := e.after + if |elems| == 1 then "]" else "," + ShowElems(elems[1..]);
    assert ShowElems(elems) == e.before + (Show(e.tree) + tail);
    AtSplit(c, pos, e.before, Show(e.tree) + tail);
    at := pos + |e.before|;
    FirstOf(e.tree);
    AtChar(c, at, Show(e.tree) + tail, 0);
    SkipsSpaces(c, pos, e.before);
  }

  lemma {:induction false} ItemsSkipSpace(c: string, pos: nat, at: nat, depth: nat, nodes: nat, items: seq<Json>)
    requires pos <= at <= |c| && SkipWs(c, pos) == at && Solid(c, at)
    ensures ParseItems(c, pos, depth, nodes, items) == ParseItems(c, at, depth, nodes, items)
  {
    hide SkipWs;
    SolidStays(c, at);
    SameValue(c, pos, at, depth, nodes);
  }

  lemma {:induction false} SameValue(c: string, pos: nat, at: nat, depth: nat, nodes: nat)
    requires pos <= at <= |c| && SkipWs(c, pos) == SkipWs(c, at)
    ensures ParseValue(c, pos, depth, nodes) == ParseValue(c, at, depth, nodes)
  {
    hide SkipWs, ParseArray, ParseObject, ParseChars, ParseNumber;
  }

  /** Elements and the closing bracket, with what was read before. */
  lemma {:induction false} ElemsRead(elems: seq<Elem>, c: string, pos: nat, depth: nat, nodes: nat, done: seq<Json>)
    requires elems != [] && (forall i | 0 <= i < |elems| :: OkElem(elems[i])) && At(c, pos, ShowElems(elems))
    requires depth + DepthItems(MeanElems(elems)) <= MAX_DEPTH && nodes + NodesItems(MeanElems(elems)) <= MAX_NODES
    requires forall i | 0 <= i < |elems| :: DistinctKeys(MeanElems(elems)[i])
    ensures pos <= |c|
    ensures ParseItems(c, pos, depth, nodes, done) ==
      Parsed.Ok(Array(done + MeanElems(elems)), pos + |ShowElems(elems)|, nodes + NodesItems(MeanElems(elems)))
    decreases elems, 1
  {
    hide At, SkipWs, Show, OkTree, Mean, ParseValue, ParseItems, Depth, Nodes, DistinctKeys;
    var e, rest := elems[0], elems[1..];
    var end := ElemReads(elems, c, pos, depth, nodes);
    var v := Mean(e.tree);
    ElemsSplit(elems);
    ItemsNext(c, pos, depth, nodes, done, v, pos + |e.before| + |Show(e.tree)|, nodes + Nodes(v), end);
    if |elems| == 1 {
      assert done + [v] == done + MeanElems(elems);
    } else {
      assert forall i | 0 <= i < |rest| :: MeanElems(rest)[i] == MeanElems(elems)[i + 1];
      ElemsRead(rest, c, end + 1, depth, nodes + Nodes(v), done + [v]);
      assert done + [v] + MeanElems(rest) == done + MeanElems(elems);
    }
  }

  lemma {:induction false} ElemsSplit(elems: seq<Elem>)
    requires elems != [] && OkElem(elems[0]) && forall i | 0 <= i < |elems| :: OkElem(elems[i])
    ensures var v, rest := Mean(elems[0].tree), elems[1..];
      && MeanElems(elems) == [v] + MeanElems(rest) && MeanElems(elems)[0] == v
      && NodesItems(MeanElems(elems)) == Nodes(v) + NodesItems(MeanElems(rest))
      && DepthItems(MeanElems(elems)) == Max(Depth(v), DepthItems(MeanElems(rest)))
      && (rest == [] ==> NodesItems(MeanElems(rest)) == 0 && MeanElems(rest) == [])
  {
    hide Mean, Depth, Nodes, OkTree;
    assert MeanElems(elems)[1..] == MeanElems(elems[1..]);
  }

  /** The first element reads back, and a comma or the bracket stands after it. */
  lemma {:induction false} ElemReads(elems: seq<Elem>, c: string, pos: nat, depth: nat, nodes: nat) returns (end: nat)
    requires elems != [] && (forall i | 0 <= i < |elems| :: OkElem(elems[i])) && At(c, pos, ShowElems(elems))
    requires depth + DepthItems(MeanElems(elems)) <= MAX_DEPTH && nodes + NodesItems(MeanElems(elems)) <= MAX_NODES
    requires DistinctKeys(MeanElems(elems)[0])
    ensures var e := elems[0];
      var after := pos + |e.before| + |Show(e.tree)|;
      && pos <= after <= end < |c| && SkipWs(c, after) == end
      && ParseValue(c, pos, depth, nodes) == Parsed.Ok(Mean(e.tree), after, nodes + Nodes(Mean(e.tree)))
      && (if |elems| == 1 then c[end] == ']' && end + 1 == pos + |ShowElems(elems)|
          else c[end] == ',' && At(c, end + 1, ShowElems(elems[1..])) && end + 1 + |ShowElems(elems[1..])| == pos + |ShowElems(elems)|)
    decreases elems, 0
  {
    hide At, SkipWs, Show, OkTree, Mean, ParseValue, Depth, Nodes, DistinctKeys, MeanElems, DepthItems, NodesItems, ShowElems;
    var e := elems[0];
    assert OkElem(e);
    var close := if |elems| == 1 then "]" else "," + ShowElems(elems[1..]);
    ElemsText(elems, close);
    ElemsSplit(elems);
    end := Around(c, pos, e.before, Show(e.tree), e.after, close);
    TreeReads(e.tree, e.before, c, pos, depth, nodes);
    if |elems| > 1 { Comma(c, end, ShowElems(elems[1..])); }
  }

  /** A value's text with white space around it and a sign after it, standing at `pos`. */
  lemma {:induction false} Around(c: string, pos: nat, before: string, text: string, gap: string, close: string) returns (end: nat)
    requires At(c, pos, before + text + (gap + close)) && Spaces(gap) && close != [] && (close[0] == ']' || close[0] == '}' || close[0] == ',')
    ensures At(c, pos, before + text) && At(c, end, close) && end == pos + |before| + |text| + |gap| < |c| && c[end] == close[0]
    ensures var after := pos + |before| + |text|; after <= |c| && SkipWs(c, after) == end && Closed(c, after)
  {
    hide At, SkipWs;
    AtSplit(c, pos, before + text, gap + close);
    var after := pos + |before| + |text|;
    AtSplit(c, after, gap, close);
    end := after + |gap|;
    AtChar(c, end, close, 0);
    SkipsSpaces(c, after, gap);
    AfterIsClosed(c, after, gap);
  }

  lemma {:induction false} ElemsText(elems: seq<Elem>, close: string)
    requires elems != [] && close == if |elems| == 1 then "]" else "," + ShowElems(elems[1..])
    ensures var e := elems[0];
      ShowElems(elems) == e.before + Show(e.tree) + (e.after + close)
      && |ShowElems(elems)| == |e.before| + |Show(e.tree)| + |e.after| + |close|
  {
    hide Show;
    var e := elems[0];
    Join4(e.before, Show(e.tree), e.after, close);
  }

  /** White space, or a closing sign, does not continue a number. */
  lemma {:induction false} AfterIsClosed(c: string, pos: nat, gap: string)
    requires At(c, pos, gap) && Spaces(gap) && pos + |gap| < |c| && !IsDigit(c[pos + |gap|])
    ensures Closed(c, pos)
  {
    if gap != [] { AtChar(c, pos, gap, 0); }
  }

  lemma {:induction false} ItemsNext(c: string, pos: nat, depth: nat, nodes: nat, done: seq<Json>, v: Json, after: nat, count: nat, end: nat)
    requires pos <= after <= end < |c| && ParseValue(c, pos, depth, nodes) == Parsed.Ok(v, after, count) && SkipWs(c, after) == end
    ensures c[end] == ',' ==> ParseItems(c, pos, depth, nodes, done) == ParseItems(c, end + 1, depth, count, done + [v])
    ensures c[end] == ']' ==> ParseItems(c, pos, depth, nodes, done) == Parsed.Ok(Array(done + [v]), end + 1, count)
  {
    hide ParseValue, SkipWs;
  }

  // ---- objects ----

  lemma {:induction false} RecordReads(t: Tree, c: string, pos: nat, depth: nat, nodes: nat)
    requires OkTree(t) && t.Record? && At(c, pos, Show(t))
    requires depth + Depth(Mean(t)) <= MAX_DEPTH && nodes + Nodes(Mean(t)) <= MAX_NODES && DistinctKeys(Mean(t))
    ensures pos <= |c| && ParseValue(c, pos, depth, nodes) == Parsed.Ok(Mean(t), pos + |Show(t)|, nodes + Nodes(Mean(t)))
    decreases t, 1
  {
    hide ParseValue, ParseObject, At, ShowMembers, MeanMembers, DepthFields, NodesFields, SkipWs;
    AtChar(c, pos, Show(t), 0);
    OpensObject(c, pos, depth, nodes);
    var rest := if t.members == [] then t.gap + "}" else ShowMembers(t.members);
    AtSplit(c, pos, "{", rest);
    if t.members == [] {
      AtSplit(c, pos + 1, t.gap, "}");
      AtChar(c, pos + 1 + |t.gap|, "}", 0);
      SkipsSpaces(c, pos + 1, t.gap);
      EmptyRecord(c, pos, depth + 1, nodes + 1);
      NoMembers();
    } else {
      assert forall i | 0 <= i < |t.members| :: DistinctKeys(MeanMembers(t.members)[i].value);
      MembersInObject(t.members, c, pos, depth + 1, nodes + 1);
    }
  }

  lemma {:induction false} OpensObject(c: string, pos: nat, depth: nat, nodes: nat)
    requires pos < |c| && c[pos] == '{' && depth < MAX_DEPTH && nodes < MAX_NODES
    ensures ParseValue(c, pos, depth, nodes) == ParseObject(c, pos, depth + 1, nodes + 1)
  {
    hide ParseObject, SkipWs;
    SolidStays(c, pos);
  }

  lemma {:induction false} MembersInObject(members: seq<Member>, c: string, pos: nat, depth: nat, nodes: nat)
    requires members != [] && (forall i | 0 <= i < |members| :: OkMember(members[i])) && pos < |c| && At(c, pos + 1, ShowMembers(members))
    requires depth + DepthFields(MeanMembers(members)) <= MAX_DEPTH && nodes + NodesFields(MeanMembers(members)) <= MAX_NODES
    requires forall i | 0 <= i < |members| :: DistinctKeys(MeanMembers(members)[i].value)
    requires forall i, j | 0 <= i < j < |members| :: MeanMembers(members)[i].key != MeanMembers(members)[j].key
    ensures ParseObject(c, pos, depth, nodes) ==
      Parsed.Ok(Object(MeanMembers(members)), pos + 1 + |ShowMembers(members)|, nodes + NodesFields(MeanMembers(members)))
    decreases members, 2
  {
    hide ParseFields, ParseObject, SkipWs, At, ShowMembers, MeanMembers, DepthFields, NodesFields, DistinctKeys;
    assert OkMember(members[0]);
    var at := MembersStart(members, c, pos + 1);
    RecordStarts(c, pos, depth, nodes, at);
    MembersRead(members, c, pos + 1, depth, nodes, []);
    FieldsSkipSpace(c, pos + 1, at, depth, nodes, []);
    assert [] + MeanMembers(members) == MeanMembers(members);
  }

  lemma {:induction false} NoMembers()
    ensures MeanMembers([]) == [] && NodesFields([]) == 0
  {}

  lemma {:induction false} EmptyRecord(c: string, pos: nat, depth: nat, nodes: nat)
    requires pos < |c| && SkipWs(c, pos + 1) < |c| && c[SkipWs(c, pos + 1)] == '}'
    ensures ParseObject(c, pos, depth, nodes) == Parsed.Ok(Object([]), SkipWs(c, pos + 1) + 1, nodes)
  {
    hide SkipWs;
  }

  lemma {:induction false} RecordStarts(c: string, pos: nat, depth: nat, nodes: nat, at: nat)
    requires pos < |c| && SkipWs(c, pos + 1) == at < |c| && c[at] != '}'
    ensures ParseObject(c, pos, depth, nodes) == ParseFields(c, at, depth, nodes, [])
  {
    hide SkipWs, ParseFields;
  }

  lemma {:induction false} MembersStart(members: seq<Member>, c: string, pos: nat) returns (at: nat)
    requires members != [] && OkMember(members[0]) && At(c, pos, ShowMembers(members))
    ensures pos <= at < |c| && SkipWs(c, pos) == at && c[at] == '"' && Solid(c, at) && at == pos + |members[0].before|
    ensures At(c, at + 1, ShowMembers(members)[|members[0].before| + 1..])
  {
    hide At, SkipWs, Show, OkTree, ShowChars;
    var m := members[0];
    var text := ShowMembers(members);
    var tail := text[|m.before|..];
    assert text == m.before + tail && tail[0] == '"';
    AtSplit(c, pos, m.before, tail);
    at := pos + |m.before|;
    AtChar(c, at, tail, 0);
    SkipsSpaces(c, pos, m.before);
    assert tail == "\"" + text[|m.before| + 1..];
    AtSplit(c, at, "\"", text[|m.before| + 1..]);
  }

  lemma {:induction false} FieldsSkipSpace(c: string, pos: nat, at: nat, depth: nat, nodes: nat, fields: seq<Field>)
    requires pos <= at <= |c| && SkipWs(c, pos) == at && Solid(c, at)
    ensures ParseFields(c, pos, depth, nodes, fields) == ParseFields(c, at, depth, nodes, fields)
  {
    hide SkipWs, ParseChars, ParseValue;
    SolidStays(c, at);
  }

  lemma {:induction false} MembersSplit(members: seq<Member>)
    requires members != [] && OkMember(members[0]) && forall i | 0 <= i < |members| :: OkMember(members[i])
    ensures var f, rest := Field(MeanChars(members[0].key), Mean(members[0].tree)), members[1..];
      && MeanMembers(members) == [f] + MeanMembers(rest) && MeanMembers(members)[0] == f
      && NodesFields(MeanMembers(members)) == Nodes(f.value) + NodesFields(MeanMembers(rest))
      && DepthFields(MeanMembers(members)) == Max(Depth(f.value), DepthFields(MeanMembers(rest)))
      && (rest == [] ==> NodesFields(MeanMembers(rest)) == 0 && MeanMembers(rest) == [])
  {
    hide Mean, Depth, Nodes, OkTree, MeanChars, OkChars;
    assert MeanMembers(members)[1..] == MeanMembers(members[1..]);
  }

  /** Keys of members, none named twice and none named before. */
  predicate NewKeys(done: seq<Field>, fields: seq<Field>) {
    && (forall i, j | 0 <= i < j < |fields| :: fields[i].key != fields[j].key)
    && (forall i, j | 0 <= i < |done| && 0 <= j < |fields| :: done[i].key != fields[j].key)
  }

  lemma {:induction false} KeysStayNew(done: seq<Field>, f: Field, rest: seq<Field>)
    requires NewKeys(done, [f] + rest)
    ensures NewKeys(done + [f], rest) && forall i | 0 <= i < |done| :: done[i].key != f.key
  {
    var all := [f] + rest;
    assert forall i | 0 <= i < |rest| :: rest[i] == all[i + 1];
    assert all[0] == f;
  }

  lemma {:induction false} MembersRead(members: seq<Member>, c: string, pos: nat, depth: nat, nodes: nat, done: seq<Field>)
    requires members != [] && (forall i | 0 <= i < |members| :: OkMember(members[i])) && At(c, pos, ShowMembers(members))
    requires depth + DepthFields(MeanMembers(members)) <= MAX_DEPTH && nodes + NodesFields(MeanMembers(members)) <= MAX_NODES
    requires forall i | 0 <= i < |members| :: DistinctKeys(MeanMembers(members)[i].value)
    requires NewKeys(done, MeanMembers(members))
    ensures pos <= |c|
    ensures ParseFields(c, pos, depth, nodes, done) ==
      Parsed.Ok(Object(done + MeanMembers(members)), pos + |ShowMembers(members)|, nodes + NodesFields(MeanMembers(members)))
    decreases members, 1
  {
    hide At, SkipWs, Show, OkTree, Mean, ParseField, ParseFields, Depth, Nodes, DistinctKeys, ShowMembers, MeanMembers, DepthFields, NodesFields,
      NewKeys, MeanChars;
    var rest := members[1..];
    assert OkMember(members[0]);
    MembersSplit(members);
    var f := MeanMembers(members)[0];
    KeysStayNew(done, f, MeanMembers(rest));
    var after, end := MemberReads(members, c, pos, depth, nodes, done);
    FieldsNext(c, pos, depth, nodes, done, f, after, nodes + Nodes(f.value), end);
    if |members| == 1 {
      assert done + [f] == done + MeanMembers(members);
    } else {
      RestDistinct(members);
      MembersRead(rest, c, end + 1, depth, nodes + Nodes(f.value), done + [f]);
      assert done + [f] + MeanMembers(rest) == done + MeanMembers(members);
    }
  }

  lemma {:induction false} RestDistinct(members: seq<Member>)
    requires members != [] && (forall i | 0 <= i < |members| :: OkMember(members[i]))
    requires forall i | 0 <= i < |members| :: DistinctKeys(MeanMembers(members)[i].value)
    ensures forall i | 0 <= i < |members| - 1 :: OkMember(members[1..][i]) && DistinctKeys(MeanMembers(members[1..])[i].value)
  {
    hide DistinctKeys, OkMember, Mean, MeanChars;
    forall i | 0 <= i < |members| - 1 ensures DistinctKeys(MeanMembers(members[1..])[i].value) {
      assert MeanMembers(members)[i + 1] == MeanMembers(members[1..])[i];
    }
  }

  lemma {:induction false} FieldsNext(c: string, pos: nat, depth: nat, nodes: nat, done: seq<Field>, f: Field, after: nat, count: nat, end: nat)
    requires pos <= after <= end < |c| && ParseField(c, pos, depth, nodes, Keys(done)) == Parsed.Ok(f, after, count) && SkipWs(c, after) == end
    ensures c[end] == ',' ==> ParseFields(c, pos, depth, nodes, done) == ParseFields(c, end + 1, depth, count, done + [f])
    ensures c[end] == '}' ==> ParseFields(c, pos, depth, nodes, done) == Parsed.Ok(Object(done + [f]), end + 1, count)
  {
    hide ParseField, SkipWs;
  }

  /** The text of the first member after its opening quote. */
  function MemberTail(members: seq<Member>): string
    requires members != []
  {
    var m := members[0];
    ShowChars(m.key) + "\"" + (m.mid + (":" + (m.gap + (Show(m.tree) + (m.after + if |members| == 1 then "}" else "," + ShowMembers(members[1..]))))))
  }

  lemma {:induction false} MembersText(members: seq<Member>)
    requires members != []
    ensures ShowMembers(members) == members[0].before + ("\"" + MemberTail(members))
    ensures ShowMembers(members)[|members[0].before| + 1..] == MemberTail(members)
  {
    hide Show, ShowChars;
    var a := members[0].before + "\"";
    assert ShowMembers(members) == a + MemberTail(members);
  }

  lemma {:induction false} MemberReads(members: seq<Member>, c: string, pos: nat, depth: nat, nodes: nat, done: seq<Field>)
    returns (after: nat, end: nat)
    requires members != [] && (forall i | 0 <= i < |members| :: OkMember(members[i])) && At(c, pos, ShowMembers(members))
    requires depth + DepthFields(MeanMembers(members)) <= MAX_DEPTH && nodes + NodesFields(MeanMembers(members)) <= MAX_NODES
    requires DistinctKeys(MeanMembers(members)[0].value)
    requires forall i | 0 <= i < |done| :: done[i].key != MeanMembers(members)[0].key
    ensures var f := MeanMembers(members)[0];
      && pos <= after <= end < |c| && SkipWs(c, after) == end
      && ParseField(c, pos, depth, nodes, Keys(done)) == Parsed.Ok(f, after, nodes + Nodes(f.value))
      && (if |members| == 1 then c[end] == '}' && end + 1 == pos + |ShowMembers(members)|
          else c[end] == ',' && At(c, end + 1, ShowMembers(members[1..])) && end + 1 + |ShowMembers(members[1..])| == pos + |ShowMembers(members)|)
    decreases members, 0
  {
    hide At, SkipWs, Show, OkTree, Mean, ParseValue, ParseChars, Depth, Nodes, DistinctKeys, ShowMembers, MeanMembers, DepthFields, NodesFields,
      ShowChars, MeanChars, MemberTail, OkChars, ParseField;
    var m := members[0];
    assert OkMember(m);
    MembersSplit(members);
    var close := if |members| == 1 then "}" else "," + ShowMembers(members[1..]);
    var value := Show(m.tree) + (m.after + close);
    TailText(members, value, close);
    var k, q, colon := KeyInMember(members, c, pos, value);
    after, end := ValueInMember(m, close, c, colon + 1, depth, nodes);
    if |members| > 1 { Comma(c, end, ShowMembers(members[1..])); }
    FieldIs(c, pos, depth, nodes, Keys(done), k, MeanChars(m.key), q, colon, Mean(m.tree), after, nodes + Nodes(Mean(m.tree)));
  }

  lemma {:induction false} Comma(c: string, end: nat, rest: string)
    requires At(c, end, "," + rest)
    ensures At(c, end + 1, rest) && |"," + rest| == 1 + |rest|
  {
    AtSplit(c, end, ",", rest);
  }

  /** The key of the first member, white space around it and the colon. */
  lemma {:induction false} KeyInMember(members: seq<Member>, c: string, pos: nat, value: string) returns (k: nat, q: nat, colon: nat)
    requires members != [] && OkMember(members[0]) && At(c, pos, ShowMembers(members))
    requires var m := members[0]; MemberTail(members) == ShowChars(m.key) + "\"" + (m.mid + (":" + (m.gap + value)))
    ensures var m := members[0];
      && pos <= k < |c| && SkipWs(c, pos) == k && c[k] == '"' && k == pos + |m.before|
      && ParseChars(c, k + 1, "") == Parsed.Ok(MeanChars(m.key), q, 0) && q == k + 1 + |ShowChars(m.key)| + 1
      && q <= colon < |c| && SkipWs(c, q) == colon && c[colon] == ':' && colon == q + |m.mid| && At(c, colon + 1, m.gap + value)
  {
    hide At, SkipWs, Show, OkTree, ParseChars, ShowMembers, ShowChars, MeanChars, MemberTail, OkChars;
    var m := members[0];
    MembersText(members);
    k := MembersStart(members, c, pos);
    AtSplit(c, k + 1, ShowChars(m.key) + "\"", m.mid + (":" + (m.gap + value)));
    CharsRead(c, k + 1, m.key, "");
    assert "" + MeanChars(m.key) == MeanChars(m.key);
    q := k + 1 + |ShowChars(m.key)| + 1;
    AtSplit(c, q, m.mid, ":" + (m.gap + value));
    colon := q + |m.mid|;
    AtChar(c, colon, ":" + (m.gap + value), 0);
    SkipsSpaces(c, q, m.mid);
    AtSplit(c, colon, ":", m.gap + value);
  }

  lemma {:induction false} TailText(members: seq<Member>, value: string, close: string)
    requires members != []
    requires close == if |members| == 1 then "}" else "," + ShowMembers(members[1..])
    requires value == Show(members[0].tree) + (members[0].after + close)
    ensures var m := members[0]; MemberTail(members) == ShowChars(m.key) + "\"" + (m.mid + (":" + (m.gap + value)))
    ensures var m := members[0];
      |ShowMembers(members)| == |m.before| + 1 + |ShowChars(m.key)| + 1 + |m.mid| + 1 + |m.gap| + |Show(m.tree)| + |m.after| + |close|
  {
    hide Show, ShowChars, ShowMembers;
    MembersText(members);
  }

  /** The value of a member, white space around it and the sign after it. */
  lemma {:induction false} ValueInMember(m: Member, close: string, c: string, pos: nat, depth: nat, nodes: nat) returns (after: nat, end: nat)
    requires OkMember(m) && close != [] && (close[0] == '}' || close[0] == ',') && At(c, pos, m.gap + (Show(m.tree) + (m.after + close)))
    requires depth + Depth(Mean(m.tree)) <= MAX_DEPTH && nodes + Nodes(Mean(m.tree)) <= MAX_NODES && DistinctKeys(Mean(m.tree))
    ensures pos <= after <= end < |c| && after == pos + |m.gap| + |Show(m.tree)| && end == after + |m.after| && SkipWs(c, after) == end
    ensures ParseValue(c, pos, depth, nodes) == Parsed.Ok(Mean(m.tree), after, nodes + Nodes(Mean(m.tree)))
    ensures c[end] == close[0] && At(c, end, close)
    decreases m
  {
    hide At, SkipWs, Show, OkTree, Mean, ParseValue, Depth, Nodes, DistinctKeys;
    Join3(m.gap, Show(m.tree), m.after + close);
    after := pos + |m.gap| + |Show(m.tree)|;
    end := Around(c, pos, m.gap, Show(m.tree), m.after, close);
    TreeReads(m.tree, m.gap, c, pos, depth, nodes);
  }

  lemma {:induction false} FieldIs(c: string, pos: nat, depth: nat, nodes: nat, seen: seq<string>, k: nat, key: string, q: nat, colon: nat,
                                   v: Json, after: nat, count: nat)
    requires pos <= k < |c| && SkipWs(c, pos) == k && c[k] == '"' && ParseChars(c, k + 1, "") == Parsed.Ok(key, q, 0)
    requires key !in seen && q <= colon < |c| && SkipWs(c, q) == colon && c[colon] == ':'
    requires ParseValue(c, colon + 1, depth, nodes) == Parsed.Ok(v, after, count)
    ensures ParseField(c, pos, depth, nodes, seen) == Parsed.Ok(Field(key, v), after, count)
  {
    hide SkipWs, ParseChars, ParseValue;
  }

  // ---- the grammar derives what the parser accepts ----

  lemma {:induction false} DecimalOf(t: string)
    requires t != [] && (forall i | 0 <= i < |t| :: IsDigit(t[i])) && (|t| > 1 ==> t[0] != '0')
    ensures Decimal(FromDecimal(t)) == t
    decreases |t|
  {
    var n := |t| - 1;
    var u, d := t[..n], t[n] as int - '0' as int;
    assert t == u + [t[n]] && 0 <= d < 10 && '0' + d as char == t[n];
    if n == 0 {
      assert u == [] && FromDecimal(t) == d;
    } else {
      DecimalOf(u);
      var k := FromDecimal(u);
      assert k > 0 by { assert Decimal(0) == "0" && u[0] == t[0]; }
      assert FromDecimal(t) == k * 10 + d && (k * 10 + d) / 10 == k && (k * 10 + d) % 10 == d;
    }
  }

  /** What an accepted word, number or string is derived from. */
  lemma {:induction false} NumberOf(c: string, pos: nat, nodes: nat) returns (n: U64)
    requires pos < |c| && (c[pos] == '-' || IsDigit(c[pos])) && ParseNumber(c, pos, nodes).Ok?
    ensures ParseNumber(c, pos, nodes).value == Int(n) && c[pos..ParseNumber(c, pos, nodes).pos] == Decimal(n)
  {
    var end := DigitsEnd(c, pos);
    var text := c[pos..end];
    DecimalOf(text);
    n := FromDecimal(text);
  }

  lemma {:induction false} TreeOf(c: string, pos: nat, depth: nat, nodes: nat) returns (gap: string, t: Tree)
    requires pos <= |c| && ParseValue(c, pos, depth, nodes).Ok?
    ensures var r := ParseValue(c, pos, depth, nodes);
      Spaces(gap) && OkTree(t) && Mean(t) == r.value && c[pos..r.pos] == gap + Show(t)
    decreases |c| - pos, 2
  {
    hide ParseArray, ParseObject, ParseChars, ParseNumber, SkipWs, Show, OkTree, Mean;
    var r := ParseValue(c, pos, depth, nodes);
    var p := SkipWs(c, pos);
    SkippedIsSpace(c, pos);
    gap := c[pos..p];
    assert c[pos..r.pos] == gap + c[p..r.pos];
    if c[p] == '{' {
      t := RecordOf(c, p, depth + 1, nodes + 1);
    } else if c[p] == '[' {
      t := ListOf(c, p, depth + 1, nodes + 1);
    } else if c[p] == '"' {
      t := TextOf(c, p);
    } else if c[p] == '-' || IsDigit(c[p]) {
      var n := NumberOf(c, p, nodes + 1);
      t := Number(n);
      NumberTree(n);
    } else {
      t := Word(r.value);
      WordTree(c, p, r);
    }
  }

  lemma {:induction false} NumberTree(n: U64)
    ensures OkTree(Number(n)) && Mean(Number(n)) == Int(n) && Show(Number(n)) == Decimal(n)
  {}

  lemma {:induction false} WordTree(c: string, p: nat, r: Parsed<Json>)
    requires p < |c| && r.Ok?
    requires || (p + 4 <= |c| && c[p..p + 4] == "true" && r.value == Bool(true) && r.pos == p + 4)
      || (p + 5 <= |c| && c[p..p + 5] == "false" && r.value == Bool(false) && r.pos == p + 5)
      || (p + 4 <= |c| && c[p..p + 4] == "null" && r.value == Null && r.pos == p + 4)
    ensures r.pos <= |c| && OkTree(Word(r.value)) && Mean(Word(r.value)) == r.value && c[p..r.pos] == Show(Word(r.value))
  {}

  lemma {:induction false} TextOf(c: string, p: nat) returns (t: Tree)
    requires p < |c| && c[p] == '"' && ParseChars(c, p + 1, "").Ok?
    ensures var r := ParseChars(c, p + 1, ""); OkTree(t) && Mean(t) == Str(r.value) && c[p..r.pos] == Show(t)
  {
    hide ParseChars, ShowChars, MeanChars;
    var r := ParseChars(c, p + 1, "");
    var chars := CharsOf(c, p + 1, "");
    t := Text(chars);
    assert "" + MeanChars(chars) == MeanChars(chars);
    assert c[p..r.pos] == "\"" + c[p + 1..r.pos];
  }

  lemma {:induction false} ListOf(c: string, pos: nat, depth: nat, nodes: nat) returns (t: Tree)
    requires pos < |c| && c[pos] == '[' && ParseArray(c, pos, depth, nodes).Ok?
    ensures var r := ParseArray(c, pos, depth, nodes); OkTree(t) && Mean(t) == r.value && c[pos..r.pos] == Show(t)
    decreases |c| - pos, 1
  {
    hide ParseItems, SkipWs, ShowElems, MeanElems;
    var r := ParseArray(c, pos, depth, nodes);
    var p := SkipWs(c, pos + 1);
    SkippedIsSpace(c, pos + 1);
    var gap := c[pos + 1..p];
    if p < |c| && c[p] == ']' {
      t := List(gap, []);
      NoElems();
      assert c[pos..r.pos] == "[" + (gap + "]");
    } else {
      var elems := ElemsOf(c, p, depth, nodes, []);
      var first := elems[0].(before := gap + elems[0].before);
      var all := [first] + elems[1..];
      Widened(elems, gap);
      t := List("", all);
      assert [] + MeanElems(elems) == MeanElems(elems);
      assert c[pos..r.pos] == "[" + (gap + c[p..r.pos]);
    }
  }

  /** White space read before the first element belongs to it. */
  lemma {:induction false} Widened(elems: seq<Elem>, gap: string)
    requires elems != [] && Spaces(gap) && forall i | 0 <= i < |elems| :: OkElem(elems[i])
    ensures var all := [elems[0].(before := gap + elems[0].before)] + elems[1..];
      && (forall i | 0 <= i < |all| :: OkElem(all[i])) && all != []
      && MeanElems(all) == MeanElems(elems) && ShowElems(all) == gap + ShowElems(elems)
  {
    hide Show, OkTree, Mean;
    var first := elems[0].(before := gap + elems[0].before);
    var all := [first] + elems[1..];
    assert OkElem(elems[0]) && Spaces(gap + elems[0].before);
    assert all[1..] == elems[1..] && |all| == |elems|;
    forall i | 0 <= i < |all| ensures OkElem(all[i]) { if i > 0 { assert all[i] == elems[i]; } }
    var tail := Show(first.tree) + (first.after + if |elems| == 1 then "]" else "," + ShowElems(elems[1..]));
    assert ShowElems(all) == gap + elems[0].before + tail && ShowElems(elems) == elems[0].before + tail;
  }

  lemma {:induction false} ElemsOf(c: string, pos: nat, depth: nat, nodes: nat, items: seq<Json>) returns (elems: seq<Elem>)
    requires pos <= |c| && ParseItems(c, pos, depth, nodes, items).Ok?
    ensures elems != [] && forall i | 0 <= i < |elems| :: OkElem(elems[i])
    ensures var r := ParseItems(c, pos, depth, nodes, items);
      r.value == Array(items + MeanElems(elems)) && c[pos..r.pos] == ShowElems(elems)
    decreases |c| - pos, 3
  {
    hide ParseValue, SkipWs, Show, OkTree, Mean, ShowElems, MeanElems;
    var r := ParseItems(c, pos, depth, nodes, items);
    var v := ParseValue(c, pos, depth, nodes);
    var gap, t := TreeOf(c, pos, depth, nodes);
    var p := SkipWs(c, v.pos);
    SkippedIsSpace(c, v.pos);
    var e := Elem(gap, t, c[v.pos..p]);
    assert OkElem(e);
    if c[p] == ']' {
      elems := [e];
      Pieces(c, pos, v.pos, p, r.pos);
      OneElem(e);
    } else {
      var rest := ElemsOf(c, p + 1, depth, v.nodes, items + [v.value]);
      elems := [e] + rest;
      MoreElems(e, rest);
      assert items + [v.value] + MeanElems(rest) == items + MeanElems(elems);
      Pieces(c, pos, v.pos, p, r.pos);
    }
  }

  lemma {:induction false} Pieces(c: string, a: nat, b: nat, p: nat, d: nat)
    requires a <= b <= p < d <= |c|
    ensures c[a..d] == c[a..b] + c[b..p] + ([c[p]] + c[p + 1..d])
    ensures d == p + 1 ==> c[a..d] == c[a..b] + c[b..p] + [c[p]]
  {
  }

  lemma {:induction false} OneElem(e: Elem)
    requires OkElem(e)
    ensures (forall i | 0 <= i < |[e]| :: OkElem([e][i])) && MeanElems([e]) == [Mean(e.tree)] && ShowElems([e]) == e.before + Show(e.tree) + e.after + "]"
  {
    hide Show, OkTree, Mean;
    assert [e][1..] == [];
  }

  lemma {:induction false} MoreElems(e: Elem, rest: seq<Elem>)
    requires OkElem(e) && rest != [] && forall i | 0 <= i < |rest| :: OkElem(rest[i])
    ensures forall i | 0 <= i < |[e] + rest| :: OkElem(([e] + rest)[i])
    ensures MeanElems([e] + rest) == [Mean(e.tree)] + MeanElems(rest)
    ensures ShowElems([e] + rest) == e.before + Show(e.tree) + e.after + ("," + ShowElems(rest))
  {
    hide Show, OkTree, Mean;
    var all := [e] + rest;
    assert all[1..] == rest && all[0] == e;
    forall i | 0 <= i < |all| ensures OkElem(all[i]) { if i > 0 { assert all[i] == rest[i - 1]; } }
    assert ShowElems(all) == e.before + (Show(e.tree) + (e.after + ("," + ShowElems(rest))));
  }

  lemma {:induction false} RecordOf(c: string, pos: nat, depth: nat, nodes: nat) returns (t: Tree)
    requires pos < |c| && c[pos] == '{' && ParseObject(c, pos, depth, nodes).Ok?
    ensures var r := ParseObject(c, pos, depth, nodes); OkTree(t) && Mean(t) == r.value && c[pos..r.pos] == Show(t)
    decreases |c| - pos, 1
  {
    hide ParseFields, SkipWs, ShowMembers, MeanMembers, Widen;
    var r := ParseObject(c, pos, depth, nodes);
    var p := SkipWs(c, pos + 1);
    SkippedIsSpace(c, pos + 1);
    var gap := c[pos + 1..p];
    if p < |c| && c[p] == '}' {
      t := Record(gap, []);
      NoMembers();
      assert c[pos..r.pos] == "{" + (gap + "}");
    } else {
      var members := MembersOf(c, p, depth, nodes, []);
      WidenedMember(members, gap);
      WidenedText(members, gap);
      t := Record("", Widen(members, gap));
      assert [] + MeanMembers(members) == MeanMembers(members);
      assert c[pos..r.pos] == "{" + (gap + c[p..r.pos]);
    }
  }

  function Widen(members: seq<Member>, gap: string): (all: seq<Member>)
    requires members != []
    ensures |all| == |members| && all[0] == members[0].(before := gap + members[0].before) && all[1..] == members[1..]
  {
    [members[0].(before := gap + members[0].before)] + members[1..]
  }

  lemma {:induction false} WidenedMember(members: seq<Member>, gap: string)
    requires members != [] && Spaces(gap) && forall i | 0 <= i < |members| :: OkMember(members[i])
    ensures forall i | 0 <= i < |members| :: OkMember(Widen(members, gap)[i])
    ensures MeanMembers(Widen(members, gap)) == MeanMembers(members)
  {
    hide Show, OkTree, Mean, ShowChars, MeanChars, OkChars, Widen, ShowMembers;
    var all := Widen(members, gap);
    assert OkMember(members[0]) && Spaces(gap + members[0].before);
    forall i | 0 <= i < |all| ensures OkMember(all[i]) { if i > 0 { assert all[i] == all[1..][i - 1] == members[1..][i - 1] == members[i]; } }
  }

  lemma {:induction false} WidenedText(members: seq<Member>, gap: string)
    requires members != []
    ensures ShowMembers(Widen(members, gap)) == gap + ShowMembers(members)
  {
    hide ShowMembers, MemberTail, Widen;
    var all := Widen(members, gap);
    MembersText(all);
    MembersText(members);
    SameTail(all, members);
    Join3(gap, members[0].before, "\"" + MemberTail(members));
  }

  lemma {:induction false} SameTail(a: seq<Member>, b: seq<Member>)
    requires a != [] && b != [] && a[1..] == b[1..] && |a| == |b| && a[0] == b[0].(before := a[0].before)
    ensures MemberTail(a) == MemberTail(b)
  {
    hide Show, ShowChars, ShowMembers;
  }

  lemma {:induction false} MembersOf(c: string, pos: nat, depth: nat, nodes: nat, fields: seq<Field>) returns (members: seq<Member>)
    requires pos <= |c| && ParseFields(c, pos, depth, nodes, fields).Ok?
    ensures members != [] && forall i | 0 <= i < |members| :: OkMember(members[i])
    ensures var r := ParseFields(c, pos, depth, nodes, fields);
      r.value == Object(fields + MeanMembers(members)) && c[pos..r.pos] == ShowMembers(members)
    decreases |c| - pos, 4
  {
    hide ParseField, SkipWs, Show, OkTree, Mean, ShowChars, MeanChars, OkChars, ShowMembers, MeanMembers;
    var r := ParseFields(c, pos, depth, nodes, fields);
    var f := ParseField(c, pos, depth, nodes, Keys(fields));
    var bare := MemberOf(c, pos, depth, nodes, Keys(fields));
    var p := SkipWs(c, f.pos);
    SkippedIsSpace(c, f.pos);
    var m := bare.(after := c[f.pos..p]);
    if c[p] == '}' {
      members := [m];
      OneMember(m);
      Pieces(c, pos, f.pos, p, r.pos);
    } else {
      var rest := MembersOf(c, p + 1, depth, f.nodes, fields + [f.value]);
      members := [m] + rest;
      MoreMembers(m, rest);
      assert fields + [f.value] + MeanMembers(rest) == fields + MeanMembers(members);
      Pieces(c, pos, f.pos, p, r.pos);
    }
  }

  /** A member up to the end of its value. */
  function Opening(m: Member): string {
    m.before + "\"" + (ShowChars(m.key) + "\"") + m.mid + ":" + m.gap + Show(m.tree)
  }

  lemma {:induction false} MemberOf(c: string, pos: nat, depth: nat, nodes: nat, seen: seq<string>) returns (m: Member)
    requires pos <= |c| && ParseField(c, pos, depth, nodes, seen).Ok?
    ensures var r := ParseField(c, pos, depth, nodes, seen);
      OkMember(m) && m.after == "" && r.value == Field(MeanChars(m.key), Mean(m.tree)) && c[pos..r.pos] == Opening(m)
    decreases |c| - pos, 3
  {
    hide ParseValue, ParseChars, SkipWs, Show, OkTree, Mean, ShowChars, MeanChars;
    var r := ParseField(c, pos, depth, nodes, seen);
    var k := SkipWs(c, pos);
    SkippedIsSpace(c, pos);
    var key := ParseChars(c, k + 1, "");
    var chars := CharsOf(c, k + 1, "");
    assert "" + MeanChars(chars) == MeanChars(chars);
    var q := SkipWs(c, key.pos);
    SkippedIsSpace(c, key.pos);
    var gap, t := TreeOf(c, q + 1, depth, nodes);
    m := Member(c[pos..k], chars, c[key.pos..q], gap, t, "");
    Assemble(c, pos, k, key.pos, q, r.pos);
    Join3(c[pos..k] + "\"" + c[k + 1..key.pos] + c[key.pos..q] + ":", gap, Show(t));
  }

  lemma {:induction false} Assemble(c: string, a: nat, k: nat, e: nat, q: nat, z: nat)
    requires a <= k < e <= q < z <= |c| && c[k] == '"' && c[q] == ':'
    ensures c[a..z] == c[a..k] + "\"" + c[k + 1..e] + c[e..q] + ":" + c[q + 1..z]
  {
    assert c[e..z] == c[e..q] + [c[q]] + c[q + 1..z];
    assert c[k..e] == [c[k]] + c[k + 1..e];
    assert c[a..z] == c[a..k] + c[k..e] + c[e..z];
    Regrouped(c[a..k], "\"", c[k + 1..e], c[e..q], ":", c[q + 1..z]);
  }

  lemma {:induction false} Regrouped(a: string, b: string, d: string, e: string, f: string, g: string)
    ensures a + (b + d) + (e + f + g) == a + b + d + e + f + g
  {
    assert a + (b + d) == a + b + d;
  }

  lemma {:induction false} OneMember(m: Member)
    requires OkMember(m)
    ensures (forall i | 0 <= i < |[m]| :: OkMember([m][i])) && MeanMembers([m]) == [Field(MeanChars(m.key), Mean(m.tree))]
    ensures ShowMembers([m]) == Opening(m.(after := "")) + m.after + "}"
  {
    hide Show, OkTree, Mean, ShowChars, MeanChars;
    assert [m][1..] == [];
    Flat(m, "}");
  }

  lemma {:induction false} MoreMembers(m: Member, rest: seq<Member>)
    requires OkMember(m) && rest != [] && forall i | 0 <= i < |rest| :: OkMember(rest[i])
    ensures forall i | 0 <= i < |[m] + rest| :: OkMember(([m] + rest)[i])
    ensures MeanMembers([m] + rest) == [Field(MeanChars(m.key), Mean(m.tree))] + MeanMembers(rest)
    ensures ShowMembers([m] + rest) == Opening(m.(after := "")) + m.after + ("," + ShowMembers(rest))
  {
    hide Show, OkTree, Mean, ShowChars, MeanChars, OkChars;
    var all := [m] + rest;
    assert all[1..] == rest && all[0] == m;
    forall i | 0 <= i < |all| ensures OkMember(all[i]) { if i > 0 { assert all[i] == rest[i - 1]; } }
    Flat(m, "," + ShowMembers(rest));
  }

  lemma {:induction false} Flat(m: Member, close: string)
    ensures m.before + ("\"" + (ShowChars(m.key) + "\"" + (m.mid + (":" + (m.gap + (Show(m.tree) + (m.after + close)))))))
      == Opening(m.(after := "")) + m.after + close
  {
    hide Show, ShowChars;
    var a, b, d, e := m.before + "\"", ShowChars(m.key) + "\"", m.mid + ":", m.gap + Show(m.tree);
    assert Opening(m.(after := "")) == a + b + d + e;
  }

  // ---- the whole text ----

  /** `lead`, `t` and `trail` derive the text. */
  predicate Derives(c: string, lead: string, t: Tree, trail: string) {
    Spaces(lead) && Spaces(trail) && OkTree(t) && c == lead + Show(t) + trail
  }

  /** The parser accepts exactly the texts that the grammar derives for a value within the limits: a
      value, white space around it, and nothing else. */
  lemma {:induction false} AcceptsExactly(c: string, v: Json)
    ensures Parse(c) == Accepted(v) <==>
      WithinLimits(v) && exists lead, t, trail :: Derives(c, lead, t, trail) && Mean(t) == v
  {
    if Parse(c) == Accepted(v) {
      var lead, t, trail := DerivationOf(c, v);
    }
    if WithinLimits(v) {
      forall lead, t, trail | Derives(c, lead, t, trail) && Mean(t) == v ensures Parse(c) == Accepted(v) {
        DerivedIsAccepted(c, lead, t, trail);
      }
    }
  }

  lemma {:induction false} DerivationOf(c: string, v: Json) returns (lead: string, t: Tree, trail: string)
    requires Parse(c) == Accepted(v)
    ensures WithinLimits(v) && Derives(c, lead, t, trail) && Mean(t) == v
  {
    hide ParseValue, SkipWs, Show, OkTree, Mean, Depth, Nodes, DistinctKeys;
    var start := SkipWs(c, 0);
    SkippedIsSpace(c, 0);
    ValueWithin(c, start, 0, 0);
    var gap, tree := TreeOf(c, start, 0, 0);
    var r := ParseValue(c, start, 0, 0);
    SkippedIsSpace(c, r.pos);
    lead, t, trail := c[0..start] + gap, tree, c[r.pos..];
    assert c == c[0..start] + c[start..r.pos] + c[r.pos..];
    assert c[r.pos..SkipWs(c, r.pos)] == trail;
  }

  lemma {:induction false} DerivedIsAccepted(c: string, lead: string, t: Tree, trail: string)
    requires Derives(c, lead, t, trail) && WithinLimits(Mean(t))
    ensures Parse(c) == Accepted(Mean(t))
  {
    hide ParseValue, SkipWs, Show, OkTree, Mean, Depth, Nodes, DistinctKeys, At;
    var end := |lead| + |Show(t)|;
    Standing(c, lead, Show(t), trail);
    FirstOf(t);
    AtSplit(c, 0, lead, Show(t));
    AtChar(c, |lead|, Show(t), 0);
    SkipsSpaces(c, 0, lead);
    SkipsSpaces(c, end, trail);
    TrailIsClosed(c, end, trail);
    assert "" + Show(t) == Show(t);
    TreeReads(t, "", c, |lead|, 0, 0);
  }

  lemma {:induction false} Standing(c: string, lead: string, text: string, trail: string)
    requires c == lead + text + trail
    ensures At(c, 0, lead + text) && At(c, |lead| + |text|, trail) && |c| == |lead| + |text| + |trail|
  {
  }

  lemma {:induction false} TrailIsClosed(c: string, end: nat, trail: string)
    requires At(c, end, trail) && Spaces(trail) && end + |trail| == |c|
    ensures Closed(c, end)
  {
    if trail != [] { AtChar(c, end, trail, 0); }
  }
}
