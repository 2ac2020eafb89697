/** Bech32m identifiers: rendering a payload under a prefix, and parsing it back. */
module Bech32m {
  import opened Arithmetic
  import opened Field
  import opened Regroup
  import opened Polymod
  import opened Wrappers

  type Text = seq<Byte>

  const MAX_ENCODED: nat := 128
  const SEPARATOR: Byte := 49

  const CHARSET: seq<Byte> := [113, 112, 122, 114, 121, 57, 120, 56, 103, 102, 50, 116, 118, 100, 119, 48, 115, 51, 106, 110, 53, 52, 107, 104, 99, 101, 54, 109, 117, 97, 55, 108]

  datatype Error =
    | BadLength(expected: nat, got: nat)
    | TooShort(min: nat, got: nat)
    | WrongPrefix
    | BadChecksum
    | BadChar
    | MixedCase
    | NoSeparator
    | BadData

  datatype Result<+T> = Ok(value: T) | Err(error: Error)

  // ---- letters ----

  predicate IsLower(b: Byte) {
    97 <= b <= 122
  }

  predicate IsUpper(b: Byte) {
    65 <= b <= 90
  }

  function Lower(b: Byte): Byte {
    if IsUpper(b) then b + 32 else b
  }

  function Upper(b: Byte): Byte {
    if IsLower(b) then b - 32 else b
  }

  function LowerAll(s: Text): (t: Text)
    ensures |t| == |s| && forall i | 0 <= i < |s| :: t[i] == Lower(s[i])
  {
    seq(|s|, i requires 0 <= i < |s| => Lower(s[i]))
  }

  function UpperAll(s: Text): (t: Text)
    ensures |t| == |s| && forall i | 0 <= i < |s| :: t[i] == Upper(s[i])
  {
    seq(|s|, i requires 0 <= i < |s| => Upper(s[i]))
  }

  predicate Mixed(s: Text) {
    (exists i | 0 <= i < |s| :: IsLower(s[i])) && (exists i | 0 <= i < |s| :: IsUpper(s[i]))
  }

  // ---- the alphabet ----

  /** Position in the alphabet, or -1. */
  function Index(b: Byte): int {
    match b
    case 48 => 15
    case 50 => 10
    case 51 => 17
    case 52 => 21
    case 53 => 20
    case 54 => 26
    case 55 => 30
    case 56 => 7
    case 57 => 5
    case 97 => 29
    case 99 => 24
    case 100 => 13
    case 101 => 25
    case 102 => 9
    case 103 => 8
    case 104 => 23
    case 106 => 18
    case 107 => 22
    case 108 => 31
    case 109 => 27
    case 110 => 19
    case 112 => 1
    case 113 => 0
    case 114 => 3
    case 115 => 16
    case 116 => 11
    case 117 => 28
    case 118 => 12
    case 119 => 14
    case 120 => 6
    case 121 => 4
    case 122 => 2
    case _ => -1
  }

  lemma {:induction false} IndexRange(b: Byte)
    ensures -1 <= Index(b) < 32
    ensures Index(b) >= 0 ==> CHARSET[Index(b)] == b && b != SEPARATOR && !IsUpper(b)
  {}

  lemma {:induction false} CharsetIndexed(i: nat)
    requires i < 32
    ensures Index(CHARSET[i]) == i
  {}

  /** `charset_index`: the table built once over the alphabet. */
  method CharsetTable() returns (table: seq<int>)
    ensures |table| == 128 && forall b | 0 <= b < 128 :: table[b] == Index(b)
  {
    hide Index;
    table := seq(128, i => -1);
    var i := 0;
    while i < 32
      invariant 0 <= i <= 32 && |table| == 128
      invariant forall b | 0 <= b < 128 :: table[b] == if 0 <= Index(b) < i then Index(b) else -1
    {
      CharsetIndexed(i);
      forall b | 0 <= b < 128 ensures Index(b) == i ==> b == CHARSET[i] { IndexRange(b); }
      assert CHARSET[i] < 128;
      table := table[CHARSET[i] := i];
      i := i + 1;
    }
    forall b | 0 <= b < 128 ensures table[b] == Index(b) { IndexRange(b); }
  }

  function Chars(groups: Groups): (t: Text)
    requires Fits(groups, 5)
    ensures |t| == |groups| && forall i | 0 <= i < |t| :: groups[i] < 32 && t[i] == CHARSET[groups[i]]
  {
    Sizes();
    seq(|groups|, i requires 0 <= i < |groups| => CHARSET[groups[i]])
  }

  /** The groups a body spells. */
  function GroupsOf(body: Text): (g: Option<Groups>)
    ensures g.Some? ==> |g.value| == |body|
  {
    if body == [] then Some([])
    else
      var g, i := GroupsOf(body[..|body| - 1]), Index(body[|body| - 1]);
      if g.Some? && i >= 0 then IndexRange(body[|body| - 1]); Some(g.value + [i]) else None
  }

  lemma {:induction false} GroupsSpell(body: Text)
    ensures GroupsOf(body).Some? ==> Fits(GroupsOf(body).value, 5) && body == Chars(GroupsOf(body).value)
    ensures GroupsOf(body).Some? ==> SEPARATOR !in body
  {
    hide Index;
    Sizes();
    if body != [] {
      GroupsSpell(body[..|body| - 1]);
      IndexRange(body[|body| - 1]);
    }
  }

  lemma {:induction false} SpellingRead(groups: Groups)
    requires Fits(groups, 5)
    ensures GroupsOf(Chars(groups)) == Some(groups)
  {
    hide Index;
    Sizes();
    if groups != [] {
      var n := |groups| - 1;
      SpellingRead(groups[..n]);
      assert Chars(groups)[..n] == Chars(groups[..n]);
      CharsetIndexed(groups[n]);
      assert groups == groups[..n] + [groups[n]];
    } else {
      assert Chars(groups) == [];
    }
  }

  /** The last separator, if any. */
  function LastSeparator(s: Text): (r: Option<nat>)
    ensures r.Some? ==> r.value < |s| && s[r.value] == SEPARATOR && SEPARATOR !in s[r.value + 1..]
    ensures r.None? ==> SEPARATOR !in s
  {
    if s == [] then None
    else if s[|s| - 1] == SEPARATOR then Some(|s| - 1)
    else LastSeparator(s[..|s| - 1])
  }

  lemma {:induction false} SeparatorFound(hrp: Text, body: Text)
    requires SEPARATOR !in body
    ensures LastSeparator(hrp + [SEPARATOR] + body) == Some(|hrp|)
  {
    hide LastSeparator;
    var s := hrp + [SEPARATOR] + body;
    assert s[|hrp|] == SEPARATOR;
    assert forall i | |hrp| < i < |s| :: s[i] == body[i - |hrp| - 1];
    assert forall i | 0 <= i <= |hrp| :: s[i..][|hrp| - i] == SEPARATOR;
  }

  predicate Printable(hrp: Text) {
    forall i | 0 <= i < |hrp| :: 33 <= hrp[i] <= 126
  }

  // ---- the checksum of a prefix ----

  function HighBits(hrp: Text): (v: Groups)
    ensures |v| == |hrp|
  {
    seq(|hrp|, i requires 0 <= i < |hrp| => Lower(hrp[i]) / 32)
  }

  function LowBits(hrp: Text): (v: Groups)
    ensures |v| == |hrp|
  {
    seq(|hrp|, i requires 0 <= i < |hrp| => Lower(hrp[i]) % 32)
  }

  function Start(hrp: Text): nat {
    Fold(Step(Fold(1, HighBits(hrp)), 0), LowBits(hrp))
  }

  lemma {:induction false} StartBound(hrp: Text)
    ensures Start(hrp) < WORD
  {
    hide Step;
    StepBound(Fold(1, HighBits(hrp)), 0);
    FoldBound(Step(Fold(1, HighBits(hrp)), 0), LowBits(hrp));
  }

  lemma {:induction false} StartIgnoresCase(a: Text, b: Text)
    requires LowerAll(a) == LowerAll(b)
    ensures Start(a) == Start(b)
  {
    forall i | 0 <= i < |a| ensures Lower(a[i]) == Lower(b[i]) {
      assert LowerAll(a)[i] == LowerAll(b)[i];
    }
    assert HighBits(a) == HighBits(b) && LowBits(a) == LowBits(b);
  }

  // ---- what rendering and decoding mean ----

  /** `text` is the upper-case rendering of `payload` under `hrp`. */
  ghost predicate Renders(hrp: Text, payload: Groups, text: Text) {
    exists groups, check :: RendersWith(hrp, payload, text, groups, check)
  }

  /** The six groups that make the checksum of `data` under `hrp` pass. */
  ghost predicate Checks(hrp: Text, data: Groups, check: Groups) {
    |check| == 6 && Fits(check, 5) && Value(check, 5) == Residue(Start(hrp), data)
  }

  ghost predicate RendersWith(hrp: Text, payload: Groups, text: Text, groups: Groups, check: Groups) {
    && Fits(groups, 5) && Padded(payload, 8, groups, 5) && Checks(hrp, groups, check)
    && text == UpperAll(hrp + [SEPARATOR] + Chars(groups) + Chars(check))
  }

  /** The outcome of `decode`, error by error in its order. */
  ghost predicate Decoded(text: Text, r: Result<(Text, Groups)>) {
    var low := LowerAll(text);
    var sep := LastSeparator(low);
    if |text| > MAX_ENCODED then r == Err(BadLength(MAX_ENCODED, |text|))
    else if Mixed(text) then r == Err(MixedCase)
    else if sep.None? || sep.value < 1 || sep.value + 7 > |low| then r == Err(NoSeparator)
    else if !Printable(low[..sep.value]) then r == Err(BadChar)
    else BodyDecoded(low[..sep.value], low[sep.value + 1..], r)
  }

  ghost predicate BodyDecoded(hrp: Text, body: Text, r: Result<(Text, Groups)>)
    requires |body| >= 6
  {
    var groups := GroupsOf(body);
    if groups.None? then r == Err(BadChar)
    else if Fold(Start(hrp), groups.value) != BECH32M_CONST then r == Err(BadChecksum)
    else PayloadDecoded(hrp, groups.value[..|body| - 6], r)
  }

  ghost predicate PayloadDecoded(hrp: Text, groups: Groups, r: Result<(Text, Groups)>) {
    match r
    case Ok((p, payload)) => p == hrp && Fits(payload, 8) && Unpadded(groups, 5, payload, 8)
    case Err(e) => e == BadData && forall payload :: !Unpadded(groups, 5, payload, 8)
  }

  /** `parse`: decode, then the prefix must match up to case. */
  ghost predicate Parsed(expected: Text, text: Text, r: Result<Groups>) {
    exists d :: Decoded(text, d) &&
      r == match d {
        case Err(e) => Err(e)
        case Ok((hrp, payload)) => if LowerAll(hrp) == LowerAll(expected) then Ok(payload) else Err(WrongPrefix)
      }
  }

  // ---- printing and parsing undo each other ----

  lemma {:induction false} CaseFacts(hrp: Text, groups: Groups)
    requires Fits(groups, 5)
    ensures LowerAll(UpperAll(hrp)) == LowerAll(hrp) && UpperAll(LowerAll(hrp)) == UpperAll(hrp)
    ensures LowerAll(LowerAll(hrp)) == LowerAll(hrp)
    ensures LowerAll(Chars(groups)) == Chars(groups) && LowerAll(UpperAll(Chars(groups))) == Chars(groups)
  {
    var c := Chars(groups);
    forall i | 0 <= i < |c| ensures !IsUpper(c[i]) && Lower(Upper(c[i])) == c[i] {
      CharLower(groups[i]);
    }
  }

  lemma {:induction false} CharLower(i: nat)
    requires i < 32
    ensures !IsUpper(CHARSET[i]) && CHARSET[i] != SEPARATOR
  {}

  lemma {:induction false} LowerJoin(a: Text, b: Text, c: Text)
    ensures LowerAll(a + [SEPARATOR] + b + c) == LowerAll(a) + [SEPARATOR] + LowerAll(b) + LowerAll(c)
    ensures UpperAll(a + [SEPARATOR] + b + c) == UpperAll(a) + [SEPARATOR] + UpperAll(b) + UpperAll(c)
  {}

  lemma {:induction false} CharsJoin(a: Groups, b: Groups)
    requires Fits(a, 5) && Fits(b, 5)
    ensures Fits(a + b, 5) && Chars(a + b) == Chars(a) + Chars(b)
  {}

  lemma {:induction false} NoSeparatorInChars(groups: Groups)
    requires Fits(groups, 5)
    ensures SEPARATOR !in Chars(groups)
  {
    forall i | 0 <= i < |groups| ensures Chars(groups)[i] != SEPARATOR { CharLower(groups[i]); }
  }

  /** Rendered text decodes to its payload, or is refused only for its length. */
  lemma {:induction false} RenderedDecodes(hrp: Text, payload: Groups, text: Text, r: Result<(Text, Groups)>)
    requires hrp != [] && Printable(LowerAll(hrp)) && Fits(payload, 8)
    requires Renders(hrp, payload, text) && Decoded(text, r)
    ensures r == if |text| <= MAX_ENCODED then Ok((LowerAll(hrp), payload)) else Err(BadLength(MAX_ENCODED, |text|))
  {
    hide Chars, Start, Fold, Residue, Padded, Unpadded, Value, GroupsOf, LastSeparator;
    var groups, check :| RendersWith(hrp, payload, text, groups, check);
    var plain := hrp + [SEPARATOR] + Chars(groups) + Chars(check);
    assert !Mixed(text) by { UpperNotMixed(plain); }
    var low, all := LowerAll(hrp), groups + check;
    assert LowerAll(text) == low + [SEPARATOR] + Chars(all) by { LowerRendered(hrp, groups, check); }
    NoSeparatorInChars(all) by { CharsJoin(groups, check); }
    SeparatorFound(low, Chars(all));
    if |text| <= MAX_ENCODED {
      var whole := low + [SEPARATOR] + Chars(all);
      assert |Chars(all)| == |all| by { CharsLength(all); }
      assert whole[..|low|] == low && whole[|low| + 1..] == Chars(all);
      SpellingRead(all);
      CaseFacts(hrp, groups);
      StartIgnoresCase(low, hrp);
      ChecksumExact(Start(hrp), groups, check);
      assert all[..|all| - 6] == groups;
      RegroupsBack(payload, groups);
      if r.Ok? { UnpaddedUnique(groups, 5, payload, r.value.1, 8); }
    }
  }

  lemma {:induction false} CharsLength(groups: Groups)
    requires Fits(groups, 5)
    ensures |Chars(groups)| == |groups|
  {}

  lemma {:induction false} UpperNotMixed(s: Text)
    ensures !Mixed(UpperAll(s))
  {}

  lemma {:induction false} LowerRendered(hrp: Text, groups: Groups, check: Groups)
    requires Fits(groups, 5) && Fits(check, 5)
    ensures Fits(groups + check, 5)
    ensures LowerAll(UpperAll(hrp + [SEPARATOR] + Chars(groups) + Chars(check))) == LowerAll(hrp) + [SEPARATOR] + Chars(groups + check)
  {
    hide Chars;
    LowerJoin(hrp, Chars(groups), Chars(check));
    CaseFacts(hrp, groups);
    CaseFacts(hrp, check);
    CharsJoin(groups, check);
    LowerJoin(UpperAll(hrp), UpperAll(Chars(groups)), UpperAll(Chars(check)));
  }

  /** What accepted text spells. */
  lemma {:induction false} AcceptedShape(text: Text, hrp: Text, payload: Groups) returns (groups: Groups, check: Groups)
    requires Decoded(text, Ok((hrp, payload)))
    ensures Fits(groups, 5) && Fits(check, 5) && |check| == 6 && Fits(payload, 8)
    ensures LowerAll(text) == hrp + [SEPARATOR] + Chars(groups) + Chars(check)
    ensures Padded(payload, 8, groups, 5) && Value(check, 5) == Residue(Start(hrp), groups)
  {
    hide Chars, Start, Fold, Residue, Padded, Unpadded, Value, GroupsOf, LastSeparator, Mixed, Printable;
    var low := LowerAll(text);
    var sep := LastSeparator(low).value;
    var body := low[sep + 1..];
    var all := GroupsOf(body).value;
    groups, check := all[..|all| - 6], all[|all| - 6..];
    assert all == groups + check;
    GroupsSpell(body);
    RegroupsBack(payload, groups);
    ChecksumExact(Start(hrp), groups, check);
    assert low == hrp + [SEPARATOR] + Chars(groups) + Chars(check) by {
      SeparatorSplits(low);
      SpelledOut(hrp, body, groups, check);
    }
  }

  lemma {:induction false} SpelledOut(hrp: Text, body: Text, groups: Groups, check: Groups)
    requires Fits(groups, 5) && Fits(check, 5) && body == Chars(groups + check)
    ensures hrp + [SEPARATOR] + body == hrp + [SEPARATOR] + Chars(groups) + Chars(check)
  {
    hide Chars;
    CharsJoin(groups, check);
    var left := hrp + [SEPARATOR];
    assert left + (Chars(groups) + Chars(check)) == left + Chars(groups) + Chars(check);
  }

  /** Accepted text, upper-cased, is the rendering of its payload. */
  lemma {:induction false} AcceptedIsRendered(text: Text, hrp: Text, payload: Groups, expected: Text, rendered: Text)
    requires Decoded(text, Ok((hrp, payload))) && LowerAll(hrp) == LowerAll(expected)
    requires Renders(expected, payload, rendered)
    ensures UpperAll(text) == rendered
  {
    hide Chars, Start, Fold, Residue, Padded, Value, Decoded;
    var own, own' := AcceptedShape(text, hrp, payload);
    var groups, check :| RendersWith(expected, payload, rendered, groups, check);
    PaddedUnique(payload, 8, own, groups, 5);
    StartIgnoresCase(hrp, expected);
    ValueInjective(own', check, 5);
    CaseFacts(text, groups);
    LowerJoin(hrp, Chars(groups), Chars(check));
    LowerJoin(expected, Chars(groups), Chars(check));
    SameUpper(hrp, expected);
  }

  lemma {:induction false} SeparatorSplits(s: Text)
    requires LastSeparator(s).Some?
    ensures var i := LastSeparator(s).value; s == s[..i] + [SEPARATOR] + s[i + 1..]
  {}

  lemma {:induction false} SameUpper(a: Text, b: Text)
    requires LowerAll(a) == LowerAll(b)
    ensures UpperAll(a) == UpperAll(b)
  {
    forall i | 0 <= i < |a| ensures Upper(a[i]) == Upper(b[i]) {
      assert LowerAll(a)[i] == LowerAll(b)[i];
    }
  }

  /** Replacing one body character by another of the alphabet always fails the checksum. */
  lemma {:induction false} SubstitutionCaught(text: Text, i: nat, b: Byte, r: Result<(Text, Groups)>, r': Result<(Text, Groups)>)
    requires Decoded(text, r) && r.Ok?
    requires LastSeparator(LowerAll(text)).value < i < |text|
    requires Index(Lower(b)) >= 0 && Lower(b) != Lower(text[i]) && !Mixed(text[i := b])
    requires Decoded(text[i := b], r')
    ensures r' == Err(BadChecksum)
  {
    hide Start, Fold, Unpadded, Mixed, Index, GroupsOf, LastSeparator, Printable;
    var low, low' := LowerAll(text), LowerAll(text[i := b]);
    var sep := LastSeparator(low).value;
    var hrp, body := low[..sep], low[sep + 1..];
    var j := i - sep - 1;
    var body' := body[j := Lower(b)];
    assert low' == low[i := Lower(b)];
    IndexRange(Lower(b));
    BodyChanged(low, i, Lower(b));
    BodyRefused(hrp, body, j, Lower(b), r');
  }

  /** A change after the separator leaves the prefix and changes one body character. */
  lemma {:induction false} BodyChanged(low: Text, i: nat, c: Byte)
    requires LastSeparator(low).Some? && LastSeparator(low).value < i < |low|
    requires c != SEPARATOR
    ensures var sep := LastSeparator(low).value;
      LastSeparator(low[i := c]) == Some(sep) && low[i := c][..sep] == low[..sep]
      && low[i := c][sep + 1..] == low[sep + 1..][i - sep - 1 := c]
  {
    var sep := LastSeparator(low).value;
    var body' := low[sep + 1..][i - sep - 1 := c];
    SeparatorSplits(low);
    assert SEPARATOR !in body';
    SeparatorFound(low[..sep], body');
    assert low[i := c] == low[..sep] + [SEPARATOR] + body';
  }

  lemma {:induction false} BodyRefused(hrp: Text, body: Text, j: nat, c: Byte, r: Result<(Text, Groups)>)
    requires j < |body| && |body| >= 6 && Index(c) >= 0 && c != body[j]
    requires GroupsOf(body).Some? && Fold(Start(hrp), GroupsOf(body).value) == BECH32M_CONST
    requires BodyDecoded(hrp, body[j := c], r)
    ensures r == Err(BadChecksum)
  {
    hide Start, Fold, Index, GroupsOf, PayloadDecoded;
    IndexRange(c);
    OneGroupChanged(body, j, c);
    StartBound(hrp);
    OneChange(Start(hrp), GroupsOf(body).value, j, Index(c));
  }

  lemma {:induction false} OneGroupChanged(body: Text, j: nat, c: Byte)
    requires j < |body| && GroupsOf(body).Some? && Index(c) >= 0 && c != body[j]
    ensures Index(c) < 32 && Index(c) != GroupsOf(body).value[j]
    ensures GroupsOf(body[j := c]) == Some(GroupsOf(body).value[j := Index(c)])
  {
    hide Index;
    var n := |body| - 1;
    var changed, g := body[j := c], GroupsOf(body[..n]).value;
    IndexRange(c);
    IndexRange(body[n]);
    assert changed[n] == if j == n then c else body[n];
    if j < n {
      OneGroupChanged(body[..n], j, c);
      assert changed[..n] == body[..n][j := c];
      assert (g + [Index(body[n])])[j := Index(c)] == g[j := Index(c)] + [Index(body[n])];
    } else {
      assert changed[..n] == body[..n];
      assert (g + [Index(body[n])])[n := Index(c)] == g + [Index(c)];
    }
  }

  // ---- the loops ----

  method FoldGroups(start: nat, groups: Groups) returns (chk: nat)
    requires start < WORD
    ensures chk == Fold(start, groups) && chk < WORD
  {
    hide Step;
    chk := start;
    var i := 0;
    while i < |groups|
      invariant 0 <= i <= |groups| && chk == Fold(start, groups[..i]) && chk < WORD
    {
      assert groups[..i + 1][..i] == groups[..i];
      StepBound(chk, groups[i]);
      chk := PolymodStep(chk, groups[i]);
      i := i + 1;
    }
    assert groups[..i] == groups;
  }

  /** `hrp_polymod`. */
  method HrpPolymod(hrp: Text) returns (chk: nat)
    ensures chk == Start(hrp) && chk < WORD
  {
    hide Step;
    chk := FoldGroups(1, HighBits(hrp));
    StepBound(chk, 0);
    chk := PolymodStep(chk, 0);
    chk := FoldGroups(chk, LowBits(hrp));
  }

  /** The six groups of a 30-bit word, highest first. */
  method CheckGroups(residue: nat) returns (check: Groups)
    requires residue < WORD
    ensures |check| == 6 && Fits(check, 5) && Value(check, 5) == residue
  {
    hide Pow2, Value;
    Sizes();
    check := [];
    Spelled(residue);
    var slot := 0;
    while slot < 6
      invariant 0 <= slot <= 6 && |check| == slot && Fits(check, 5)
      invariant residue == Value(check, 5) * Pow2(5 * (6 - slot)) + residue % Pow2(5 * (6 - slot))
    {
      var d := Digit(residue, 5 * (5 - slot), 5);
      SpellNext(residue, check, d, 5 * (5 - slot));
      check := check + [d];
      slot := slot + 1;
    }
    Pow2Zero();
  }

  lemma {:induction false} Spelled(residue: nat)
    requires residue < WORD
    ensures residue == Value([], 5) * Pow2(30) + residue % Pow2(30)
  {
    hide Pow2;
    Sizes();
  }

  lemma {:induction false} SpellNext(residue: nat, check: Groups, d: Byte, below: nat)
    requires d == residue / Pow2(below) % Pow2(5)
    requires residue == Value(check, 5) * Pow2(below + 5) + residue % Pow2(below + 5)
    ensures residue == Value(check + [d], 5) * Pow2(below) + residue % Pow2(below)
  {
    hide Pow2, Value;
    var p, q := Pow2(5), Pow2(below);
    Pow2Add(5, below);
    PullDigit(residue, p, q);
    ValueSnoc(check, d, 5);
    Spread(Value(check, 5), p, d, q);
  }

  /** `encode`, before upper-casing: prefix, separator, data groups and six check groups. */
  method Encode(hrp: Text, data: Groups) returns (out: Text)
    requires Fits(data, 5)
    ensures exists check :: Checks(hrp, data, check) && out == hrp + [SEPARATOR] + Chars(data) + Chars(check)
  {
    hide Fold, Start, Value, Xor;
    var chk := HrpPolymod(hrp);
    chk := FoldGroups(chk, data);
    chk := FoldGroups(chk, Zeros(6));
    FoldAppend(Start(hrp), data, Zeros(6));
    assert chk == Fold(Start(hrp), data + Zeros(6));
    Sizes();
    XorBound(chk, BECH32M_CONST, 30);
    var check := CheckGroups(Xor(chk, BECH32M_CONST));
    var body := WriteGroups(data);
    var tail := WriteGroups(check);
    out := hrp + [SEPARATOR] + body + tail;
    assert Checks(hrp, data, check);
  }

  method WriteGroups(groups: Groups) returns (out: Text)
    requires Fits(groups, 5)
    ensures out == Chars(groups)
  {
    Sizes();
    out := [];
    var i := 0;
    while i < |groups|
      invariant 0 <= i <= |groups| && |out| == i
      invariant forall j | 0 <= j < i :: groups[j] < 32 && out[j] == CHARSET[groups[j]]
    {
      out := out + [CHARSET[groups[i]]];
      i := i + 1;
    }
  }

  /** `render`. */
  method Render(hrp: Text, payload: Groups) returns (text: Text)
    ensures Renders(hrp, payload, text)
  {
    hide Padded, Value, Residue, Start, Chars;
    Pow2Byte();
    var groups := ConvertBits(payload, 8, 5, true);
    var out := Encode(hrp, groups.value);
    text := UpperAll(out);
    ghost var check :| Checks(hrp, groups.value, check) && out == hrp + [SEPARATOR] + Chars(groups.value) + Chars(check);
    assert RendersWith(hrp, payload, text, groups.value, check);
  }

  method HasLower(text: Text) returns (r: bool)
    ensures r <==> exists i | 0 <= i < |text| :: IsLower(text[i])
  {
    var i := 0;
    while i < |text|
      invariant 0 <= i <= |text| && forall j | 0 <= j < i :: !IsLower(text[j])
    {
      if IsLower(text[i]) { return true; }
      i := i + 1;
    }
    r := false;
  }

  method HasUpper(text: Text) returns (r: bool)
    ensures r <==> exists i | 0 <= i < |text| :: IsUpper(text[i])
  {
    var i := 0;
    while i < |text|
      invariant 0 <= i <= |text| && forall j | 0 <= j < i :: !IsUpper(text[j])
    {
      if IsUpper(text[i]) { return true; }
      i := i + 1;
    }
    r := false;
  }

  method ReadGroups(body: Text) returns (r: Option<Groups>)
    ensures r == GroupsOf(body)
  {
    hide Index;
    var table := CharsetTable();
    var groups: Groups := [];
    var i := 0;
    while i < |body|
      invariant 0 <= i <= |body| && GroupsOf(body[..i]) == Some(groups)
    {
      assert body[..i + 1][..i] == body[..i];
      IndexRange(body[i]);
      HighBytes(body[i]);
      if body[i] >= 128 || table[body[i]] < 0 {
        NoGroups(body, i + 1);
        return None;
      }
      groups := groups + [table[body[i]]];
      i := i + 1;
    }
    assert body[..i] == body;
    r := Some(groups);
  }

  lemma {:induction false} HighBytes(b: Byte)
    ensures b >= 128 ==> Index(b) == -1
  {}

  lemma {:induction false} NoGroups(body: Text, i: nat)
    requires i <= |body| && GroupsOf(body[..i]).None?
    ensures GroupsOf(body).None?
  {
    hide Index;
    if i < |body| {
      var n := |body| - 1;
      assert body[..n][..i] == body[..i];
      NoGroups(body[..n], i);
    } else {
      assert body[..i] == body;
    }
  }

  /** `decode`. */
  method Decode(text: Text) returns (r: Result<(Text, Groups)>)
    ensures Decoded(text, r)
  {
    hide Start, Fold, Unpadded, GroupsOf;
    if |text| > MAX_ENCODED {
      return Err(BadLength(MAX_ENCODED, |text|));
    }
    var lower := HasLower(text);
    var upper := HasUpper(text);
    if lower && upper {
      return Err(MixedCase);
    }
    var lowered := LowerAll(text);
    var separator := LastSeparator(lowered);
    if separator.None? || separator.value < 1 || separator.value + 7 > |lowered| {
      return Err(NoSeparator);
    }
    var hrp, body := lowered[..separator.value], lowered[separator.value + 1..];
    if !Printable(hrp) {
      return Err(BadChar);
    }
    r := DecodeBody(hrp, body);
  }

  method DecodeBody(hrp: Text, body: Text) returns (r: Result<(Text, Groups)>)
    requires |body| >= 6
    ensures BodyDecoded(hrp, body, r)
  {
    hide Start, Fold, Unpadded, GroupsOf;
    var groups := ReadGroups(body);
    if groups.None? {
      return Err(BadChar);
    }
    var chk := HrpPolymod(hrp);
    chk := FoldGroups(chk, groups.value);
    if chk != BECH32M_CONST {
      return Err(BadChecksum);
    }
    GroupsSpell(body);
    var data := groups.value[..|body| - 6];
    var payload := ConvertBits(data, 5, 8, false);
    r := if payload.None? then Err(BadData) else Ok((hrp, payload.value));
  }

  /** `parse`. */
  method Parse(expected: Text, text: Text) returns (r: Result<Groups>)
    ensures Parsed(expected, text, r)
  {
    hide Decoded;
    var d := Decode(text);
    match d {
      case Err(e) => r := Err(e);
      case Ok((hrp, payload)) => r := if LowerAll(hrp) == LowerAll(expected) then Ok(payload) else Err(WrongPrefix);
    }
  }

  // ---- identifier families ----

  const DIGEST_LEN: nat := 32
  const KEY_FLOOR: nat := 32

  /** Q, Q2, QTX, QBK, QST, QCID and QPF. */
  const PREFIXES: set<Text> := {[81], [81, 50], [81, 84, 88], [81, 66, 75], [81, 83, 84], [81, 67, 73, 68], [81, 80, 70]}

  /** `render_address`, `render_tx` and the other fixed digests. */
  method RenderDigest(hrp: Text, bytes: Groups) returns (r: Result<Text>)
    ensures r.Ok? <==> |bytes| == DIGEST_LEN
    ensures r.Ok? ==> Renders(hrp, bytes, r.value)
    ensures r.Err? ==> r.error == BadLength(DIGEST_LEN, |bytes|)
  {
    if |bytes| != DIGEST_LEN {
      return Err(BadLength(DIGEST_LEN, |bytes|));
    }
    var text := Render(hrp, bytes);
    r := Ok(text);
  }

  method ParseDigest(hrp: Text, text: Text) returns (r: Result<Groups>)
    ensures exists p :: Parsed(hrp, text, p) && r == if p.Ok? && |p.value| != DIGEST_LEN then Err(BadLength(DIGEST_LEN, |p.value|)) else p
  {
    hide Parsed;
    var p := Parse(hrp, text);
    if p.Ok? && |p.value| != DIGEST_LEN {
      return Err(BadLength(DIGEST_LEN, |p.value|));
    }
    r := p;
  }

  /** `render_secret`: any length from the floor up. */
  method RenderKey(hrp: Text, bytes: Groups) returns (r: Result<Text>)
    ensures r.Ok? <==> |bytes| >= KEY_FLOOR
    ensures r.Ok? ==> Renders(hrp, bytes, r.value)
    ensures r.Err? ==> r.error == TooShort(KEY_FLOOR, |bytes|)
  {
    if |bytes| < KEY_FLOOR {
      return Err(TooShort(KEY_FLOOR, |bytes|));
    }
    var text := Render(hrp, bytes);
    r := Ok(text);
  }

  method ParseKey(hrp: Text, text: Text) returns (r: Result<Groups>)
    ensures exists p :: Parsed(hrp, text, p) && r == if p.Ok? && |p.value| < KEY_FLOOR then Err(TooShort(KEY_FLOOR, |p.value|)) else p
  {
    hide Parsed;
    var p := Parse(hrp, text);
    if p.Ok? && |p.value| < KEY_FLOOR {
      return Err(TooShort(KEY_FLOOR, |p.value|));
    }
    r := p;
  }

  /** Length of a rendering. */
  lemma {:induction false} RenderedLength(hrp: Text, payload: Groups, text: Text)
    requires Renders(hrp, payload, text)
    ensures |text| == |hrp| + 7 + (8 * |payload| + 4) / 5
  {
    hide Start, Fold, Residue, Value;
    var groups, check :| RendersWith(hrp, payload, text, groups, check);
    var slack: nat :| slack < 5 && Extends(payload, 8, groups, 5, slack);
    assert 5 * |groups| == 8 * |payload| + slack;
  }

  /** Parsing a rendered payload returns it exactly when the rendering fits 128 characters:
      always for digests, and for keys up to the length the bound leaves. */
  lemma {:induction false} RoundTrip(hrp: Text, payload: Groups, text: Text, r: Result<Groups>)
    requires hrp != [] && Printable(LowerAll(hrp)) && Renders(hrp, payload, text) && Parsed(hrp, text, r)
    ensures r == Ok(payload) <==> |hrp| + 7 + (8 * |payload| + 4) / 5 <= MAX_ENCODED
    ensures hrp in PREFIXES && |payload| == DIGEST_LEN ==> r == Ok(payload)
  {
    hide Renders, Decoded;
    Pow2Byte();
    RenderedLength(hrp, payload, text);
    var d :| Decoded(text, d) &&
      r == match d {
        case Err(e) => Err(e)
        case Ok((p, payload)) => if LowerAll(p) == LowerAll(hrp) then Ok(payload) else Err(WrongPrefix)
      };
    RenderedDecodes(hrp, payload, text, d);
    CaseFacts(hrp, []);
  }

  /** A 75-byte key renders under Q2 and its rendering is one character too long to parse. */
  lemma {:induction false} LongKeyLost(payload: Groups, text: Text, r: Result<Groups>)
    requires |payload| == 75 && Renders([81, 50], payload, text) && Parsed([81, 50], text, r)
    ensures |text| == 129 && r == Err(BadLength(MAX_ENCODED, 129))
  {
    hide Renders, Decoded;
    var hrp := [81, 50];
    Pow2Byte();
    RenderedLength(hrp, payload, text);
    var d :| Decoded(text, d) &&
      r == match d {
        case Err(e) => Err(e)
        case Ok((p, payload)) => if LowerAll(p) == LowerAll(hrp) then Ok(payload) else Err(WrongPrefix)
      };
    RenderedDecodes(hrp, payload, text, d);
  }

  /** Accepted text, upper-cased, is the one rendering of its payload under the prefix. */
  lemma {:induction false} ParsedIsRendered(hrp: Text, text: Text, payload: Groups, rendered: Text)
    requires Parsed(hrp, text, Ok(payload)) && Renders(hrp, payload, rendered)
    ensures UpperAll(text) == rendered
  {
    hide Renders, Decoded;
    var d :| Decoded(text, d) &&
      Ok(payload) == match d {
        case Err(e) => Err(e)
        case Ok((p, payload)) => if LowerAll(p) == LowerAll(hrp) then Ok(payload) else Err(WrongPrefix)
      };
    AcceptedIsRendered(text, d.value.0, payload, hrp, rendered);
  }
}
