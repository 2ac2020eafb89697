/** The shard tree of a commitment: pairs hashed upward, a last odd node hashed alone. */
module ShardTree {
  import opened Field
  import opened Hashing
  import opened Erasure
  import opened Wrappers

  datatype Commitment = Commitment(root: Digest, k: U64, n: U64, shardLen: U64, dataLen: U64)

  const LEAF_TAG: Byte := 0
  const NODE_TAG: Byte := 1
  const ROOT_TAG: Byte := 2
  const ODD_TAG: Byte := 3

  // ---- hash inputs ----

  function LeafInput(len: U64, bytes: Bytes): Bytes {
    [LEAF_TAG] + LeU64(len) + bytes
  }

  function PairInput(left: Digest, right: Digest): Bytes {
    [NODE_TAG] + left + right
  }

  function OddInput(node: Digest): Bytes {
    [ODD_TAG] + node
  }

  function RootInput(tree: Digest, k: U64, n: U64, len: U64, dataLen: U64): Bytes {
    [ROOT_TAG] + tree + LeU64(k) + LeU64(n) + LeU64(len) + LeU64(dataLen)
  }

  lemma {:induction false} LeafInjective(len: U64, a: Bytes, b: Bytes)
    requires LeafInput(len, a) == LeafInput(len, b)
    ensures a == b
  {
    assert a == LeafInput(len, a)[9..];
    assert b == LeafInput(len, b)[9..];
  }

  lemma {:induction false} PairInjective(l: Digest, r: Digest, l': Digest, r': Digest)
    requires PairInput(l, r) == PairInput(l', r')
    ensures l == l' && r == r'
  {
    assert l == PairInput(l, r)[1..33] && r == PairInput(l, r)[33..];
    assert l' == PairInput(l', r')[1..33] && r' == PairInput(l', r')[33..];
  }

  lemma {:induction false} OddInjective(a: Digest, b: Digest)
    requires OddInput(a) == OddInput(b)
    ensures a == b
  {
    assert a == OddInput(a)[1..];
    assert b == OddInput(b)[1..];
  }

  lemma {:induction false} RootInjective(a: Digest, b: Digest, k: U64, n: U64, len: U64, dataLen: U64)
    requires RootInput(a, k, n, len, dataLen) == RootInput(b, k, n, len, dataLen)
    ensures a == b
  {
    assert a == RootInput(a, k, n, len, dataLen)[1..33];
    assert b == RootInput(b, k, n, len, dataLen)[1..33];
  }

  // ---- the tree ----

  function HalfUp(width: nat): nat {
    (width + 1) / 2
  }

  /** The next level up. */
  function Up(h: Hash, level: seq<Digest>): (up: seq<Digest>)
    ensures |up| == HalfUp(|level|)
    ensures forall i | 0 <= i < |up| :: up[i] == Parent(h, level, i)
  {
    seq<Digest>(HalfUp(|level|), i requires 0 <= i < HalfUp(|level|) => Parent(h, level, i))
  }

  function Parent(h: Hash, level: seq<Digest>, i: nat): Digest
    requires i < HalfUp(|level|)
  {
    if 2 * i + 1 < |level| then h(PairInput(level[2 * i], level[2 * i + 1])) else h(OddInput(level[2 * i]))
  }

  function TreeRoot(h: Hash, level: seq<Digest>): Digest
    requires level != []
    decreases |level|
  {
    if |level| == 1 then level[0] else TreeRoot(h, Up(h, level))
  }

  /** All levels, from the leaves to the root. */
  function Levels(h: Hash, level: seq<Digest>): (t: seq<seq<Digest>>)
    requires level != []
    ensures t != [] && t[0] == level && t[|t| - 1] == [TreeRoot(h, level)]
    decreases |level|
  {
    if |level| == 1 then [level] else [level] + Levels(h, Up(h, level))
  }

  predicate LastOdd(pos: nat, width: nat) {
    width % 2 == 1 && pos == width - 1
  }

  /** The siblings on the way up from position `pos`. */
  function Path(h: Hash, level: seq<Digest>, pos: nat): seq<Digest>
    requires pos < |level|
    decreases |level|
  {
    if |level| == 1 then []
    else if LastOdd(pos, |level|) then Path(h, Up(h, level), pos / 2)
    else [Sibling(level, pos)] + Path(h, Up(h, level), pos / 2)
  }

  function Sibling(level: seq<Digest>, pos: nat): Digest
    requires pos < |level| && !LastOdd(pos, |level|)
  {
    if pos % 2 == 0 then level[pos + 1] else level[pos - 1]
  }

  /** The root a verifier computes from a node, its position and siblings, all of them used up. */
  function Climb(h: Hash, node: Digest, pos: nat, width: nat, siblings: seq<Digest>): Option<Digest>
    decreases width
  {
    if width <= 1 then (if siblings == [] then Some(node) else None)
    else if LastOdd(pos, width) then Climb(h, h(OddInput(node)), pos / 2, HalfUp(width), siblings)
    else if siblings == [] then None
    else Climb(h, h(Joined(node, pos, siblings[0])), pos / 2, HalfUp(width), siblings[1..])
  }

  function Joined(node: Digest, pos: nat, sibling: Digest): Bytes {
    if pos % 2 == 0 then PairInput(node, sibling) else PairInput(sibling, node)
  }

  lemma {:induction false} JoinedInjective(a: Digest, s: Digest, b: Digest, t: Digest, pos: nat)
    requires Joined(a, pos, s) == Joined(b, pos, t)
    ensures a == b && s == t
  {
    if pos % 2 == 0 { PairInjective(a, s, b, t); } else { PairInjective(s, a, t, b); }
  }

  /** The parent of `pos`, seen from the child. */
  lemma {:induction false} ParentOf(h: Hash, level: seq<Digest>, pos: nat)
    requires pos < |level|
    ensures pos / 2 < HalfUp(|level|)
    ensures LastOdd(pos, |level|) ==> Up(h, level)[pos / 2] == h(OddInput(level[pos]))
    ensures !LastOdd(pos, |level|) ==> Up(h, level)[pos / 2] == h(Joined(level[pos], pos, Sibling(level, pos)))
  {
    hide PairInput, OddInput;
    assert Up(h, level)[pos / 2] == Parent(h, level, pos / 2);
  }

  /** The honest path leads to the root. */
  lemma {:induction false} PathClimbs(h: Hash, level: seq<Digest>, pos: nat)
    requires pos < |level|
    ensures Climb(h, level[pos], pos, |level|, Path(h, level, pos)) == Some(TreeRoot(h, level))
    decreases |level|
  {
    hide PairInput, OddInput, Joined, Up, Sibling;
    if |level| > 1 {
      ParentOf(h, level, pos);
      PathClimbs(h, Up(h, level), pos / 2);
      if !LastOdd(pos, |level|) {
        assert Path(h, level, pos)[1..] == Path(h, Up(h, level), pos / 2);
      }
    }
  }

  /** Whatever reaches the root from `pos` is the node there with its own path, or two inputs collide. */
  lemma {:induction false} ClimbSound(h: Hash, level: seq<Digest>, node: Digest, pos: nat, siblings: seq<Digest>)
      returns (a: Bytes, b: Bytes)
    requires pos < |level| && Climb(h, node, pos, |level|, siblings) == Some(TreeRoot(h, level))
    ensures (node == level[pos] && siblings == Path(h, level, pos)) || Collision(h, a, b)
    decreases |level|
  {
    hide PairInput, OddInput, Joined, Up, Sibling;
    a, b := [], [];
    if |level| > 1 {
      var up := Up(h, level);
      ParentOf(h, level, pos);
      if LastOdd(pos, |level|) {
        a, b := ClimbSound(h, up, h(OddInput(node)), pos / 2, siblings);
        if !Collision(h, a, b) {
          a, b := OddInput(node), OddInput(level[pos]);
          if a == b { OddInjective(node, level[pos]); }
        }
      } else {
        a, b := ClimbSound(h, up, h(Joined(node, pos, siblings[0])), pos / 2, siblings[1..]);
        if !Collision(h, a, b) {
          a, b := Joined(node, pos, siblings[0]), Joined(level[pos], pos, Sibling(level, pos));
          if a == b {
            JoinedInjective(node, siblings[0], level[pos], Sibling(level, pos), pos);
            assert siblings == [siblings[0]] + siblings[1..];
          }
        }
      }
    }
  }

  // ---- commitments ----

  function Leaves(h: Hash, len: U64, rows: seq<Bytes>): (v: seq<Digest>)
    ensures |v| == |rows| && forall i | 0 <= i < |rows| :: v[i] == h(LeafInput(len, rows[i]))
  {
    seq<Digest>(|rows|, i requires 0 <= i < |rows| => h(LeafInput(len, rows[i])))
  }

  /** The commitment over `rows`. */
  function Commit(h: Hash, rows: seq<Bytes>, k: U64, n: U64, len: U64, dataLen: U64): Commitment
    requires rows != []
  {
    Commitment(h(RootInput(TreeRoot(h, Leaves(h, len, rows)), k, n, len, dataLen)), k, n, len, dataLen)
  }

  /** The commitment accepts this shard with these siblings. */
  predicate Verifies(h: Hash, c: Commitment, shard: Shard, siblings: seq<Digest>) {
    && ParametersOk(c.k, c.n) && shard.index < c.n && |shard.bytes| == c.shardLen
    && var top := Climb(h, h(LeafInput(c.shardLen, shard.bytes)), shard.index, c.n, siblings);
    top.Some? && h(RootInput(top.value, c.k, c.n, c.shardLen, c.dataLen)) == c.root
  }

  /** Under an honest commitment the accepted shard and proof at an index are the committed ones. */
  lemma {:induction false} ShardExact(h: Hash, rows: seq<Bytes>, c: Commitment, shard: Shard, siblings: seq<Digest>)
      returns (a: Bytes, b: Bytes)
    requires |rows| == c.n && rows != [] && c == Commit(h, rows, c.k, c.n, c.shardLen, c.dataLen)
    requires Verifies(h, c, shard, siblings)
    ensures (shard.bytes == rows[shard.index] && siblings == Path(h, Leaves(h, c.shardLen, rows), shard.index)) || Collision(h, a, b)
  {
    var leaves := Leaves(h, c.shardLen, rows);
    var node: Digest := h(LeafInput(c.shardLen, shard.bytes));
    var top := Climb(h, node, shard.index, c.n, siblings);
    a := RootInput(top.value, c.k, c.n, c.shardLen, c.dataLen);
    b := RootInput(TreeRoot(h, leaves), c.k, c.n, c.shardLen, c.dataLen);
    if a == b {
      RootInjective(top.value, TreeRoot(h, leaves), c.k, c.n, c.shardLen, c.dataLen);
      a, b := ClimbSound(h, leaves, node, shard.index, siblings);
      if !Collision(h, a, b) {
        a, b := LeafInput(c.shardLen, shard.bytes), LeafInput(c.shardLen, rows[shard.index]);
        if a == b { LeafInjective(c.shardLen, shard.bytes, rows[shard.index]); }
      }
    }
  }

  /** Every committed shard verifies with its own path. */
  lemma {:induction false} HonestVerifies(h: Hash, rows: seq<Bytes>, c: Commitment, i: nat)
    requires ParametersOk(c.k, c.n) && |rows| == c.n && c == Commit(h, rows, c.k, c.n, c.shardLen, c.dataLen)
    requires i < c.n && |rows[i]| == c.shardLen
    ensures Verifies(h, c, Shard(i, rows[i]), Path(h, Leaves(h, c.shardLen, rows), i))
  {
    PathClimbs(h, Leaves(h, c.shardLen, rows), i);
  }

  // ---- the loops ----

  /** One pass over a level, two nodes at a time. */
  method NextLevel(h: Hash, level: seq<Digest>) returns (next: seq<Digest>)
    ensures next == Up(h, level)
  {
    next := [];
    var index := 0;
    while index < |level|
      invariant index == 2 * |next| && |next| <= HalfUp(|level|)
      invariant forall i | 0 <= i < |next| :: next[i] == Up(h, level)[i]
    {
      if index + 1 < |level| {
        next := next + [h(PairInput(level[index], level[index + 1]))];
      } else {
        next := next + [h(OddInput(level[index]))];
      }
      index := index + 2;
    }
  }

  lemma {:induction false} LevelsGrow(h: Hash, below: seq<seq<Digest>>, last: seq<Digest>)
    requires |last| > 1
    ensures below + Levels(h, last) == (below + [last]) + Levels(h, Up(h, last))
  {
    hide Up;
  }

  method MerkleTree(h: Hash, leaves: seq<Digest>) returns (levels: seq<seq<Digest>>)
    requires leaves != []
    ensures levels == Levels(h, leaves)
  {
    hide Up, TreeRoot, Levels;
    levels := [leaves];
    var last := leaves;
    ghost var below: seq<seq<Digest>> := [];
    assert below + Levels(h, last) == Levels(h, leaves);
    while |last| > 1
      invariant last != [] && levels == below + [last]
      invariant below + Levels(h, last) == Levels(h, leaves)
      decreases |last|
    {
      var next := NextLevel(h, last);
      LevelsGrow(h, below, last);
      below := levels;
      levels := levels + [next];
      last := next;
    }
    LevelsOne(h, last);
  }

  lemma {:induction false} LevelsOne(h: Hash, level: seq<Digest>)
    requires |level| == 1
    ensures Levels(h, level) == [level]
  {}

  lemma {:induction false} LevelsTail(h: Hash, tree: seq<seq<Digest>>, l: nat, level: seq<Digest>)
    requires l < |tree| && |level| > 1 && tree[l..] == Levels(h, level)
    ensures l + 1 < |tree| && tree[l + 1] == Up(h, level) && tree[l + 1..] == Levels(h, Up(h, level))
  {
    hide Up;
    assert tree[l..] == [level] + Levels(h, Up(h, level));
    assert tree[l + 1..] == tree[l..][1..];
    assert tree[l..][1] == tree[l + 1];
  }

  lemma {:induction false} PathStep(h: Hash, level: seq<Digest>, pos: nat, out: seq<Digest>)
    requires pos < |level| && |level| > 1
    ensures pos / 2 < |Up(h, level)|
    ensures out + Path(h, level, pos) ==
      (if LastOdd(pos, |level|) then out else out + [Sibling(level, pos)]) + Path(h, Up(h, level), pos / 2)
  {
    hide Up, Sibling;
  }

  /** `proof`: the siblings read off the stored levels. */
  method Proof(h: Hash, ghost leaves: seq<Digest>, tree: seq<seq<Digest>>, shards: nat, index: nat)
      returns (siblings: Option<seq<Digest>>)
    requires leaves != [] && tree == Levels(h, leaves) && |leaves| == shards
    ensures siblings == if index < shards then Some(Path(h, leaves, index)) else None
  {
    hide Up, TreeRoot, Levels, Path;
    if index >= shards {
      return None;
    }
    var out: seq<Digest> := [];
    var pos: nat := index;
    var l := 0;
    assert tree[0..] == tree;
    assert out + Path(h, tree[0], pos) == Path(h, leaves, index);
    while |tree[l]| > 1
      invariant 0 <= l < |tree| && 0 <= pos < |tree[l]| && tree[l..] == Levels(h, tree[l])
      invariant Path(h, leaves, index) == out + Path(h, tree[l], pos)
      decreases |tree| - l
    {
      LevelsTail(h, tree, l, tree[l]);
      PathStep(h, tree[l], pos, out);
      if pos + 1 == |tree[l]| && pos % 2 == 0 {
        pos := pos / 2;
      } else {
        var sibling := if pos % 2 == 0 then tree[l][pos + 1] else tree[l][pos - 1];
        out := out + [sibling];
        pos := pos / 2;
      }
      l := l + 1;
    }
    PathOne(h, tree[l], pos);
    assert out + [] == out;
    siblings := Some(out);
  }

  lemma {:induction false} PathOne(h: Hash, level: seq<Digest>, pos: nat)
    requires |level| == 1 && pos == 0
    ensures Path(h, level, pos) == []
  {}

  /** `verify_shard`. */
  method VerifyShard(h: Hash, c: Commitment, shard: Shard, siblings: seq<Digest>) returns (ok: bool)
    ensures ok == Verifies(h, c, shard, siblings)
  {
    if c.k == 0 || c.n < c.k || c.n > MAX_SHARDS || shard.index >= c.n || |shard.bytes| != c.shardLen {
      return false;
    }
    var node: Digest := h(LeafInput(c.shardLen, shard.bytes));
    ghost var leaf: Digest := node;
    var index: nat, width: nat, level := shard.index, c.n, 0;
    while width > 1
      invariant width >= 1 && level <= |siblings|
      invariant Climb(h, node, index, width, siblings[level..]) == Climb(h, leaf, shard.index, c.n, siblings)
      decreases width
    {
      if width % 2 != 0 && index == width - 1 {
        node := h(OddInput(node));
      } else {
        if level >= |siblings| {
          return false;
        }
        assert siblings[level..][1..] == siblings[level + 1..];
        node := if index % 2 == 0 then h(PairInput(node, siblings[level])) else h(PairInput(siblings[level], node));
        level := level + 1;
      }
      index := index / 2;
      width := HalfUp(width);
    }
    ok := level == |siblings| && h(RootInput(node, c.k, c.n, c.shardLen, c.dataLen)) == c.root;
  }
}
