/** Dispersal of a block: what a receiver rebuilds from verified shards, and why every
    receiver rebuilds the same block. */
module Dispersal {
  import opened Arithmetic
  import opened Erasure
  import opened Hashing
  import opened ShardTree
  import opened Wrappers

  const SHARD_TARGET: nat := 0x4_0000
  const MAX_CODED_BYTES: nat := 12 * 1024 * 1024

  datatype CodedError =
    | Coding(inner: Erasure.Error)
    | NotEnough
    | Undecodable
    | HeaderMismatch
    | BodyMismatch
    | CommitmentMismatch
    | BadCommitment

  datatype Outcome<+B> = Done(block: B) | Failed(why: CodedError)

  /** How blocks are read: the block codec and the two roots it is checked against. */
  datatype Reading<!B(==), !Head(==)> = Reading(
    decode: Bytes -> Option<B>,
    header: B -> Head,
    headerBytes: Head -> Bytes,
    bodyRoot: B -> Digest,
    namedRoot: Head -> Digest)

  type Piece = (Shard, seq<Digest>)

  // ---- commitment bounds ----

  function SatMul(a: nat, b: nat): nat {
    if a * b > U64_MAX then U64_MAX else a * b
  }

  predicate InBounds(c: Commitment) {
    && c.k >= 1 && c.n >= c.k && c.n <= MAX_SHARDS && c.n <= SatMul(c.k, 2)
    && c.shardLen <= SHARD_TARGET
    && SatMul(c.k, c.shardLen) <= MAX_CODED_BYTES
    && c.dataLen <= SatMul(c.k, c.shardLen)
  }

  function DivCeil(a: nat, b: nat): nat
    requires b > 0
  {
    (a + b - 1) / b
  }

  function CodingParams(len: nat): (nat, nat) {
    var pieces := DivCeil(len, SHARD_TARGET);
    var k := if pieces < 2 then 2 else if pieces > MAX_SHARDS / 2 then MAX_SHARDS / 2 else pieces;
    (k, if 2 * k < MAX_SHARDS then 2 * k else MAX_SHARDS)
  }

  /** The parameters of a block of any length the code can carry: the fewest pieces of at most the target
      size, but two, and as many again, so that any half of the shards may be lost. */
  lemma {:induction false} ParamsTolerateHalf(len: nat)
    requires len <= MAX_SHARDS / 2 * SHARD_TARGET
    ensures var (k, n) := CodingParams(len);
      && n == 2 * k <= MAX_SHARDS && k >= 2 && len <= k * SHARD_TARGET && (k > 2 ==> (k - 1) * SHARD_TARGET < len)
  {
    var pieces := DivCeil(len, SHARD_TARGET);
    assert pieces * SHARD_TARGET >= len && (pieces > 0 ==> (pieces - 1) * SHARD_TARGET < len || len == 0);
  }

  predicate Canonical(c: Commitment) {
    InBounds(c) && (c.k, c.n) == CodingParams(c.dataLen) && c.shardLen == ShardLen(c.dataLen, c.k)
  }

  /** An honest leader's commitment is canonical exactly when the block fits twelve mebibytes. */
  lemma {:induction false} HonestCanonical(c: Commitment)
    requires (c.k, c.n) == CodingParams(c.dataLen) && c.shardLen == ShardLen(c.dataLen, c.k)
    ensures Canonical(c) <==> c.dataLen <= MAX_CODED_BYTES
  {
    var len := c.dataLen;
    if len <= MAX_CODED_BYTES {
      assert c.k <= 48 && len <= c.k * SHARD_TARGET;
      CeilBelow(len, c.k, SHARD_TARGET);
      assert c.k * c.shardLen <= 48 * SHARD_TARGET by { Product(c.k, 48, c.shardLen, SHARD_TARGET); }
    } else {
      assert c.dataLen <= c.k * c.shardLen;
    }
  }

  lemma {:induction false} CeilBelow(len: nat, k: nat, bound: nat)
    requires k > 0 && bound >= 1 && len <= k * bound
    ensures ShardLen(len, k) <= bound
  {
    if len > 0 {
      var q := (len + k - 1) / k;
      assert k * q <= len + k - 1;
      if q > bound {
        Product(k, k, bound + 1, q);
        assert false;
      }
    }
  }

  // ---- encoding with its tree ----

  datatype Coded = Coded(commitment: Commitment, rows: seq<Bytes>, tree: seq<seq<Digest>>)

  /** The commitment an encoding of `data` carries. */
  ghost predicate Committed(h: Hash, data: Bytes, rows: seq<Bytes>, c: Commitment) {
    && Encodes(data, c.k, c.n, rows)
    && c.shardLen == ShardLen(|data|, c.k) && c.dataLen == |data|
    && c == Commit(h, rows, c.k, c.n, c.shardLen, c.dataLen)
  }

  method LeafHashes(h: Hash, len: U64, rows: seq<Bytes>) returns (leaves: seq<Digest>)
    ensures leaves == Leaves(h, len, rows)
  {
    leaves := [];
    var i := 0;
    while i < |rows|
      invariant 0 <= i <= |rows| && |leaves| == i
      invariant forall j | 0 <= j < i :: leaves[j] == h(LeafInput(len, rows[j]))
    {
      leaves := leaves + [h(LeafInput(len, rows[i]))];
      i := i + 1;
    }
  }

  /** `encode`. */
  method Encode(h: Hash, data: Bytes, k: U64, n: U64) returns (r: Erasure.Result<Coded>)
    requires |data| <= U64_MAX
    ensures r.Ok? <==> ParametersOk(k, n)
    ensures r.Err? ==> r.error == Parameters
    ensures r.Ok? ==> (r.value.commitment.k, r.value.commitment.n) == (k, n)
    ensures r.Ok? ==> Committed(h, data, r.value.rows, r.value.commitment)
    ensures r.Ok? ==> r.value.tree == Levels(h, Leaves(h, r.value.commitment.shardLen, r.value.rows))
  {
    hide Codeword;
    var shards := EncodeShards(data, k, n);
    if shards.Err? {
      return Err(shards.error);
    }
    var rows := shards.value;
    ShardLenFits(|data|, k);
    var len: U64 := ShardLen(|data|, k);
    var leaves := LeafHashes(h, len, rows);
    var tree := MerkleTree(h, leaves);
    var top: Digest := tree[|tree| - 1][0];
    r := Ok(Coded(Commitment(h(RootInput(top, k, n, len, |data|)), k, n, len, |data|), rows, tree));
  }

  lemma {:induction false} ShardLenFits(len: nat, k: nat)
    requires k > 0 && len <= U64_MAX
    ensures ShardLen(len, k) <= U64_MAX
  {
    CeilBelow(len, k, if len == 0 then 1 else len) by { assert len <= k * len; }
  }

  /** `CodedBlock::piece`: the shard at an index with its proof. */
  ghost function HonestPiece(h: Hash, coded: Coded, i: nat): Piece
    requires i < |coded.rows|
  {
    (Shard(i, coded.rows[i]), Path(h, Leaves(h, coded.commitment.shardLen, coded.rows), i))
  }

  method PieceAt(h: Hash, coded: Coded, i: nat) returns (r: Option<Piece>)
    requires coded.rows != [] && coded.tree == Levels(h, Leaves(h, coded.commitment.shardLen, coded.rows))
    ensures r == if i < |coded.rows| then Some(HonestPiece(h, coded, i)) else None
  {
    if i >= |coded.rows| {
      return None;
    }
    var proof := Proof(h, Leaves(h, coded.commitment.shardLen, coded.rows), coded.tree, |coded.rows|, i);
    r := Some((Shard(i, coded.rows[i]), proof.value));
  }

  // ---- choosing shards ----

  /** The verified shards a receiver keeps: in order, one per index, at most k. */
  function Pick(h: Hash, c: Commitment, received: seq<Piece>): seq<Shard> {
    if received == [] then []
    else
      var p := Pick(h, c, received[..|received| - 1]);
      var (shard, proof) := received[|received| - 1];
      if |p| < c.k && Verifies(h, c, shard, proof) && shard.index !in Indices(p) then p + [shard] else p
  }

  function VerifiedIndices(h: Hash, c: Commitment, received: seq<Piece>): set<nat> {
    set i | 0 <= i < |received| && Verifies(h, c, received[i].0, received[i].1) :: received[i].0.index
  }

  ghost predicate SomeVerifies(h: Hash, c: Commitment, shard: Shard) {
    exists proof :: Verifies(h, c, shard, proof)
  }

  lemma {:induction false} PickFacts(h: Hash, c: Commitment, received: seq<Piece>)
    ensures |Pick(h, c, received)| <= c.k && Usable(c.n, c.shardLen, Pick(h, c, received))
    ensures forall j | 0 <= j < |Pick(h, c, received)| :: SomeVerifies(h, c, Pick(h, c, received)[j])
  {
    hide Climb;
    if received != [] {
      var n := |received| - 1;
      PickFacts(h, c, received[..n]);
      var p, q := Pick(h, c, received[..n]), Pick(h, c, received);
      if q != p {
        assert SomeVerifies(h, c, received[n].0);
        assert q[..|p|] == p;
        forall i | 0 <= i < |q| ensures InSet(c.n, q, i) {
          if i < |p| {
            assert InSet(c.n, p, i);
          } else {
            forall j | 0 <= j < i ensures q[j].index != q[i].index { assert Indices(p)[j] == q[j].index; }
          }
        }
      }
    }
  }

  function IndexSet(shards: seq<Shard>): set<nat> {
    set i | 0 <= i < |shards| :: shards[i].index
  }

  lemma {:induction false} DistinctCount(n: nat, len: nat, shards: seq<Shard>)
    requires Usable(n, len, shards)
    ensures |IndexSet(shards)| == |shards|
  {
    if shards != [] {
      var m := |shards| - 1;
      forall i | 0 <= i < m ensures InSet(n, shards[..m], i) { assert InSet(n, shards, i); }
      DistinctCount(n, len, shards[..m]);
      assert InSet(n, shards, m);
      assert IndexSet(shards) == IndexSet(shards[..m]) + {shards[m].index};
    }
  }

  /** The receiver finds k shards exactly when k distinct indices verified. */
  lemma {:induction false} PickCount(h: Hash, c: Commitment, received: seq<Piece>)
    ensures |Pick(h, c, received)| < c.k ==> IndexSet(Pick(h, c, received)) == VerifiedIndices(h, c, received)
    ensures |Pick(h, c, received)| == c.k <==> |VerifiedIndices(h, c, received)| >= c.k
  {
    hide Verifies;
    PickCovers(h, c, received);
    var p := Pick(h, c, received);
    PickFacts(h, c, received);
    DistinctCount(c.n, c.shardLen, p);
    SubsetSize(IndexSet(p), VerifiedIndices(h, c, received));
  }

  lemma {:induction false} IndexSetSnoc(shards: seq<Shard>, shard: Shard)
    ensures IndexSet(shards + [shard]) == IndexSet(shards) + {shard.index}
  {
    var q := shards + [shard];
    assert q[|shards|] == shard;
    forall i | 0 <= i < |shards| ensures shards[i].index in IndexSet(q) { assert q[i] == shards[i]; }
  }

  lemma {:induction false} PickCovers(h: Hash, c: Commitment, received: seq<Piece>)
    ensures IndexSet(Pick(h, c, received)) <= VerifiedIndices(h, c, received)
    ensures |Pick(h, c, received)| < c.k ==> IndexSet(Pick(h, c, received)) == VerifiedIndices(h, c, received)
  {
    hide Verifies;
    if received != [] {
      var n := |received| - 1;
      PickCovers(h, c, received[..n]);
      var p, q := Pick(h, c, received[..n]), Pick(h, c, received);
      var index := received[n].0.index;
      assert VerifiedIndices(h, c, received) == VerifiedIndices(h, c, received[..n]) +
        (if Verifies(h, c, received[n].0, received[n].1) then {index} else {});
      if q != p { IndexSetSnoc(p, received[n].0); }
      assert index in Indices(p) ==> index in IndexSet(p);
    }
  }

  // ---- judging the rebuilt bytes ----

  /** The rebuilt bytes, encoded again, give this commitment. */
  ghost predicate Rederives(h: Hash, c: Commitment, data: Bytes) {
    exists rows :: Committed(h, data, rows, c)
  }

  /** What `reconstruct_block` makes of the rebuilt bytes. */
  ghost function Judge<B, Head>(h: Hash, rd: Reading<B, Head>, header: Head, hash: Digest, c: Commitment, data: Bytes): Outcome<B> {
    var read := rd.decode(data);
    if read.None? then Failed(Undecodable)
    else if rd.header(read.value) != header || h(rd.headerBytes(rd.header(read.value))) != hash then Failed(HeaderMismatch)
    else if rd.bodyRoot(read.value) != rd.namedRoot(header) then Failed(BodyMismatch)
    else if !Rederives(h, c, data) then Failed(CommitmentMismatch)
    else Done(read.value)
  }

  /** A rebuilt block is accepted exactly when the bytes decode to it, its header is the one announced
      and hashes to the announced hash, its body has the root that header names, and encoding the bytes
      again gives the commitment; the first check that fails names the refusal. */
  lemma {:induction false} AcceptedExactly<B, Head>(h: Hash, rd: Reading<B, Head>, header: Head, hash: Digest, c: Commitment, data: Bytes, block: B)
    ensures Judge(h, rd, header, hash, c, data) == Done(block) <==>
      && rd.decode(data) == Some(block) && rd.header(block) == header && h(rd.headerBytes(header)) == hash
      && rd.bodyRoot(block) == rd.namedRoot(header) && exists rows :: Committed(h, data, rows, c)
    ensures Judge(h, rd, header, hash, c, data) == Failed(Undecodable) <==> rd.decode(data).None?
    ensures Judge(h, rd, header, hash, c, data) == Failed(HeaderMismatch) <==>
      rd.decode(data).Some? && !(rd.header(rd.decode(data).value) == header && h(rd.headerBytes(header)) == hash)
    ensures Judge(h, rd, header, hash, c, data) == Failed(BodyMismatch) <==>
      && rd.decode(data).Some? && rd.header(rd.decode(data).value) == header && h(rd.headerBytes(header)) == hash
      && rd.bodyRoot(rd.decode(data).value) != rd.namedRoot(header)
  {
    hide Committed;
  }

  /** The bytes decoded from the chosen shards. */
  ghost predicate Rebuilds(c: Commitment, shards: seq<Shard>, data: Bytes) {
    exists pieces :: Decodes(shards, c.k, c.shardLen, pieces) && data == Truncate(Join(pieces), c.dataLen)
  }

  lemma {:induction false} RebuildsOnce(c: Commitment, shards: seq<Shard>, data: Bytes, other: Bytes)
    requires ParametersOk(c.k, c.n) && |shards| == c.k && Usable(c.n, c.shardLen, shards)
    requires Rebuilds(c, shards, data) && Rebuilds(c, shards, other)
    ensures data == other
  {
    hide Join;
    var p :| Decodes(shards, c.k, c.shardLen, p) && data == Truncate(Join(p), c.dataLen);
    var q :| Decodes(shards, c.k, c.shardLen, q) && other == Truncate(Join(q), c.dataLen);
    UsablePoints(c.n, c.shardLen, shards);
    DecodeUnique(shards, c.k, c.shardLen, p, q);
  }

  /** What `reconstruct_block` returns: a refusal in the order of its checks, or the verdict on the
      rebuilt bytes. */
  ghost predicate Reconstructed<B, Head>(h: Hash, rd: Reading<B, Head>, header: Head, hash: Digest, c: Commitment,
                                         received: seq<Piece>, r: Outcome<B>)
  {
    if !InBounds(c) then r == Failed(BadCommitment)
    else if |VerifiedIndices(h, c, received)| < c.k then r == Failed(NotEnough)
    else exists data :: Rebuilds(c, Pick(h, c, received), data) && r == Judge(h, rd, header, hash, c, data)
  }

  /** `reconstruct_block`: the errors in their order, otherwise the verdict on the rebuilt bytes. */
  method ReconstructBlock<B, Head>(h: Hash, rd: Reading<B, Head>, header: Head, hash: Digest, c: Commitment,
                                   received: seq<Piece>) returns (r: Outcome<B>)
    ensures Reconstructed(h, rd, header, hash, c, received, r)
  {
    hide Verifies, VerifiedIndices, Decodes, Encodes, Join;
    if !InBounds(c) {
      return Failed(BadCommitment);
    }
    PickCount(h, c, received);
    var verified := ChooseShards(h, c, received);
    if |verified| < c.k {
      return Failed(NotEnough);
    }
    PickFacts(h, c, received);
    assert verified[..c.k] == verified;
    var rebuilt := Reconstruct(c.k, c.n, c.shardLen, c.dataLen, verified);
    var data := rebuilt.value;
    assert Rebuilds(c, verified, data);
    var read := rd.decode(data);
    if read.None? {
      return Failed(Undecodable);
    }
    var block := read.value;
    if rd.header(block) != header || h(rd.headerBytes(rd.header(block))) != hash {
      return Failed(HeaderMismatch);
    }
    if rd.bodyRoot(block) != rd.namedRoot(header) {
      return Failed(BodyMismatch);
    }
    RebuiltLength(c, verified, data);
    var again := Encode(h, data, c.k, c.n);
    RederivesExact(h, c, data, again.value.rows, again.value.commitment);
    r := if again.value.commitment != c then Failed(CommitmentMismatch) else Done(block);
  }

  lemma {:induction false} RebuiltLength(c: Commitment, shards: seq<Shard>, data: Bytes)
    requires Rebuilds(c, shards, data)
    ensures |data| <= c.dataLen
  {}

  /** Encoding again settles the question, because the encoding of given bytes is unique. */
  lemma {:induction false} RederivesExact(h: Hash, c: Commitment, data: Bytes, rows: seq<Bytes>, again: Commitment)
    requires Committed(h, data, rows, again) && again.k == c.k && again.n == c.n
    ensures Rederives(h, c, data) <==> again == c
  {
    hide Codeword;
    if Rederives(h, c, data) {
      var other :| Committed(h, data, other, c);
      EncodingUnique(data, c.k, c.n, rows, other);
    }
  }

  method ChooseShards(h: Hash, c: Commitment, received: seq<Piece>) returns (verified: seq<Shard>)
    ensures verified == Pick(h, c, received)
  {
    hide Verifies;
    verified := [];
    var i := 0;
    while i < |received| && |verified| != c.k
      invariant 0 <= i <= |received| && verified == Pick(h, c, received[..i]) && |verified| <= c.k
    {
      assert received[..i + 1][..i] == received[..i];
      var (shard, proof) := received[i];
      var ok := VerifyShard(h, c, shard, proof);
      if ok && shard.index !in Indices(verified) {
        verified := verified + [shard];
      }
      i := i + 1;
    }
    if i < |received| {
      PickFull(h, c, received, i);
    } else {
      assert received[..i] == received;
    }
  }

  lemma {:induction false} PickFull(h: Hash, c: Commitment, received: seq<Piece>, i: nat)
    requires i <= |received| && |Pick(h, c, received[..i])| >= c.k
    ensures Pick(h, c, received) == Pick(h, c, received[..i])
  {
    if i < |received| {
      var n := |received| - 1;
      assert received[..n][..i] == received[..i];
      PickFull(h, c, received[..n], i);
    } else {
      assert received[..i] == received;
    }
  }

  // ---- every receiver rebuilds the same block ----

  /** Verified shards under a rederived commitment are rows of its codeword, or two inputs collide. */
  lemma {:induction false} VerifiedAreRows(h: Hash, c: Commitment, rows: seq<Bytes>, shards: seq<Shard>) returns (a: Bytes, b: Bytes)
    requires |rows| == c.n && rows != [] && c == Commit(h, rows, c.k, c.n, c.shardLen, c.dataLen)
    requires forall j | 0 <= j < |shards| :: SomeVerifies(h, c, shards[j])
    ensures From(shards, rows) || Collision(h, a, b)
  {
    hide Verifies, Commit;
    a, b := [], [];
    if shards != [] {
      var n := |shards| - 1;
      a, b := VerifiedAreRows(h, c, rows, shards[..n]);
      if !Collision(h, a, b) {
        assert SomeVerifies(h, c, shards[n]);
        var proof :| Verifies(h, c, shards[n], proof);
        assert shards[n].index < c.n by { VerifiedIndex(h, c, shards[n], proof); }
        a, b := ShardExact(h, rows, c, shards[n], proof);
        if !Collision(h, a, b) {
          forall j | 0 <= j < |shards| ensures shards[j].index < |rows| && shards[j].bytes == rows[shards[j].index] {
            if j < n { assert shards[..n][j] == shards[j]; }
          }
        }
      }
    }
  }

  lemma {:induction false} VerifiedIndex(h: Hash, c: Commitment, shard: Shard, proof: seq<Digest>)
    requires Verifies(h, c, shard, proof)
    ensures ParametersOk(c.k, c.n) && shard.index < c.n
  {}

  /** Verified shards that rebuild anything rebuild the committed data. */
  lemma {:induction false} RebuildsCommitted(h: Hash, c: Commitment, committed: Bytes, shards: seq<Shard>, data: Bytes) returns (a: Bytes, b: Bytes)
    requires Rederives(h, c, committed)
    requires |shards| == c.k && Usable(c.n, c.shardLen, shards)
    requires forall j | 0 <= j < |shards| :: SomeVerifies(h, c, shards[j])
    requires Rebuilds(c, shards, data)
    ensures data == committed || Collision(h, a, b)
  {
    hide SomeVerifies, Codeword, Decodes, Join;
    var rows :| Committed(h, committed, rows, c);
    a, b := VerifiedAreRows(h, c, rows, shards);
    if !Collision(h, a, b) {
      var pieces :| Decodes(shards, c.k, c.shardLen, pieces) && data == Truncate(Join(pieces), c.dataLen);
      UsablePoints(c.n, c.shardLen, shards);
      AnyKOfN(committed, c.k, c.n, rows, shards, pieces);
    }
  }

  /** If one set of verified shards gives an accepted block, every set of k distinct verified
      shards under the same header and commitment gives that block, or two inputs collide. */
  lemma {:induction false} DispersalConsistent<B, Head>(h: Hash, rd: Reading<B, Head>, header: Head, hash: Digest, c: Commitment,
                                     received: seq<Piece>, data: Bytes, other: seq<Piece>, data': Bytes)
      returns (a: Bytes, b: Bytes)
    requires InBounds(c)
    requires |VerifiedIndices(h, c, received)| >= c.k && Rebuilds(c, Pick(h, c, received), data)
    requires |VerifiedIndices(h, c, other)| >= c.k && Rebuilds(c, Pick(h, c, other), data')
    requires Judge(h, rd, header, hash, c, data).Done?
    ensures Judge(h, rd, header, hash, c, data') == Judge(h, rd, header, hash, c, data) || Collision(h, a, b)
  {
    hide Verifies, VerifiedIndices, Rebuilds, SomeVerifies;
    PickCount(h, c, other);
    PickFacts(h, c, other);
    a, b := RebuildsCommitted(h, c, data, Pick(h, c, other), data');
  }

  lemma {:induction false} HonestDispersal<B, Head>(h: Hash, rd: Reading<B, Head>, coded: Coded, data: Bytes, block: B,
                                 received: seq<Piece>, rebuilt: Bytes)
    requires Committed(h, data, coded.rows, coded.commitment) && InBounds(coded.commitment)
    requires forall i | 0 <= i < |received| :: received[i].0.index < |coded.rows| && received[i] == HonestPiece(h, coded, received[i].0.index)
    requires |Pick(h, coded.commitment, received)| == coded.commitment.k
    requires Rebuilds(coded.commitment, Pick(h, coded.commitment, received), rebuilt)
    requires rd.decode(data) == Some(block) && rd.bodyRoot(block) == rd.namedRoot(rd.header(block))
    ensures Judge(h, rd, rd.header(block), h(rd.headerBytes(rd.header(block))), coded.commitment, rebuilt) == Done(block)
  {
    hide Verifies, Decodes, Codeword, Join, HonestPiece;
    var c := coded.commitment;
    var shards := Pick(h, c, received);
    PickFacts(h, c, received);
    PickFrom(h, coded, received);
    UsablePoints(c.n, c.shardLen, shards);
    var pieces :| Decodes(shards, c.k, c.shardLen, pieces) && rebuilt == Truncate(Join(pieces), c.dataLen);
    AnyKOfN(data, c.k, c.n, coded.rows, shards, pieces);
  }

  lemma {:induction false} PickFrom(h: Hash, coded: Coded, received: seq<Piece>)
    requires forall i | 0 <= i < |received| :: received[i].0.index < |coded.rows| && received[i] == HonestPiece(h, coded, received[i].0.index)
    ensures From(Pick(h, coded.commitment, received), coded.rows)
  {
    hide Verifies, Path;
    if received != [] {
      PickFrom(h, coded, received[..|received| - 1]);
    }
  }

  /** An honest piece verifies. */
  lemma {:induction false} HonestEnough(h: Hash, coded: Coded, data: Bytes, received: seq<Piece>, i: nat)
    requires Committed(h, data, coded.rows, coded.commitment)
    requires i < |received| && received[i].0.index < |coded.rows|
    requires received[i] == HonestPiece(h, coded, received[i].0.index)
    ensures received[i].0.index in VerifiedIndices(h, coded.commitment, received)
  {
    hide Verifies, OnCurve;
    HonestVerifies(h, coded.rows, coded.commitment, received[i].0.index);
  }

  function ReceivedIndices(received: seq<Piece>): set<nat> {
    set i | 0 <= i < |received| :: received[i].0.index
  }

  /** What an honest leader disperses, any pieces of it with k distinct indices bring back,
      in any order and with any repeats. */
  lemma {:induction false} HonestReconstructs<B, Head>(h: Hash, rd: Reading<B, Head>, coded: Coded, data: Bytes, block: B,
                                    received: seq<Piece>, r: Outcome<B>)
    requires Committed(h, data, coded.rows, coded.commitment) && InBounds(coded.commitment)
    requires forall i | 0 <= i < |received| :: received[i].0.index < |coded.rows| && received[i] == HonestPiece(h, coded, received[i].0.index)
    requires |ReceivedIndices(received)| >= coded.commitment.k
    requires rd.decode(data) == Some(block) && rd.bodyRoot(block) == rd.namedRoot(rd.header(block))
    requires Reconstructed(h, rd, rd.header(block), h(rd.headerBytes(rd.header(block))), coded.commitment, received, r)
    ensures r == Done(block)
  {
    hide Verifies, VerifiedIndices, Rebuilds, Judge, HonestPiece, Committed;
    var c := coded.commitment;
    forall x | x in ReceivedIndices(received) ensures x in VerifiedIndices(h, c, received) {
      var i :| 0 <= i < |received| && received[i].0.index == x;
      HonestEnough(h, coded, data, received, i);
    }
    SubsetSize(ReceivedIndices(received), VerifiedIndices(h, c, received));
    PickCount(h, c, received);
    var header := rd.header(block);
    var rebuilt :| Rebuilds(c, Pick(h, c, received), rebuilt) && r == Judge(h, rd, header, h(rd.headerBytes(header)), c, rebuilt);
    HonestDispersal(h, rd, coded, data, block, received, rebuilt);
  }
}
