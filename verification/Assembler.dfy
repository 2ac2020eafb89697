/** The proposal assembler: shards of coded proposals are collected until one can be rebuilt,
    under a byte budget and one pinned commitment per height and view. */
module Assembler {
  import opened Erasure
  import opened Hashing
  import opened ShardTree
  import opened Dispersal
  import opened Wrappers

  const PREPIN_TOKENS_PER_TICK: nat := 8
  const MAX_PENDING_PROPOSALS: nat := 256
  const MAX_DONE_KEYS: nat := 4096
  const MAX_PINNED_SLOTS: nat := 4096
  const MAX_OBSERVED_AUTHS: nat := 256

  datatype Head = Head(height: U64, bytes: Bytes)

  datatype Block = Block(head: Head, certificate: Bytes, body: seq<Bytes>)

  datatype CodedProposal = CodedProposal(view: U64, header: Head, commitment: Commitment, shard: Shard, proof: seq<Digest>, auth: Bytes)

  type Key = (U64, Digest)
  type Slot = (U64, U64)

  datatype Pending = Pending(height: U64, view: U64, header: Head, commitment: Commitment, pieces: seq<Piece>,
                             overhead: nat, auth: Bytes, authDigest: Digest)

  /** A rebuilt proposal, as it is handed to consensus. */
  datatype Assembled = Assembled(view: U64, header: Head, body: seq<Bytes>, certificate: Bytes, auth: Bytes)

  /** A proposal handed out: its height, view and commitment. */
  datatype Handed = Handed(slot: Slot, commitment: Commitment)

  // ---- weights ----

  function PieceWeight(p: Piece): nat {
    |p.0.bytes| + |p.1| * 32
  }

  function PiecesWeight(pieces: seq<Piece>): nat {
    if pieces == [] then 0 else PiecesWeight(pieces[..|pieces| - 1]) + PieceWeight(pieces[|pieces| - 1])
  }

  function EntryWeight(e: Pending): nat {
    e.overhead + PiecesWeight(e.pieces)
  }

  /** Summed weight of the entries at `keys`. */
  ghost function WeightOf(pending: map<Key, Pending>, keys: set<Key>): nat
    requires keys <= pending.Keys
    decreases |keys|
  {
    if keys == {} then 0
    else
      var k :| k in keys;
      EntryWeight(pending[k]) + WeightOf(pending, keys - {k})
  }

  ghost function Total(pending: map<Key, Pending>): nat {
    WeightOf(pending, pending.Keys)
  }

  /** Any entry can be taken off the sum. */
  lemma {:induction false} WeightTake(pending: map<Key, Pending>, keys: set<Key>, k: Key)
    requires keys <= pending.Keys && k in keys
    ensures WeightOf(pending, keys) == EntryWeight(pending[k]) + WeightOf(pending, keys - {k})
    decreases |keys|
  {
    hide EntryWeight;
    var c :| c in keys && WeightOf(pending, keys) == EntryWeight(pending[c]) + WeightOf(pending, keys - {c});
    if c != k {
      WeightTake(pending, keys - {c}, k);
      WeightTake(pending, keys - {k}, c);
      assert keys - {c} - {k} == keys - {k} - {c};
    }
  }

  /** The sum depends only on the entries it adds. */
  lemma {:induction false} WeightSame(a: map<Key, Pending>, b: map<Key, Pending>, keys: set<Key>)
    requires keys <= a.Keys && keys <= b.Keys && forall k | k in keys :: a[k] == b[k]
    ensures WeightOf(a, keys) == WeightOf(b, keys)
    decreases |keys|
  {
    hide EntryWeight;
    if keys != {} {
      var k :| k in keys;
      WeightTake(a, keys, k);
      WeightTake(b, keys, k);
      WeightSame(a, b, keys - {k});
    }
  }

  lemma {:induction false} TotalWithout(pending: map<Key, Pending>, k: Key)
    requires k in pending
    ensures Total(pending) == Total(pending - {k}) + EntryWeight(pending[k])
  {
    hide EntryWeight, WeightOf;
    WeightTake(pending, pending.Keys, k);
    WeightSame(pending, pending - {k}, pending.Keys - {k});
    assert (pending - {k}).Keys == pending.Keys - {k};
  }

  lemma {:induction false} TotalWith(pending: map<Key, Pending>, k: Key, e: Pending)
    ensures k !in pending ==> Total(pending[k := e]) == Total(pending) + EntryWeight(e)
    ensures k in pending ==> Total(pending[k := e]) + EntryWeight(pending[k]) == Total(pending) + EntryWeight(e)
  {
    hide EntryWeight, WeightOf;
    TotalWithout(pending[k := e], k);
    if k in pending {
      TotalWithout(pending, k);
      assert pending[k := e] - {k} == pending - {k};
    } else {
      assert pending[k := e] - {k} == pending;
    }
  }

  // ---- what the tables hold ----

  predicate DistinctPieces(pieces: seq<Piece>) {
    forall i, j | 0 <= i < j < |pieces| :: pieces[i].0.index != pieces[j].0.index
  }

  predicate AllVerify(h: Hash, c: Commitment, pieces: seq<Piece>) {
    forall i | 0 <= i < |pieces| :: Verifies(h, c, pieces[i].0, pieces[i].1)
  }

  /** An entry holds fewer than k distinct shards, each verified under its commitment. */
  predicate EntryOk(h: Hash, k: Key, e: Pending) {
    && k == (e.view, e.commitment.root) && Canonical(e.commitment)
    && DistinctPieces(e.pieces) && AllVerify(h, e.commitment, e.pieces)
    && |e.pieces| < e.commitment.k
  }

  /** The entry's height and view are pinned to its commitment. */
  predicate Pinned(pinned: map<Slot, (Commitment, Digest)>, e: Pending) {
    (e.height, e.view) in pinned && pinned[(e.height, e.view)].0 == e.commitment
  }

  /** All proposals handed out for one height and view carry one commitment. */
  ghost predicate OneCommitment(handed: seq<Handed>) {
    forall i, j | 0 <= i < j < |handed| && handed[i].slot == handed[j].slot :: handed[i].commitment == handed[j].commitment
  }

  /** What was handed out is still pinned, or its height is below what is kept. */
  ghost predicate HandedPinned(handed: seq<Handed>, pinned: map<Slot, (Commitment, Digest)>, horizon: nat) {
    forall i | 0 <= i < |handed| ::
      (handed[i].slot in pinned && pinned[handed[i].slot].0 == handed[i].commitment) || handed[i].slot.0 + 2 < horizon
  }

  lemma {:induction false} HandOut(handed: seq<Handed>, pinned: map<Slot, (Commitment, Digest)>, horizon: nat, e: Pending)
    requires OneCommitment(handed) && HandedPinned(handed, pinned, horizon)
    requires Pinned(pinned, e) && e.height + 2 >= horizon
    ensures OneCommitment(handed + [Handed((e.height, e.view), e.commitment)])
    ensures HandedPinned(handed + [Handed((e.height, e.view), e.commitment)], pinned, horizon)
  {}

  /** k distinct verified pieces are always enough to rebuild from. */
  lemma {:induction false} EnoughPieces(h: Hash, c: Commitment, pieces: seq<Piece>)
    requires DistinctPieces(pieces) && AllVerify(h, c, pieces)
    ensures |VerifiedIndices(h, c, pieces)| == |pieces|
  {
    hide Verifies;
    if pieces == [] {
      assert VerifiedIndices(h, c, pieces) == {};
    } else {
      var n := |pieces| - 1;
      EnoughPieces(h, c, pieces[..n]);
      assert VerifiedIndices(h, c, pieces) == VerifiedIndices(h, c, pieces[..n]) + {pieces[n].0.index};
      assert pieces[n].0.index !in VerifiedIndices(h, c, pieces[..n]);
    }
  }

  /** Entries at or above the floor. */
  function KeptPending(pending: map<Key, Pending>, floor: nat): map<Key, Pending> {
    map k | k in pending && pending[k].height >= floor :: pending[k]
  }

  function KeptDone(done: map<Key, U64>, floor: nat): map<Key, U64> {
    map k | k in done && done[k] >= floor :: done[k]
  }

  function KeptPinned(pinned: map<Slot, (Commitment, Digest)>, floor: nat): map<Slot, (Commitment, Digest)> {
    map s | s in pinned && s.0 >= floor :: pinned[s]
  }

  lemma {:induction false} PinsDropped(pinned: map<Slot, (Commitment, Digest)>, floor: nat)
    ensures KeptPinned(pinned, floor).Keys <= pinned.Keys
  {
  }

  function Floor(height: nat): nat {
    if height < 2 then 0 else height - 2
  }

  lemma {:induction false} PrunedPins(handed: seq<Handed>, pinned: map<Slot, (Commitment, Digest)>, horizon: nat, height: nat)
    requires height >= horizon
    ensures HandedPinned(handed, pinned, horizon) ==> HandedPinned(handed, KeptPinned(pinned, Floor(height)), height)
  {}

  lemma {:induction false} KeptStaysPinned(pinned: map<Slot, (Commitment, Digest)>, floor: nat, e: Pending)
    requires Pinned(pinned, e) && e.height >= floor
    ensures Pinned(KeptPinned(pinned, floor), e)
  {}

  /** Every entry is in order and its slot pinned; with a steady round height, entries are not
      below what is kept and one commitment per slot is handed out. */
  ghost predicate Sound(h: Hash, pending: map<Key, Pending>, pinned: map<Slot, (Commitment, Digest)>, horizon: nat,
                        roundHeight: nat, handed: seq<Handed>, steady: bool) {
    && (forall k | k in pending :: EntryOk(h, k, pending[k]) && Pinned(pinned, pending[k]))
    && (steady ==> horizon <= roundHeight && forall k | k in pending :: pending[k].height + 2 >= horizon)
    && (steady ==> OneCommitment(handed) && HandedPinned(handed, pinned, horizon))
  }

  lemma {:induction false} SoundPruned(h: Hash, pending: map<Key, Pending>, pinned: map<Slot, (Commitment, Digest)>, horizon: nat,
                                       roundHeight: nat, handed: seq<Handed>, steady: bool, height: nat)
    requires Sound(h, pending, pinned, horizon, roundHeight, handed, steady)
    requires height > horizon && (steady ==> height <= roundHeight)
    ensures Sound(h, KeptPending(pending, Floor(height)), KeptPinned(pinned, Floor(height)), height, roundHeight, handed, steady)
  {
    hide EntryOk, Pinned, OneCommitment, HandedPinned, KeptPinned;
    PrunedPins(handed, pinned, horizon, height);
    forall k | k in pending && pending[k].height >= Floor(height)
      ensures Pinned(KeptPinned(pinned, Floor(height)), pending[k])
    {
      KeptStaysPinned(pinned, Floor(height), pending[k]);
    }
  }

  /** A new pin disturbs nothing. */
  lemma {:induction false} SoundPinned(h: Hash, pending: map<Key, Pending>, pinned: map<Slot, (Commitment, Digest)>, horizon: nat,
                                       roundHeight: nat, handed: seq<Handed>, steady: bool, slot: Slot, c: Commitment, d: Digest)
    requires Sound(h, pending, pinned, horizon, roundHeight, handed, steady) && slot !in pinned
    ensures Sound(h, pending, pinned[slot := (c, d)], horizon, roundHeight, handed, steady)
  {
    hide EntryOk, OneCommitment;
  }

  /** Fewer entries, or one more in order, stay sound. */
  lemma {:induction false} SoundChanged(h: Hash, pending: map<Key, Pending>, after: map<Key, Pending>, pinned: map<Slot, (Commitment, Digest)>,
                                        horizon: nat, roundHeight: nat, handed: seq<Handed>, steady: bool, key: Key)
    requires Sound(h, pending, pinned, horizon, roundHeight, handed, steady)
    requires forall k | k in after && k != key :: k in pending && after[k] == pending[k]
    requires key in after ==> EntryOk(h, key, after[key]) && Pinned(pinned, after[key]) && (steady ==> after[key].height + 2 >= horizon)
    ensures Sound(h, after, pinned, horizon, roundHeight, handed, steady)
  {
    hide EntryOk, Pinned, OneCommitment, HandedPinned;
  }

  lemma {:induction false} SoundHanded(h: Hash, pending: map<Key, Pending>, pinned: map<Slot, (Commitment, Digest)>, horizon: nat,
                                       roundHeight: nat, handed: seq<Handed>, steady: bool, e: Pending)
    requires Sound(h, pending, pinned, horizon, roundHeight, handed, steady)
    requires Pinned(pinned, e) && (steady ==> e.height + 2 >= horizon)
    ensures Sound(h, pending, pinned, horizon, roundHeight, handed + [Handed((e.height, e.view), e.commitment)], steady)
  {
    hide EntryOk;
    if steady { HandOut(handed, pinned, horizon, e); }
  }

  lemma {:induction false} Unsteady(h: Hash, pending: map<Key, Pending>, pinned: map<Slot, (Commitment, Digest)>, horizon: nat,
                                    roundHeight: nat, handed: seq<Handed>, steady: bool)
    requires Sound(h, pending, pinned, horizon, roundHeight, handed, steady)
    ensures Sound(h, pending, pinned, horizon, roundHeight, handed, false)
    ensures steady ==> horizon <= roundHeight && OneCommitment(handed)
    ensures forall higher: nat | higher >= roundHeight :: Sound(h, pending, pinned, horizon, higher, handed, steady)
  {}

  function Grown(entry: Pending, coded: CodedProposal): Pending {
    entry.(pieces := entry.pieces + [(coded.shard, coded.proof)])
  }

  function SaturatingSub(a: nat, b: nat): nat {
    if b <= a then a - b else 0
  }

  /** One entry went: not `keep`, and none of the others that stayed is lower. */
  ghost predicate LowestGone(before: map<Key, Pending>, after: map<Key, Pending>, keep: Option<Key>) {
    exists k | k in before && keep != Some(k) :: after == before - {k} && NoneLower(before[k].height, after, keep)
  }

  ghost predicate NoneLower(height: nat, pending: map<Key, Pending>, keep: Option<Key>) {
    forall k | k in pending && keep != Some(k) :: height <= pending[k].height
  }

  class ProposalAssembler {
    const h: Hash
    const rd: Reading<Block, Head>
    const certificateOk: Bytes -> bool
    const digest: Bytes -> Digest
    const overheadOf: (Head, Commitment, Bytes) -> nat
    const maxBytes: nat

    var pending: map<Key, Pending>
    var done: map<Key, U64>
    var pinned: map<Slot, (Commitment, Digest)>
    var tokens: map<U64, nat>
    var horizon: U64
    var roundHeight: U64
    var bytes: nat
    var observed: seq<CodedProposal>

    /** Every proposal handed out, and whether the round height was set first and never lowered. */
    ghost var handed: seq<Handed>
    ghost var steady: bool

    ghost predicate Valid()
      reads this
    {
      Sound(h, pending, pinned, horizon, roundHeight, handed, steady) && bytes == Total(pending) && bytes <= maxBytes
    }

    constructor (h: Hash, rd: Reading<Block, Head>, certificateOk: Bytes -> bool, digest: Bytes -> Digest,
                 overheadOf: (Head, Commitment, Bytes) -> nat, maxBytes: nat)
      ensures Valid() && steady && handed == []
    {
      this.h, this.rd, this.certificateOk, this.digest, this.overheadOf, this.maxBytes := h, rd, certificateOk, digest, overheadOf, maxBytes;
      pending, done, pinned, tokens, horizon, roundHeight, bytes, observed := map[], map[], map[], map[], 0, 0, 0, [];
      handed, steady := [], true;
    }

    method SetRoundHeight(height: U64)
      requires Valid()
      modifies this`roundHeight, this`steady
      ensures Valid() && roundHeight == height
      ensures steady == (old(steady) && height != 0 && height >= old(roundHeight))
    {
      steady := steady && height != 0 && height >= roundHeight;
      roundHeight := height;
    }

    method Tick()
      requires Valid()
      modifies this`tokens
      ensures Valid() && tokens == map[] && forall s :: TokensLeft(tokens, s) == 8
    {
      tokens := map[];
    }

    /** The slot is pinned to this commitment and authority, or can be now. */
    ghost predicate Pinnable(pinned: map<Slot, (Commitment, Digest)>, coded: CodedProposal, source: U64, authOk: bool)
      reads this`tokens
    {
      var slot := (coded.header.height, coded.view);
      if slot in pinned then pinned[slot] == (coded.commitment, digest(coded.auth))
      else |pinned| < MAX_PINNED_SLOTS && (source in tokens ==> tokens[source] > 0) && authOk
    }

    /** The entry the shard belongs to, as it is or as it would start. */
    function EntryFor(pending: map<Key, Pending>, coded: CodedProposal): Pending {
      var key := (coded.view, coded.commitment.root);
      if key in pending then pending[key]
      else Pending(coded.header.height, coded.view, coded.header, coded.commitment, [],
        overheadOf(coded.header, coded.commitment, coded.auth), coded.auth, digest(coded.auth))
    }

    /** The entry is for this commitment and authority and lacks this shard. */
    predicate Takes(entry: Pending, coded: CodedProposal) {
      entry.commitment == coded.commitment && entry.authDigest == digest(coded.auth) && !HasIndex(entry.pieces, coded.shard.index)
    }

    /** The entry takes the shard and still fits the budget. */
    predicate Accepts(entry: Pending, coded: CodedProposal) {
      Takes(entry, coded) && EntryWeight(Grown(entry, coded)) <= maxBytes
    }

    /** The shard is the k-th of an entry that fits the budget. */
    predicate Fills(entry: Pending, coded: CodedProposal) {
      Accepts(entry, coded) && |entry.pieces| + 1 >= entry.commitment.k
    }

    /** The shard's entry is held and its slot pinned. */
    predicate Kept(coded: CodedProposal, entry: Pending)
      reads this
    {
      var key, slot := (coded.view, coded.commitment.root), (coded.header.height, coded.view);
      && key in pending && pending[key] == entry
      && slot in pinned && pinned[slot] == (coded.commitment, digest(coded.auth))
    }

    /** The height below which everything is dropped before the shard is looked at. */
    ghost function FloorFor(coded: CodedProposal): nat
      reads this
    {
      if roundHeight != 0 then roundHeight else coded.header.height
    }

    /** The entry the shard meets. */
    ghost function EntryMet(coded: CodedProposal): Pending
      reads this
    {
      EntryFor(PendingAfter(FloorFor(coded)), coded)
    }

    /** The shard is new, verified and in the window. */
    ghost predicate Timely(coded: CodedProposal)
      reads this
    {
      && (coded.view, coded.commitment.root) !in done && Canonical(coded.commitment)
      && Verifies(h, coded.commitment, coded.shard, coded.proof)
      && (roundHeight != 0 ==> roundHeight <= coded.header.height <= roundHeight + 1)
    }

    /** The shard is new, verified, in the window, and its slot is or can be pinned to it. */
    ghost predicate Welcome(coded: CodedProposal, source: U64, authOk: bool)
      reads this
    {
      && Timely(coded) && Pinnable(PinnedAfter(FloorFor(coded)), coded, source, authOk)
    }

    /** This call rebuilds a proposal. */
    ghost predicate Completes(coded: CodedProposal, source: U64, authOk: bool)
      reads this
    {
      Welcome(coded, source, authOk) && Fills(EntryMet(coded), coded)
    }

    /** What becomes of a full entry, given what its shards rebuild to: a rebuilt block is released
        under the entry's view, header and authority unless its certificate does not decode. */
    function Released(entry: Pending, verdict: Outcome<Block>): Outcome<Assembled> {
      match verdict
      case Failed(e) => Failed(e)
      case Done(block) =>
        if certificateOk(block.certificate)
        then Done(Assembled(entry.view, entry.header, block.body, block.certificate, entry.auth))
        else Failed(Undecodable)
    }

    /** The outcome is the verdict on the entry's shards under its own header. */
    ghost predicate Answers(entry: Pending, r: Outcome<Assembled>) {
      exists verdict :: Reconstructed(h, rd, entry.header, h(rd.headerBytes(entry.header)), entry.commitment, entry.pieces, verdict)
        && r == Released(entry, verdict)
    }

    /** The pins and entries left once heights more than two below `floor` are dropped. */
    ghost function PinnedAfter(floor: nat): map<Slot, (Commitment, Digest)>
      reads this
    {
      if floor > horizon then KeptPinned(pinned, Floor(floor)) else pinned
    }

    ghost function PendingAfter(floor: nat): map<Key, Pending>
      reads this
    {
      if floor > horizon then KeptPending(pending, Floor(floor)) else pending
    }

    /** The bytes read as a block with the released header, the body root it names, body and certificate. */
    predicate SpelledBy(data: Bytes, a: Assembled) {
      var read := rd.decode(data);
      && read.Some? && rd.header(read.value) == a.header && rd.bodyRoot(read.value) == rd.namedRoot(a.header)
      && read.value.body == a.body && read.value.certificate == a.certificate
    }

    /** Whatever is released re-derives its commitment, reads back as a block with the entry's header
        and the body root that header names, and carries a certificate that decodes. */
    lemma {:induction false} ReleasedIsSound(entry: Pending, r: Outcome<Assembled>)
      requires Answers(entry, r) && r.Done?
      ensures r.block.view == entry.view && r.block.header == entry.header && r.block.auth == entry.auth
      ensures certificateOk(r.block.certificate)
      ensures exists data :: Rederives(h, entry.commitment, data) && SpelledBy(data, r.block)
    {
      hide Rederives, VerifiedIndices, Rebuilds, InBounds;
      var verdict :| Reconstructed(h, rd, entry.header, h(rd.headerBytes(entry.header)), entry.commitment, entry.pieces, verdict)
        && r == Released(entry, verdict);
      var data :| Rebuilds(entry.commitment, Pick(h, entry.commitment, entry.pieces), data)
        && verdict == Judge(h, rd, entry.header, h(rd.headerBytes(entry.header)), entry.commitment, data);
    }

    /** A full entry of an honest leader's pieces is released as its block. */
    lemma {:induction false} HonestIsReleased(entry: Pending, coded: Coded, data: Bytes, block: Block, r: Outcome<Assembled>)
      requires Answers(entry, r) && Complete(h, entry) && entry.commitment == coded.commitment
      requires Committed(h, data, coded.rows, coded.commitment)
      requires forall i | 0 <= i < |entry.pieces| ::
        entry.pieces[i].0.index < |coded.rows| && entry.pieces[i] == HonestPiece(h, coded, entry.pieces[i].0.index)
      requires rd.decode(data) == Some(block) && rd.header(block) == entry.header && rd.bodyRoot(block) == rd.namedRoot(entry.header)
      requires certificateOk(block.certificate)
      ensures r == Done(Assembled(entry.view, entry.header, block.body, block.certificate, entry.auth))
    {
      hide Verifies, Reconstructed, HonestPiece, Committed;
      var verdict :| Reconstructed(h, rd, entry.header, h(rd.headerBytes(entry.header)), entry.commitment, entry.pieces, verdict)
        && r == Released(entry, verdict);
      InBoundsOf(entry.commitment);
      DistinctIndices(entry.pieces);
      HonestReconstructs(h, rd, coded, data, block, entry.pieces, verdict);
    }

    /** The first pins a source may still make before the next tick. */
    static function TokensLeft(tokens: map<U64, nat>, source: U64): nat {
      if source in tokens then tokens[source] else 8
    }

    /** Only `source` has fewer tokens, if anyone. */
    static ghost predicate Charged(before: map<U64, nat>, after: map<U64, nat>, source: U64) {
      && TokensLeft(after, source) <= TokensLeft(before, source)
      && forall s | s != source :: TokensLeft(after, s) == TokensLeft(before, s)
    }

    static lemma {:induction false} Uncharged(tokens: map<U64, nat>, source: U64)
      ensures Charged(tokens, tokens, source)
    {
    }

    /** One of a source's tokens for this tick, if any is left. */
    method SpendToken(source: U64) returns (ok: bool)
      modifies this`tokens
      ensures var had := if source in old(tokens) then old(tokens)[source] else PREPIN_TOKENS_PER_TICK;
        ok == (had > 0) && tokens == old(tokens)[source := if had > 0 then had - 1 else 0]
    {
      if source !in tokens {
        tokens := tokens[source := PREPIN_TOKENS_PER_TICK];
      }
      if tokens[source] == 0 {
        return false;
      }
      tokens := tokens[source := tokens[source] - 1];
      ok := true;
    }

    method Observe(coded: CodedProposal)
      modifies this`observed
      ensures observed == if |old(observed)| < MAX_OBSERVED_AUTHS then old(observed) + [coded] else old(observed)
    {
      if |observed| < MAX_OBSERVED_AUTHS {
        observed := observed + [coded];
      }
    }

    /** `prune`: everything more than two below the new height goes, and the byte count is taken afresh. */
    method Prune(height: U64)
      requires Valid() && (steady ==> height <= roundHeight)
      modifies this`pending, this`done, this`pinned, this`horizon, this`bytes
      ensures Valid() && horizon == if height > old(horizon) then height else old(horizon)
      ensures height <= old(horizon) ==> pending == old(pending) && done == old(done) && pinned == old(pinned)
      ensures height > old(horizon) ==> pending == KeptPending(old(pending), Floor(height))
      ensures height > old(horizon) ==> done == KeptDone(old(done), Floor(height)) && pinned == KeptPinned(old(pinned), Floor(height))
      ensures pinned.Keys <= old(pinned).Keys
    {
      if height <= horizon {
        return;
      }
      hide Sound, Total, KeptPending, KeptPinned;
      PinsDropped(pinned, Floor(height));
      SoundPruned(h, pending, pinned, horizon, roundHeight, handed, steady, height);
      KeptTotal(pending, Floor(height));
      horizon := height;
      var floor := Floor(height);
      pending := KeptPending(pending, floor);
      done := KeptDone(done, floor);
      pinned := KeptPinned(pinned, floor);
      bytes := SumWeights(pending);
    }

    /** The slot is pinned to this commitment and authority, now or before; a first pin costs a
        token and an authority check. */
    method Pin(coded: CodedProposal, source: U64, authOk: bool) returns (go: bool)
      requires Valid()
      modifies this`tokens, this`observed, this`pinned
      ensures Valid()
      ensures var slot := (coded.header.height, coded.view);
        pinned == old(pinned) || (slot !in old(pinned) && authOk && pinned == old(pinned)[slot := (coded.commitment, digest(coded.auth))])
      ensures var slot := (coded.header.height, coded.view);
        go <==> slot in pinned && pinned[slot] == (coded.commitment, digest(coded.auth))
      ensures go <==> old(Pinnable(pinned, coded, source, authOk))
      ensures Charged(old(tokens), tokens, source)
      ensures pinned != old(pinned) ==> TokensLeft(tokens, source) < TokensLeft(old(tokens), source)
      ensures |old(pinned)| >= MAX_PINNED_SLOTS ==> pinned == old(pinned)
    {
      hide Sound, Total;
      var slot := (coded.header.height, coded.view);
      if slot in pinned {
        if pinned[slot].0 != coded.commitment {
          var spent := SpendToken(source);
          if spent && authOk {
            Observe(coded);
          }
          return false;
        }
        return pinned[slot].1 == digest(coded.auth);
      }
      if |pinned| >= MAX_PINNED_SLOTS {
        return false;
      }
      var spent := SpendToken(source);
      if !spent || !authOk {
        return false;
      }
      Observe(coded);
      SoundPinned(h, pending, pinned, horizon, roundHeight, handed, steady, slot, coded.commitment, digest(coded.auth));
      pinned := pinned[slot := (coded.commitment, digest(coded.auth))];
      go := true;
    }

    /** One lowest entry other than `keep` goes, if there is one. */
    method EvictOne(keep: Option<Key>, ghost slack: nat) returns (evicted: bool)
      requires bytes + slack == Total(pending)
      requires slack == 0 || (keep.Some? && keep.value in pending && EntryWeight(pending[keep.value]) >= slack)
      modifies this`pending, this`bytes
      ensures bytes + slack == Total(pending) && bytes <= old(bytes)
      ensures !evicted ==> pending == old(pending) && bytes == old(bytes) && forall k | k in pending :: keep == Some(k)
      ensures evicted ==> LowestGone(old(pending), pending, keep)
    {
      hide EntryWeight, WeightOf;
      var candidates := set k | k in pending && keep != Some(k);
      if candidates == {} {
        assert forall k | k in pending :: keep == Some(k) by {
          forall k | k in pending ensures keep == Some(k) { assert k !in candidates; }
        }
        return false;
      }
      var key := Lowest(pending, candidates);
      TotalWithout(pending, key);
      if slack > 0 { TotalWithout(pending - {key}, keep.value); }
      bytes := SaturatingSub(bytes, EntryWeight(pending[key]));
      pending := pending - {key};
      evicted := true;
    }

    /** `evict_until_fits`: lowest heights first, never `keep`, until `weight` more bytes fit. */
    method EvictUntilFits(weight: nat, keep: Key, ghost slack: nat)
      requires keep in pending && bytes + slack == Total(pending) && EntryWeight(pending[keep]) >= slack
      modifies this`pending, this`bytes
      ensures bytes + slack == Total(pending) && bytes <= old(bytes)
      ensures keep in pending && LowestFirst(old(pending), pending, keep)
      ensures bytes + weight <= maxBytes || pending.Keys == {keep}
      ensures old(bytes) + weight <= maxBytes ==> pending == old(pending)
    {
      hide EntryWeight, Total, LowestFirst, LowestGone;
      LowestNone(pending, keep);
      while bytes + weight > maxBytes
        invariant keep in pending && LowestFirst(old(pending), pending, keep) && pending[keep] == old(pending)[keep]
        invariant bytes + slack == Total(pending) && bytes <= old(bytes)
        invariant old(bytes) + weight <= maxBytes ==> pending == old(pending)
        decreases |pending|
      {
        ghost var before := pending;
        var evicted := EvictOne(Some(keep), slack);
        if !evicted {
          break;
        }
        LowestStep(old(pending), before, pending, keep);
      }
    }

    /** Puts a verified shard of a pinned commitment into its entry; a full entry is taken out. */
    method Store(coded: CodedProposal) returns (full: Option<Pending>)
      requires Valid() && Canonical(coded.commitment) && Verifies(h, coded.commitment, coded.shard, coded.proof)
      requires (coded.header.height, coded.view) in pinned && pinned[(coded.header.height, coded.view)].0 == coded.commitment
      requires steady ==> coded.header.height + 2 >= horizon
      modifies this`pending, this`bytes
      ensures Valid()
      ensures full.Some? ==> Complete(h, full.value) && Pinned(pinned, full.value)
      ensures full.Some? && steady ==> full.value.height + 2 >= horizon
      ensures full.Some? <==> Fills(EntryFor(old(pending), coded), coded)
      ensures full.Some? ==> full.value == Grown(EntryFor(old(pending), coded), coded)
      ensures var entry, key := EntryFor(old(pending), coded), (coded.view, coded.commitment.root);
        full.None? && Takes(entry, coded) && EntryWeight(Grown(entry, coded)) <= maxBytes ==> key in pending && pending[key] == Grown(entry, coded)
      ensures !Takes(EntryFor(old(pending), coded), coded) ==> pending == old(pending)
    {
      hide EntryWeight, Total, Verifies, Canonical;
      var key := (coded.view, coded.commitment.root);
      var isNew := key !in pending;
      var entry := EntryFor(pending, coded);
      if isNew && |pending| >= MAX_PENDING_PROPOSALS {
        var evicted := EvictOne(None, 0);
      }
      if !Takes(entry, coded) {
        return None;
      }
      InBoundsOf(coded.commitment);
      full := Keep(key, entry, isNew, (coded.shard, coded.proof));
    }

    /** Makes room for the piece and adds it, or refuses it and leaves no empty entry behind. */
    method Keep(key: Key, entry: Pending, isNew: bool, piece: Piece) returns (full: Option<Pending>)
      requires Valid() && EntryOk(h, key, entry) && Pinned(pinned, entry)
      requires if isNew then key !in pending && entry.pieces == [] else key in pending && pending[key] == entry
      requires Verifies(h, entry.commitment, piece.0, piece.1) && !HasIndex(entry.pieces, piece.0.index)
      requires steady ==> entry.height + 2 >= horizon
      modifies this`pending, this`bytes
      ensures Valid()
      ensures full.Some? ==> Complete(h, full.value) && full.value == entry.(pieces := entry.pieces + [piece])
      ensures var grown := entry.(pieces := entry.pieces + [piece]);
        if EntryWeight(grown) > maxBytes then full.None? && (key in pending ==> pending[key] == entry)
        else if |grown.pieces| < grown.commitment.k then full.None? && key in pending && pending[key] == grown
        else full.Some? && key !in pending
      ensures forall k | k in pending && k != key :: k in old(pending) && pending[k] == old(pending)[k]
    {
      hide EntryWeight, Total, Verifies, EntryOk, Pinned, Complete, Sound, NoneLower, PieceWeight, HasIndex;
      ghost var before := pending;
      var overhead := if isNew then entry.overhead else 0;
      var weight := PieceWeight(piece) + overhead;
      var grown := entry.(pieces := entry.pieces + [piece]);
      GrownOk(h, key, entry, piece);
      OverheadPart(entry);
      if weight > maxBytes {
        return None;
      }
      if isNew {
        NewWeight(entry);
        TotalWith(pending, key, entry);
        pending := pending[key := entry];
      }
      EvictUntilFits(weight, key, overhead);
      TotalWithout(pending, key);
      if pending.Keys == {key} { TotalOne(pending, key); }
      if bytes + weight > maxBytes {
        pending := Withdraw(pending, key, isNew);
        SoundChanged(h, before, pending, pinned, horizon, roundHeight, handed, steady, key);
        return None;
      }
      TotalWith(pending, key, grown);
      PinnedGrows(pinned, entry, grown);
      full := Place(key, grown, weight, before);
    }

    /** Counts the piece and stores the grown entry, or hands the entry out when it is complete. */
    method Place(key: Key, grown: Pending, weight: nat, ghost before: map<Key, Pending>) returns (full: Option<Pending>)
      requires Sound(h, before, pinned, horizon, roundHeight, handed, steady)
      requires key in pending && forall k | k in pending && k != key :: k in before && pending[k] == before[k]
      requires bytes + weight == Total(pending[key := grown]) && bytes + weight <= maxBytes
      requires if |grown.pieces| < grown.commitment.k then EntryOk(h, key, grown) else Complete(h, grown)
      requires Pinned(pinned, grown) && (steady ==> grown.height + 2 >= horizon)
      modifies this`pending, this`bytes
      ensures Valid()
      ensures full == if |grown.pieces| < grown.commitment.k then None else Some(grown)
      ensures pending == if full.None? then old(pending)[key := grown] else old(pending) - {key}
    {
      hide EntryWeight, Total, EntryOk, Pinned, Complete, Sound;
      bytes := bytes + weight;
      TotalWithout(pending[key := grown], key);
      if |grown.pieces| < grown.commitment.k {
        pending := pending[key := grown];
        SoundChanged(h, before, pending, pinned, horizon, roundHeight, handed, steady, key);
        return None;
      }
      assert pending[key := grown] - {key} == pending - {key};
      pending := pending - {key};
      SoundChanged(h, before, pending, pinned, horizon, roundHeight, handed, steady, key);
      bytes := SaturatingSub(bytes, EntryWeight(grown));
      full := Some(grown);
    }

    /** `admit`: the byte count stays exact and in budget, a rebuild never lacks shards, and with a
        steady round height one commitment is handed out per height and view. */
    method Admit(coded: CodedProposal, source: U64, authOk: bool) returns (r: Option<Outcome<Assembled>>)
      requires Valid()
      modifies this
      ensures Valid() && roundHeight == old(roundHeight) && steady == (old(steady) && roundHeight != 0)
      ensures steady ==> OneCommitment(handed)
      ensures r.Some? <==> old(Completes(coded, source, authOk))
      ensures r.None? ==> handed == old(handed)
      ensures r.Some? ==> |handed| == |old(handed)| + 1 && old(handed) <= handed && handed[|old(handed)|].commitment == coded.commitment
      ensures r.Some? ==> r.value != Failed(NotEnough) && r.value != Failed(BadCommitment)
      ensures r.Some? ==> Answers(Grown(old(EntryMet(coded)), coded), r.value)
      ensures Charged(old(tokens), tokens, source)
      ensures !(pinned.Keys <= old(pinned).Keys) ==> TokensLeft(tokens, source) < TokensLeft(old(tokens), source)
      ensures r.None? && old(Welcome(coded, source, authOk) && Accepts(EntryMet(coded), coded)) ==>
        Kept(coded, Grown(old(EntryMet(coded)), coded)) && (coded.view, coded.commitment.root) !in done
    {
      hide Total, Verifies, Canonical, Rederives, Sound, Complete, Pinned, EntryWeight, KeptPending, KeptPinned, HasIndex, EntryFor, Answers, TokensLeft, Charged, Fills, Grown, Pinnable, Accepts, Takes, OneCommitment;
      Unsteady(h, pending, pinned, horizon, roundHeight, handed, steady);
      steady := steady && roundHeight != 0;
      var timely := Sift(coded);
      if !timely {
        Uncharged(tokens, source);
        return None;
      }
      r := Take(coded, source, authOk, if roundHeight != 0 then roundHeight else coded.header.height);
      Unsteady(h, pending, pinned, horizon, roundHeight, handed, steady);
    }

    /** The checks that touch no state. */
    method Sift(coded: CodedProposal) returns (timely: bool)
      ensures timely <==> Timely(coded)
    {
      hide Verifies, Canonical;
      var key := (coded.view, coded.commitment.root);
      if key in done || !Canonical(coded.commitment) {
        return false;
      }
      var ok := VerifyShard(h, coded.commitment, coded.shard, coded.proof);
      if !ok {
        return false;
      }
      var height := coded.header.height;
      timely := roundHeight == 0 || (roundHeight <= height <= if roundHeight < U64_MAX then roundHeight + 1 else U64_MAX);
    }

    /** A verified shard in the window: old entries go, its slot is pinned, and it is stored. */
    method Take(coded: CodedProposal, source: U64, authOk: bool, floor: U64) returns (r: Option<Outcome<Assembled>>)
      requires Valid() && Canonical(coded.commitment) && Verifies(h, coded.commitment, coded.shard, coded.proof)
      requires steady ==> floor <= roundHeight <= coded.header.height
      modifies this
      ensures Valid() && roundHeight == old(roundHeight) && steady == old(steady)
      ensures r.Some? <==> old(Pinnable(PinnedAfter(floor), coded, source, authOk) && Fills(EntryFor(PendingAfter(floor), coded), coded))
      ensures r.None? ==> handed == old(handed)
      ensures r.Some? ==> exists slot :: handed == old(handed) + [Handed(slot, coded.commitment)]
      ensures r.Some? ==> r.value != Failed(NotEnough) && r.value != Failed(BadCommitment)
      ensures r.Some? ==> Answers(Grown(old(EntryFor(PendingAfter(floor), coded)), coded), r.value)
      ensures Charged(old(tokens), tokens, source)
      ensures !(pinned.Keys <= old(pinned).Keys) ==> TokensLeft(tokens, source) < TokensLeft(old(tokens), source)
      ensures r.None? && old(Pinnable(PinnedAfter(floor), coded, source, authOk) && Accepts(EntryFor(PendingAfter(floor), coded), coded)) ==>
        Kept(coded, Grown(old(EntryFor(PendingAfter(floor), coded)), coded))
      ensures r.None? ==> forall k | k in done :: k in old(done)
    {
      hide Total, Verifies, Canonical, Rederives, Sound, Complete, Pinned, EntryWeight, KeptPending, KeptPinned, HasIndex, Answers, TokensLeft, Charged;
      Prune(floor);
      var go := Pin(coded, source, authOk);
      if !go {
        return None;
      }
      Unsteady(h, pending, pinned, horizon, roundHeight, handed, steady);
      var full := Store(coded);
      if full.None? {
        return None;
      }
      var out := Finish((coded.view, coded.commitment.root), full.value);
      r := Some(out);
    }

    /** A full entry is remembered as done and rebuilt. */
    method Finish(key: Key, entry: Pending) returns (r: Outcome<Assembled>)
      requires Valid() && Complete(h, entry) && Pinned(pinned, entry)
      requires steady ==> entry.height + 2 >= horizon
      modifies this`done, this`handed
      ensures Valid() && handed == old(handed) + [Handed((entry.height, entry.view), entry.commitment)]
      ensures key in done && done[key] == entry.height
      ensures r != Failed(NotEnough) && r != Failed(BadCommitment)
      ensures Answers(entry, r)
    {
      hide Total, Verifies, Canonical, Rederives, VerifiedIndices, Sound;
      if key !in done && |done| >= MAX_DONE_KEYS {
        EvictLowestDone();
      }
      done := done[key := entry.height];
      SoundHanded(h, pending, pinned, horizon, roundHeight, handed, steady, entry);
      handed := handed + [Handed((entry.height, entry.view), entry.commitment)];
      EnoughPieces(h, entry.commitment, entry.pieces);
      InBoundsOf(entry.commitment);
      var hash: Digest := h(rd.headerBytes(entry.header));
      var rebuilt := ReconstructBlock(h, rd, entry.header, hash, entry.commitment, entry.pieces);
      match rebuilt {
        case Failed(e) => r := Failed(e);
        case Done(block) =>
          if certificateOk(block.certificate) {
            r := Done(Assembled(entry.view, entry.header, block.body, block.certificate, entry.auth));
          } else {
            r := Failed(Undecodable);
          }
      }
    }

    method EvictLowestDone()
      modifies this`done
      ensures old(done).Keys == {} ==> done == old(done)
      ensures old(done).Keys != {} ==> exists k | k in old(done) :: done == old(done) - {k} && forall other | other in done :: old(done)[k] <= done[other]
    {
      if done.Keys == {} {
        return;
      }
      var best :| best in done.Keys;
      var left := done.Keys - {best};
      while left != {}
        invariant best in done && left <= done.Keys && forall k | k in done.Keys - left :: done[best] <= done[k]
        decreases |left|
      {
        var k :| k in left;
        if done[k] < done[best] {
          best := k;
        }
        left := left - {k};
      }
      done := done - {best};
    }
  }

  /** A full entry: k distinct verified shards. */
  predicate Complete(h: Hash, e: Pending) {
    && Canonical(e.commitment) && DistinctPieces(e.pieces) && AllVerify(h, e.commitment, e.pieces)
    && |e.pieces| == e.commitment.k
  }

  lemma {:induction false} DistinctIndices(pieces: seq<Piece>)
    requires DistinctPieces(pieces)
    ensures |ReceivedIndices(pieces)| == |pieces|
  {
    if pieces == [] {
      assert ReceivedIndices(pieces) == {};
    } else {
      var n := |pieces| - 1;
      DistinctIndices(pieces[..n]);
      assert ReceivedIndices(pieces) == ReceivedIndices(pieces[..n]) + {pieces[n].0.index};
      assert pieces[n].0.index !in ReceivedIndices(pieces[..n]);
    }
  }

  // ---- a whole proposal ----

  /** An honest leader's coded proposals of one block: its header, commitment and authority with
      each piece of the encoding. */
  ghost predicate HonestCoded(h: Hash, coded: Coded, view: U64, header: Head, auth: Bytes, one: CodedProposal) {
    && one.shard.index < |coded.rows| && (one.shard, one.proof) == HonestPiece(h, coded, one.shard.index)
    && one == CodedProposal(view, header, coded.commitment, one.shard, one.proof, auth)
  }

  /** The entry after the first pieces of `list`. */
  function Gathered(list: seq<CodedProposal>): seq<Piece> {
    seq(|list|, i requires 0 <= i < |list| => (list[i].shard, list[i].proof))
  }

  /** The caller's loop over k distinct honest shards of a pinned slot: each but the last is kept,
      and the last one returns the leader's block under its view, header and authority. */
  method AdmitAll(a: ProposalAssembler, list: seq<CodedProposal>, source: U64, authOk: bool, view: U64, header: Head, auth: Bytes,
                  ghost coded: Coded, ghost data: Bytes, ghost block: Block)
      returns (r: Option<Outcome<Assembled>>)
    requires a.Valid() && Committed(a.h, data, coded.rows, coded.commitment) && Canonical(coded.commitment)
    requires |list| == coded.commitment.k && forall i | 0 <= i < |list| :: HonestCoded(a.h, coded, view, header, auth, list[i])
    requires forall i, j | 0 <= i < j < |list| :: list[i].shard.index != list[j].shard.index
    requires a.rd.decode(data) == Some(block) && a.rd.header(block) == header && a.rd.bodyRoot(block) == a.rd.namedRoot(header)
    requires a.certificateOk(block.certificate)
    requires var key, slot := (view, coded.commitment.root), (header.height, view);
      && key !in a.done && key !in a.pending && slot in a.pinned && a.pinned[slot] == (coded.commitment, a.digest(auth))
    requires a.roundHeight != 0 ==> a.roundHeight <= header.height <= a.roundHeight + 1
    requires a.overheadOf(header, coded.commitment, auth) + PiecesWeight(Gathered(list)) <= a.maxBytes
    modifies a
    ensures a.Valid()
    ensures r == Some(Done(Assembled(view, header, block.body, block.certificate, auth)))
  {
    hide Committed, Verifies, Canonical, HonestPiece, PiecesWeight, PieceWeight;
    r := None;
    AtLeastOne(coded.commitment);
    ghost var blank := Pending(header.height, view, header, coded.commitment, [], a.overheadOf(header, coded.commitment, auth), auth, a.digest(auth));
    var i := 0;
    while i < |list|
      invariant 0 <= i <= |list| && a.Valid()
      invariant i < |list| ==> Gathering(a, list[..i], view, header, auth, coded.commitment, blank)
      invariant i == |list| ==> r == Some(Done(Assembled(view, header, block.body, block.certificate, auth)))
    {
      AdmitNext(a, list, i, view, header, auth, coded, data, source, authOk, blank);
      ghost var grown := blank.(pieces := Gathered(list[..i + 1]));
      assert list[..i + 1] == list[..i] + [list[i]];
      r := a.Admit(list[i], source, authOk);
      if i + 1 == |list| {
        assert list[..i + 1] == list;
        GatheredComplete(a.h, coded, data, list, view, header, auth);
        a.HonestIsReleased(grown, coded, data, block, r.value);
      }
      i := i + 1;
    }
  }

  lemma {:induction false} AtLeastOne(c: Commitment)
    requires Canonical(c)
    ensures c.k >= 1
  {}

  /** Part way: the slot is pinned and the entry holds the shards so far. */
  ghost predicate Gathering(a: ProposalAssembler, list: seq<CodedProposal>, view: U64, header: Head, auth: Bytes, c: Commitment, blank: Pending)
    reads a
  {
    var key, slot := (view, c.root), (header.height, view);
    && key !in a.done && slot in a.pinned && a.pinned[slot] == (c, a.digest(auth))
    && (a.roundHeight != 0 ==> a.roundHeight <= header.height <= a.roundHeight + 1)
    && (if list == [] then key !in a.pending else key in a.pending && a.pending[key] == blank.(pieces := Gathered(list)))
  }

  lemma {:induction false} GatheredComplete(h: Hash, coded: Coded, data: Bytes, list: seq<CodedProposal>, view: U64, header: Head, auth: Bytes)
    requires Committed(h, data, coded.rows, coded.commitment)
    requires forall i | 0 <= i < |list| :: HonestCoded(h, coded, view, header, auth, list[i])
    requires forall i, j | 0 <= i < j < |list| :: list[i].shard.index != list[j].shard.index
    ensures DistinctPieces(Gathered(list)) && AllVerify(h, coded.commitment, Gathered(list))
    ensures forall i | 0 <= i < |list| :: Gathered(list)[i].0.index < |coded.rows| && Gathered(list)[i] == HonestPiece(h, coded, Gathered(list)[i].0.index)
  {
    hide Committed, Verifies;
    forall i | 0 <= i < |list| ensures Verifies(h, coded.commitment, list[i].shard, list[i].proof) {
      HonestShardVerifies(h, coded, data, list[i].shard.index);
    }
  }

  lemma {:induction false} HonestShardVerifies(h: Hash, coded: Coded, data: Bytes, i: nat)
    requires Committed(h, data, coded.rows, coded.commitment) && i < |coded.rows|
    ensures Verifies(h, coded.commitment, HonestPiece(h, coded, i).0, HonestPiece(h, coded, i).1)
  {
    hide Verifies, OnCurve;
    HonestVerifies(h, coded.rows, coded.commitment, i);
  }

  /** The next honest shard is welcome and accepted by the entry so far. */
  lemma {:induction false} AdmitNext(a: ProposalAssembler, list: seq<CodedProposal>, i: nat, view: U64, header: Head, auth: Bytes, coded: Coded,
                                     data: Bytes, source: U64, authOk: bool, blank: Pending)
    requires i < |list| == coded.commitment.k && Committed(a.h, data, coded.rows, coded.commitment) && Canonical(coded.commitment)
    requires forall i | 0 <= i < |list| :: HonestCoded(a.h, coded, view, header, auth, list[i])
    requires forall i, j | 0 <= i < j < |list| :: list[i].shard.index != list[j].shard.index
    requires blank == Pending(header.height, view, header, coded.commitment, [], a.overheadOf(header, coded.commitment, auth), auth, a.digest(auth))
    requires Gathering(a, list[..i], view, header, auth, coded.commitment, blank)
    requires blank.overhead + PiecesWeight(Gathered(list)) <= a.maxBytes
    ensures a.Welcome(list[i], source, authOk) && a.Accepts(a.EntryMet(list[i]), list[i])
    ensures Grown(a.EntryMet(list[i]), list[i]) == blank.(pieces := Gathered(list[..i + 1]))
  {
    hide Committed, Verifies, Canonical, PiecesWeight;
    var one := list[i];
    HonestShardVerifies(a.h, coded, data, one.shard.index);
    var soFar := Gathered(list[..i]);
    assert Gathered(list[..i + 1]) == soFar + [(one.shard, one.proof)];
    assert a.EntryMet(one) == blank.(pieces := soFar);
    WeightPrefix(Gathered(list), i + 1);
    assert Gathered(list)[..i + 1] == Gathered(list[..i + 1]);
    assert !HasIndex(soFar, one.shard.index);
  }

  lemma {:induction false} WeightPrefix(pieces: seq<Piece>, n: nat)
    requires n <= |pieces|
    ensures PiecesWeight(pieces[..n]) <= PiecesWeight(pieces)
  {
    hide PieceWeight;
    if n < |pieces| {
      var m := |pieces| - 1;
      WeightPrefix(pieces[..m], n);
      assert pieces[..m][..n] == pieces[..n];
    } else {
      assert pieces[..n] == pieces;
    }
  }

  predicate HasIndex(pieces: seq<Piece>, index: nat) {
    exists i | 0 <= i < |pieces| :: pieces[i].0.index == index
  }

  lemma {:induction false} InBoundsOf(c: Commitment)
    requires Canonical(c)
    ensures InBounds(c)
  {}

  lemma {:induction false} PinnedGrows(pinned: map<Slot, (Commitment, Digest)>, e: Pending, grown: Pending)
    requires Pinned(pinned, e) && grown == e.(pieces := grown.pieces)
    ensures Pinned(pinned, grown)
  {}

  lemma {:induction false} OverheadPart(e: Pending)
    ensures e.overhead <= EntryWeight(e)
  {}

  lemma {:induction false} TotalOne(pending: map<Key, Pending>, key: Key)
    requires pending.Keys == {key}
    ensures Total(pending) == EntryWeight(pending[key])
  {
    hide EntryWeight;
    WeightTake(pending, pending.Keys, key);
    assert pending.Keys - {key} == {};
  }

  lemma {:induction false} NewWeight(e: Pending)
    requires e.pieces == []
    ensures EntryWeight(e) == e.overhead
  {}

  /** Entries went lowest first, `keep` and the others as they were. */
  ghost predicate LowestFirst(before: map<Key, Pending>, after: map<Key, Pending>, keep: Key) {
    && (forall k | k in after :: k in before && after[k] == before[k])
    && (forall gone | gone in before && gone !in after :: NoneLower(before[gone].height, after, Some(keep)))
  }

  lemma {:induction false} LowestNone(pending: map<Key, Pending>, keep: Key)
    ensures LowestFirst(pending, pending, keep)
  {}

  lemma {:induction false} LowestStep(first: map<Key, Pending>, before: map<Key, Pending>, after: map<Key, Pending>, keep: Key)
    requires LowestFirst(first, before, keep) && LowestGone(before, after, Some(keep)) && keep in before
    ensures LowestFirst(first, after, keep) && |after| < |before| && keep in after && after[keep] == before[keep]
  {
    var k :| k in before && Some(keep) != Some(k) && after == before - {k} && NoneLower(before[k].height, after, Some(keep));
    assert before.Keys == after.Keys + {k};
    assert |before.Keys| == |before| && |after.Keys| == |after|;
    forall gone | gone in first && gone !in after ensures NoneLower(first[gone].height, after, Some(keep)) {
      if gone != k { assert NoneLower(first[gone].height, before, Some(keep)); }
    }
  }

  /** A refused new entry is taken back out. */
  function Withdraw(pending: map<Key, Pending>, key: Key, isNew: bool): map<Key, Pending> {
    if isNew then pending - {key} else pending
  }

  lemma {:induction false} GrownOk(h: Hash, key: Key, e: Pending, piece: Piece)
    requires EntryOk(h, key, e) && Verifies(h, e.commitment, piece.0, piece.1) && !HasIndex(e.pieces, piece.0.index)
    ensures var grown := e.(pieces := e.pieces + [piece]);
      EntryWeight(grown) == EntryWeight(e) + PieceWeight(piece)
      && (if |grown.pieces| < e.commitment.k then EntryOk(h, key, grown) else Complete(h, grown))
  {
    hide Verifies, Canonical, PieceWeight;
    var pieces := e.pieces + [piece];
    assert pieces[..|pieces| - 1] == e.pieces;
  }

  /** A key of least height among the candidates, whichever order they are met in. */
  method Lowest(pending: map<Key, Pending>, candidates: set<Key>) returns (best: Key)
    requires candidates != {} && candidates <= pending.Keys
    ensures best in candidates && forall k | k in candidates :: pending[best].height <= pending[k].height
  {
    best :| best in candidates;
    var left := candidates - {best};
    while left != {}
      invariant left <= candidates && best in candidates
      invariant forall k | k in candidates - left :: pending[best].height <= pending[k].height
      decreases |left|
    {
      var k :| k in left;
      if pending[k].height < pending[best].height {
        best := k;
      }
      left := left - {k};
    }
  }

  lemma {:induction false} KeptTotal(pending: map<Key, Pending>, floor: nat)
    ensures Total(KeptPending(pending, floor)) <= Total(pending)
  {
    var kept := KeptPending(pending, floor);
    WeightSame(pending, kept, kept.Keys);
    WeightMonotone(pending, kept.Keys, pending.Keys);
  }

  lemma {:induction false} WeightMonotone(pending: map<Key, Pending>, few: set<Key>, many: set<Key>)
    requires few <= many <= pending.Keys
    ensures WeightOf(pending, few) <= WeightOf(pending, many)
    decreases |many|
  {
    hide EntryWeight, WeightOf;
    if few != many {
      var k :| k in many && k !in few;
      WeightTake(pending, many, k);
      WeightMonotone(pending, few, many - {k});
    }
  }

  /** The weights of all entries, added in whatever order they come. */
  method SumWeights(pending: map<Key, Pending>) returns (sum: nat)
    ensures sum == Total(pending)
  {
    hide EntryWeight, WeightOf;
    var left := pending.Keys;
    sum := 0;
    WeightNone(pending);
    while left != {}
      invariant left <= pending.Keys
      invariant sum + WeightOf(pending, left) == Total(pending)
      decreases |left|
    {
      var k :| k in left;
      WeightTake(pending, left, k);
      sum := sum + EntryWeight(pending[k]);
      left := left - {k};
    }
  }

  lemma {:induction false} WeightNone(pending: map<Key, Pending>)
    ensures WeightOf(pending, {}) == 0
  {}
}
