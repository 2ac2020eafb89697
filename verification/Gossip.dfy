/** The gossip messages: one tag per kind, then that kind's fields. Also the lock file,
    which is read in its current layout or else in the older one without a pol. */
module Gossip {
  import opened Field
  import opened Hashing
  import opened Wire
  import opened Wrappers

  const KEY_BYTES: nat := 1952
  const MIN_PEER: nat := 1968
  const MIN_CHAIN_BLOCK: nat := 208

  function ProposalFmt(): Fmt { Struct([Long(), HeaderFmt(), BodyFmt(), JustificationFmt(), AttestationFmt()]) }

  function PrevoteNoteFmt(): Fmt { Struct([AttestationFmt(), Raw(32), PolFmt()]) }

  function PeerFmt(): Fmt { Struct([Fixed(KEY_BYTES), Text(U64_MAX)]) }

  function PeersFmt(): Fmt { List(PeerFmt(), MIN_PEER, U64_MAX, false) }

  function BlocksFmt(): Fmt { List(ChainBlockFmt(), MIN_CHAIN_BLOCK, U64_MAX, false) }

  function RevealNoteFmt(): Fmt { Struct([Long(), Long(), CredentialFmt()]) }

  function RegisterNoteFmt(): Fmt { Struct([Long(), Long(), Long(), Fixed(NODE_BYTES), Long(), Fixed(SIGNATURE_BYTES)]) }

  /** What follows each tag; other tags are unknown. */
  function PayloadFmt(tag: Byte): Option<Fmt> {
    match tag
    case 1 => Some(Wrapped)
    case 2 => Some(ProposalFmt())
    case 3 => Some(AttestationFmt())
    case 4 => Some(PeersFmt())
    case 5 => Some(Long())
    case 6 => Some(Struct([Long(), Long()]))
    case 7 => Some(BlocksFmt())
    case 8 => Some(ViewChangeFmt())
    case 9 => Some(CodedProposalFmt())
    case 10 => Some(RevealNoteFmt())
    case 11 => Some(RegisterNoteFmt())
    case 12 => Some(PrevoteNoteFmt())
    case _ => None
  }

  /** A message: its kind and its fields. */
  datatype Note = Note(tag: Byte, body: Val)

  predicate WellFormed(env: Env, m: Note) {
    PayloadFmt(m.tag).Some? && Fits(env, PayloadFmt(m.tag).value, m.body)
  }

  function Encode(env: Env, m: Note): Bytes
    requires WellFormed(env, m)
  {
    [m.tag] + Enc(env, PayloadFmt(m.tag).value, m.body)
  }

  function Decode(env: Env, b: Bytes): Option<Note> {
    if b == [] || PayloadFmt(b[0]).None? then None
    else
      var body := FromBytes(env, PayloadFmt(b[0]).value, b[1..]);
      if body.None? then None else Some(Note(b[0], body.value))
  }

  // ---- the two remaining minima ----

  /** Every peer entry takes at least the declared 1968 bytes. */
  lemma {:induction false} PeerLeast()
    ensures Honest(PeersFmt()) && Least(PeerFmt()) == MIN_PEER
  {
    var f := PeerFmt().fields;
    HonestFields(f);
    LeastStruct(f);
    SizesEnd(f);
    SizesStep(f, 1, 8);
    SizesStep(f, 0, 1960);
  }

  lemma {:induction false} HeaderLeast()
    ensures Least(HeaderFmt()) == 192
  {
    hide Least, Sizes, LeastAll;
    PlainLeast(8, 8, Wrapped);
    PlainLeast(32, 32, Wrapped);
    PlainLeast(0, MAX_EXTRA_DATA, Wrapped);
    PlainLeast(MAX_PROPOSER, 0, Wrapped);
    var f := HeaderFmt().fields;
    LeastStruct(f);
    SizesEnd(f);
    SizesStep(f, 8, 8);
    SizesFour(f, 4, 32, 32, 8, 8);
    SizesFour(f, 0, 8, 32, 32, 32);
  }

  /** Every stored block takes at least the declared 208 bytes. */
  lemma {:induction false} ChainBlockLeast()
    ensures Honest(BlocksFmt()) && Least(ChainBlockFmt()) == MIN_CHAIN_BLOCK
  {
    hide ChainBlockFmt;
    ChainBlockHonest();
    ChainBlockSize();
  }

  lemma {:induction false} ChainBlockSize()
    ensures Least(ChainBlockFmt()) == MIN_CHAIN_BLOCK
  {
    hide Least, Sizes, HeaderFmt;
    HeaderLeast();
    PlainLeast(0, U64_MAX, Wrapped);
    PlainLeast(MIN_WRAPPER, U64_MAX, Wrapped);
    var f := ChainBlockFmt().fields;
    LeastStruct(f);
    SizesEnd(f);
    SizesStep(f, 2, 8); SizesStep(f, 1, 8); SizesStep(f, 0, 192);
  }

  lemma {:induction false} ProposalHonest()
    ensures Honest(ProposalFmt())
  {
    hide HeaderFmt, BodyFmt, JustificationFmt, AttestationFmt, Least, HonestAll;
    HeaderHonest();
    LockedHonest();
    ViewChangeLeast();
    AttestationLeast();
    HonestFields(ProposalFmt().fields);
  }

  lemma {:induction false} NotesHonest()
    ensures Honest(PrevoteNoteFmt()) && Honest(RevealNoteFmt()) && Honest(RegisterNoteFmt()) && Honest(Struct([Long(), Long()]))
  {
    hide AttestationFmt, CredentialFmt, Least, HonestAll;
    AttestationLeast();
    CredentialLeast();
    HonestFields(PrevoteNoteFmt().fields);
    HonestFields(RevealNoteFmt().fields);
    HonestFields(RegisterNoteFmt().fields);
    HonestFields([Long(), Long()]);
  }

  lemma {:induction false} PayloadHonest(tag: Byte)
    requires PayloadFmt(tag).Some?
    ensures Honest(PayloadFmt(tag).value)
  {
    hide ProposalFmt, PrevoteNoteFmt, PeersFmt, BlocksFmt, RevealNoteFmt, RegisterNoteFmt, AttestationFmt, ViewChangeFmt,
      CodedProposalFmt, PeerFmt, ChainBlockFmt, HonestAll, Least;
    ProposalHonest();
    NotesHonest();
    PeerLeast();
    ChainBlockLeast();
    AttestationLeast();
    ViewChangeHonest();
    CodedProposalHonest();
  }

  /** Bytes decode to a message exactly when they are its encoding, so no bytes are two
      messages, of one kind or of two. */
  lemma {:induction false} GossipTwoWay(env: Env, b: Bytes, m: Note)
    requires WrapperTwoWay(env)
    ensures Decode(env, b) == Some(m) <==> WellFormed(env, m) && b == Encode(env, m)
  {
    hide PayloadFmt, Fits, Enc, FromBytes, WrapperTwoWay;
    if b != [] && PayloadFmt(b[0]).Some? {
      PayloadHonest(b[0]);
      TwoWay(env, PayloadFmt(b[0]).value, b[1..], m.body);
    }
    if WellFormed(env, m) {
      var body := Enc(env, PayloadFmt(m.tag).value, m.body);
      assert ([m.tag] + body)[1..] == body;
    }
    assert b != [] ==> b == [b[0]] + b[1..];
  }

  // ---- the lock file ----

  function OldLockFmt(): Fmt { Struct([Long(), Raw(32), HeaderFmt(), BodyFmt(), CertificateFmt()]) }

  /** A lock read without a pol. */
  function Unpolled(v: Val): Val {
    if v.L? && v.items != [] then L([v.items[0], Absent] + v.items[1..]) else v
  }

  /** `lock_from_bytes`: the current layout, else the older one. */
  function LockFromBytes(env: Env, b: Bytes): Option<Val> {
    var current := FromBytes(env, LockFmt(), b);
    if current.Some? then current
    else
      var older := FromBytes(env, OldLockFmt(), b);
      if older.None? then None else Some(Unpolled(older.value))
  }

  predicate IsEncoding(env: Env, f: Fmt, v: Val, b: Bytes) {
    Fits(env, f, v) && b == Enc(env, f, v)
  }

  lemma {:induction false} OldLockHonest()
    ensures Honest(OldLockFmt())
  {
    hide HeaderFmt, BodyFmt, CertificateFmt, HonestAll, Least;
    HeaderHonest();
    LockedHonest();
    CertificateHonest();
    HonestFields(OldLockFmt().fields);
  }

  /** What a lock file may hold: a lock in the current layout comes back as itself, and any
      other accepted bytes are one lock in the older layout, which comes back without a pol. */
  lemma {:induction false} LockFileExact(env: Env, b: Bytes, v: Val)
    requires WrapperTwoWay(env)
    ensures LockFromBytes(env, b) == Some(v) <==>
      || IsEncoding(env, LockFmt(), v, b)
      || ((forall w :: !IsEncoding(env, LockFmt(), w, b))
          && exists u :: IsEncoding(env, OldLockFmt(), u, b) && v == Unpolled(u))
  {
    hide LockFmt, OldLockFmt, Fits, Enc, FromBytes, Honest, Unpolled, WrapperTwoWay;
    LockHonest();
    OldLockHonest();
    forall w ensures FromBytes(env, LockFmt(), b) == Some(w) <==> IsEncoding(env, LockFmt(), w, b) {
      TwoWay(env, LockFmt(), b, w);
    }
    forall u ensures FromBytes(env, OldLockFmt(), b) == Some(u) <==> IsEncoding(env, OldLockFmt(), u, b) {
      TwoWay(env, OldLockFmt(), b, u);
    }
    var current, older := FromBytes(env, LockFmt(), b), FromBytes(env, OldLockFmt(), b);
    assert current.Some? ==> IsEncoding(env, LockFmt(), current.value, b);
    assert older.Some? ==> IsEncoding(env, OldLockFmt(), older.value, b);
  }
}
