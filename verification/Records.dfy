/** Signed statements of one height: attestations, certificates and view-change records.

    Height, slot and committee digest are the same for every statement of the
    height, so they are dropped. Digests are free: a subject is the tagged tuple
    it hashes and a header's value is its hash, so equal digests mean equal
    contents. `signed` is the set of attestations whose signer really signed
    them; checking a signature is membership in it. */
module Records {
  import opened Committee
  import opened Wrappers

  type Value = nat

  datatype Tx = Tx(id: nat, size: nat)

  datatype Header = Header(value: Value, proposer: NodeId, txRoot: seq<Tx>)

  datatype LockedBlock = LockedBlock(header: Header, body: seq<Tx>)

  datatype Subject =
    | PrevoteFor(view: View, value: Value, pol: Option<View>)
    | PrecommitFor(value: Value)
    | ViewChangeFor(targetView: View, lockView: View, lockedValue: Option<Value>, digest: PolkaDigest)

  datatype Att = Att(from: NodeId, view: View, subject: Subject)

  datatype Cert = Cert(subject: Subject, atts: seq<Att>)

  datatype PolkaDigest = NoPolka | PolkaOf(cert: Cert, lockPol: Option<View>)

  datatype ViewChange = ViewChange(
    targetView: View,
    lockView: View,
    locked: Option<LockedBlock>,
    att: Att,
    polka: Option<Cert>,
    lockPol: Option<View>,
    polkaDigest: PolkaDigest)

  const MAX_BLOCK_BODY_BYTES: nat := 6 * 1024 * 1024
  const MAX_VIEW: View := 1048576

  function Signers(atts: seq<Att>): set<NodeId> {
    set a | a in atts :: a.from
  }

  /** What aggregating or verifying a certificate guarantees: a quorum of the
      committee really signed its subject. */
  predicate CertVerifies(sel: Selection, signed: set<Att>, cert: Cert) {
    && (forall a | a in cert.atts :: a in signed && a.subject == cert.subject)
    && StakeQuorum(sel, Signers(cert.atts))
  }

  function BodyBytes(body: seq<Tx>): nat {
    if body == [] then 0 else body[0].size + BodyBytes(body[1..])
  }

  predicate LockedBodyFits(block: LockedBlock) {
    block.body == [] || (BodyBytes(block.body) <= MAX_BLOCK_BODY_BYTES && block.body == block.header.txRoot)
  }

  predicate PolkaBacks(sel: Selection, signed: set<Att>, lockView: View, lockPol: Option<View>, block: LockedBlock, polka: Cert) {
    && polka.subject == PrevoteFor(lockView, block.header.value, lockPol)
    && (forall a | a in polka.atts :: a.view == lockView)
    && CertVerifies(sel, signed, polka)
  }

  function DigestOf(polka: Option<Cert>, lockPol: Option<View>): PolkaDigest {
    match polka
    case None => NoPolka
    case Some(cert) => PolkaOf(cert, lockPol)
  }

  function LockedValue(locked: Option<LockedBlock>): Option<Value> {
    match locked
    case None => None
    case Some(block) => Some(block.header.value)
  }

  function RecordSubject(r: ViewChange): Subject {
    ViewChangeFor(r.targetView, if r.locked.Some? then r.lockView else 0, LockedValue(r.locked), r.polkaDigest)
  }

  predicate VerifyRecordAtt(sel: Selection, signed: set<Att>, r: ViewChange) {
    && r.att.from in sel.members
    && r.targetView <= MAX_VIEW
    && (r.locked.Some? ==> r.lockView <= r.targetView)
    && (r.polka.Some? ==> DigestOf(r.polka, r.lockPol) == r.polkaDigest)
    && (r.locked.None? ==> r.polkaDigest == NoPolka)
    && r.att.subject == RecordSubject(r)
    && r.att in signed
  }

  predicate VerifyRecordPolka(sel: Selection, signed: set<Att>, r: ViewChange) {
    match (r.locked, r.polka)
    case (None, None) => true
    case (Some(block), Some(polka)) => PolkaBacks(sel, signed, r.lockView, r.lockPol, block, polka)
    case _ => false
  }

  /** A record may travel without its polka; the receiver then decides later whether to keep it. */
  predicate VerifyRecord(sel: Selection, signed: set<Att>, r: ViewChange) {
    && VerifyRecordAtt(sel, signed, r)
    && (match (r.locked, r.polka)
        case (Some(_), None) => true
        case _ => VerifyRecordPolka(sel, signed, r))
  }
}
