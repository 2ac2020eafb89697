/** What each call of a node does, said once more from outside: exactly when a proposal is staged,
    a vote or record is stored, a view left, a record signed and a block chosen. */
module Handlers {
  import opened Committee
  import opened Records
  import opened Justification
  import opened Stripping
  import opened NodeModel
  import opened FairEviction
  import opened Protocol
  import opened Agreement
  import opened AgreementRuns
  import opened Buffers
  import opened Rounds
  import opened Wrappers

  // ---- staging ----

  /** A proposal is staged exactly when the node may support it, and then with its own view, block,
      justification and the polka it shows; so a plain one comes from the leader of its view. */
  lemma {:induction false} StagedExactly(sel: Selection, signed: set<Att>, s: Node, from: NodeId, p: Proposal, o: Outcome)
    ensures var t := OnProposal(sel, signed, s, from, p, o).0;
      forall pol :: Supports(sel, signed, s, from, p, o, pol) ==>
        t.staged == Some(Staged(p.view, p.header, p.body, p.justification, pol)) && t.view == p.view
    ensures (forall pol :: !Supports(sel, signed, s, from, p, o, pol)) ==>
      var t := OnProposal(sel, signed, s, from, p, o).0; t == s.(verified := t.verified)
  {
    hide PrevoteStaged, ValidJustification, JustifiedLock, LeaderFor, BodyBytes;
    var plain := s.(staged := Some(Staged(p.view, p.header, p.body, [], None)));
    PrevoteKeepsStage(sel, plain, o);
    var (records, cache) := ValidJustification(sel, signed, p.view, s.verified, p.justification);
    if o.authentic && p.justification == [] {
      PlainPrevoted(sel, signed, s, from, p, o);
      assert Supports(sel, signed, s, from, p, o, None) ==> OnProposal(sel, signed, s, from, p, o) == PrevoteStaged(sel, plain, o);
    } else if o.authentic && s.view <= p.view && records.Some? {
      var pol := PolOf(JustifiedLock(sel, signed, records.value));
      var staged := s.(verified := cache, staged := Some(Staged(p.view, p.header, p.body, p.justification, pol)), view := p.view);
      PrevoteKeepsStage(sel, staged, o);
      assert Supports(sel, signed, s, from, p, o, pol) ==> OnProposal(sel, signed, s, from, p, o) == PrevoteStaged(sel, staged, o);
    }
  }

  lemma {:induction false} PrevoteKeepsStage(sel: Selection, s: Node, o: Outcome)
    ensures var t := PrevoteStaged(sel, s, o).0; t.staged == s.staged && t.view == s.view
  {
    hide RecordPrevote, RecordAttestation, StakeQuorum, Matching;
  }

  /** The leader's block at a later view: the justified one, else the one it is locked on, else its
      own; the proposal carries the stripped records and stands staged with the polka they show. */
  lemma {:induction false} BuiltExactly(sel: Selection, signed: set<Att>, s: Node, w: View, o: Outcome)
    ensures var (t, proposal) := BuildJustified(sel, signed, s, w, o);
      var records := FirstPerSender(s.viewChanges, w);
      var high := JustifiedLock(sel, signed, records);
      var block := if high.Backed? then WithBody(s, high.block) else if s.lock.Some? then WithBody(s, s.lock.value.block) else o.ownBlock;
      var settled := high.Backed? || s.lock.Some?;
      && (proposal.Some? <==>
            && StakeQuorum(sel, RecordSigners(records)) && !high.Conflict? && o.proposalSigned && o.drawn
            && (if settled then block in o.accepted && BodyBytes(block.body) <= MAX_BLOCK_BODY_BYTES else s.restartHold == 0))
      && (proposal.Some? ==>
            && proposal.value == Proposal(w, block.header, block.body, CarriedJustification(records))
            && t == s.(staged := Some(Staged(w, block.header, block.body, CarriedJustification(records), PolOf(high)))))
  {
    hide JustifiedLock, CarriedJustification, WithBody, StakeQuorum, BodyBytes;
  }

  /** A block without its body gets the body of the first held record that has one for its header,
      else that of the own lock. */
  lemma {:induction false} BodyFound(s: Node, block: LockedBlock)
    ensures var full := WithBody(s, block);
      && full.header == block.header && (block.body != [] ==> full == block)
      && (block.body == [] && (exists r | r in s.viewChanges :: Holds(r, block.header.value)) ==>
            exists r | r in s.viewChanges :: Holds(r, block.header.value) && full.body == r.locked.value.body)
      && (block.body == [] && (forall r | r in s.viewChanges :: !Holds(r, block.header.value)) ==>
            full.body == if s.lock.Some? && LockValue(s.lock.value) == block.header.value then s.lock.value.block.body else [])
  {
    FirstBodyIs(s.viewChanges, block.header.value);
  }

  /** The record carries a body for the value. */
  predicate Holds(r: ViewChange, value: Value) {
    r.locked.Some? && r.locked.value.body != [] && r.locked.value.header.value == value
  }

  lemma {:induction false} FirstBodyIs(records: seq<ViewChange>, value: Value)
    ensures FirstBody(records, value) == [] <==> forall r | r in records :: !Holds(r, value)
    ensures FirstBody(records, value) != [] ==> exists r | r in records :: Holds(r, value) && FirstBody(records, value) == r.locked.value.body
  {
    if records != [] {
      FirstBodyIs(records[1..], value);
      assert forall r :: r in records <==> r == records[0] || r in records[1..];
      assert Holds(records[0], value) ==> records[0] in records && FirstBody(records, value) == records[0].locked.value.body;
      assert !Holds(records[0], value) ==> FirstBody(records, value) == FirstBody(records[1..], value);
    }
  }

  /** A restored body is the one its header commits to. */
  lemma {:induction false} BodyMatches(sel: Selection, signed: set<Att>, s: Node, block: LockedBlock)
    requires block.body == [] && (forall r | r in s.viewChanges :: Collected(sel, signed, r))
    requires exists r | r in s.viewChanges :: Holds(r, block.header.value)
    ensures exists r | r in s.viewChanges :: Holds(r, block.header.value) && WithBody(s, block).body == r.locked.value.header.txRoot
  {
    BodyFound(s, block);
    var r :| r in s.viewChanges && Holds(r, block.header.value) && WithBody(s, block).body == r.locked.value.body;
    assert Collected(sel, signed, r);
  }

  // ---- votes heard ----

  /** A prevote note is stored by the buffer's rule exactly when it is what it claims to be, signed by
      a member; otherwise the buffer stays as it is. */
  lemma {:induction false} PrevoteHeardExactly(sel: Selection, signed: set<Att>, s: Node, att: Att, value: Value, pol: Option<View>, o: Outcome)
    ensures var t := React(sel, signed, s, HearPrevote(att, value, pol), o).0;
      t.prevotes == if att.subject == PrevoteFor(att.view, value, pol) && att.from in sel.members && att in signed
                    then RecordPrevote(s.prevotes, att) else s.prevotes
  {
    hide FormPolka, RecordPrevote;
    PolkaKeepsPrevotes(sel, s, o);
    PolkaKeepsPrevotes(sel, s.(prevotes := RecordPrevote(s.prevotes, att)), o);
    KnownIsKept(s.prevotes, att);
  }

  lemma {:induction false} PolkaKeepsPrevotes(sel: Selection, s: Node, o: Outcome)
    ensures FormPolka(sel, s, o).0.prevotes == s.prevotes
  {
    hide StakeQuorum, Matching, RecordAttestation;
  }

  lemma {:induction false} KnownIsKept(prevotes: seq<Att>, att: Att)
    ensures PrevoteKnown(prevotes, att) ==> RecordPrevote(prevotes, att) == prevotes
  {
  }

  /** A precommit is stored by the buffer's rule exactly when a member signed it for a view at most
      sixteen ahead; nothing else changes. */
  lemma {:induction false} PrecommitHeardExactly(sel: Selection, signed: set<Att>, s: Node, att: Att, o: Outcome)
    ensures React(sel, signed, s, HearPrecommit(att), o) ==
      (s.(roundAtts := if att.subject.PrecommitFor? && att.from in sel.members && att in signed && att.view <= s.view + 16
                       then RecordAttestation(s.roundAtts, att) else s.roundAtts), [])
  {
    hide RecordAttestation;
  }

  // ---- locking and precommitting ----

  /** A staged block is precommitted exactly when the node is neither held nor fatal, its sign mark
      allows the view and value, the mark is written and the validator is drawn. */
  lemma {:induction false} PrecommittedExactly(s: Node, o: Outcome)
    ensures var (t, sent) := PrecommitStaged(s, o);
      && (sent != [] <==>
            && s.staged.Some? && !s.fatal && s.restartHold == 0 && o.signStored && o.drawn
            && (s.signMark.None? || s.signMark.value.view < s.staged.value.view
                || s.signMark.value == SignMark(s.staged.value.view, s.staged.value.header.value)))
      && (sent != [] ==>
            && sent == [PrecommitSent(Att(s.id, s.staged.value.view, PrecommitFor(s.staged.value.header.value)))]
            && t.signMark == Some(SignMark(s.staged.value.view, s.staged.value.header.value)))
  {
    hide RecordAttestation;
  }

  /** A node locks exactly when the prevotes it holds for the staged view, value and polka are a stake
      quorum, its lock is at an earlier view, and certificate and disk serve; it locks the staged block
      with those prevotes as the certificate. */
  lemma {:induction false} LockedExactly(sel: Selection, s: Node, o: Outcome)
    ensures var t := FormPolka(sel, s, o).0;
      if && s.staged.Some? && (s.lock.Some? ==> s.lock.value.view < s.staged.value.view)
         && StakeQuorum(sel, VotersFor(s)) && o.aggregated && o.lockStored
      then
        && t.lock.Some? && t.lock.value.view == s.staged.value.view && t.lock.value.pol == s.staged.value.pol
        && t.lock.value.block == LockedBlock(s.staged.value.header, s.staged.value.body)
        && t.lock.value.polka.subject == PrevoteFor(s.staged.value.view, s.staged.value.header.value, s.staged.value.pol)
        && forall a :: a in t.lock.value.polka.atts <==> a in s.prevotes && VotesFor(a, s.staged.value)
      else t.lock == s.lock && FormPolka(sel, s, o).1 == []
  {
    hide StakeQuorum, RecordAttestation;
    if s.staged.Some? {
      var staged := s.staged.value;
      assert Signers(Matching(s.prevotes, staged.view, PrevoteSubject(staged))) == VotersFor(s);
    }
  }

  /** The prevote is for the staged block, at its view and naming its polka. */
  predicate VotesFor(a: Att, staged: Staged) {
    a.view == staged.view && a.subject == PrevoteFor(staged.view, staged.header.value, staged.pol)
  }

  function VotersFor(s: Node): set<NodeId>
    requires s.staged.Some?
  {
    set a | a in s.prevotes && VotesFor(a, s.staged.value) :: a.from
  }

  // ---- records heard ----

  /** The record is signed, its polka holds, its body fits and its sender has not sent eight bad polkas. */
  predicate Sound(sel: Selection, signed: set<Att>, s: Node, r: ViewChange) {
    Collected(sel, signed, r) && Rejects(s, r.att.from) < 8
  }

  predicate SameSlot(h: ViewChange, r: ViewChange) {
    h.att.from == r.att.from && h.targetView == r.targetView
  }

  /** The new record adds a body or a polka the held one lacks. */
  predicate AddsTo(h: ViewChange, r: ViewChange) {
    || (r.locked.Some? && r.locked.value.body != [] && !(h.locked.Some? && h.locked.value.body != []))
    || (r.polka.Some? && h.polka.None?)
  }

  /** A first record for its sender and view is stored last, lightened of a body the sender's held
      records already carry, and a full buffer gives up the heaviest sender's first record. */
  lemma {:induction false} FirstRecordStored(sel: Selection, signed: set<Att>, s: Node, r: ViewChange)
    requires Sound(sel, signed, s, r) && (forall h | h in s.viewChanges :: !SameSlot(h, r))
    requires Count(RecordSenders(s.viewChanges), r.att.from) < 64
    ensures var t := CollectViewChange(sel, signed, s, r);
      && t.polkaRejects == s.polkaRejects
      && if |s.viewChanges| < 8192 then t.viewChanges == s.viewChanges + [Lightened(s.viewChanges, r)]
         else exists at :: FirstOfHeaviest(RecordSenders(s.viewChanges), r.att.from, at)
                && t.viewChanges == Remove(s.viewChanges, at) + [Lightened(s.viewChanges, r)]
  {
    hide Count, Lightened, VerifyRecordAtt, VerifyRecordPolka, LockedBodyFits, CarriesMore;
    NoneHeld(s.viewChanges, r);
    if |s.viewChanges| >= 8192 {
      var at := Victim(RecordSenders(s.viewChanges), r.att.from);
      assert FirstOfHeaviest(RecordSenders(s.viewChanges), r.att.from, at);
    }
  }

  /** Lightening drops only a body, and only one a held record of the sender has for that header. */
  lemma {:induction false} LightenedExactly(records: seq<ViewChange>, r: ViewChange)
    ensures var l := Lightened(records, r);
      if r.locked.Some? && exists h | h in records :: h.att.from == r.att.from && Holds(h, r.locked.value.header.value)
      then l == r.(locked := Some(LockedBlock(r.locked.value.header, []))) else l == r
  {
  }

  /** A second record for a sender and view replaces the held one in place exactly when it adds a body
      or a polka. */
  lemma {:induction false} SecondRecordReplaces(sel: Selection, signed: set<Att>, s: Node, r: ViewChange)
    requires Sound(sel, signed, s, r) && exists h | h in s.viewChanges :: SameSlot(h, r)
    ensures var t := CollectViewChange(sel, signed, s, r);
      && t.polkaRejects == s.polkaRejects
      && exists at: nat ::
           && at < |s.viewChanges| && SameSlot(s.viewChanges[at], r)
           && t.viewChanges == if AddsTo(s.viewChanges[at], r) then s.viewChanges[at := r] else s.viewChanges
  {
    hide Count, VerifyRecordAtt, VerifyRecordPolka, LockedBodyFits;
    var held := HeldAt(s.viewChanges, r);
    assert held.Some?;
    assert SameSlot(s.viewChanges[held.value], r);
  }

  /** A record that is not sound, or over its sender's cap, leaves the held records as they are. */
  lemma {:induction false} BadRecordIgnored(sel: Selection, signed: set<Att>, s: Node, r: ViewChange)
    requires !Sound(sel, signed, s, r)
      || ((forall h | h in s.viewChanges :: !SameSlot(h, r)) && Count(RecordSenders(s.viewChanges), r.att.from) >= 64)
    ensures CollectViewChange(sel, signed, s, r).viewChanges == s.viewChanges
  {
    hide Count, VerifyRecordAtt, VerifyRecordPolka, LockedBodyFits, Lightened;
    if forall h | h in s.viewChanges :: !SameSlot(h, r) {
      NoneHeld(s.viewChanges, r);
    }
  }

  lemma {:induction false} NoneHeld(records: seq<ViewChange>, r: ViewChange)
    requires forall h | h in records :: !SameSlot(h, r)
    ensures HeldAt(records, r).None?
  {
    hide HeldAt;
    var held := HeldAt(records, r);
    assert held.Some? ==> records[held.value] in records && SameSlot(records[held.value], r);
  }

  // ---- records signed ----

  /** A record names its signer's lock: its view, block, polka and the polka's own polka, or none at
      all; and the signature covers the view asked for, the lock and the polka. */
  lemma {:induction false} RecordNamesLock(s: Node, target: View, o: Outcome)
    ensures var made := MakeViewChange(s, target, o);
      && (made.Some? <==> o.drawn)
      && (made.Some? ==>
            var r := made.value;
            && r.targetView == target && r.att.from == s.id && r.att.view == s.view
            && (match s.lock
                case None =>
                  r.locked == None && r.polka == None && r.att.subject == ViewChangeFor(target, 0, None, NoPolka)
                case Some(lock) =>
                  && r.lockView == lock.view && r.locked == Some(lock.block) && r.polka == Some(lock.polka) && r.lockPol == lock.pol
                  && r.att.subject == ViewChangeFor(target, lock.view, Some(lock.block.header.value), PolkaOf(lock.polka, lock.pol))))
  {
  }

  /** The lock a node holds is backed by the polka it keeps with it. */
  ghost predicate LocksBacked(sys: System) {
    forall id | id in sys.nodes && sys.nodes[id].lock.Some? :: Backs(sys.sel, sys.signed, sys.nodes[id].lock.value)
  }

  predicate Backs(sel: Selection, signed: set<Att>, lock: Lock) {
    PolkaBacks(sel, signed, lock.view, lock.pol, lock.block, lock.polka)
  }

  lemma {:induction false} BacksStays(sel: Selection, earlier: set<Att>, later: set<Att>, lock: Lock)
    requires earlier <= later && Backs(sel, earlier, lock)
    ensures Backs(sel, later, lock)
  {
  }

  /** What a call does to the lock: keeps it, or sets one that the held prevotes back. */
  ghost predicate LockGrounded(sel: Selection, signed: set<Att>, s: Node, t: Node) {
    t.lock == s.lock || (t.lock.Some? && Backs(sel, signed, t.lock.value))
  }

  lemma {:induction false} FormPolkaGrounded(sel: Selection, signed: set<Att>, s: Node, o: Outcome)
    requires forall a | a in s.prevotes :: a in signed
    ensures LockGrounded(sel, signed, s, FormPolka(sel, s, o).0)
  {
    hide StakeQuorum, RecordAttestation;
  }

  lemma {:induction false} PrevoteStagedGrounded(sel: Selection, signed: set<Att>, s: Node, o: Outcome)
    requires forall a | a in s.prevotes || a in Signatures(PrevoteStaged(sel, s, o).1) :: a in signed
    ensures LockGrounded(sel, signed, s, PrevoteStaged(sel, s, o).0)
  {
    hide FormPolka, RecordPrevote, LockGrounded;
    if MayPrevote(s, o) && o.drawn {
      var (cast, first) := CastPrevote(s, o);
      var more := FormPolka(sel, cast, o).1;
      SignaturesJoin(first, more);
      assert Signatures(first) == {first[0].att};
      RecordPrevoteKeeps(s.prevotes, first[0].att);
      FormPolkaGrounded(sel, signed, cast, o);
      SameLock(sel, signed, s, cast, FormPolka(sel, cast, o).0);
    } else {
      assert PrevoteStaged(sel, s, o).0.lock == s.lock;
      Unmoved(sel, signed, s, PrevoteStaged(sel, s, o).0);
    }
  }

  lemma {:induction false} SameLock(sel: Selection, signed: set<Att>, s: Node, mid: Node, t: Node)
    requires mid.lock == s.lock && LockGrounded(sel, signed, mid, t)
    ensures LockGrounded(sel, signed, s, t)
  {
  }

  lemma {:induction false} Unmoved(sel: Selection, signed: set<Att>, s: Node, t: Node)
    requires t.lock == s.lock
    ensures LockGrounded(sel, signed, s, t)
  {
  }

  lemma {:induction false} OnJustifiedGrounded(sel: Selection, signed: set<Att>, s: Node, p: Proposal, o: Outcome, later: set<Att>)
    requires forall a | a in s.prevotes || a in Signatures(OnJustifiedProposal(sel, signed, s, p, o).1) :: a in later
    ensures LockGrounded(sel, later, s, OnJustifiedProposal(sel, signed, s, p, o).0)
  {
    hide PrevoteStaged, ValidJustification, JustifiedLock, HighAllows, LockAllows, BodyBytes, LockGrounded;
    var (valid, cache) := ValidJustification(sel, signed, p.view, s.verified, p.justification);
    var move := OnJustifiedProposal(sel, signed, s, p, o);
    Unmoved(sel, later, s, s);
    Unmoved(sel, later, s, s.(verified := cache));
    if valid.Some? {
      var high := JustifiedLock(sel, signed, valid.value);
      var staged := s.(verified := cache, staged := Some(Staged(p.view, p.header, p.body, p.justification, PolOf(high))), view := p.view);
      if move == PrevoteStaged(sel, staged, o) {
        PrevoteStagedGrounded(sel, later, staged, o);
        SameLock(sel, later, s, staged, move.0);
      }
    }
  }

  lemma {:induction false} OnProposalGrounded(sel: Selection, signed: set<Att>, s: Node, from: NodeId, p: Proposal, o: Outcome, later: set<Att>)
    requires forall a | a in s.prevotes || a in Signatures(OnProposal(sel, signed, s, from, p, o).1) :: a in later
    ensures LockGrounded(sel, later, s, OnProposal(sel, signed, s, from, p, o).0)
  {
    hide PrevoteStaged, OnJustifiedProposal, LeaderFor, BodyBytes, LockGrounded;
    var move := OnProposal(sel, signed, s, from, p, o);
    Unmoved(sel, later, s, s);
    if o.authentic && p.justification != [] {
      OnJustifiedGrounded(sel, signed, s, p, o, later);
    } else if move != (s, []) {
      var staged := s.(staged := Some(Staged(p.view, p.header, p.body, [], None)));
      PrevoteStagedGrounded(sel, later, staged, o);
      SameLock(sel, later, s, staged, move.0);
    }
  }

  lemma {:induction false} TryJustifiedGrounded(sel: Selection, signed: set<Att>, s: Node, o: Outcome, later: set<Att>)
    requires forall a | a in s.prevotes || a in Signatures(TryJustified(sel, signed, s, o).1) :: a in later
    ensures LockGrounded(sel, later, s, TryJustified(sel, signed, s, o).0)
  {
    hide PrevoteStaged, BuildJustified, LeaderFor, LockGrounded, BuiltAt;
    var move := TryJustified(sel, signed, s, o);
    var (built, proposal) := BuildJustified(sel, signed, s, s.view, o);
    BuiltKeepsLock(sel, signed, s, o);
    Unmoved(sel, later, s, s);
    Unmoved(sel, later, s, built);
    if proposal.Some? {
      AfterProposal([ProposalSent(proposal.value)], PrevoteStaged(sel, built, o).1);
      if move.0 == PrevoteStaged(sel, built, o).0 && move.1 != [] {
        PrevoteStagedGrounded(sel, later, built, o);
        SameLock(sel, later, s, built, move.0);
      }
    }
  }

  lemma {:induction false} BuiltKeepsLock(sel: Selection, signed: set<Att>, s: Node, o: Outcome)
    ensures var t := BuildJustified(sel, signed, s, s.view, o).0; t.lock == s.lock && t.prevotes == s.prevotes
  {
    BuiltShape(sel, signed, s, o);
  }

  lemma {:induction false} EnterRoundGrounded(sel: Selection, s: Node, o: Outcome, later: set<Att>)
    requires forall a | a in s.prevotes || a in Signatures(EnterRound(sel, s, o).1) :: a in later
    ensures LockGrounded(sel, later, s, EnterRound(sel, s, o).0)
  {
    hide PrevoteStaged, LeaderFor, EnterRound, LockGrounded;
    var leads := LeaderFor(sel, s.view) == s.id && !o.silent;
    var own := Staged(0, o.ownBlock.header, o.ownBlock.body, [], None);
    var t := if leads && !CurrentStage(s) && s.view == 0 && s.restartHold == 0 then s.(staged := Some(own)) else s;
    var first := OpeningProposal(s, leads, o);
    EnterRoundShape(sel, s, o, t, first);
    AfterProposal(first, PrevoteStaged(sel, t, o).1);
    Unmoved(sel, later, s, t);
    if CurrentStage(t) {
      PrevoteStagedGrounded(sel, later, t, o);
      SameLock(sel, later, s, t, PrevoteStaged(sel, t, o).0);
    }
  }

  lemma {:induction false} OnPrevoteGrounded(sel: Selection, signed: set<Att>, s: Node, att: Att, o: Outcome)
    requires forall a | a in s.prevotes :: a in signed
    ensures LockGrounded(sel, signed, s, OnPrevote(sel, signed, s, att, o).0)
  {
    hide FormPolka, RecordPrevote, LockGrounded;
    var heard := s.(prevotes := RecordPrevote(s.prevotes, att));
    FormPolkaGrounded(sel, signed, s, o);
    if att in signed {
      RecordPrevoteKeeps(s.prevotes, att);
      FormPolkaGrounded(sel, signed, heard, o);
      SameLock(sel, signed, s, heard, FormPolka(sel, heard, o).0);
    }
  }

  lemma {:induction false} ReactGrounded(sel: Selection, signed: set<Att>, s: Node, event: Event, o: Outcome)
    requires forall a | a in s.prevotes :: a in signed
    ensures var (t, sent) := React(sel, signed, s, event, o); LockGrounded(sel, signed + Signatures(sent), s, t)
  {
    hide EnterRound, OnProposal, OnPrevote, CollectViewChange, TryJustified, RecordAttestation, MakeViewChange, LockGrounded;
    var (t, sent) := React(sel, signed, s, event, o);
    var later := signed + Signatures(sent);
    match event {
      case Enter => EnterRoundGrounded(sel, s, o, later);
      case HearProposal(from, p) => OnProposalGrounded(sel, signed, s, from, p, o, later);
      case HearPrevote(att, value, pol) =>
        Unmoved(sel, later, s, s);
        OnPrevoteGrounded(sel, signed, s, att, o);
        GroundedStays(sel, signed, later, s, OnPrevote(sel, signed, s, att, o).0);
      case HearPrecommit(att) => Unmoved(sel, later, s, t);
      case HearRecord(r) =>
        CollectKeepsVotes(sel, signed, s, r);
        Unmoved(sel, later, s, t);
      case ChangeView(target) =>
        var made := MakeViewChange(s, target, o);
        if made.Some? { CollectKeepsVotes(sel, signed + {made.value.att}, s, made.value); }
        Unmoved(sel, later, s, t);
      case Lead => TryJustifiedGrounded(sel, signed, s, o, later);
      case Jump(view) => Unmoved(sel, later, s, t);
      case Timeout(view) => Unmoved(sel, later, s, t);
    }
  }

  lemma {:induction false} GroundedStays(sel: Selection, earlier: set<Att>, later: set<Att>, s: Node, t: Node)
    requires earlier <= later && LockGrounded(sel, earlier, s, t)
    ensures LockGrounded(sel, later, s, t)
  {
    hide Backs;
    if t.lock != s.lock { BacksStays(sel, earlier, later, t.lock.value); }
  }

  lemma {:induction false} StepBacked(sys: System, step: Step)
    requires Inv(sys) && LocksBacked(sys) && Enabled(sys, step)
    ensures LocksBacked(Apply(sys, step))
  {
    hide React, Backs, Inv;
    var next := Apply(sys, step);
    forall id | id in next.nodes && next.nodes[id].lock.Some? ensures Backs(next.sel, next.signed, next.nodes[id].lock.value) {
      if step.Honest? && step.id == id {
        PrevotesSigned(sys, id);
        ReactGrounded(sys.sel, sys.signed, sys.nodes[id], step.event, step.outcome);
      }
      if next.nodes[id].lock == sys.nodes[id].lock {
        BacksStays(sys.sel, sys.signed, next.signed, sys.nodes[id].lock.value);
      }
    }
  }

  lemma {:induction false} PrevotesSigned(sys: System, id: NodeId)
    requires Inv(sys) && id in sys.nodes
    ensures forall a | a in sys.nodes[id].prevotes :: a in sys.signed
  {
    assert NodeOk(sys, id);
  }

  /** In every run the lock of an honest node comes with a certificate that really backs it. */
  lemma {:induction false} RunBacked(sys: System, steps: seq<Step>, last: System)
    requires Inv(sys) && LocksBacked(sys) && Reaches(sys, steps, last)
    ensures LocksBacked(last)
    decreases |steps|
  {
    hide Inv, LocksBacked, React;
    if steps != [] {
      StepBacked(sys, steps[0]);
      match steps[0] {
        case Honest(id, event, o) => ReactKeeps(sys, id, event, o);
        case Faulty(att) => FaultyKeeps(sys, att);
      }
      RunBacked(Apply(sys, steps[0]), steps[1..], last);
    }
  }

  /** In every run, the record an honest node signs for a view not below its lock, with a locked body
      that fits, is accepted by every node that hears it: signature, lock, polka and body hold. */
  lemma {:induction false} HonestRecordHolds(sys: System, steps: seq<Step>, last: System, id: NodeId, target: View, o: Outcome)
    requires Initial(sys) && Reaches(sys, steps, last) && id in last.nodes && o.drawn && target <= MAX_VIEW
    requires var s := last.nodes[id]; s.lock.Some? ==> s.lock.value.view <= target && LockedBodyFits(s.lock.value.block)
    ensures var r := MakeViewChange(last.nodes[id], target, o).value; Collected(last.sel, last.signed + {r.att}, r)
  {
    hide Inv, Backs, LockedBodyFits;
    InitialOk(sys);
    RunsKeep(sys, steps, last);
    RunBacked(sys, steps, last);
    var s := last.nodes[id];
    var r := MakeViewChange(s, target, o).value;
    RecordNamesLock(s, target, o);
    SeatedNode(last, id);
    if s.lock.Some? {
      BacksStays(last.sel, last.signed, last.signed + {r.att}, s.lock.value);
    }
    RecordChecks(last.sel, last.signed + {r.att}, s, target, o);
  }

  lemma {:induction false} SeatedNode(sys: System, id: NodeId)
    requires Inv(sys) && id in sys.nodes
    ensures sys.nodes[id].id == id && id in sys.sel.members
  {
    assert NodeOk(sys, id) && id in MemberSet(sys.sel);
  }

  lemma {:induction false} RecordChecks(sel: Selection, signed: set<Att>, s: Node, target: View, o: Outcome)
    requires o.drawn && target <= MAX_VIEW && s.id in sel.members && MakeViewChange(s, target, o).value.att in signed
    requires s.lock.Some? ==> s.lock.value.view <= target && LockedBodyFits(s.lock.value.block) && Backs(sel, signed, s.lock.value)
    ensures Collected(sel, signed, MakeViewChange(s, target, o).value)
  {
    hide CertVerifies, LockedBodyFits;
  }

  // ---- views and waiting ----

  /** A timeout moves on exactly when it is for the current view and nothing is staged, and always
      works off one unit of the wait after a restart. */
  lemma {:induction false} TimeoutExactly(sel: Selection, signed: set<Att>, s: Node, view: View, o: Outcome)
    ensures React(sel, signed, s, Timeout(view), o) ==
      (s.(restartHold := if s.restartHold > 0 then s.restartHold - 1 else 0,
          view := if view != s.view || s.staged.Some? then s.view else if s.view < MAX_VIEW then s.view + 1 else MAX_VIEW), [])
  {
  }

  /** Catching up moves forward only, and never past the last view. */
  lemma {:induction false} JumpExactly(sel: Selection, signed: set<Att>, s: Node, view: View, o: Outcome)
    ensures React(sel, signed, s, Jump(view), o) ==
      (s.(view := if s.view < view <= MAX_VIEW then view else if s.view < MAX_VIEW < view then MAX_VIEW else s.view), [])
  {
  }

  /** Entering a round, a leader sends its current stage again or, at the first view and not held,
      its own block; nobody else sends a proposal. */
  lemma {:induction false} EnterProposesExactly(sel: Selection, s: Node, o: Outcome)
    ensures var sent := EnterRound(sel, s, o).1;
      var leads := LeaderFor(sel, s.view) == s.id && !o.silent && o.proposalSigned && o.drawn;
      forall p :: ProposalSent(p) in sent <==>
        && leads
        && (if s.staged.Some? && s.staged.value.view == s.view
            then p == Proposal(s.view, s.staged.value.header, s.staged.value.body, s.staged.value.justification)
            else s.view == 0 && s.restartHold == 0 && p == Proposal(0, o.ownBlock.header, o.ownBlock.body, []))
  {
    hide PrevoteStaged, LeaderFor, EnterRound;
    var leads := LeaderFor(sel, s.view) == s.id && !o.silent;
    var own := Staged(0, o.ownBlock.header, o.ownBlock.body, [], None);
    var t := if leads && !CurrentStage(s) && s.view == 0 && s.restartHold == 0 then s.(staged := Some(own)) else s;
    var first := OpeningProposal(s, leads, o);
    EnterRoundShape(sel, s, o, t, first);
    VotesOnly(sel, t, o);
  }

  lemma {:induction false} VotesOnly(sel: Selection, s: Node, o: Outcome)
    ensures forall m | m in PrevoteStaged(sel, s, o).1 :: !m.ProposalSent?
  {
    hide FormPolka, RecordPrevote;
    if MayPrevote(s, o) && o.drawn {
      PolkaSendsPrecommit(sel, CastPrevote(s, o).0, o);
    }
  }
}
