/** A round that goes well: a proposal every honest node can support, its votes delivered in
    any order among anything else, ends with every honest finality gate open. */
module Rounds {
  import opened Arithmetic
  import opened Committee
  import opened Records
  import opened Justification
  import opened NodeModel
  import opened FairEviction
  import opened Protocol
  import opened Agreement
  import opened AgreementRuns
  import opened Buffers
  import opened BufferRuns
  import opened Wrappers

  // ---- when a proposal is prevoted ----

  /** The lock does not stand in the way: there is none, it is at the view or later, or the
      proposal shows a polka at or above it. */
  predicate LockLets(lock: Option<Lock>, view: View, pol: Option<View>) {
    lock.None? || view <= lock.value.view || (pol.Some? && lock.value.view <= pol.value)
  }

  /** No mark at this height, an earlier view, or the very same statement. */
  predicate MarkLets(mark: Option<PrevoteMark>, view: View, subject: Subject) {
    mark.None? || mark.value.view < view || mark.value == PrevoteMark(view, subject)
  }

  /** What the source asks before a staged block is prevoted. */
  predicate Votable(s: Node, view: View, value: Value, pol: Option<View>) {
    && !s.fatal && s.restartHold == 0
    && (view in s.prevoted ==> s.prevoted[view] == value)
    && LockLets(s.lock, view, pol)
    && MarkLets(s.prevoteMark, view, PrevoteFor(view, value, pol))
  }

  /** A staged block is prevoted exactly when nothing forbids it, the mark is written and the
      validator is drawn; the prevote names the staged view, value and polka. */
  lemma {:induction false} PrevotedExactly(sel: Selection, s: Node, o: Outcome)
    ensures var sent := PrevoteStaged(sel, s, o).1;
      && ((exists m | m in sent :: m.PrevoteSent?) <==>
            s.staged.Some? && o.prevoteStored && o.drawn && Votable(s, s.staged.value.view, s.staged.value.header.value, s.staged.value.pol))
      && (forall m | m in sent && m.PrevoteSent? ::
            && s.staged.Some?
            && m.att == Att(s.id, s.staged.value.view, PrevoteFor(s.staged.value.view, s.staged.value.header.value, s.staged.value.pol)))
  {
    hide FormPolka, RecordPrevote;
    if MayPrevote(s, o) && o.drawn {
      var (cast, first) := CastPrevote(s, o);
      PolkaSendsPrecommit(sel, cast, o);
      assert (first + FormPolka(sel, cast, o).1)[0] == first[0];
    }
  }

  lemma {:induction false} PolkaSendsPrecommit(sel: Selection, s: Node, o: Outcome)
    ensures forall m | m in FormPolka(sel, s, o).1 :: m.PrecommitSent?
  {
    hide StakeQuorum, Matching, RecordAttestation;
  }

  /** The proposal is one the node may support, whoever asks: what a first-view or a justified
      proposal must satisfy, with the polka it names. */
  ghost predicate Supports(sel: Selection, signed: set<Att>, s: Node, from: NodeId, p: Proposal, o: Outcome, pol: Option<View>) {
    && o.authentic && LockedBlock(p.header, p.body) in o.accepted && BodyBytes(p.body) <= MAX_BLOCK_BODY_BYTES
    && (if p.justification == [] then
          && from == LeaderFor(sel, p.view) == p.header.proposer && p.view == s.view && s.staged.None? && pol == None
          && (s.lock.Some? ==> LockValue(s.lock.value) == p.header.value)
        else
          var records := ValidJustification(sel, signed, p.view, s.verified, p.justification).0;
          && s.view <= p.view && records.Some?
          && (p.view in s.prevoted ==> s.prevoted[p.view] == p.header.value)
          && var high := JustifiedLock(sel, signed, records.value);
             match high
             case Conflict => false
             case Unlocked =>
               pol == None && p.header.proposer == LeaderFor(sel, p.view) && (s.lock.Some? ==> LockValue(s.lock.value) == p.header.value)
             case Backed(view, block) =>
               && pol == Some(view) && block.header.value == p.header.value
               && (s.lock.Some? ==> LockValue(s.lock.value) == p.header.value || s.lock.value.view <= view))
  }

  /** A proposal is prevoted exactly when it is one the node may support and nothing forbids the
      vote; the prevote is then for the proposed value at its view, naming the polka shown. */
  lemma {:induction false} ProposalPrevotedExactly(sel: Selection, signed: set<Att>, s: Node, from: NodeId, p: Proposal, o: Outcome)
    ensures var sent := OnProposal(sel, signed, s, from, p, o).1;
      forall pol :: Supports(sel, signed, s, from, p, o, pol) ==>
        ((exists m | m in sent :: m.PrevoteSent?) <==> o.prevoteStored && o.drawn && Votable(s, p.view, p.header.value, pol))
        && forall m | m in sent && m.PrevoteSent? :: m.att == Att(s.id, p.view, PrevoteFor(p.view, p.header.value, pol))
    ensures (exists m | m in OnProposal(sel, signed, s, from, p, o).1 :: m.PrevoteSent?) ==>
      exists pol :: Supports(sel, signed, s, from, p, o, pol)
  {
    hide PrevoteStaged, ValidJustification, JustifiedLock, LeaderFor, BodyBytes, Votable;
    if o.authentic && p.justification == [] {
      PlainPrevoted(sel, signed, s, from, p, o);
    } else if o.authentic {
      JustifiedPrevoted(sel, signed, s, from, p, o);
    }
  }

  lemma {:induction false} PlainPrevoted(sel: Selection, signed: set<Att>, s: Node, from: NodeId, p: Proposal, o: Outcome)
    requires o.authentic && p.justification == []
    ensures var move := OnProposal(sel, signed, s, from, p, o);
      if Supports(sel, signed, s, from, p, o, None) then
        && ((exists m | m in move.1 :: m.PrevoteSent?) <==> o.prevoteStored && o.drawn && Votable(s, p.view, p.header.value, None))
        && forall m | m in move.1 && m.PrevoteSent? :: m.att == Att(s.id, p.view, PrevoteFor(p.view, p.header.value, None))
      else move == (s, [])
  {
    hide PrevoteStaged, LeaderFor, BodyBytes;
    PrevotedExactly(sel, s.(staged := Some(Staged(p.view, p.header, p.body, [], None))), o);
  }

  lemma {:induction false} JustifiedPrevoted(sel: Selection, signed: set<Att>, s: Node, from: NodeId, p: Proposal, o: Outcome)
    requires o.authentic && p.justification != []
    ensures var sent := OnProposal(sel, signed, s, from, p, o).1;
      && (forall pol :: Supports(sel, signed, s, from, p, o, pol) ==>
           ((exists m | m in sent :: m.PrevoteSent?) <==> o.prevoteStored && o.drawn && Votable(s, p.view, p.header.value, pol))
           && forall m | m in sent && m.PrevoteSent? :: m.att == Att(s.id, p.view, PrevoteFor(p.view, p.header.value, pol)))
      && ((exists m | m in sent :: m.PrevoteSent?) ==> exists pol :: Supports(sel, signed, s, from, p, o, pol))
  {
    hide PrevoteStaged, ValidJustification, JustifiedLock, LeaderFor, BodyBytes;
    var (records, cache) := ValidJustification(sel, signed, p.view, s.verified, p.justification);
    if s.view <= p.view && records.Some? {
      var high := JustifiedLock(sel, signed, records.value);
      var staged := Staged(p.view, p.header, p.body, p.justification, PolOf(high));
      PrevotedExactly(sel, s.(verified := cache, staged := Some(staged), view := p.view), o);
      var sent := OnProposal(sel, signed, s, from, p, o).1;
      if sent != [] {
        assert Supports(sel, signed, s, from, p, o, PolOf(high));
      }
    }
  }

  // ---- a round ----

  /** What a round votes on: a block at a view, with the polka it was justified by. */
  datatype Round = Round(view: View, header: Header, body: seq<Tx>, pol: Option<View>)

  function VoteSubject(rd: Round): Subject { PrevoteFor(rd.view, rd.header.value, rd.pol) }

  function RoundPrevote(id: NodeId, rd: Round): Att { Att(id, rd.view, VoteSubject(rd)) }

  function RoundPrecommit(id: NodeId, rd: Round): Att { Att(id, rd.view, PrecommitFor(rd.header.value)) }

  /** Disk, draw, execution and aggregation all serve this block. */
  predicate Works(o: Outcome, block: LockedBlock) {
    o.authentic && block in o.accepted && o.drawn && o.aggregated && o.prevoteStored && o.signStored && o.lockStored
  }

  /** The round's block is staged and its prevote is cast. */
  predicate OnStage(s: Node, rd: Round) {
    && !s.fatal && s.restartHold == 0 && s.view == rd.view && s.staged.Some?
    && s.staged.value.view == rd.view && s.staged.value.header == rd.header && s.staged.value.body == rd.body && s.staged.value.pol == rd.pol
    && s.prevoteMark == Some(PrevoteMark(rd.view, VoteSubject(rd)))
    && rd.view in s.prevoted && s.prevoted[rd.view] == rd.header.value
  }

  /** Nothing signed or locked at the view or later, and no lock above the polka shown. */
  predicate Below(s: Node, rd: Round) {
    && (s.signMark.Some? ==> s.signMark.value.view < rd.view)
    && (s.lock.Some? ==> s.lock.value.view < rd.view && rd.pol.Some? && s.lock.value.view <= rd.pol.value)
  }

  function Voters(s: Node, rd: Round): set<NodeId> {
    Signers(Matching(s.prevotes, rd.view, VoteSubject(rd)))
  }

  /** Prevoted, and still short of a polka. */
  predicate Waiting(sel: Selection, s: Node, rd: Round) {
    OnStage(s, rd) && Below(s, rd) && !StakeQuorum(sel, Voters(s, rd))
  }

  /** Locked on the round's block. */
  predicate LockedOn(s: Node, rd: Round) {
    OnStage(s, rd) && s.lock.Some? && s.lock.value.view == rd.view && LockValue(s.lock.value) == rd.header.value
  }

  predicate InRound(sel: Selection, s: Node, rd: Round) {
    Waiting(sel, s, rd) || LockedOn(s, rd)
  }

  /** With the round's block staged, a quorum of prevotes locks and precommits it at once. */
  lemma {:induction false} PolkaLocks(sel: Selection, s: Node, rd: Round, o: Outcome)
    requires OnStage(s, rd) && Below(s, rd) && Works(o, LockedBlock(rd.header, rd.body))
    ensures var (t, sent) := FormPolka(sel, s, o);
      if StakeQuorum(sel, Voters(s, rd)) then
        LockedOn(t, rd) && sent == [PrecommitSent(RoundPrecommit(s.id, rd))] && t.prevotes == s.prevotes
        && t.roundAtts == RecordAttestation(s.roundAtts, RoundPrecommit(s.id, rd))
      else (t, sent) == (s, [])
  {
    hide StakeQuorum, Matching, RecordAttestation, Signers;
  }

  lemma {:induction false} LockedStays(sel: Selection, s: Node, rd: Round, o: Outcome)
    requires LockedOn(s, rd)
    ensures FormPolka(sel, s, o) == (s, [])
  {
    hide StakeQuorum, Matching;
  }

  /** What a reaction leaves of the round: still in it, a lock kept, and a new lock announced. */
  ghost predicate StaysIn(sel: Selection, s: Node, move: (Node, seq<Message>), rd: Round) {
    && InRound(sel, move.0, rd) && (LockedOn(s, rd) ==> LockedOn(move.0, rd))
    && (LockedOn(move.0, rd) && !LockedOn(s, rd) ==>
          PrecommitSent(RoundPrecommit(s.id, rd)) in move.1
          && move.0.roundAtts == RecordAttestation(s.roundAtts, RoundPrecommit(s.id, rd)))
    && (LockedOn(s, rd) ==> move.0.id == s.id)
  }

  lemma {:induction false} HearingVotes(sel: Selection, signed: set<Att>, s: Node, rd: Round, att: Att, o: Outcome)
    requires InRound(sel, s, rd) && Works(o, LockedBlock(rd.header, rd.body))
    ensures StaysIn(sel, s, OnPrevote(sel, signed, s, att, o), rd)
  {
    hide FormPolka, RecordPrevote, RecordAttestation, StakeQuorum, Voters;
    var heard := s.(prevotes := RecordPrevote(s.prevotes, att));
    if LockedOn(s, rd) {
      LockedStays(sel, s, rd, o);
      LockedStays(sel, heard, rd, o);
    } else {
      PolkaLocks(sel, s, rd, o);
      PolkaLocks(sel, heard, rd, o);
    }
  }

  /** Precommits and records heard change nothing the round rests on. */
  lemma {:induction false} Unaffected(sel: Selection, s: Node, t: Node, rd: Round)
    requires InRound(sel, s, rd)
    requires t == s.(roundAtts := t.roundAtts, viewChanges := t.viewChanges, polkaRejects := t.polkaRejects)
    ensures StaysIn(sel, s, (t, []), rd)
  {
    hide StakeQuorum;
  }

  // ---- hearing the proposal ----

  /** Every receiver reads the justification whole and to the same effect, whatever it has
      verified before and whatever is signed later. */
  ghost predicate Justifies(sel: Selection, signed: set<Att>, p: Proposal, pol: Option<View>) {
    forall later: set<Att>, cache: set<ViewChange> | signed <= later ::
      ReadsAs(sel, later, p, pol, ValidJustification(sel, later, p.view, cache, p.justification).0)
  }

  predicate ReadsAs(sel: Selection, signed: set<Att>, p: Proposal, pol: Option<View>, records: Option<seq<ViewChange>>) {
    && records.Some?
    && var high := JustifiedLock(sel, signed, records.value);
       match high
       case Conflict => false
       case Unlocked => pol == None && p.header.proposer == LeaderFor(sel, p.view)
       case Backed(view, block) => pol == Some(view) && block.header.value == p.header.value
  }

  /** The proposal of the round: the leader's, of legal size, plain at the first view or justified. */
  ghost predicate Proposes(sel: Selection, signed: set<Att>, from: NodeId, p: Proposal, rd: Round) {
    && rd == Round(p.view, p.header, p.body, rd.pol) && BodyBytes(p.body) <= MAX_BLOCK_BODY_BYTES
    && if p.justification == [] then from == LeaderFor(sel, p.view) == p.header.proposer && rd.pol == None
       else Justifies(sel, signed, p, rd.pol)
  }

  /** The node has not voted at the view and can be won for the round. */
  predicate Ready(s: Node, p: Proposal, rd: Round) {
    && !s.fatal && s.restartHold == 0 && Below(s, rd)
    && rd.view !in s.prevoted && (s.prevoteMark.Some? ==> s.prevoteMark.value.view < rd.view)
    && (if p.justification == [] then s.view == rd.view && s.staged.None? else s.view <= rd.view)
  }

  /** Staging the round's block and casting the prevote, then trying for a polka. */
  lemma {:induction false} CastingEnters(sel: Selection, s: Node, rd: Round, o: Outcome)
    requires Works(o, LockedBlock(rd.header, rd.body)) && !s.fatal && s.restartHold == 0 && s.view == rd.view && s.staged.Some?
    requires s.staged.value.view == rd.view && s.staged.value.header == rd.header && s.staged.value.body == rd.body && s.staged.value.pol == rd.pol
    requires rd.view in s.prevoted ==> s.prevoted[rd.view] == rd.header.value
    requires MarkLets(s.prevoteMark, rd.view, VoteSubject(rd))
    requires Below(s, rd) || (s.lock.Some? && s.lock.value.view == rd.view && LockValue(s.lock.value) == rd.header.value)
    ensures var (t, sent) := PrevoteStaged(sel, s, o);
      && InRound(sel, t, rd) && t.id == s.id && PrevoteSent(RoundPrevote(s.id, rd)) in sent
      && t.prevotes == RecordPrevote(s.prevotes, RoundPrevote(s.id, rd))
      && (!Below(s, rd) ==> LockedOn(t, rd) && t.roundAtts == s.roundAtts)
      && (LockedOn(t, rd) && Below(s, rd) ==>
            PrecommitSent(RoundPrecommit(s.id, rd)) in sent && t.roundAtts == RecordAttestation(s.roundAtts, RoundPrecommit(s.id, rd)))
  {
    hide FormPolka, RecordPrevote, RecordAttestation, StakeQuorum, Voters;
    assert MayPrevote(s, o);
    var (cast, first) := CastPrevote(s, o);
    assert OnStage(cast, rd) && first[0] == PrevoteSent(RoundPrevote(s.id, rd));
    if Below(s, rd) {
      PolkaLocks(sel, cast, rd, o);
    } else {
      LockedStays(sel, cast, rd, o);
    }
    KeepsId(sel, cast, o);
    var more := FormPolka(sel, cast, o).1;
    assert (first + more)[0] == first[0];
    assert more != [] ==> (first + more)[1] == more[0];
  }

  lemma {:induction false} KeepsId(sel: Selection, s: Node, o: Outcome)
    ensures FormPolka(sel, s, o).0.id == s.id
  {
    hide StakeQuorum, Matching, RecordAttestation;
  }

  /** What hearing the proposal does: in the round, the own prevote sent and recorded. */
  ghost predicate Enters(sel: Selection, s: Node, move: (Node, seq<Message>), rd: Round) {
    && InRound(sel, move.0, rd) && PrevoteSent(RoundPrevote(s.id, rd)) in move.1
    && move.0.prevotes == RecordPrevote(s.prevotes, RoundPrevote(s.id, rd))
    && (LockedOn(move.0, rd) ==>
          PrecommitSent(RoundPrecommit(s.id, rd)) in move.1
          && move.0.roundAtts == RecordAttestation(s.roundAtts, RoundPrecommit(s.id, rd)))
  }

  lemma {:induction false} HearingEnters(sel: Selection, signed: set<Att>, s: Node, from: NodeId, p: Proposal, rd: Round, o: Outcome)
    requires Proposes(sel, signed, from, p, rd) && Ready(s, p, rd) && Works(o, LockedBlock(rd.header, rd.body))
    ensures Enters(sel, s, OnProposal(sel, signed, s, from, p, o), rd)
  {
    hide PrevoteStaged, ValidJustification, JustifiedLock, LeaderFor, BodyBytes, RecordPrevote, RecordAttestation, InRound, LockedOn;
    if p.justification == [] {
      CastingEnters(sel, s.(staged := Some(Staged(p.view, p.header, p.body, [], None))), rd, o);
    } else {
      var (records, cache) := ValidJustification(sel, signed, p.view, s.verified, p.justification);
      assert ReadsAs(sel, signed, p, rd.pol, records);
      var staged := Staged(p.view, p.header, p.body, p.justification, rd.pol);
      CastingEnters(sel, s.(verified := cache, staged := Some(staged), view := p.view), rd, o);
    }
  }

  /** Hearing it again does no harm. */
  lemma {:induction false} HearingAgain(sel: Selection, signed: set<Att>, s: Node, from: NodeId, p: Proposal, rd: Round, o: Outcome)
    requires Proposes(sel, signed, from, p, rd) && InRound(sel, s, rd) && Works(o, LockedBlock(rd.header, rd.body))
    ensures StaysIn(sel, s, OnProposal(sel, signed, s, from, p, o), rd)
  {
    hide PrevoteStaged, ValidJustification, JustifiedLock, LeaderFor, BodyBytes, RecordPrevote, RecordAttestation, StakeQuorum, Voters;
    if p.justification != [] {
      var (records, cache) := ValidJustification(sel, signed, p.view, s.verified, p.justification);
      assert ReadsAs(sel, signed, p, rd.pol, records);
      var staged := Staged(p.view, p.header, p.body, p.justification, rd.pol);
      CastingEnters(sel, s.(verified := cache, staged := Some(staged), view := p.view), rd, o);
    }
  }
}
