/** In good conditions a height makes progress: runs in which a round's messages get through
    end with every honest finality gate open on its block. */
module Progress {
  import opened Arithmetic
  import opened Committee
  import opened Records
  import opened Justification
  import opened NodeModel
  import opened FairEviction
  import opened Protocol
  import opened Agreement
  import opened AgreementRuns
  import opened Buffers
  import opened BufferRuns
  import opened Rounds
  import opened Wrappers

  // ---- quorums of votes ----

  /** The honest members alone are a seated quorum, also for the finality gate. */
  ghost predicate HonestQuorum(sel: Selection, honest: set<NodeId>) {
    && Quorum(sel, honest) && Seats(sel, honest, sel.tau) && Seats(sel, honest, sel.finalityFloor)
    && 0 < sel.quorumStake && 2 * sel.quorumStake < MAX_U128
  }

  lemma {:induction false} EnoughVoters(sel: Selection, honest: set<NodeId>, ids: set<NodeId>)
    requires HonestQuorum(sel, honest) && honest <= ids
    ensures FinalityQuorum(sel, ids) && StakeQuorum(sel, ids)
  {
    StakeQuorumExact(sel, ids);
    WeightGrows(sel, sel.members, honest, ids);
    SubsetSize(honest, ids);
  }

  /** The finality gate is open exactly when, at some view, the members whose precommits for the
      staged value are held are a seated quorum. */
  lemma {:induction false} GateExact(sel: Selection, s: Node)
    ensures HasFinalityThreshold(sel, s) <==>
      && s.staged.Some? && 0 < sel.quorumStake && 2 * sel.quorumStake < MAX_U128
      && exists r :: GateAt(sel, s, r)
  {
    hide FinalityQuorum, Quorum;
    if HasFinalityThreshold(sel, s) {
      var a :| a in s.roundAtts && FinalityQuorum(sel, Precommitters(sel, s.roundAtts, a.view, s.staged.value.header.value));
      HeldPrecommits(sel, s, a.view);
      StakeQuorumExact(sel, HoldersAt(sel, s, a.view));
      assert GateAt(sel, s, a.view);
    }
    if s.staged.Some? && 0 < sel.quorumStake && 2 * sel.quorumStake < MAX_U128 {
      if r :| GateAt(sel, s, r) {
        HeldPrecommits(sel, s, r);
        StakeQuorumExact(sel, HoldersAt(sel, s, r));
        var id := QuorumHasMember(sel, HoldersAt(sel, s, r));
        assert Att(id, r, PrecommitFor(s.staged.value.header.value)) in s.roundAtts;
      }
    }
  }

  /** Members whose precommit for the staged value at view `r` the node holds. */
  function HoldersAt(sel: Selection, s: Node, r: View): set<NodeId>
    requires s.staged.Some?
  {
    set id | id in sel.members && Att(id, r, PrecommitFor(s.staged.value.header.value)) in s.roundAtts
  }

  ghost predicate GateAt(sel: Selection, s: Node, r: View)
    requires s.staged.Some?
  {
    var q := HoldersAt(sel, s, r);
    Quorum(sel, q) && Seats(sel, q, sel.tau) && Seats(sel, q, sel.finalityFloor)
  }

  lemma {:induction false} HeldPrecommits(sel: Selection, s: Node, r: View)
    requires s.staged.Some?
    ensures Precommitters(sel, s.roundAtts, r, s.staged.value.header.value) == HoldersAt(sel, s, r)
  {
    var value := s.staged.value.header.value;
    forall id | id in Precommitters(sel, s.roundAtts, r, value) ensures id in HoldersAt(sel, s, r) {
      var a :| a in s.roundAtts && a.view == r && a.subject == PrecommitFor(value) && a.from == id;
      assert a == Att(id, r, PrecommitFor(value));
    }
  }

  lemma {:induction false} QuorumHasMember(sel: Selection, q: set<NodeId>) returns (id: NodeId)
    requires Quorum(sel, q) && forall x | x in q :: x in sel.members
    ensures id in q
  {
    if q == {} {
      NothingWeighs(sel, sel.members);
      assert false;
    }
    id :| id in q;
  }

  lemma {:induction false} NothingWeighs(sel: Selection, listed: seq<NodeId>)
    ensures Weight(sel, listed, {}) == 0
  {
    if listed != [] { NothingWeighs(sel, listed[1..]); }
  }

  // ---- one step of a round ----

  /** Steps of the round: hearing its proposal, precommits and records, and once everyone has
      the proposal also prevotes; nothing fails. */
  predicate RoundStep(step: Step, from: NodeId, p: Proposal, prevotes: bool) {
    step.Honest? ==>
      && Works(step.outcome, LockedBlock(p.header, p.body))
      && (step.event == HearProposal(from, p) || step.event.HearPrecommit? || step.event.HearRecord? || (prevotes && step.event.HearPrevote?))
  }

  predicate Calm(steps: seq<Step>, from: NodeId, p: Proposal, prevotes: bool) {
    forall i | 0 <= i < |steps| :: RoundStep(steps[i], from, p, prevotes)
  }

  /** The member takes part: its votes are signed and it holds its own. */
  predicate TakesPart(sys: System, id: NodeId, rd: Round)
    requires id in sys.nodes
  {
    var s := sys.nodes[id];
    && s.id == id && InRound(sys.sel, s, rd)
    && RoundPrevote(id, rd) in sys.signed && RoundPrevote(id, rd) in s.prevotes
    && (LockedOn(s, rd) ==> RoundPrecommit(id, rd) in sys.signed && RoundPrecommit(id, rd) in s.roundAtts)
  }

  lemma {:induction false} SignedIn(sent: seq<Message>, m: Message)
    requires m in sent
    ensures SignaturesIn(m) <= Signatures(sent)
  {
    if sent[0] != m { SignedIn(sent[1..], m); }
  }

  lemma {:induction false} ProposesStays(sel: Selection, earlier: set<Att>, later: set<Att>, from: NodeId, p: Proposal, rd: Round)
    requires earlier <= later && Proposes(sel, earlier, from, p, rd)
    ensures Proposes(sel, later, from, p, rd)
  {
    hide ReadsAs, ValidJustification, LeaderFor, BodyBytes;
  }

  /** A quiet member's own precommit finds room. */
  lemma {:induction false} OwnPrecommitHeld(sel: Selection, signed: set<Att>, atts: seq<Att>, att: Att)
    requires VotesBounded(sel, atts) && Quiet(sel, signed, att.from) && att in signed && forall a | a in atts :: a in signed
    ensures att in RecordAttestation(atts, att)
  {
    hide RecordAttestation, Count, FirstOfHeaviest, Quiet;
    RecordAttestationExact(atts, att);
    if att !in atts { QuietHasRoom(sel, signed, atts, att); }
  }

  lemma {:induction false} OwnPrevoteHeld(sel: Selection, signed: set<Att>, atts: seq<Att>, att: Att)
    requires VotesBounded(sel, atts) && Quiet(sel, signed, att.from) && att in signed && forall a | a in atts :: a in signed
    requires att.subject.PrevoteFor?
    ensures att in RecordPrevote(atts, att)
  {
    hide RecordPrevote, Count, FirstOfHeaviest, Quiet;
    RecordPrevoteExact(atts, att);
    if att !in atts { QuietHasRoom(sel, signed, atts, att); }
  }

  lemma {:induction false} RoundReact(sel: Selection, signed: set<Att>, s: Node, event: Event, o: Outcome, from: NodeId, p: Proposal, rd: Round)
    requires Proposes(sel, signed, from, p, rd) && InRound(sel, s, rd) && Works(o, LockedBlock(p.header, p.body))
    requires event == HearProposal(from, p) || event.HearPrecommit? || event.HearRecord? || event.HearPrevote?
    ensures StaysIn(sel, s, React(sel, signed, s, event, o), rd)
  {
    hide OnProposal, OnPrevote, CollectViewChange, InRound, LockedOn, RecordAttestation;
    if event.HearProposal? {
      HearingAgain(sel, signed, s, from, p, rd, o);
    } else if event.HearPrevote? {
      HearingVotes(sel, signed, s, rd, event.att, o);
      Unaffected(sel, s, s, rd);
    } else if event.HearRecord? {
      CollectKeepsVotes(sel, signed, s, event.record);
      Unaffected(sel, s, CollectViewChange(sel, signed, s, event.record), rd);
    } else {
      Unaffected(sel, s, OnAttestation(sel, signed, s, event.att), rd);
    }
  }

  /** A member in the round stays in it. */
  lemma {:induction false} StepStaysIn(sys: System, step: Step, id: NodeId, from: NodeId, p: Proposal, rd: Round)
    requires Inv(sys) && AllBounded(sys) && Enabled(sys, step) && id in sys.nodes && RoundStep(step, from, p, true)
    requires Proposes(sys.sel, sys.signed, from, p, rd) && TakesPart(sys, id, rd)
    requires Quiet(sys.sel, Apply(sys, step).signed, id)
    ensures id in Apply(sys, step).nodes && TakesPart(Apply(sys, step), id, rd)
    ensures LockedOn(sys.nodes[id], rd) ==> LockedOn(Apply(sys, step).nodes[id], rd)
  {
    hide Inv, React, InRound, LockedOn, Quiet, Bounded, Works, Proposes, RecordAttestation;
    var next := Apply(sys, step);
    StepKeeps(sys, step);
    StepSparesQuiet(sys, step, id, RoundPrevote(id, rd));
    StepSparesQuiet(sys, step, id, RoundPrecommit(id, rd));
    if step.Honest? && step.id == id {
      var s, t := sys.nodes[id], next.nodes[id];
      var sent := React(sys.sel, sys.signed, s, step.event, step.outcome).1;
      RoundReact(sys.sel, sys.signed, s, step.event, step.outcome, from, p, rd);
      if LockedOn(t, rd) && !LockedOn(s, rd) {
        SignedIn(sent, PrecommitSent(RoundPrecommit(id, rd)));
        HeldSigned(sys, id);
        assert Bounded(sys.sel, s);
        BoundedVotes(sys.sel, s);
        OwnPrecommitHeld(sys.sel, next.signed, s.roundAtts, RoundPrecommit(id, rd));
      }
    }
  }

  lemma {:induction false} BoundedVotes(sel: Selection, s: Node)
    requires Bounded(sel, s)
    ensures VotesBounded(sel, s.prevotes) && VotesBounded(sel, s.roundAtts)
  {
  }

  /** A ready member that hears the proposal takes part. */
  lemma {:induction false} StepEnters(sys: System, o: Outcome, id: NodeId, from: NodeId, p: Proposal, rd: Round)
    requires Inv(sys) && AllBounded(sys) && id in sys.nodes && Works(o, LockedBlock(p.header, p.body))
    requires Proposes(sys.sel, sys.signed, from, p, rd) && Ready(sys.nodes[id], p, rd)
    requires Quiet(sys.sel, Apply(sys, Honest(id, HearProposal(from, p), o)).signed, id)
    ensures TakesPart(Apply(sys, Honest(id, HearProposal(from, p), o)), id, rd)
  {
    hide Inv, React, InRound, LockedOn, Quiet, AllBounded, Works, Proposes, Ready, RecordAttestation, RecordPrevote;
    var step := Honest(id, HearProposal(from, p), o);
    RoundOf(sys.sel, sys.signed, from, p, rd);
    HearingReacts(sys.sel, sys.signed, sys.nodes[id], from, p, rd, o);
    EnteredTakesPart(sys, step, rd);
  }

  lemma {:induction false} HearingReacts(sel: Selection, signed: set<Att>, s: Node, from: NodeId, p: Proposal, rd: Round, o: Outcome)
    requires Proposes(sel, signed, from, p, rd) && Ready(s, p, rd) && Works(o, LockedBlock(rd.header, rd.body))
    ensures Enters(sel, s, React(sel, signed, s, HearProposal(from, p), o), rd)
  {
    hide OnProposal, Enters, Proposes, Ready, Works;
    HearingEnters(sel, signed, s, from, p, rd, o);
  }

  /** Whoever enters the round takes part in it. */
  lemma {:induction false} EnteredTakesPart(sys: System, step: Step, rd: Round)
    requires Inv(sys) && AllBounded(sys) && step.Honest? && step.id in sys.nodes
    requires Enters(sys.sel, sys.nodes[step.id], React(sys.sel, sys.signed, sys.nodes[step.id], step.event, step.outcome), rd)
    requires Quiet(sys.sel, Apply(sys, step).signed, step.id)
    ensures TakesPart(Apply(sys, step), step.id, rd)
  {
    hide Inv, React, InRound, LockedOn, Quiet, Bounded, RecordAttestation, RecordPrevote;
    var id, next := step.id, Apply(sys, step);
    var s := sys.nodes[id];
    var sent := React(sys.sel, sys.signed, s, step.event, step.outcome).1;
    SignedIn(sent, PrevoteSent(RoundPrevote(id, rd)));
    HeldSigned(sys, id);
    StepKeeps(sys, step);
    BoundedVotes(sys.sel, s);
    OwnPrevoteHeld(sys.sel, next.signed, s.prevotes, RoundPrevote(id, rd));
    if LockedOn(next.nodes[id], rd) {
      SignedIn(sent, PrecommitSent(RoundPrecommit(id, rd)));
      OwnPrecommitHeld(sys.sel, next.signed, s.roundAtts, RoundPrecommit(id, rd));
    }
  }

  lemma {:induction false} RoundOf(sel: Selection, signed: set<Att>, from: NodeId, p: Proposal, rd: Round)
    requires Proposes(sel, signed, from, p, rd)
    ensures rd.view == p.view && rd.header == p.header && rd.body == p.body
  {
  }

  /** Until it hears the proposal, a ready member stays ready. */
  lemma {:induction false} StepStaysReady(sys: System, step: Step, id: NodeId, from: NodeId, p: Proposal, rd: Round)
    requires Enabled(sys, step) && id in sys.nodes && RoundStep(step, from, p, false) && Ready(sys.nodes[id], p, rd)
    requires !(step.Honest? && step.id == id && step.event == HearProposal(from, p))
    ensures id in Apply(sys, step).nodes && Ready(Apply(sys, step).nodes[id], p, rd)
  {
    hide Works, CollectViewChange, RecordAttestation;
    if step.Honest? && step.id == id && step.event.HearRecord? {
      CollectKeepsVotes(sys.sel, sys.signed, sys.nodes[id], step.event.record);
    }
  }

  // ---- the phases of a round ----

  /** The member has the proposal, or can still be won. */
  ghost predicate ComesIn(sys: System, id: NodeId, p: Proposal, rd: Round)
    requires id in sys.nodes
  {
    TakesPart(sys, id, rd) || Ready(sys.nodes[id], p, rd)
  }

  predicate Delivered(steps: seq<Step>, id: NodeId, event: Event) {
    exists k | 0 <= k < |steps| :: steps[k].Honest? && steps[k].id == id && steps[k].event == event
  }

  lemma {:induction false} ProposalPhase(sys: System, steps: seq<Step>, last: System, id: NodeId, from: NodeId, p: Proposal, rd: Round)
    requires Inv(sys) && AllBounded(sys) && Reaches(sys, steps, last) && Calm(steps, from, p, false)
    requires id in sys.nodes && id in last.nodes && Proposes(sys.sel, sys.signed, from, p, rd) && Quiet(last.sel, last.signed, id)
    requires ComesIn(sys, id, p, rd)
    ensures TakesPart(sys, id, rd) || Delivered(steps, id, HearProposal(from, p)) ==> TakesPart(last, id, rd)
    decreases |steps|
  {
    hide Inv, AllBounded, Apply, Quiet, Proposes, TakesPart, Ready, Works;
    if steps != [] {
      var next := Apply(sys, steps[0]);
      StepKeeps(sys, steps[0]);
      RunGrows(next, steps[1..], last);
      QuietBefore(sys.sel, next.signed, last.signed, id);
      ProposesStays(sys.sel, sys.signed, next.signed, from, p, rd);
      assert RoundStep(steps[0], from, p, false);
      var hearing := steps[0].Honest? && steps[0].id == id && steps[0].event == HearProposal(from, p);
      if TakesPart(sys, id, rd) {
        StepStaysIn(sys, steps[0], id, from, p, rd);
      } else if hearing {
        StepEnters(sys, steps[0].outcome, id, from, p, rd);
      } else {
        StepStaysReady(sys, steps[0], id, from, p, rd);
        if Delivered(steps, id, HearProposal(from, p)) {
          var k :| 0 <= k < |steps| && steps[k].Honest? && steps[k].id == id && steps[k].event == HearProposal(from, p);
          assert steps[1..][k - 1] == steps[k];
        }
      }
      ProposalPhase(next, steps[1..], last, id, from, p, rd);
    }
  }

  lemma {:induction false} VotePhase(sys: System, steps: seq<Step>, last: System, id: NodeId, from: NodeId, p: Proposal, rd: Round)
    requires Inv(sys) && AllBounded(sys) && Reaches(sys, steps, last) && Calm(steps, from, p, true)
    requires id in sys.nodes && id in last.nodes && Proposes(sys.sel, sys.signed, from, p, rd) && Quiet(last.sel, last.signed, id)
    requires TakesPart(sys, id, rd)
    ensures TakesPart(last, id, rd) && (LockedOn(sys.nodes[id], rd) ==> LockedOn(last.nodes[id], rd))
    decreases |steps|
  {
    hide Inv, AllBounded, Apply, Quiet, Proposes, TakesPart, LockedOn;
    if steps != [] {
      var next := Apply(sys, steps[0]);
      StepKeeps(sys, steps[0]);
      RunGrows(next, steps[1..], last);
      QuietBefore(sys.sel, next.signed, last.signed, id);
      ProposesStays(sys.sel, sys.signed, next.signed, from, p, rd);
      assert RoundStep(steps[0], from, p, true);
      StepStaysIn(sys, steps[0], id, from, p, rd);
      VotePhase(next, steps[1..], last, id, from, p, rd);
    }
  }

  /** A quiet member's vote delivered to a member of the round is held at the end of the phase. */
  lemma {:induction false} VoteArrives(sys: System, steps: seq<Step>, last: System, id: NodeId, other: NodeId, event: Event,
                                       from: NodeId, p: Proposal, rd: Round)
    requires Inv(sys) && AllBounded(sys) && Reaches(sys, steps, last) && Calm(steps, from, p, true)
    requires id in sys.nodes && id in last.nodes && other in sys.sel.members && Proposes(sys.sel, sys.signed, from, p, rd)
    requires Quiet(last.sel, last.signed, id) && Quiet(last.sel, last.signed, other)
    requires TakesPart(sys, id, rd) && Delivered(steps, id, event)
    ensures event == HearPrevote(RoundPrevote(other, rd), rd.header.value, rd.pol) && RoundPrevote(other, rd) in sys.signed ==>
      RoundPrevote(other, rd) in last.nodes[id].prevotes
    ensures event == HearPrecommit(RoundPrecommit(other, rd)) && RoundPrecommit(other, rd) in sys.signed ==>
      RoundPrecommit(other, rd) in last.nodes[id].roundAtts
    decreases |steps|
  {
    hide Inv, AllBounded, React, Quiet, Proposes, TakesPart;
    if steps != [] {
      var next := Apply(sys, steps[0]);
      StepKeeps(sys, steps[0]);
      RunGrows(next, steps[1..], last);
      QuietBefore(sys.sel, next.signed, last.signed, id);
      ProposesStays(sys.sel, sys.signed, next.signed, from, p, rd);
      assert RoundStep(steps[0], from, p, true);
      var k :| 0 <= k < |steps| && steps[k].Honest? && steps[k].id == id && steps[k].event == event;
      if k == 0 {
        QuietBefore(sys.sel, sys.signed, last.signed, other);
        Arrives(sys, steps[0], other, event, rd);
        QuietStays(next, steps[1..], last, id, RoundPrevote(other, rd));
        QuietStays(next, steps[1..], last, id, RoundPrecommit(other, rd));
      } else {
        assert steps[1..][k - 1] == steps[k];
        StepStaysIn(sys, steps[0], id, from, p, rd);
        VoteArrives(next, steps[1..], last, id, other, event, from, p, rd);
      }
    }
  }

  lemma {:induction false} Arrives(sys: System, step: Step, other: NodeId, event: Event, rd: Round)
    requires Inv(sys) && AllBounded(sys) && step.Honest? && step.id in sys.nodes && step.event == event && TakesPart(sys, step.id, rd)
    requires other in sys.sel.members && Quiet(sys.sel, sys.signed, other)
    ensures event == HearPrevote(RoundPrevote(other, rd), rd.header.value, rd.pol) && RoundPrevote(other, rd) in sys.signed ==>
      RoundPrevote(other, rd) in Apply(sys, step).nodes[step.id].prevotes
    ensures event == HearPrecommit(RoundPrecommit(other, rd)) && RoundPrecommit(other, rd) in sys.signed ==>
      RoundPrecommit(other, rd) in Apply(sys, step).nodes[step.id].roundAtts
  {
    hide Inv, AllBounded, React, Quiet;
    assert sys.nodes[step.id].view == rd.view;
    if RoundPrevote(other, rd) in sys.signed { QuietIsTaken(sys, step.id, RoundPrevote(other, rd), step.outcome); }
    if RoundPrecommit(other, rd) in sys.signed { QuietIsTaken(sys, step.id, RoundPrecommit(other, rd), step.outcome); }
  }

  /** A member that holds every honest prevote of the round is locked on it. */
  lemma {:induction false} AllPrevotesLock(sys: System, id: NodeId, rd: Round)
    requires id in sys.nodes && TakesPart(sys, id, rd) && HonestQuorum(sys.sel, sys.nodes.Keys)
    requires forall other | other in sys.nodes :: RoundPrevote(other, rd) in sys.nodes[id].prevotes
    ensures LockedOn(sys.nodes[id], rd)
  {
    hide HonestQuorum, StakeQuorum, LockedOn, OnStage;
    var s := sys.nodes[id];
    forall other | other in sys.nodes.Keys ensures other in Voters(s, rd) {
      assert RoundPrevote(other, rd) in Matching(s.prevotes, rd.view, VoteSubject(rd));
    }
    EnoughVoters(sys.sel, sys.nodes.Keys, Voters(s, rd));
  }

  /** A member that holds every honest precommit of the round has its finality gate open. */
  lemma {:induction false} AllPrecommitsOpen(sys: System, id: NodeId, rd: Round)
    requires id in sys.nodes && TakesPart(sys, id, rd) && HonestQuorum(sys.sel, sys.nodes.Keys)
    requires sys.nodes.Keys <= MemberSet(sys.sel)
    requires forall other | other in sys.nodes :: RoundPrecommit(other, rd) in sys.nodes[id].roundAtts
    ensures HasFinalityThreshold(sys.sel, sys.nodes[id]) && sys.nodes[id].staged.value.header == rd.header
  {
    hide HonestQuorum, FinalityQuorum, StakeQuorum;
    var s := sys.nodes[id];
    var q := Precommitters(sys.sel, s.roundAtts, rd.view, rd.header.value);
    forall other | other in sys.nodes.Keys ensures other in q {
      assert RoundPrecommit(other, rd) in s.roundAtts;
    }
    EnoughVoters(sys.sel, sys.nodes.Keys, q);
    assert RoundPrecommit(id, rd) in s.roundAtts;
  }

  /** Each honest member hears the votes of all the others. */
  predicate AllHear(sys: System, steps: seq<Step>, rd: Round, precommits: bool) {
    forall id, other | id in sys.nodes && other in sys.nodes && id != other ::
      Delivered(steps, id, if precommits then HearPrecommit(RoundPrecommit(other, rd))
                       else HearPrevote(RoundPrevote(other, rd), rd.header.value, rd.pol))
  }

  lemma {:induction false} PrevotePhase(sys: System, steps: seq<Step>, last: System, from: NodeId, p: Proposal, rd: Round)
    requires Inv(sys) && AllBounded(sys) && Reaches(sys, steps, last) && Calm(steps, from, p, true) && HonestQuorum(sys.sel, sys.nodes.Keys)
    requires Proposes(sys.sel, sys.signed, from, p, rd) && AllHear(sys, steps, rd, false)
    requires forall id | id in sys.nodes :: TakesPart(sys, id, rd) && Quiet(last.sel, last.signed, id)
    ensures forall id | id in last.nodes :: TakesPart(last, id, rd) && LockedOn(last.nodes[id], rd)
  {
    hide Inv, AllBounded, Calm, Quiet, Proposes, InRound, LockedOn, HonestQuorum, Delivered;
    RunGrows(sys, steps, last);
    forall id | id in last.nodes ensures TakesPart(last, id, rd) && LockedOn(last.nodes[id], rd) {
      VotePhase(sys, steps, last, id, from, p, rd);
      forall other | other in last.nodes ensures RoundPrevote(other, rd) in last.nodes[id].prevotes {
        assert TakesPart(sys, other, rd);
        MembersOnly(sys);
        if other != id {
          VoteArrives(sys, steps, last, id, other, HearPrevote(RoundPrevote(other, rd), rd.header.value, rd.pol), from, p, rd);
        }
      }
      AllPrevotesLock(last, id, rd);
    }
  }

  lemma {:induction false} MembersOnly(sys: System)
    requires Inv(sys)
    ensures sys.nodes.Keys <= MemberSet(sys.sel) && forall id | id in sys.nodes :: id in sys.sel.members
  {
    hide NodeOk, PolkasBlock;
    forall id | id in sys.nodes ensures id in sys.sel.members {
      assert id in MemberSet(sys.sel);
    }
  }

  lemma {:induction false} PrecommitPhase(sys: System, steps: seq<Step>, last: System, from: NodeId, p: Proposal, rd: Round)
    requires Inv(sys) && AllBounded(sys) && Reaches(sys, steps, last) && Calm(steps, from, p, true) && HonestQuorum(sys.sel, sys.nodes.Keys)
    requires Proposes(sys.sel, sys.signed, from, p, rd) && AllHear(sys, steps, rd, true)
    requires forall id | id in sys.nodes :: TakesPart(sys, id, rd) && LockedOn(sys.nodes[id], rd) && Quiet(last.sel, last.signed, id)
    ensures forall id | id in last.nodes :: HasFinalityThreshold(last.sel, last.nodes[id]) && last.nodes[id].staged.value.header == rd.header
  {
    hide Inv, AllBounded, Calm, Quiet, Proposes, InRound, LockedOn, HonestQuorum, Delivered, FinalityQuorum;
    RunGrows(sys, steps, last);
    MembersOnly(sys);
    forall id | id in last.nodes ensures HasFinalityThreshold(last.sel, last.nodes[id]) && last.nodes[id].staged.value.header == rd.header {
      VotePhase(sys, steps, last, id, from, p, rd);
      forall other | other in last.nodes ensures RoundPrecommit(other, rd) in last.nodes[id].roundAtts {
        assert TakesPart(sys, other, rd);
        if other != id {
          VoteArrives(sys, steps, last, id, other, HearPrecommit(RoundPrecommit(other, rd)), from, p, rd);
        }
      }
      AllPrecommitsOpen(last, id, rd);
    }
  }

  /** The three phases of a round: every honest member hears the proposal, unless it had it, then
      every honest prevote, then every honest precommit, among anything else of the round and
      whatever the faulty members sign; and the honest members signed little at the height. */
  ghost predicate Plays(sys: System, first: seq<Step>, a: System, second: seq<Step>, b: System, third: seq<Step>, last: System,
                        from: NodeId, p: Proposal, rd: Round)
  {
    && Reaches(sys, first, a) && Reaches(a, second, b) && Reaches(b, third, last)
    && Calm(first, from, p, false) && Calm(second, from, p, true) && Calm(third, from, p, true)
    && (forall id | id in sys.nodes :: TakesPart(sys, id, rd) || Delivered(first, id, HearProposal(from, p)))
    && AllHear(sys, second, rd, false) && AllHear(sys, third, rd, true)
    && forall id | id in sys.nodes :: Quiet(last.sel, last.signed, id)
  }

  /** Every honest finality gate is open on this block. */
  ghost predicate GatesOpen(sys: System, header: Header) {
    forall id | id in sys.nodes ::
      HasFinalityThreshold(sys.sel, sys.nodes[id]) && sys.nodes[id].staged.value.header == header
  }

  /** A good round: if the honest members are a quorum, none of them is locked above what the
      proposal shows, and the phases play out, every honest finality gate is open on the proposed
      block at the end. */
  lemma {:induction false} GoodRound(sys: System, first: seq<Step>, a: System, second: seq<Step>, b: System, third: seq<Step>, last: System,
                                     from: NodeId, p: Proposal, rd: Round)
    requires Inv(sys) && AllBounded(sys) && HonestQuorum(sys.sel, sys.nodes.Keys) && Proposes(sys.sel, sys.signed, from, p, rd)
    requires forall id | id in sys.nodes :: ComesIn(sys, id, p, rd)
    requires Plays(sys, first, a, second, b, third, last, from, p, rd)
    ensures GatesOpen(last, p.header)
  {
    hide Inv, AllBounded, Calm, Quiet, Proposes, TakesPart, Ready, LockedOn, HonestQuorum, Delivered, FinalityQuorum, Precommitters, Reaches;
    ProposalHeard(sys, first, a, second, b, third, last, from, p, rd);
    RunGrows(sys, first, a);
    RunGrows(a, second, b);
    RunsKeep(sys, first, a);
    RunBounded(sys, first, a);
    RunsKeep(a, second, b);
    RunBounded(a, second, b);
    ProposesStays(sys.sel, sys.signed, a.signed, from, p, rd);
    ProposesStays(sys.sel, sys.signed, b.signed, from, p, rd);
    PrevotePhase(a, second, b, from, p, rd);
    PrecommitPhase(b, third, last, from, p, rd);
    RoundOf(sys.sel, sys.signed, from, p, rd);
  }

  lemma {:induction false} ProposalHeard(sys: System, first: seq<Step>, a: System, second: seq<Step>, b: System, third: seq<Step>, last: System,
                                         from: NodeId, p: Proposal, rd: Round)
    requires Inv(sys) && AllBounded(sys) && Proposes(sys.sel, sys.signed, from, p, rd)
    requires forall id | id in sys.nodes :: ComesIn(sys, id, p, rd)
    requires Plays(sys, first, a, second, b, third, last, from, p, rd)
    ensures forall id | id in a.nodes :: TakesPart(a, id, rd) && Quiet(b.sel, b.signed, id)
  {
    hide Inv, AllBounded, Calm, Quiet, Proposes, TakesPart, Ready, AllHear, Delivered;
    RunGrows(sys, first, a);
    RunGrows(a, second, b);
    RunGrows(b, third, last);
    forall id | id in a.nodes ensures TakesPart(a, id, rd) && Quiet(b.sel, b.signed, id) {
      QuietBefore(a.sel, a.signed, last.signed, id);
      QuietBefore(b.sel, b.signed, last.signed, id);
      ProposalPhase(sys, first, a, id, from, p, rd);
    }
  }
}
