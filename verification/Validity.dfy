/** Nothing is voted for, locked or finalised that an honest node did not execute. */
module Validity {
  import opened Committee
  import opened Records
  import opened Justification
  import opened NodeModel
  import opened Protocol
  import opened Agreement
  import opened AgreementRuns
  import opened Wrappers

  /** The block executes on the chain, as `valid` records, and its body is within the size limit. */
  ghost predicate Sound(valid: iset<LockedBlock>, b: LockedBlock) {
    b in valid && BodyBytes(b.body) <= MAX_BLOCK_BODY_BYTES
  }

  /** `v` is the header of such a block. */
  ghost predicate Executed(valid: iset<LockedBlock>, v: Value) {
    exists b :: Sound(valid, b) && b.header.value == v
  }

  /** Execution accepts only blocks of `valid`, and the node builds only such blocks. */
  ghost predicate Executes(valid: iset<LockedBlock>, o: Outcome) {
    Sound(valid, o.ownBlock) && forall b | b in o.accepted :: b in valid
  }

  ghost predicate RunExecutes(valid: iset<LockedBlock>, steps: seq<Step>) {
    forall i | 0 <= i < |steps| && steps[i].Honest? :: Executes(valid, steps[i].outcome)
  }

  function BlockOf(staged: Staged): LockedBlock { LockedBlock(staged.header, staged.body) }

  ghost predicate NodeSound(valid: iset<LockedBlock>, s: Node) {
    && (s.staged.Some? ==> Sound(valid, BlockOf(s.staged.value)))
    && (s.lock.Some? ==> Sound(valid, s.lock.value.block))
  }

  /** Every prevote and precommit among `atts` is for an executed block. */
  ghost predicate VotesSound(valid: iset<LockedBlock>, atts: set<Att>) {
    forall a | a in atts && !a.subject.ViewChangeFor? :: Executed(valid, a.subject.value)
  }

  ghost predicate MoveSound(valid: iset<LockedBlock>, move: (Node, seq<Message>)) {
    NodeSound(valid, move.0) && VotesSound(valid, Signatures(move.1))
  }

  lemma {:induction false} OneVote(valid: iset<LockedBlock>, m: Message, b: LockedBlock)
    requires m.PrevoteSent? || m.PrecommitSent?
    requires !m.att.subject.ViewChangeFor? && m.att.subject.value == b.header.value && Sound(valid, b)
    ensures VotesSound(valid, Signatures([m]))
  {
    assert Signatures([m]) == {m.att};
  }

  lemma {:induction false} FormPolkaSound(valid: iset<LockedBlock>, sel: Selection, s: Node, o: Outcome)
    requires NodeSound(valid, s)
    ensures MoveSound(valid, FormPolka(sel, s, o))
  {
    hide StakeQuorum, Matching, RecordAttestation, Executed, Sound;
    var move := FormPolka(sel, s, o);
    assert Signatures([]) == {};
    if move.1 != [] {
      OneVote(valid, move.1[0], BlockOf(s.staged.value));
    }
  }

  lemma {:induction false} PrevoteStagedSound(valid: iset<LockedBlock>, sel: Selection, s: Node, o: Outcome)
    requires NodeSound(valid, s)
    ensures MoveSound(valid, PrevoteStaged(sel, s, o))
  {
    hide FormPolka, RecordPrevote, Executed, Sound;
    assert Signatures([]) == {};
    if MayPrevote(s, o) && o.drawn {
      var (cast, sent) := CastPrevote(s, o);
      OneVote(valid, sent[0], BlockOf(s.staged.value));
      var (after, more) := FormPolka(sel, cast, o);
      FormPolkaSound(valid, sel, cast, o);
      SignaturesJoin(sent, more);
    }
  }

  /** Whatever is staged was accepted by execution and fits. */
  lemma {:induction false} StageFromSound(valid: iset<LockedBlock>, s: Node, block: LockedBlock, view: View, pol: Option<View>, o: Outcome)
    requires NodeSound(valid, s) && Executes(valid, o)
    ensures StageFrom(s, block, view, pol, o).Some? ==> Sound(valid, block) && NodeSound(valid, StageFrom(s, block, view, pol, o).value)
    ensures StageFrom(s, block, view, pol, o).None? <==> block !in o.accepted || BodyBytes(block.body) > MAX_BLOCK_BODY_BYTES
  {
  }

  lemma {:induction false} OnJustifiedSound(valid: iset<LockedBlock>, sel: Selection, signed: set<Att>, s: Node, p: Proposal, o: Outcome)
    requires NodeSound(valid, s) && Executes(valid, o)
    ensures MoveSound(valid, OnJustifiedProposal(sel, signed, s, p, o))
  {
    hide PrevoteStaged, ValidJustification, JustifiedLock, HighAllows, LockAllows, Executed, Sound, BodyBytes;
    assert Signatures([]) == {};
    var (records, cache) := ValidJustification(sel, signed, p.view, s.verified, p.justification);
    if records.Some? && p.view >= s.view {
      var high := JustifiedLock(sel, signed, records.value);
      var block := LockedBlock(p.header, p.body);
      StageFromSound(valid, s.(verified := cache), block, p.view, PolOf(high), o);
      if Sound(valid, block) {
        var staged := Staged(p.view, p.header, p.body, p.justification, PolOf(high));
        PrevoteStagedSound(valid, sel, s.(verified := cache, staged := Some(staged), view := p.view), o);
      }
    }
  }

  lemma {:induction false} OnProposalSound(valid: iset<LockedBlock>, sel: Selection, signed: set<Att>, s: Node, from: NodeId, p: Proposal, o: Outcome)
    requires NodeSound(valid, s) && Executes(valid, o)
    ensures MoveSound(valid, OnProposal(sel, signed, s, from, p, o))
  {
    hide PrevoteStaged, OnJustifiedProposal, LeaderFor, Executed, Sound, BodyBytes;
    assert Signatures([]) == {};
    OnJustifiedSound(valid, sel, signed, s, p, o);
    var block := LockedBlock(p.header, p.body);
    StageFromSound(valid, s, block, p.view, None, o);
    if Sound(valid, block) {
      PrevoteStagedSound(valid, sel, s.(staged := Some(Staged(p.view, p.header, p.body, [], None))), o);
    }
  }

  lemma {:induction false} BuiltSound(valid: iset<LockedBlock>, sel: Selection, signed: set<Att>, s: Node, view: View, o: Outcome)
    requires NodeSound(valid, s) && Executes(valid, o)
    ensures NodeSound(valid, BuildJustified(sel, signed, s, view, o).0)
  {
    hide JustifiedRecords, JustifiedLock, CarriedJustification, WithBody, Sound, BodyBytes;
    var records := JustifiedRecords(sel, s, view);
    if records.Some? {
      var high := JustifiedLock(sel, signed, records.value);
      if high.Backed? || s.lock.Some? {
        var block := WithBody(s, if high.Backed? then high.block else s.lock.value.block);
        StageFromSound(valid, s, block, view, PolOf(high), o);
      } else {
        assert LockedBlock(o.ownBlock.header, o.ownBlock.body) == o.ownBlock;
      }
    }
  }

  lemma {:induction false} TryJustifiedSound(valid: iset<LockedBlock>, sel: Selection, signed: set<Att>, s: Node, o: Outcome)
    requires NodeSound(valid, s) && Executes(valid, o)
    ensures MoveSound(valid, TryJustified(sel, signed, s, o))
  {
    hide PrevoteStaged, BuildJustified, LeaderFor, NodeSound, VotesSound;
    NoVotes(valid);
    BuiltSound(valid, sel, signed, s, s.view, o);
    var (built, proposal) := BuildJustified(sel, signed, s, s.view, o);
    PrevoteStagedSound(valid, sel, built, o);
    if proposal.Some? {
      AfterProposal([ProposalSent(proposal.value)], PrevoteStaged(sel, built, o).1);
    }
  }

  lemma {:induction false} NoVotes(valid: iset<LockedBlock>)
    ensures VotesSound(valid, Signatures([])) && Signatures([]) == {}
  {
  }

  lemma {:induction false} EnterRoundSound(valid: iset<LockedBlock>, sel: Selection, s: Node, o: Outcome)
    requires NodeSound(valid, s) && Executes(valid, o)
    ensures MoveSound(valid, EnterRound(sel, s, o))
  {
    hide PrevoteStaged, LeaderFor, VotesSound, EnterRound, Sound;
    var leads := LeaderFor(sel, s.view) == s.id && !o.silent;
    var own := Staged(0, o.ownBlock.header, o.ownBlock.body, [], None);
    var t := if leads && !CurrentStage(s) && s.view == 0 && s.restartHold == 0 then s.(staged := Some(own)) else s;
    assert NodeSound(valid, t) by { assert BlockOf(own) == o.ownBlock; }
    var first := OpeningProposal(s, leads, o);
    EnterRoundShape(sel, s, o, t, first);
    PrevoteStagedSound(valid, sel, t, o);
    AfterProposal(first, PrevoteStaged(sel, t, o).1);
    NoVotes(valid);
  }

  lemma {:induction false} OnPrevoteSound(valid: iset<LockedBlock>, sel: Selection, signed: set<Att>, s: Node, att: Att, o: Outcome)
    requires NodeSound(valid, s)
    ensures MoveSound(valid, OnPrevote(sel, signed, s, att, o))
  {
    hide FormPolka, RecordPrevote, VotesSound, Sound;
    FormPolkaSound(valid, sel, s, o);
    FormPolkaSound(valid, sel, s.(prevotes := RecordPrevote(s.prevotes, att)), o);
  }

  lemma {:induction false} RecordSound(valid: iset<LockedBlock>, s: Node, target: View, o: Outcome)
    ensures var made := MakeViewChange(s, target, o);
      made.Some? ==> VotesSound(valid, Signatures([ViewChangeSent(made.value)]))
  {
    var made := MakeViewChange(s, target, o);
    if made.Some? {
      assert Signatures([ViewChangeSent(made.value)]) == {made.value.att};
    }
  }

  lemma {:induction false} ReactSound(valid: iset<LockedBlock>, sel: Selection, signed: set<Att>, s: Node, event: Event, o: Outcome)
    requires NodeSound(valid, s) && Executes(valid, o)
    ensures MoveSound(valid, React(sel, signed, s, event, o))
  {
    hide EnterRound, OnProposal, OnPrevote, CollectViewChange, TryJustified, OnAttestation, MakeViewChange, VotesSound, Executes;
    NoVotes(valid);
    match event {
      case Enter => EnterRoundSound(valid, sel, s, o);
      case HearProposal(from, p) => OnProposalSound(valid, sel, signed, s, from, p, o);
      case HearPrevote(att, value, pol) => OnPrevoteSound(valid, sel, signed, s, att, o);
      case HearPrecommit(att) => AttestationKeepsBlocks(sel, signed, s, att);
      case HearRecord(r) => CollectKeepsVotes(sel, signed, s, r);
      case ChangeView(target) =>
        var made := MakeViewChange(s, target, o);
        if made.Some? {
          CollectKeepsVotes(sel, signed + {made.value.att}, s, made.value);
          RecordSound(valid, s, target, o);
        }
      case Lead => TryJustifiedSound(valid, sel, signed, s, o);
      case Jump(view) =>
      case Timeout(view) =>
    }
  }

  lemma {:induction false} AttestationKeepsBlocks(sel: Selection, signed: set<Att>, s: Node, att: Att)
    ensures var t := OnAttestation(sel, signed, s, att); t.staged == s.staged && t.lock == s.lock
  {
  }

  ghost predicate SystemSound(valid: iset<LockedBlock>, sys: System) {
    && (forall id | id in sys.nodes :: NodeSound(valid, sys.nodes[id]))
    && (forall a | a in sys.signed && a.from in sys.nodes && !a.subject.ViewChangeFor? :: Executed(valid, a.subject.value))
  }

  lemma {:induction false} StepSound(valid: iset<LockedBlock>, sys: System, step: Step)
    requires SystemSound(valid, sys) && Enabled(sys, step) && (step.Honest? ==> Executes(valid, step.outcome))
    ensures SystemSound(valid, Apply(sys, step))
  {
    hide React, NodeSound, Executed, Executes;
    if step.Honest? {
      ReactSound(valid, sys.sel, sys.signed, sys.nodes[step.id], step.event, step.outcome);
    }
  }

  lemma {:induction false} RunSound(valid: iset<LockedBlock>, sys: System, steps: seq<Step>, last: System)
    requires SystemSound(valid, sys) && RunExecutes(valid, steps) && Reaches(sys, steps, last)
    ensures SystemSound(valid, last)
    decreases |steps|
  {
    hide SystemSound, Apply, Executes;
    if steps != [] {
      StepSound(valid, sys, steps[0]);
      RunSound(valid, Apply(sys, steps[0]), steps[1..], last);
    }
  }

  /** Validity: in every run, a value with a polka is the header of a block that some honest
      node executed or built. */
  lemma {:induction false} PolkaIsExecuted(valid: iset<LockedBlock>, sys: System, steps: seq<Step>, last: System, r: View, v: Value)
    requires Initial(sys) && RunExecutes(valid, steps) && Reaches(sys, steps, last)
    requires HasPolka(last.sel, last.signed, r, v)
    ensures Executed(valid, v)
  {
    hide Executed;
    InitialOk(sys);
    RunsKeep(sys, steps, last);
    RunSound(valid, sys, steps, last);
    var pol, q :| PolkaBy(last.sel, last.signed, r, v, pol, q);
    var id := QuorumsShareHonest(last.sel, q, q, MemberSet(last.sel) - last.nodes.Keys);
    assert Prevote(id, r, v, pol) in last.signed;
  }

  /** So is every value with a precommit quorum, and an open finality gate has its own
      executed block behind it. */
  lemma {:induction false} FinalIsExecuted(valid: iset<LockedBlock>, sys: System, steps: seq<Step>, last: System, r: View, v: Value, q: set<NodeId>)
    requires Initial(sys) && RunExecutes(valid, steps) && Reaches(sys, steps, last)
    requires PrecommitQuorum(last, r, v, q)
    ensures Executed(valid, v)
    ensures forall id | id in last.nodes && HasFinalityThreshold(last.sel, last.nodes[id]) ::
      Sound(valid, BlockOf(last.nodes[id].staged.value)) && last.nodes[id].staged.value.header.value == v
  {
    hide Executed, Sound, FinalityQuorum, Precommitters, Inv;
    InitialOk(sys);
    RunsKeep(sys, steps, last);
    RunSound(valid, sys, steps, last);
    PrecommittedHasPolka(last, r, v, q);
    PolkaIsExecuted(valid, sys, steps, last, r, v);
    forall id | id in last.nodes && HasFinalityThreshold(last.sel, last.nodes[id])
      ensures Sound(valid, BlockOf(last.nodes[id].staged.value)) && last.nodes[id].staged.value.header.value == v
    {
      assert NodeSound(valid, last.nodes[id]);
      var r', q' := GateIsQuorum(last, id);
      AgreementAt(last, r, v, q, r', last.nodes[id].staged.value.header.value, q');
    }
  }
}
