/** A leader at a later view: from the records honest members sent it, it builds a proposal that
    every honest member supports, whatever they locked before. */
module Leading {
  import opened Arithmetic
  import opened Committee
  import opened Records
  import opened Justification
  import opened Stripping
  import opened NodeModel
  import opened Protocol
  import opened Agreement
  import opened AgreementRuns
  import opened BufferRuns
  import opened Rounds
  import opened Progress
  import D = DevNodeObject
  import opened Wrappers

  // ---- collected records ----

  ghost predicate AllCollected(sys: System) {
    forall id, r | id in sys.nodes && r in sys.nodes[id].viewChanges :: Collected(sys.sel, sys.signed, r)
  }

  lemma {:induction false} CollectedStays(sel: Selection, earlier: set<Att>, later: set<Att>, r: ViewChange)
    requires earlier <= later && Collected(sel, earlier, r)
    ensures Collected(sel, later, r)
  {
  }

  lemma {:induction false} ReactCollected(sel: Selection, signed: set<Att>, s: Node, event: Event, o: Outcome)
    requires forall r | r in s.viewChanges :: Collected(sel, signed, r)
    ensures var (t, sent) := React(sel, signed, s, event, o);
      forall r | r in t.viewChanges :: Collected(sel, signed + Signatures(sent), r)
  {
    hide Collected, CollectViewChange, BufferRuns.Hears;
    var (t, sent) := React(sel, signed, s, event, o);
    var later := signed + Signatures(sent);
    forall r | r in s.viewChanges ensures Collected(sel, later, r) { CollectedStays(sel, signed, later, r); }
    if !IsRecordEvent(event) {
      RecordsUntouched(sel, signed, s, event, o);
    } else if event.HearRecord? {
      assert later == signed;
      D.CollectKeepsCollected(sel, signed, s, event.record);
    } else {
      var made := MakeViewChange(s, event.target, o);
      if made.Some? {
        assert Signatures([ViewChangeSent(made.value)]) == {made.value.att};
        D.CollectKeepsCollected(sel, later, s, made.value);
      }
    }
  }

  lemma {:induction false} RecordsUntouched(sel: Selection, signed: set<Att>, s: Node, event: Event, o: Outcome)
    requires !IsRecordEvent(event)
    ensures React(sel, signed, s, event, o).0.viewChanges == s.viewChanges
  {
    hide React;
    ReactHears(sel, signed, s, event, o);
  }

  lemma {:induction false} StepCollected(sys: System, step: Step)
    requires AllCollected(sys) && Enabled(sys, step)
    ensures AllCollected(Apply(sys, step))
  {
    hide React, Collected;
    var next := Apply(sys, step);
    if step.Honest? {
      ReactCollected(sys.sel, sys.signed, sys.nodes[step.id], step.event, step.outcome);
    }
    forall id, r | id in next.nodes && r in next.nodes[id].viewChanges ensures Collected(next.sel, next.signed, r) {
      if !(step.Honest? && step.id == id) { CollectedStays(sys.sel, sys.signed, next.signed, r); }
    }
  }

  /** In every run, whatever record an honest node holds has a valid signature and polka. */
  lemma {:induction false} RunCollected(sys: System, steps: seq<Step>, last: System)
    requires AllCollected(sys) && Reaches(sys, steps, last)
    ensures AllCollected(last)
    decreases |steps|
  {
    hide AllCollected, Apply;
    if steps != [] {
      StepCollected(sys, steps[0]);
      RunCollected(Apply(sys, steps[0]), steps[1..], last);
    }
  }

  // ---- what collected records justify ----

  /** Locks at one view are for one value, since each has a polka behind it. */
  lemma {:induction false} LocksAgree(sys: System, records: seq<ViewChange>, top: View)
    requires Inv(sys) && forall r | r in records :: Collected(sys.sel, sys.signed, r)
    ensures OneValueAt(records, top)
  {
    hide Inv;
    forall r, s | r in records && s in records && r.locked.Some? && s.locked.Some? && r.lockView == top && s.lockView == top
      ensures r.locked.value.header.value == s.locked.value.header.value
    {
      assert Collected(sys.sel, sys.signed, r) && Collected(sys.sel, sys.signed, s);
      BackedIsPolka(sys.sel, sys.signed, top, r.lockPol, r.locked.value, r.polka.value);
      BackedIsPolka(sys.sel, sys.signed, top, s.lockPol, s.locked.value, s.polka.value);
      OnePolkaValue(sys, top, r.locked.value.header.value, s.locked.value.header.value);
    }
  }

  lemma {:induction false} OnePolkaValue(sys: System, r: View, v: Value, w: Value)
    requires Inv(sys) && HasPolka(sys.sel, sys.signed, r, v) && HasPolka(sys.sel, sys.signed, r, w)
    ensures v == w
  {
    forall id | id in sys.nodes ensures PrevotesOk(sys, id, sys.nodes[id]) { assert NodeOk(sys, id); }
    PolkaUnique(sys, r, v, w);
  }

  /** The highest lock that agreeing, backed records justify does not depend on what else is signed. */
  lemma {:induction false} HighOf(sel: Selection, signed: set<Att>, records: seq<ViewChange>)
    requires forall r | r in records :: Collected(sel, signed, r)
    requires forall top | TopLockView(records) == Some(top) :: OneValueAt(records, top)
    ensures var high, top := JustifiedLock(sel, signed, records), TopLockView(records);
      && (top.None? ==> high.Unlocked?)
      && (top.Some? ==> high.Backed? && high.view == top.value)
      && (top.Some? ==> forall r | r in records && r.locked.Some? && r.lockView == top.value :: r.locked.value.header.value == high.block.header.value)
  {
    hide JustifiedLock;
    JustifiedLockExact(sel, signed, records);
    var top := TopLockView(records);
    if top.Some? {
      var r :| r in records && r.locked.Some? && r.lockView == top.value;
      assert Collected(sel, signed, r) && BacksTop(sel, signed, r, top.value);
    }
  }

  /** What a leader sends is read whole and to the same effect by every receiver. */
  lemma {:induction false} BuiltJustifies(sys: System, records: seq<ViewChange>, p: Proposal)
    requires Inv(sys) && DistinctSenders(records) && StakeQuorum(sys.sel, RecordSigners(records))
    requires forall r | r in records :: r.targetView == p.view && Collected(sys.sel, sys.signed, r)
    requires p.justification == CarriedJustification(records) && TotalCost(p.justification) <= VerificationCap(sys.sel)
    requires var high := JustifiedLock(sys.sel, sys.signed, records);
      && (high.Backed? ==> p.header.value == high.block.header.value)
      && (high.Unlocked? ==> p.header.proposer == LeaderFor(sys.sel, p.view))
    ensures Justifies(sys.sel, sys.signed, p, PolOf(JustifiedLock(sys.sel, sys.signed, records)))
  {
    hide Inv, Collected, JustifiedLock, ValidJustification, StakeQuorum, LeaderFor, OneValueAt, CarriedJustification, TotalCost;
    forall top | TopLockView(records) == Some(top) ensures OneValueAt(records, top) { LocksAgree(sys, records, top); }
    HighOf(sys.sel, sys.signed, records);
    var pol := PolOf(JustifiedLock(sys.sel, sys.signed, records));
    forall later: set<Att>, cache: set<ViewChange> | sys.signed <= later
      ensures ReadsAs(sys.sel, later, p, pol, ValidJustification(sys.sel, later, p.view, cache, p.justification).0)
    {
      forall r | r in records ensures Collected(sys.sel, later, r) { CollectedStays(sys.sel, sys.signed, later, r); }
      HighOf(sys.sel, later, records);
      StrippingKeepsMeaning(sys.sel, later, p.view, cache, records);
      SameTopValue(sys.sel, sys.signed, later, records);
    }
  }

  lemma {:induction false} SameTopValue(sel: Selection, signed: set<Att>, later: set<Att>, records: seq<ViewChange>)
    requires forall r | r in records :: Collected(sel, signed, r) && Collected(sel, later, r)
    requires forall top | TopLockView(records) == Some(top) :: OneValueAt(records, top)
    ensures var high, then_ := JustifiedLock(sel, signed, records), JustifiedLock(sel, later, records);
      high.Backed? && then_.Backed? ==> high.view == then_.view && high.block.header.value == then_.block.header.value
  {
    hide Collected, JustifiedLock, OneValueAt;
    HighOf(sel, signed, records);
    HighOf(sel, later, records);
    var top := TopLockView(records);
    if top.Some? {
      var r :| r in records && r.locked.Some? && r.lockView == top.value;
    }
  }

  // ---- the leader's step ----

  /** The block a leader proposes at view `w`: the justified one with a body, or its own. */
  function Chosen(sel: Selection, signed: set<Att>, s: Node, w: View, o: Outcome): LockedBlock {
    var high := JustifiedLock(sel, signed, FirstPerSender(s.viewChanges, w));
    if high.Backed? then WithBody(s, high.block) else o.ownBlock
  }

  function LeaderProposal(sel: Selection, signed: set<Att>, s: Node, w: View, o: Outcome): Proposal {
    var block := Chosen(sel, signed, s, w, o);
    Proposal(w, block.header, block.body, CarriedJustification(FirstPerSender(s.viewChanges, w)))
  }

  function LeaderRound(sel: Selection, signed: set<Att>, s: Node, w: View, o: Outcome): Round {
    var block := Chosen(sel, signed, s, w, o);
    Round(w, block.header, block.body, PolOf(JustifiedLock(sel, signed, FirstPerSender(s.viewChanges, w))))
  }

  /** The node has not voted at `w` or later and works. */
  predicate Attentive(s: Node, w: View) {
    && !s.fatal && s.restartHold == 0 && s.view <= w && w !in s.prevoted
    && (s.prevoteMark.Some? ==> s.prevoteMark.value.view < w) && (s.signMark.Some? ==> s.signMark.value.view < w)
    && (s.lock.Some? ==> s.lock.value.view < w)
  }

  /** The records name a lock at least as high as the member's own. */
  predicate Reports(records: seq<ViewChange>, id: NodeId, s: Node) {
    exists r | r in records :: r.att.from == id && (s.lock.Some? ==> r.locked.Some? && s.lock.value.view <= r.lockView)
  }

  /** The leader can build: the round's work is done and the block it settles on is accepted. */
  predicate CanLead(sel: Selection, signed: set<Att>, s: Node, w: View, o: Outcome) {
    var block := Chosen(sel, signed, s, w, o);
    && Works(o, block) && o.proposalSigned && BodyBytes(block.body) <= MAX_BLOCK_BODY_BYTES
    && o.ownBlock.header.proposer == LeaderFor(sel, w)
  }

  lemma {:induction false} LeaderBuilds(sel: Selection, signed: set<Att>, s: Node, w: View, o: Outcome)
    requires CanLead(sel, signed, s, w, o) && s.restartHold == 0
    requires var records := FirstPerSender(s.viewChanges, w);
      && StakeQuorum(sel, RecordSigners(records)) && !JustifiedLock(sel, signed, records).Conflict?
      && (JustifiedLock(sel, signed, records).Unlocked? ==> s.lock.None?)
    ensures var p, rd := LeaderProposal(sel, signed, s, w, o), LeaderRound(sel, signed, s, w, o);
      BuildJustified(sel, signed, s, w, o) ==
        (s.(staged := Some(Staged(w, rd.header, rd.body, p.justification, rd.pol))), Some(p))
  {
    hide JustifiedLock, CarriedJustification, WithBody, StakeQuorum, LeaderFor, BodyBytes;
  }

  lemma {:induction false} LeaderEnters(sel: Selection, signed: set<Att>, s: Node, w: View, o: Outcome)
    requires CanLead(sel, signed, s, w, o) && Attentive(s, w) && s.view == w && w > 0 && s.id == LeaderFor(sel, w) && !CurrentStage(s)
    requires var records := FirstPerSender(s.viewChanges, w);
      && StakeQuorum(sel, RecordSigners(records)) && !JustifiedLock(sel, signed, records).Conflict?
      && (JustifiedLock(sel, signed, records).Unlocked? ==> s.lock.None?)
    requires Below(s, LeaderRound(sel, signed, s, w, o))
    ensures var move := TryJustified(sel, signed, s, o);
      && ProposalSent(LeaderProposal(sel, signed, s, w, o)) in move.1
      && Enters(sel, s, move, LeaderRound(sel, signed, s, w, o))
  {
    hide JustifiedLock, StakeQuorum, LeaderFor, BuildJustified, PrevoteStaged, InRound, LockedOn, LeaderRound, LeaderProposal,
      RecordPrevote, RecordAttestation;
    LeaderBuilds(sel, signed, s, w, o);
    var (built, proposal) := BuildJustified(sel, signed, s, w, o);
    var rd := LeaderRound(sel, signed, s, w, o);
    LeaderWorks(sel, signed, s, w, o);
    CastingEnters(sel, built, rd, o);
    var sent := PrevoteStaged(sel, built, o).1;
    var all := [ProposalSent(proposal.value)] + sent;
    assert all[0] == ProposalSent(proposal.value);
    forall m | m in sent ensures m in all {}
  }

  lemma {:induction false} LeaderWorks(sel: Selection, signed: set<Att>, s: Node, w: View, o: Outcome)
    requires CanLead(sel, signed, s, w, o)
    ensures var rd := LeaderRound(sel, signed, s, w, o); Works(o, LockedBlock(rd.header, rd.body)) && rd.view == w
  {
    hide JustifiedLock, WithBody, LeaderFor, BodyBytes;
  }

  /** The records cover every honest lock, so none stands above what the proposal shows. */
  lemma {:induction false} ReportsCover(sys: System, records: seq<ViewChange>, id: NodeId, rd: Round)
    requires id in sys.nodes && Attentive(sys.nodes[id], rd.view) && Reports(records, id, sys.nodes[id])
    requires forall r | r in records :: Collected(sys.sel, sys.signed, r)
    requires forall top | TopLockView(records) == Some(top) :: OneValueAt(records, top)
    requires rd.pol == PolOf(JustifiedLock(sys.sel, sys.signed, records))
    ensures Below(sys.nodes[id], rd)
    ensures JustifiedLock(sys.sel, sys.signed, records).Unlocked? ==> sys.nodes[id].lock.None?
  {
    hide Collected, JustifiedLock, OneValueAt;
    HighOf(sys.sel, sys.signed, records);
  }

  lemma {:induction false} SendersDistinct(records: seq<ViewChange>, w: View)
    ensures DistinctSenders(FirstPerSender(records, w))
  {
    hide FirstPerSender;
    var out := FirstPerSender(records, w);
    forall i, j | 0 <= i < j < |out| ensures out[i].att.from != out[j].att.from {}
  }

  /** What the leader holds when it leads: records from which every honest member is heard. */
  ghost predicate WellInformed(sys: System, leader: NodeId, w: View)
    requires leader in sys.nodes
  {
    var records := FirstPerSender(sys.nodes[leader].viewChanges, w);
    && (forall id | id in sys.nodes :: Attentive(sys.nodes[id], w) && Reports(records, id, sys.nodes[id]))
    && TotalCost(CarriedJustification(records)) <= VerificationCap(sys.sel)
  }

  /** The records of a well-informed leader are a quorum's and do not conflict. */
  lemma {:induction false} LeaderRecords(sys: System, leader: NodeId, w: View)
    requires Inv(sys) && AllCollected(sys) && HonestQuorum(sys.sel, sys.nodes.Keys) && leader in sys.nodes && WellInformed(sys, leader, w)
    ensures var records := FirstPerSender(sys.nodes[leader].viewChanges, w);
      && DistinctSenders(records) && StakeQuorum(sys.sel, RecordSigners(records)) && records != []
      && (forall r | r in records :: r.targetView == w && Collected(sys.sel, sys.signed, r))
      && (forall top | TopLockView(records) == Some(top) :: OneValueAt(records, top))
      && !JustifiedLock(sys.sel, sys.signed, records).Conflict?
  {
    hide Inv, Collected, JustifiedLock, StakeQuorum, OneValueAt, HonestQuorum, Attentive, TotalCost, DistinctSenders, WellInformed, FirstPerSender,
      TopLockView;
    var records := FirstPerSender(sys.nodes[leader].viewChanges, w);
    SendersDistinct(sys.nodes[leader].viewChanges, w);
    forall id | id in sys.nodes.Keys ensures id in RecordSigners(records) { AttentiveOf(sys, leader, w, id); }
    EnoughVoters(sys.sel, sys.nodes.Keys, RecordSigners(records));
    assert leader in RecordSigners(records);
    forall top | TopLockView(records) == Some(top) ensures OneValueAt(records, top) { LocksAgree(sys, records, top); }
    HighOf(sys.sel, sys.signed, records);
  }

  lemma {:induction false} LeaderProposes(sys: System, leader: NodeId, w: View, o: Outcome)
    requires Inv(sys) && AllCollected(sys) && HonestQuorum(sys.sel, sys.nodes.Keys)
    requires leader in sys.nodes && WellInformed(sys, leader, w) && CanLead(sys.sel, sys.signed, sys.nodes[leader], w, o)
    ensures var s := sys.nodes[leader];
      var p, rd := LeaderProposal(sys.sel, sys.signed, s, w, o), LeaderRound(sys.sel, sys.signed, s, w, o);
      Proposes(sys.sel, sys.signed, leader, p, rd) && p.justification != []
  {
    hide Inv, AllCollected, Collected, JustifiedLock, StakeQuorum, LeaderFor, OneValueAt, HonestQuorum, Justifies, BodyBytes, TotalCost,
      CanLead, Attentive, Reports, DistinctSenders;
    LeaderRecords(sys, leader, w);
    ChosenHeader(sys.sel, sys.signed, sys.nodes[leader], w, o);
    BuiltJustifies(sys, FirstPerSender(sys.nodes[leader].viewChanges, w), LeaderProposal(sys.sel, sys.signed, sys.nodes[leader], w, o));
  }

  /** Every honest member can be won for the round, the leader included. */
  lemma {:induction false} LeaderWins(sys: System, leader: NodeId, w: View, o: Outcome, id: NodeId)
    requires Inv(sys) && AllCollected(sys) && HonestQuorum(sys.sel, sys.nodes.Keys)
    requires leader in sys.nodes && WellInformed(sys, leader, w) && CanLead(sys.sel, sys.signed, sys.nodes[leader], w, o) && id in sys.nodes
    ensures var s := sys.nodes[leader];
      var p, rd := LeaderProposal(sys.sel, sys.signed, s, w, o), LeaderRound(sys.sel, sys.signed, s, w, o);
      && Below(sys.nodes[id], rd) && Ready(sys.nodes[id], p, rd)
      && (JustifiedLock(sys.sel, sys.signed, FirstPerSender(s.viewChanges, w)).Unlocked? ==> sys.nodes[id].lock.None?)
  {
    hide Inv, AllCollected, Collected, JustifiedLock, StakeQuorum, OneValueAt, HonestQuorum, TotalCost, CanLead, Reports, DistinctSenders, Proposes, WellInformed,
      FirstPerSender, TopLockView;
    LeaderRecords(sys, leader, w);
    LeaderProposes(sys, leader, w, o);
    var s := sys.nodes[leader];
    AttentiveOf(sys, leader, w, id);
    ReportsCover(sys, FirstPerSender(s.viewChanges, w), id, LeaderRound(sys.sel, sys.signed, s, w, o));
  }

  lemma {:induction false} ChosenHeader(sel: Selection, signed: set<Att>, s: Node, w: View, o: Outcome)
    requires CanLead(sel, signed, s, w, o)
    ensures var high := JustifiedLock(sel, signed, FirstPerSender(s.viewChanges, w));
      var block := Chosen(sel, signed, s, w, o);
      && (high.Backed? ==> block.header == high.block.header) && (!high.Backed? ==> block.header.proposer == LeaderFor(sel, w))
      && BodyBytes(block.body) <= MAX_BLOCK_BODY_BYTES
  {
    hide JustifiedLock, LeaderFor, BodyBytes, LockedBodyFor;
  }

  /** An honest leader of the later view `w` is about to lead it, well informed and able to. */
  ghost predicate Leads(sys: System, leader: NodeId, w: View, o: Outcome) {
    && leader in sys.nodes && leader == LeaderFor(sys.sel, w) && w > 0
    && sys.nodes[leader].view == w && !CurrentStage(sys.nodes[leader])
    && WellInformed(sys, leader, w) && CanLead(sys.sel, sys.signed, sys.nodes[leader], w, o)
  }

  /** A good view: in any run, when an honest leader of a later view has a record from every honest
      member naming its lock, leads, and the round's messages get through, every honest finality
      gate is open at the end on the block it proposed, whatever was locked before and whatever the
      faulty members sign. */
  lemma {:induction false} GoodView(start: System, before: seq<Step>, sys: System, leader: NodeId, w: View, o: Outcome, p: Proposal, rd: Round,
                                    first: seq<Step>, a: System, second: seq<Step>, b: System, third: seq<Step>, last: System)
    requires Initial(start) && Reaches(start, before, sys) && HonestQuorum(sys.sel, sys.nodes.Keys) && Leads(sys, leader, w, o)
    requires p == LeaderProposal(sys.sel, sys.signed, sys.nodes[leader], w, o) && rd == LeaderRound(sys.sel, sys.signed, sys.nodes[leader], w, o)
    requires Plays(Apply(sys, Honest(leader, Lead, o)), first, a, second, b, third, last, leader, p, rd)
    ensures ProposalSent(p) in React(sys.sel, sys.signed, sys.nodes[leader], Lead, o).1
    ensures GatesOpen(last, p.header)
  {
    assert leader in sys.nodes;
    hide Inv, AllBounded, AllCollected, HonestQuorum, Leads, Plays, GatesOpen, LeaderProposal, LeaderRound, React, ComesIn;
    InitialOk(start);
    InitialBounded(start);
    InitialCollected(start);
    RunsKeep(start, before, sys);
    RunBounded(start, before, sys);
    RunCollected(start, before, sys);
    var next := Apply(sys, Honest(leader, Lead, o));
    LeaderStayedQuiet(next, first, a, second, b, third, last, leader, p, rd);
    Led(sys, leader, w, o, p, rd);
    GoodRound(next, first, a, second, b, third, last, leader, p, rd);
  }

  lemma {:induction false} LeaderStayedQuiet(sys: System, first: seq<Step>, a: System, second: seq<Step>, b: System, third: seq<Step>, last: System,
                                             from: NodeId, p: Proposal, rd: Round)
    requires Plays(sys, first, a, second, b, third, last, from, p, rd) && from in sys.nodes
    ensures Quiet(sys.sel, sys.signed, from)
  {
    hide Calm, Quiet, TakesPart, AllHear, Delivered;
    RunGrows(sys, first, a);
    RunGrows(a, second, b);
    RunGrows(b, third, last);
    QuietBefore(sys.sel, sys.signed, last.signed, from);
  }

  /** After the leader's step its round is open: it takes part, and everyone else can be won. */
  lemma {:induction false} Led(sys: System, leader: NodeId, w: View, o: Outcome, p: Proposal, rd: Round)
    requires Inv(sys) && AllBounded(sys) && AllCollected(sys) && HonestQuorum(sys.sel, sys.nodes.Keys) && Leads(sys, leader, w, o)
    requires p == LeaderProposal(sys.sel, sys.signed, sys.nodes[leader], w, o) && rd == LeaderRound(sys.sel, sys.signed, sys.nodes[leader], w, o)
    requires Quiet(sys.sel, Apply(sys, Honest(leader, Lead, o)).signed, leader)
    ensures var next := Apply(sys, Honest(leader, Lead, o));
      && Inv(next) && AllBounded(next) && HonestQuorum(next.sel, next.nodes.Keys) && Proposes(next.sel, next.signed, leader, p, rd)
      && (forall id | id in next.nodes :: ComesIn(next, id, p, rd))
      && ProposalSent(p) in React(sys.sel, sys.signed, sys.nodes[leader], Lead, o).1
  {
    hide Inv, AllBounded, AllCollected, Quiet, Proposes, TakesPart, Ready, Below, HonestQuorum, WellInformed, CanLead, LeaderProposal,
      LeaderRound, React, JustifiedLock, LeaderFor;
    var step := Honest(leader, Lead, o);
    var next := Apply(sys, step);
    StepKeeps(sys, step);
    LeaderProposes(sys, leader, w, o);
    ProposesStays(sys.sel, sys.signed, next.signed, leader, p, rd);
    LeaderTakesPart(sys, leader, w, o, p, rd);
    assert next.nodes.Keys == sys.nodes.Keys;
    forall id | id in next.nodes ensures ComesIn(next, id, p, rd) {
      if id != leader { LeaderWins(sys, leader, w, o, id); }
    }
  }

  // ---- the first view ----

  /** The leader of the first view enters it with a block to propose, and everyone can be won for it. */
  ghost predicate Opens(sys: System, leader: NodeId, o: Outcome, p: Proposal, rd: Round) {
    && leader in sys.nodes && leader == LeaderFor(sys.sel, 0) == o.ownBlock.header.proposer && !o.silent && o.proposalSigned
    && Works(o, o.ownBlock) && BodyBytes(o.ownBlock.body) <= MAX_BLOCK_BODY_BYTES
    && p == Proposal(0, o.ownBlock.header, o.ownBlock.body, []) && rd == Round(0, p.header, p.body, None)
    && forall id | id in sys.nodes :: Ready(sys.nodes[id], p, rd)
  }

  /** A good start: in any run, when the honest leader of the first view enters the round, no honest
      member has voted, and the round's messages get through, every honest finality gate is open at
      the end on its block. */
  lemma {:induction false} GoodStart(start: System, before: seq<Step>, sys: System, leader: NodeId, o: Outcome, p: Proposal, rd: Round,
                                     first: seq<Step>, a: System, second: seq<Step>, b: System, third: seq<Step>, last: System)
    requires Initial(start) && Reaches(start, before, sys) && HonestQuorum(sys.sel, sys.nodes.Keys) && Opens(sys, leader, o, p, rd)
    requires Plays(Apply(sys, Honest(leader, Enter, o)), first, a, second, b, third, last, leader, p, rd)
    ensures ProposalSent(p) in React(sys.sel, sys.signed, sys.nodes[leader], Enter, o).1
    ensures GatesOpen(last, p.header)
  {
    assert leader in sys.nodes;
    hide Inv, AllBounded, HonestQuorum, Opens, Plays, GatesOpen, React, ComesIn;
    InitialOk(start);
    InitialBounded(start);
    RunsKeep(start, before, sys);
    RunBounded(start, before, sys);
    var next := Apply(sys, Honest(leader, Enter, o));
    LeaderStayedQuiet(next, first, a, second, b, third, last, leader, p, rd);
    Opened(sys, leader, o, p, rd);
    GoodRound(next, first, a, second, b, third, last, leader, p, rd);
  }

  lemma {:induction false} Opened(sys: System, leader: NodeId, o: Outcome, p: Proposal, rd: Round)
    requires Inv(sys) && AllBounded(sys) && HonestQuorum(sys.sel, sys.nodes.Keys) && Opens(sys, leader, o, p, rd)
    requires Quiet(sys.sel, Apply(sys, Honest(leader, Enter, o)).signed, leader)
    ensures var next := Apply(sys, Honest(leader, Enter, o));
      && Inv(next) && AllBounded(next) && HonestQuorum(next.sel, next.nodes.Keys) && Proposes(next.sel, next.signed, leader, p, rd)
      && (forall id | id in next.nodes :: ComesIn(next, id, p, rd))
      && ProposalSent(p) in React(sys.sel, sys.signed, sys.nodes[leader], Enter, o).1
  {
    hide Inv, AllBounded, Quiet, TakesPart, Ready, HonestQuorum, EnterRound, LeaderFor, BodyBytes, Works, Enters;
    var step := Honest(leader, Enter, o);
    var next := Apply(sys, step);
    StepKeeps(sys, step);
    assert sys.nodes[leader].id == leader by { OwnId(sys, leader) by { NodeOkOf(sys, leader); } }
    EnteringOpens(sys.sel, sys.nodes[leader], o, p, rd);
    EnteredTakesPart(sys, step, rd);
    assert next.nodes.Keys == sys.nodes.Keys;
  }

  lemma {:induction false} EnteringOpens(sel: Selection, s: Node, o: Outcome, p: Proposal, rd: Round)
    requires s.id == LeaderFor(sel, 0) && !o.silent && o.proposalSigned && Works(o, o.ownBlock) && Ready(s, p, rd)
    requires p == Proposal(0, o.ownBlock.header, o.ownBlock.body, []) && rd == Round(0, p.header, p.body, None)
    ensures var move := EnterRound(sel, s, o); ProposalSent(p) in move.1 && Enters(sel, s, move, rd)
  {
    hide PrevoteStaged, LeaderFor, EnterRound, InRound, LockedOn, RecordPrevote, RecordAttestation;
    var staged := s.(staged := Some(Staged(0, o.ownBlock.header, o.ownBlock.body, [], None)));
    var first := OpeningProposal(s, true, o);
    assert first == [ProposalSent(p)];
    EnterRoundShape(sel, s, o, staged, first);
    assert LockedBlock(rd.header, rd.body) == o.ownBlock;
    CastingEnters(sel, staged, rd, o);
    var sent := PrevoteStaged(sel, staged, o).1;
    assert (first + sent)[0] == ProposalSent(p);
    forall m | m in sent ensures m in first + sent {}
  }

  lemma {:induction false} InitialCollected(sys: System)
    requires Initial(sys)
    ensures AllCollected(sys)
  {
  }

  lemma {:induction false} LeaderTakesPart(sys: System, leader: NodeId, w: View, o: Outcome, p: Proposal, rd: Round)
    requires Inv(sys) && AllBounded(sys) && AllCollected(sys) && HonestQuorum(sys.sel, sys.nodes.Keys) && Leads(sys, leader, w, o)
    requires p == LeaderProposal(sys.sel, sys.signed, sys.nodes[leader], w, o) && rd == LeaderRound(sys.sel, sys.signed, sys.nodes[leader], w, o)
    requires Quiet(sys.sel, Apply(sys, Honest(leader, Lead, o)).signed, leader)
    ensures var next := Apply(sys, Honest(leader, Lead, o));
      && leader in next.nodes && TakesPart(next, leader, rd)
      && ProposalSent(p) in React(sys.sel, sys.signed, sys.nodes[leader], Lead, o).1
  {
    hide Inv, AllBounded, Quiet, TryJustified, LeaderProposal, LeaderRound, Enters, TakesPart, WellInformed, CanLead, LeaderFor, AllCollected,
      HonestQuorum;
    LeaderReacts(sys, leader, w, o);
    EnteredTakesPart(sys, Honest(leader, Lead, o), rd);
  }

  lemma {:induction false} LeaderReacts(sys: System, leader: NodeId, w: View, o: Outcome)
    requires Inv(sys) && AllCollected(sys) && HonestQuorum(sys.sel, sys.nodes.Keys) && Leads(sys, leader, w, o)
    ensures var s := sys.nodes[leader];
      var move := TryJustified(sys.sel, sys.signed, s, o);
      && ProposalSent(LeaderProposal(sys.sel, sys.signed, s, w, o)) in move.1
      && Enters(sys.sel, s, move, LeaderRound(sys.sel, sys.signed, s, w, o))
  {
    hide Inv, AllCollected, HonestQuorum, StakeQuorum, JustifiedLock, TryJustified, LeaderProposal, LeaderRound, CanLead, Enters, Below,
      LeaderFor, Ready, WellInformed, Attentive, FirstPerSender, OneValueAt, DistinctSenders, Collected, TopLockView;
    LeaderRecords(sys, leader, w);
    LeaderWins(sys, leader, w, o, leader);
    var s := sys.nodes[leader];
    AttentiveOf(sys, leader, w, leader);
    assert s.id == leader by { OwnId(sys, leader) by { NodeOkOf(sys, leader); } }
    LeaderEnters(sys.sel, sys.signed, s, w, o);
  }

  lemma {:induction false} AttentiveOf(sys: System, leader: NodeId, w: View, id: NodeId)
    requires leader in sys.nodes && WellInformed(sys, leader, w) && id in sys.nodes
    ensures Attentive(sys.nodes[id], w) && Reports(FirstPerSender(sys.nodes[leader].viewChanges, w), id, sys.nodes[id])
  {
    hide Attentive, Reports;
  }

  lemma {:induction false} NodeOkOf(sys: System, id: NodeId)
    requires Inv(sys) && id in sys.nodes
    ensures NodeOk(sys, id)
  {
  }
}
