/** Over every run of a height, however much is delivered: an honest node's buffers stay
    within their caps, a quiet sender's votes are never lost, and few polkas of a sender
    are checked in vain. */
module BufferRuns {
  import opened Arithmetic
  import opened Committee
  import opened Records
  import opened Justification
  import opened NodeModel
  import opened FairEviction
  import opened Protocol
  import opened Agreement
  import opened AgreementRuns
  import opened Buffers
  import opened Wrappers

  ghost predicate VotesBounded(sel: Selection, atts: seq<Att>) {
    CappedAtts(atts) && NoRepeats(atts) && forall a | a in atts :: a.from in sel.members
  }

  /** All a node keeps of what others send it. */
  ghost predicate Bounded(sel: Selection, s: Node) {
    && VotesBounded(sel, s.prevotes) && VotesBounded(sel, s.roundAtts)
    && RecordsBounded(s.viewChanges)
    && RejectsBounded(sel, s.polkaRejects)
    && |s.verified| <= MAX_JUSTIFICATION_CACHE
  }

  ghost predicate AllBounded(sys: System) {
    forall id | id in sys.nodes :: sys.nodes[id].id == id && id in sys.sel.members && Bounded(sys.sel, sys.nodes[id])
  }

  // ---- what one call does to the buffers ----

  ghost predicate TookPrevote(sel: Selection, id: NodeId, before: seq<Att>, after: seq<Att>) {
    after == before || exists a: Att :: (a.from == id || a.from in sel.members) && after == RecordPrevote(before, a)
  }

  ghost predicate TookPrecommit(sel: Selection, id: NodeId, before: seq<Att>, after: seq<Att>) {
    after == before || exists a: Att :: (a.from == id || a.from in sel.members) && after == RecordAttestation(before, a)
  }

  /** At most one prevote and one precommit recorded, no view-change record touched. */
  ghost predicate Hears(sel: Selection, s: Node, t: Node) {
    && t.id == s.id && t.viewChanges == s.viewChanges && t.polkaRejects == s.polkaRejects
    && TookPrevote(sel, s.id, s.prevotes, t.prevotes)
    && TookPrecommit(sel, s.id, s.roundAtts, t.roundAtts)
    && (|s.verified| <= MAX_JUSTIFICATION_CACHE ==> |t.verified| <= MAX_JUSTIFICATION_CACHE)
  }

  lemma {:induction false} FormPolkaHears(sel: Selection, s: Node, o: Outcome)
    ensures var t := FormPolka(sel, s, o).0; Hears(sel, s, t) && t.prevotes == s.prevotes && t.verified == s.verified
  {
    hide RecordAttestation, StakeQuorum, Matching;
  }

  lemma {:induction false} PrevoteStagedHears(sel: Selection, s: Node, o: Outcome)
    ensures var t := PrevoteStaged(sel, s, o).0; Hears(sel, s, t) && t.verified == s.verified
  {
    hide FormPolka, RecordPrevote, RecordAttestation;
    if MayPrevote(s, o) {
      FormPolkaHears(sel, CastPrevote(s, o).0, o);
    }
  }

  lemma {:induction false} CacheBounded(sel: Selection, signed: set<Att>, view: View, cache: set<ViewChange>, records: seq<ViewChange>)
    requires |cache| <= MAX_JUSTIFICATION_CACHE
    ensures |FilterRecords(sel, signed, view, cache, records).cache| <= MAX_JUSTIFICATION_CACHE
  {
    if records != [] {
      CacheBounded(sel, signed, view, cache, records[..|records| - 1]);
    }
  }

  lemma {:induction false} OnJustifiedHears(sel: Selection, signed: set<Att>, s: Node, p: Proposal, o: Outcome)
    ensures Hears(sel, s, OnJustifiedProposal(sel, signed, s, p, o).0)
  {
    hide PrevoteStaged, FilterRecords, JustifiedLock, HighAllows, LockAllows, BodyBytes, RecordPrevote, RecordAttestation;
    var (valid, cache) := ValidJustification(sel, signed, p.view, s.verified, p.justification);
    if |s.verified| <= MAX_JUSTIFICATION_CACHE {
      CacheBounded(sel, signed, p.view, s.verified, p.justification);
    }
    if valid.Some? {
      var high := JustifiedLock(sel, signed, valid.value);
      var staged := Staged(p.view, p.header, p.body, p.justification, PolOf(high));
      PrevoteStagedHears(sel, s.(verified := cache, staged := Some(staged), view := p.view), o);
    }
  }

  lemma {:induction false} OnProposalHears(sel: Selection, signed: set<Att>, s: Node, from: NodeId, p: Proposal, o: Outcome)
    ensures Hears(sel, s, OnProposal(sel, signed, s, from, p, o).0)
  {
    hide PrevoteStaged, OnJustifiedProposal, LeaderFor, BodyBytes, RecordPrevote, RecordAttestation;
    OnJustifiedHears(sel, signed, s, p, o);
    PrevoteStagedHears(sel, s.(staged := Some(Staged(p.view, p.header, p.body, [], None))), o);
  }

  lemma {:induction false} TryJustifiedHears(sel: Selection, signed: set<Att>, s: Node, o: Outcome)
    ensures Hears(sel, s, TryJustified(sel, signed, s, o).0)
  {
    hide PrevoteStaged, BuildJustified, LeaderFor, BuiltAt, RecordPrevote, RecordAttestation;
    var t := BuildJustified(sel, signed, s, s.view, o).0;
    assert t == s.(staged := t.staged) by { BuiltOnlyStages(sel, signed, s, o); }
    PrevoteStagedHears(sel, t, o);
  }

  lemma {:induction false} BuiltOnlyStages(sel: Selection, signed: set<Att>, s: Node, o: Outcome)
    ensures var t := BuildJustified(sel, signed, s, s.view, o).0; t == s.(staged := t.staged)
  {
    BuiltShape(sel, signed, s, o);
  }

  lemma {:induction false} EnterRoundHears(sel: Selection, s: Node, o: Outcome)
    ensures Hears(sel, s, EnterRound(sel, s, o).0)
  {
    hide PrevoteStaged, LeaderFor, RecordPrevote, RecordAttestation;
    PrevoteStagedHears(sel, s, o);
    PrevoteStagedHears(sel, s.(staged := Some(Staged(0, o.ownBlock.header, o.ownBlock.body, [], None))), o);
  }

  lemma {:induction false} OnPrevoteHears(sel: Selection, signed: set<Att>, s: Node, att: Att, o: Outcome)
    ensures var t := OnPrevote(sel, signed, s, att, o).0;
      && Hears(sel, s, t)
      && (!PrevoteKnown(s.prevotes, att) && att.from in sel.members && att in signed ==>
            t.prevotes == RecordPrevote(s.prevotes, att))
  {
    hide FormPolka, RecordPrevote, RecordAttestation;
    FormPolkaHears(sel, s, o);
    FormPolkaHears(sel, s.(prevotes := RecordPrevote(s.prevotes, att)), o);
  }

  predicate IsRecordEvent(event: Event) {
    event.HearRecord? || event.ChangeView?
  }

  /** Every call but collecting a record. */
  lemma {:induction false} ReactHears(sel: Selection, signed: set<Att>, s: Node, event: Event, o: Outcome)
    requires !IsRecordEvent(event)
    ensures Hears(sel, s, React(sel, signed, s, event, o).0)
  {
    hide EnterRound, OnProposal, OnPrevote, TryJustified, RecordAttestation, RecordPrevote;
    match event {
      case Enter => EnterRoundHears(sel, s, o);
      case HearProposal(from, p) => OnProposalHears(sel, signed, s, from, p, o);
      case HearPrevote(att, value, pol) => OnPrevoteHears(sel, signed, s, att, o);
      case HearPrecommit(att) =>
      case Lead => TryJustifiedHears(sel, signed, s, o);
      case Jump(view) =>
      case Timeout(view) =>
    }
  }

  // ---- the caps ----

  lemma {:induction false} RemoveThenPush(atts: seq<Att>, at: nat, att: Att)
    requires at < |atts| && NoRepeats(atts) && att !in atts
    ensures NoRepeats(Remove(atts, at) + [att])
    ensures forall x | x in atts :: x in Remove(atts, at) + [att] || x == atts[at]
  {
    forall x | x in atts ensures x in Remove(atts, at) + [att] || x == atts[at] {
      var i :| 0 <= i < |atts| && atts[i] == x;
      assert i != at ==> Remove(atts, at)[if i < at then i else i - 1] == x;
    }
    forall i, j | 0 <= i < j < |atts| ensures (Remove(atts, at) + [att])[i] != (Remove(atts, at) + [att])[j] {
      if j == |atts| - 1 {
        assert Remove(atts, at)[i] in atts;
      }
    }
  }

  lemma {:induction false} PrevoteBounded(sel: Selection, prevotes: seq<Att>, att: Att)
    requires VotesBounded(sel, prevotes) && att.from in sel.members
    ensures VotesBounded(sel, RecordPrevote(prevotes, att))
  {
    hide RecordPrevote, Outranks, Count;
    RecordPrevoteExact(prevotes, att);
    RecordPrevoteKeeps(prevotes, att);
    var after := RecordPrevote(prevotes, att);
    if !PrevoteRefused(prevotes, att) && after != prevotes + [att] {
      var at :| 0 <= at < |prevotes| && after == Remove(prevotes, at) + [att];
      RemoveThenPush(prevotes, at, att);
    }
  }

  lemma {:induction false} PrecommitBounded(sel: Selection, atts: seq<Att>, att: Att)
    requires VotesBounded(sel, atts) && att.from in sel.members
    ensures VotesBounded(sel, RecordAttestation(atts, att))
  {
    hide RecordAttestation, Outranks, Count;
    RecordAttestationExact(atts, att);
    RecordAttestationKeeps(atts, att);
    var after := RecordAttestation(atts, att);
    if !AttestationRefused(atts, att) && after != atts + [att] {
      var at :| 0 <= at < |atts| && after == Remove(atts, at) + [att];
      RemoveThenPush(atts, at, att);
    }
  }

  lemma {:induction false} HearsBounded(sel: Selection, s: Node, t: Node)
    requires Bounded(sel, s) && Hears(sel, s, t) && s.id in sel.members
    ensures Bounded(sel, t)
  {
    hide RecordPrevote, RecordAttestation, VotesBounded;
    if t.prevotes != s.prevotes {
      var a: Att :| (a.from == s.id || a.from in sel.members) && t.prevotes == RecordPrevote(s.prevotes, a);
      PrevoteBounded(sel, s.prevotes, a);
    }
    if t.roundAtts != s.roundAtts {
      var a: Att :| (a.from == s.id || a.from in sel.members) && t.roundAtts == RecordAttestation(s.roundAtts, a);
      PrecommitBounded(sel, s.roundAtts, a);
    }
  }

  lemma {:induction false} ReactBounded(sel: Selection, signed: set<Att>, s: Node, event: Event, o: Outcome)
    requires Bounded(sel, s) && s.id in sel.members
    ensures var t := React(sel, signed, s, event, o).0; t.id == s.id && Bounded(sel, t)
  {
    hide CollectViewChange, RecordsBounded, RejectsBounded, VotesBounded;
    if !IsRecordEvent(event) {
      ReactIsHeard(sel, signed, s, event, o);
    } else if event.HearRecord? {
      CollectKeepsVotes(sel, signed, s, event.record);
      CollectBounded(sel, signed, s, event.record);
    } else {
      var made := MakeViewChange(s, event.target, o);
      if made.Some? {
        CollectKeepsVotes(sel, signed + {made.value.att}, s, made.value);
        CollectBounded(sel, signed + {made.value.att}, s, made.value);
      }
    }
  }

  lemma {:induction false} ReactIsHeard(sel: Selection, signed: set<Att>, s: Node, event: Event, o: Outcome)
    requires Bounded(sel, s) && s.id in sel.members && !IsRecordEvent(event)
    ensures var t := React(sel, signed, s, event, o).0; t.id == s.id && Bounded(sel, t)
  {
    hide React, Bounded;
    ReactHears(sel, signed, s, event, o);
    HearsBounded(sel, s, React(sel, signed, s, event, o).0);
  }

  lemma {:induction false} StepBounded(sys: System, step: Step)
    requires AllBounded(sys) && Enabled(sys, step)
    ensures AllBounded(Apply(sys, step))
  {
    hide React, Bounded;
    if step.Honest? {
      ReactBounded(sys.sel, sys.signed, sys.nodes[step.id], step.event, step.outcome);
    }
  }

  lemma {:induction false} InitialBounded(sys: System)
    requires Initial(sys)
    ensures AllBounded(sys)
  {
    forall id | id in sys.nodes ensures Bounded(sys.sel, sys.nodes[id]) {
      assert AttSenders([]) == [] && RecordSenders([]) == [];
    }
  }

  lemma {:induction false} RunBounded(sys: System, steps: seq<Step>, last: System)
    requires AllBounded(sys) && Reaches(sys, steps, last)
    ensures AllBounded(last)
    decreases |steps|
  {
    hide AllBounded, Apply;
    if steps != [] {
      StepBounded(sys, steps[0]);
      RunBounded(Apply(sys, steps[0]), steps[1..], last);
    }
  }

  /** No flood of deliveries grows an honest node's buffers past their caps. */
  lemma {:induction false} FloodBounded(sys: System, steps: seq<Step>, last: System, id: NodeId, from: NodeId)
    requires Initial(sys) && Reaches(sys, steps, last) && id in last.nodes
    ensures var s := last.nodes[id];
      && |s.prevotes| <= 8192 && |s.roundAtts| <= 8192 && |s.viewChanges| <= 8192 && |s.verified| <= 4096
      && Held(s.prevotes, from) <= 64 && Held(s.roundAtts, from) <= 64
      && Count(RecordSenders(s.viewChanges), from) <= 64 && Rejects(s, from) <= 8
      && s.polkaRejects.Keys <= MemberSet(last.sel)
      && forall r | r in s.viewChanges && r.locked.Some? :: BodyBytes(r.locked.value.body) <= MAX_BLOCK_BODY_BYTES
  {
    InitialBounded(sys);
    RunBounded(sys, steps, last);
    assert Bounded(last.sel, last.nodes[id]);
  }

  // ---- quiet senders ----

  /** The sender has signed few statements: no more than its cap and less than an even share of a buffer. */
  ghost predicate Quiet(sel: Selection, signed: set<Att>, from: NodeId) {
    var n := |SignedBy(signed, from)|;
    n <= MAX_ATTESTATIONS_PER_SENDER && n * |sel.members| < MAX_ROUND_ATTESTATIONS
  }

  lemma {:induction false} QuietBefore(sel: Selection, earlier: set<Att>, later: set<Att>, from: NodeId)
    requires earlier <= later && Quiet(sel, later, from)
    ensures Quiet(sel, earlier, from)
  {
    SubsetSize(SignedBy(earlier, from), SignedBy(later, from));
    Product(|SignedBy(earlier, from)|, |SignedBy(later, from)|, |sel.members|, |sel.members|);
  }

  /** A quiet sender with one more statement to record is below its cap. */
  lemma {:induction false} QuietHasRoom(sel: Selection, signed: set<Att>, atts: seq<Att>, att: Att)
    requires NoRepeats(atts) && att !in atts && Quiet(sel, signed, att.from)
    requires att in signed && forall a | a in atts :: a in signed
    ensures Held(atts, att.from) < MAX_ATTESTATIONS_PER_SENDER
  {
    HeldAreDistinct(atts + [att], signed, att.from);
    assert AttSenders(atts + [att]) == AttSenders(atts) + [att.from];
    CountPush(AttSenders(atts), att.from, att.from);
  }

  /** Making room never costs a quiet sender an item. */
  lemma {:induction false} RoomSparesQuiet(sel: Selection, signed: set<Att>, atts: seq<Att>, att: Att, after: seq<Att>, x: Att)
    requires VotesBounded(sel, atts) && att !in atts && MakesRoom(atts, att, after)
    requires forall a | a in atts :: a in signed
    requires x in atts && Quiet(sel, signed, x.from)
    ensures x in after
  {
    hide Count, Outranks;
    if |atts| >= MAX_ROUND_ATTESTATIONS {
      var at :| FirstOfHeaviest(AttSenders(atts), att.from, at) && after == Remove(atts, at) + [att];
      RemoveThenPush(atts, at, att);
      if x !in after {
        LoserHoldsShare(AttSenders(atts), att.from, at, sel.members);
        HeldAreDistinct(atts, signed, x.from);
        Product(Held(atts, x.from), |SignedBy(signed, x.from)|, |sel.members|, |sel.members|);
        assert false;
      }
    }
  }

  lemma {:induction false} PrevoteSparesQuiet(sel: Selection, signed: set<Att>, prevotes: seq<Att>, att: Att, x: Att)
    requires VotesBounded(sel, prevotes) && x in prevotes && Quiet(sel, signed, x.from)
    requires forall a | a in prevotes || a in RecordPrevote(prevotes, att) :: a in signed
    ensures x in RecordPrevote(prevotes, att)
  {
    hide RecordPrevote, Count, FirstOfHeaviest, Quiet, MakesRoom;
    RecordPrevoteExact(prevotes, att);
    var after := RecordPrevote(prevotes, att);
    if !PrevoteRefused(prevotes, att) {
      if Held(prevotes, att.from) < MAX_ATTESTATIONS_PER_SENDER {
        RoomSparesQuiet(sel, signed, prevotes, att, after, x);
      } else {
        var at :| OwnOldest(prevotes, att, at) && after == Remove(prevotes, at) + [att];
        RemoveThenPush(prevotes, at, att);
        assert after[|after| - 1] == att;
        if x !in after {
          QuietHasRoom(sel, signed, prevotes, att);
          assert false;
        }
      }
    }
  }

  lemma {:induction false} PrecommitSparesQuiet(sel: Selection, signed: set<Att>, atts: seq<Att>, att: Att, x: Att)
    requires VotesBounded(sel, atts) && x in atts && Quiet(sel, signed, x.from)
    requires forall a | a in atts :: a in signed
    ensures x in RecordAttestation(atts, att)
  {
    hide RecordAttestation, Count, FirstOfHeaviest, Quiet, MakesRoom;
    RecordAttestationExact(atts, att);
    if !AttestationRefused(atts, att) {
      RoomSparesQuiet(sel, signed, atts, att, RecordAttestation(atts, att), x);
    }
  }

  /** No reaction of a node costs a quiet sender a vote the node holds. */
  lemma {:induction false} HearsSparesQuiet(sel: Selection, signed: set<Att>, s: Node, t: Node, x: Att)
    requires Bounded(sel, s) && Hears(sel, s, t) && Quiet(sel, signed, x.from)
    requires forall a | a in s.prevotes || a in t.prevotes || a in s.roundAtts :: a in signed
    ensures x in s.prevotes ==> x in t.prevotes
    ensures x in s.roundAtts ==> x in t.roundAtts
  {
    hide RecordPrevote, RecordAttestation, VotesBounded, Quiet;
    if t.prevotes != s.prevotes && x in s.prevotes {
      var a :| t.prevotes == RecordPrevote(s.prevotes, a);
      PrevoteSparesQuiet(sel, signed, s.prevotes, a, x);
    }
    if t.roundAtts != s.roundAtts && x in s.roundAtts {
      var a :| t.roundAtts == RecordAttestation(s.roundAtts, a);
      PrecommitSparesQuiet(sel, signed, s.roundAtts, a, x);
    }
  }

  lemma {:induction false} ReactVotes(sel: Selection, signed: set<Att>, s: Node, event: Event, o: Outcome)
    ensures var t := React(sel, signed, s, event, o).0;
      Hears(sel, s, t) || (t.prevotes == s.prevotes && t.roundAtts == s.roundAtts)
  {
    hide CollectViewChange, Hears;
    if !IsRecordEvent(event) {
      ReactHears(sel, signed, s, event, o);
    } else if event.HearRecord? {
      CollectKeepsVotes(sel, signed, s, event.record);
    } else {
      var made := MakeViewChange(s, event.target, o);
      if made.Some? {
        CollectKeepsVotes(sel, signed + {made.value.att}, s, made.value);
      }
    }
  }

  /** One step keeps the agreement invariant and the caps. */
  lemma {:induction false} StepKeeps(sys: System, step: Step)
    requires Inv(sys) && AllBounded(sys) && Enabled(sys, step)
    ensures Inv(Apply(sys, step)) && AllBounded(Apply(sys, step))
    ensures sys.signed <= Apply(sys, step).signed && Apply(sys, step).sel == sys.sel
  {
    hide Inv, AllBounded, React;
    StepBounded(sys, step);
    match step {
      case Honest(id, event, o) => ReactKeeps(sys, id, event, o);
      case Faulty(att) => FaultyKeeps(sys, att);
    }
  }

  lemma {:induction false} HeldSigned(sys: System, id: NodeId)
    requires Inv(sys) && id in sys.nodes
    ensures forall a | a in sys.nodes[id].prevotes || a in sys.nodes[id].roundAtts :: a in sys.signed
  {
    assert NodeOk(sys, id);
  }

  lemma {:induction false} StepSparesQuiet(sys: System, step: Step, id: NodeId, x: Att)
    requires Inv(sys) && AllBounded(sys) && Enabled(sys, step) && id in sys.nodes
    requires Quiet(sys.sel, Apply(sys, step).signed, x.from)
    ensures id in Apply(sys, step).nodes
    ensures x in sys.nodes[id].prevotes ==> x in Apply(sys, step).nodes[id].prevotes
    ensures x in sys.nodes[id].roundAtts ==> x in Apply(sys, step).nodes[id].roundAtts
  {
    hide Inv, React, Bounded, Hears, Quiet;
    var next := Apply(sys, step);
    StepKeeps(sys, step);
    if step.Honest? && step.id == id {
      HeldSigned(sys, id);
      HeldSigned(next, id);
      var s, t := sys.nodes[id], next.nodes[id];
      ReactVotes(sys.sel, sys.signed, s, step.event, step.outcome);
      if Hears(sys.sel, s, t) {
        HearsSparesQuiet(sys.sel, next.signed, s, t, x);
      }
    }
  }

  lemma {:induction false} RunGrows(sys: System, steps: seq<Step>, last: System)
    requires Reaches(sys, steps, last)
    ensures sys.signed <= last.signed && last.sel == sys.sel && last.nodes.Keys == sys.nodes.Keys
    decreases |steps|
  {
    hide React;
    if steps != [] {
      RunGrows(Apply(sys, steps[0]), steps[1..], last);
    }
  }

  /** A vote of a quiet sender, once held, is held to the end of the run. */
  lemma {:induction false} QuietStays(sys: System, steps: seq<Step>, last: System, id: NodeId, x: Att)
    requires Inv(sys) && AllBounded(sys) && Reaches(sys, steps, last)
    requires id in sys.nodes && id in last.nodes && Quiet(last.sel, last.signed, x.from)
    ensures x in sys.nodes[id].prevotes ==> x in last.nodes[id].prevotes
    ensures x in sys.nodes[id].roundAtts ==> x in last.nodes[id].roundAtts
    decreases |steps|
  {
    hide Inv, AllBounded, Quiet, Apply;
    if steps != [] {
      var next := Apply(sys, steps[0]);
      StepKeeps(sys, steps[0]);
      RunGrows(next, steps[1..], last);
      QuietBefore(sys.sel, next.signed, last.signed, x.from);
      StepSparesQuiet(sys, steps[0], id, x);
      QuietStays(next, steps[1..], last, id, x);
    }
  }

  /** Delivering a signed vote of a quiet member stores it, however full the buffer is. */
  lemma {:induction false} QuietIsTaken(sys: System, id: NodeId, att: Att, o: Outcome)
    requires Inv(sys) && AllBounded(sys) && id in sys.nodes
    requires att in sys.signed && att.from in sys.sel.members && Quiet(sys.sel, sys.signed, att.from)
    ensures att.subject.PrevoteFor? && att.subject.view == att.view ==>
      att in React(sys.sel, sys.signed, sys.nodes[id], HearPrevote(att, att.subject.value, att.subject.pol), o).0.prevotes
    ensures att.subject.PrecommitFor? && att.view <= sys.nodes[id].view + ATTESTATION_VIEW_LOOKAHEAD ==>
      att in React(sys.sel, sys.signed, sys.nodes[id], HearPrecommit(att), o).0.roundAtts
  {
    hide Inv, OnPrevote, Hears, RecordPrevote, RecordAttestation, Quiet, Count, FirstOfHeaviest;
    var s := sys.nodes[id];
    HeldSigned(sys, id);
    if att.subject.PrevoteFor? {
      OnPrevoteHears(sys.sel, sys.signed, s, att, o);
      if att !in s.prevotes {
        QuietHasRoom(sys.sel, sys.signed, s.prevotes, att);
        RecordPrevoteExact(s.prevotes, att);
      } else {
        assert OnPrevote(sys.sel, sys.signed, s, att, o) == FormPolka(sys.sel, s, o) by { KnownPrevote(sys.sel, sys.signed, s, att, o); }
        FormPolkaHears(sys.sel, s, o);
      }
    } else if att.subject.PrecommitFor? {
      RecordAttestationExact(s.roundAtts, att);
      if att !in s.roundAtts {
        QuietHasRoom(sys.sel, sys.signed, s.roundAtts, att);
      }
    }
  }

  lemma {:induction false} KnownPrevote(sel: Selection, signed: set<Att>, s: Node, att: Att, o: Outcome)
    requires att in s.prevotes
    ensures OnPrevote(sel, signed, s, att, o) == FormPolka(sel, s, o)
  {
  }

  /** In every run, a signed vote that a quiet member's message delivers to an honest node
      is held by that node at every later point, whatever others send it. */
  lemma {:induction false} QuietIsHeard(sys: System, before: seq<Step>, mid: System, id: NodeId, event: Event, o: Outcome,
                                        after: seq<Step>, last: System, att: Att)
    requires Initial(sys) && Reaches(sys, before, mid) && id in mid.nodes && id in last.nodes
    requires Reaches(Apply(mid, Honest(id, event, o)), after, last)
    requires att in mid.signed && att.from in mid.sel.members && Quiet(last.sel, last.signed, att.from)
    ensures att.subject.PrevoteFor? && att.subject.view == att.view && event == HearPrevote(att, att.subject.value, att.subject.pol) ==>
      att in last.nodes[id].prevotes
    ensures att.subject.PrecommitFor? && att.view <= mid.nodes[id].view + ATTESTATION_VIEW_LOOKAHEAD && event == HearPrecommit(att) ==>
      att in last.nodes[id].roundAtts
  {
    hide Inv, AllBounded, React, Quiet;
    InitialOk(sys);
    InitialBounded(sys);
    RunsKeep(sys, before, mid);
    RunBounded(sys, before, mid);
    var step := Honest(id, event, o);
    StepKeeps(mid, step);
    RunGrows(Apply(mid, step), after, last);
    QuietBefore(mid.sel, mid.signed, last.signed, att.from);
    QuietIsTaken(mid, id, att, o);
    QuietStays(Apply(mid, step), after, last, id, att);
  }

  // ---- polkas checked in vain ----

  /** The record comes as far as a certificate check, which fails. */
  predicate PolkaFails(sel: Selection, signed: set<Att>, s: Node, r: ViewChange) {
    var held := HeldAt(s.viewChanges, r);
    && (if held.Some? then CarriesMore(s.viewChanges[held.value], r)
        else Count(RecordSenders(s.viewChanges), r.att.from) < MAX_VIEW_CHANGES_PER_SENDER)
    && (r.locked.Some? ==> LockedBodyFits(r.locked.value))
    && VerifyRecordAtt(sel, signed, r)
    && Rejects(s, r.att.from) < MAX_POLKA_REJECTS_PER_SENDER
    && r.polka.Some? && !VerifyRecordPolka(sel, signed, r)
  }

  /** A check of a polka from `from` fails in this step of node `id`. */
  predicate FailsIn(sys: System, step: Step, id: NodeId, from: NodeId) {
    && step.Honest? && step.id == id && id in sys.nodes
    && match step.event
       case HearRecord(r) => r.att.from == from && PolkaFails(sys.sel, sys.signed, sys.nodes[id], r)
       case ChangeView(target) =>
         var made := MakeViewChange(sys.nodes[id], target, step.outcome);
         made.Some? && made.value.att.from == from
         && PolkaFails(sys.sel, sys.signed + {made.value.att}, sys.nodes[id], made.value)
       case _ => false
  }

  /** How many checks of polkas from `from` fail at node `id` along the run. */
  function FailedChecks(sys: System, steps: seq<Step>, id: NodeId, from: NodeId): nat
    decreases |steps|
  {
    if steps == [] || !Enabled(sys, steps[0]) then 0
    else (if FailsIn(sys, steps[0], id, from) then 1 else 0) + FailedChecks(Apply(sys, steps[0]), steps[1..], id, from)
  }

  lemma {:induction false} CollectCounts(sel: Selection, signed: set<Att>, s: Node, r: ViewChange, from: NodeId)
    ensures Rejects(CollectViewChange(sel, signed, s, r), from) ==
      Rejects(s, from) + if r.att.from == from && PolkaFails(sel, signed, s, r) then 1 else 0
  {
    hide HeldAt, CarriesMore, VerifyRecordAtt, VerifyRecordPolka, LockedBodyFits, Count, Lightened;
  }

  lemma {:induction false} StepCounts(sys: System, step: Step, id: NodeId, from: NodeId)
    requires Enabled(sys, step) && id in sys.nodes
    ensures Rejects(Apply(sys, step).nodes[id], from) == Rejects(sys.nodes[id], from) + if FailsIn(sys, step, id, from) then 1 else 0
  {
    hide CollectViewChange, PolkaFails;
    if step.Honest? && step.id == id {
      var s := sys.nodes[id];
      if !IsRecordEvent(step.event) {
        RejectsUntouched(sys.sel, sys.signed, s, step.event, step.outcome);
      } else if step.event.HearRecord? {
        CollectCounts(sys.sel, sys.signed, s, step.event.record, from);
      } else {
        var made := MakeViewChange(s, step.event.target, step.outcome);
        if made.Some? {
          CollectCounts(sys.sel, sys.signed + {made.value.att}, s, made.value, from);
        }
      }
    }
  }

  lemma {:induction false} RejectsUntouched(sel: Selection, signed: set<Att>, s: Node, event: Event, o: Outcome)
    requires !IsRecordEvent(event)
    ensures React(sel, signed, s, event, o).0.polkaRejects == s.polkaRejects
  {
    hide React;
    ReactHears(sel, signed, s, event, o);
  }

  lemma {:induction false} RunCounts(sys: System, steps: seq<Step>, last: System, id: NodeId, from: NodeId)
    requires Reaches(sys, steps, last) && id in sys.nodes && id in last.nodes
    ensures Rejects(last.nodes[id], from) == Rejects(sys.nodes[id], from) + FailedChecks(sys, steps, id, from)
    decreases |steps|
  {
    hide React, FailsIn;
    if steps != [] {
      StepCounts(sys, steps[0], id, from);
      RunCounts(Apply(sys, steps[0]), steps[1..], last, id, from);
    }
  }

  /** In every run at most eight certificate checks per sender are wasted on a node. */
  lemma {:induction false} RejectBudget(sys: System, steps: seq<Step>, last: System, id: NodeId, from: NodeId)
    requires Initial(sys) && Reaches(sys, steps, last) && id in sys.nodes && id in last.nodes
    ensures FailedChecks(sys, steps, id, from) == Rejects(last.nodes[id], from) <= MAX_POLKA_REJECTS_PER_SENDER
  {
    FloodBounded(sys, steps, last, id, from);
    RunCounts(sys, steps, last, id, from);
    assert FreshNode(sys.nodes[id], id);
  }
}
