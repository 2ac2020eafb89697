/** View-change records cannot be forged: whatever an honest node holds, caches or acts on
    was signed by its sender, so a justified proposal is staged only after a quorum asked
    for its view. */
module SignedRecords {
  import opened Committee
  import opened Records
  import opened Justification
  import opened Stripping
  import opened Filtering
  import opened NodeModel
  import opened FairEviction
  import opened Protocol
  import opened Agreement
  import opened AgreementRuns
  import opened Wrappers

  /** The sender, a member, signed a statement naming the record's view, lock and polka. */
  predicate SignedBySender(sel: Selection, signed: set<Att>, r: ViewChange) {
    && r.att in signed && r.att.from in sel.members
    && r.att.subject == ViewChangeFor(r.targetView, if r.locked.Some? then r.lockView else 0,
         if r.locked.Some? then Some(r.locked.value.header.value) else None, r.polkaDigest)
  }

  /** Some member of `q` each signed that it moves to view `w`. */
  ghost predicate AskedFor(sel: Selection, signed: set<Att>, w: View, q: set<NodeId>) {
    forall id | id in q :: id in sel.members && exists a :: a in signed && Asks(a, id, w)
  }

  predicate Asks(a: Att, id: NodeId, w: View) {
    a.from == id && a.subject.ViewChangeFor? && a.subject.targetView == w
  }

  /** A seated stake quorum of members signed that they move to view `w`. */
  ghost predicate QuorumAsked(sel: Selection, signed: set<Att>, w: View) {
    exists q :: Quorum(sel, q) && Seats(sel, q, sel.tau) && AskedFor(sel, signed, w, q)
  }

  ghost predicate NodeSigned(sel: Selection, signed: set<Att>, s: Node) {
    && (forall r | r in s.viewChanges :: SignedBySender(sel, signed, r))
    && (forall r | r in s.verified :: VerifyRecord(sel, signed, r))
    && (s.staged.Some? && s.staged.value.justification != [] ==> QuorumAsked(sel, signed, s.staged.value.view))
  }

  ghost predicate AllSigned(sys: System) {
    forall id | id in sys.nodes :: NodeSigned(sys.sel, sys.signed, sys.nodes[id])
  }

  lemma {:induction false} QuorumAskedStays(sel: Selection, earlier: set<Att>, later: set<Att>, w: View)
    requires earlier <= later && QuorumAsked(sel, earlier, w)
    ensures QuorumAsked(sel, later, w)
  {
    var q :| Quorum(sel, q) && Seats(sel, q, sel.tau) && AskedFor(sel, earlier, w, q);
    forall id | id in q ensures exists a :: a in later && Asks(a, id, w) {
      var a :| a in earlier && Asks(a, id, w);
    }
    assert AskedFor(sel, later, w, q);
  }

  lemma {:induction false} VerifyStays(sel: Selection, earlier: set<Att>, later: set<Att>, r: ViewChange)
    requires earlier <= later && VerifyRecord(sel, earlier, r)
    ensures VerifyRecord(sel, later, r)
  {
  }

  lemma {:induction false} NodeSignedStays(sel: Selection, earlier: set<Att>, later: set<Att>, s: Node)
    requires earlier <= later && NodeSigned(sel, earlier, s)
    ensures NodeSigned(sel, later, s)
  {
    hide QuorumAsked, VerifyRecord;
    forall r | r in s.verified ensures VerifyRecord(sel, later, r) { VerifyStays(sel, earlier, later, r); }
    if s.staged.Some? && s.staged.value.justification != [] {
      QuorumAskedStays(sel, earlier, later, s.staged.value.view);
    }
  }

  /** Records for one view that reach the stake threshold show that a quorum asked for it. */
  lemma {:induction false} RecordsAsk(sel: Selection, signed: set<Att>, w: View, records: seq<ViewChange>)
    requires forall r | r in records :: SignedBySender(sel, signed, r) && r.targetView == w
    requires StakeQuorum(sel, RecordSigners(records))
    ensures QuorumAsked(sel, signed, w)
  {
    hide Quorum, StakeQuorum;
    var q := RecordSigners(records);
    StakeQuorumExact(sel, q);
    forall id | id in q ensures id in sel.members && exists a :: a in signed && Asks(a, id, w) {
      var r :| r in records && r.att.from == id;
      assert Asks(r.att, id, w);
    }
    assert AskedFor(sel, signed, w, q);
  }

  lemma {:induction false} FilterSigned(sel: Selection, signed: set<Att>, w: View, cache: set<ViewChange>, records: seq<ViewChange>)
    requires forall r | r in cache :: VerifyRecord(sel, signed, r)
    ensures var f := FilterRecords(sel, signed, w, cache, records);
      && (forall r | r in f.valid :: VerifyRecord(sel, signed, r) && r.targetView == w)
      && (forall r | r in f.cache :: VerifyRecord(sel, signed, r))
  {
    hide VerifyRecord, Seen, VerificationCap, VerificationCost;
    if records != [] {
      FilterSigned(sel, signed, w, cache, records[..|records| - 1]);
    }
  }

  /** What the receiver accepts as a justification, a quorum signed. */
  lemma {:induction false} AcceptedIsSigned(sel: Selection, signed: set<Att>, w: View, cache: set<ViewChange>, records: seq<ViewChange>)
    requires forall r | r in cache :: VerifyRecord(sel, signed, r)
    ensures var (valid, after) := ValidJustification(sel, signed, w, cache, records);
      && (forall r | r in after :: VerifyRecord(sel, signed, r))
      && (valid.Some? ==> QuorumAsked(sel, signed, w) && forall r | r in valid.value :: SignedBySender(sel, signed, r))
  {
    hide StakeQuorum, BackedTop, Retained, SignedBySender, QuorumAsked, FilterRecords, VerifyRecord;
    FilterSigned(sel, signed, w, cache, records);
    var f := FilterRecords(sel, signed, w, cache, records);
    RetainSubset(BackedTop(f.valid), f.valid);
    var (valid, after) := ValidJustification(sel, signed, w, cache, records);
    if valid.Some? {
      forall r | r in valid.value ensures SignedBySender(sel, signed, r) { VerifiedIsSigned(sel, signed, r); }
      RecordsAsk(sel, signed, w, valid.value);
    }
  }

  // ---- every call keeps it ----

  /** The call touches neither the records nor what is staged. */
  predicate SameRecords(s: Node, t: Node) {
    t.viewChanges == s.viewChanges && t.verified == s.verified && t.staged == s.staged
  }

  lemma {:induction false} FormPolkaSame(sel: Selection, s: Node, o: Outcome)
    ensures SameRecords(s, FormPolka(sel, s, o).0)
  {
    hide StakeQuorum, Matching, RecordAttestation;
  }

  lemma {:induction false} PrevoteStagedSame(sel: Selection, s: Node, o: Outcome)
    ensures SameRecords(s, PrevoteStaged(sel, s, o).0)
  {
    hide FormPolka, RecordPrevote;
    if MayPrevote(s, o) {
      FormPolkaSame(sel, CastPrevote(s, o).0, o);
    }
  }

  lemma {:induction false} OnJustifiedSigned(sel: Selection, signed: set<Att>, s: Node, p: Proposal, o: Outcome)
    requires NodeSigned(sel, signed, s)
    ensures NodeSigned(sel, signed, OnJustifiedProposal(sel, signed, s, p, o).0)
  {
    hide PrevoteStaged, ValidJustification, JustifiedLock, HighAllows, LockAllows, SignedBySender, QuorumAsked, BodyBytes;
    AcceptedIsSigned(sel, signed, p.view, s.verified, p.justification);
    var (valid, cache) := ValidJustification(sel, signed, p.view, s.verified, p.justification);
    if valid.Some? {
      var high := JustifiedLock(sel, signed, valid.value);
      var staged := Staged(p.view, p.header, p.body, p.justification, PolOf(high));
      PrevoteStagedSame(sel, s.(verified := cache, staged := Some(staged), view := p.view), o);
    }
  }

  lemma {:induction false} OnProposalSigned(sel: Selection, signed: set<Att>, s: Node, from: NodeId, p: Proposal, o: Outcome)
    requires NodeSigned(sel, signed, s)
    ensures NodeSigned(sel, signed, OnProposal(sel, signed, s, from, p, o).0)
  {
    hide PrevoteStaged, OnJustifiedProposal, LeaderFor, SignedBySender, QuorumAsked, BodyBytes;
    OnJustifiedSigned(sel, signed, s, p, o);
    PrevoteStagedSame(sel, s.(staged := Some(Staged(p.view, p.header, p.body, [], None))), o);
  }

  /** A leader stages a justification only out of records a quorum signed. */
  lemma {:induction false} BuiltSigned(sel: Selection, signed: set<Att>, s: Node, w: View, o: Outcome)
    requires NodeSigned(sel, signed, s)
    ensures var t := BuildJustified(sel, signed, s, w, o).0;
      t == s || (t == s.(staged := t.staged) && t.staged.Some? && t.staged.value.view == w && QuorumAsked(sel, signed, w))
  {
    hide JustifiedLock, CarriedJustification, WithBody, SignedBySender, QuorumAsked, StakeQuorum, BodyBytes;
    var records := FirstPerSender(s.viewChanges, w);
    if StakeQuorum(sel, RecordSigners(records)) {
      RecordsAsk(sel, signed, w, records);
    }
  }

  lemma {:induction false} TryJustifiedSigned(sel: Selection, signed: set<Att>, s: Node, o: Outcome)
    requires NodeSigned(sel, signed, s)
    ensures NodeSigned(sel, signed, TryJustified(sel, signed, s, o).0)
  {
    hide PrevoteStaged, BuildJustified, LeaderFor, SignedBySender, QuorumAsked;
    BuiltSigned(sel, signed, s, s.view, o);
    PrevoteStagedSame(sel, BuildJustified(sel, signed, s, s.view, o).0, o);
  }

  lemma {:induction false} EnterRoundSigned(sel: Selection, signed: set<Att>, s: Node, o: Outcome)
    requires NodeSigned(sel, signed, s)
    ensures NodeSigned(sel, signed, EnterRound(sel, s, o).0)
  {
    hide PrevoteStaged, LeaderFor, SignedBySender, QuorumAsked;
    PrevoteStagedSame(sel, s, o);
    PrevoteStagedSame(sel, s.(staged := Some(Staged(0, o.ownBlock.header, o.ownBlock.body, [], None))), o);
  }

  lemma {:induction false} OnPrevoteSame(sel: Selection, signed: set<Att>, s: Node, att: Att, o: Outcome)
    ensures SameRecords(s, OnPrevote(sel, signed, s, att, o).0)
  {
    hide FormPolka, RecordPrevote;
    FormPolkaSame(sel, s, o);
    FormPolkaSame(sel, s.(prevotes := RecordPrevote(s.prevotes, att)), o);
  }

  lemma {:induction false} LightenedSigned(sel: Selection, signed: set<Att>, records: seq<ViewChange>, r: ViewChange)
    requires SignedBySender(sel, signed, r)
    ensures SignedBySender(sel, signed, Lightened(records, r))
  {
  }

  lemma {:induction false} CollectSigned(sel: Selection, signed: set<Att>, s: Node, r: ViewChange)
    requires NodeSigned(sel, signed, s)
    ensures NodeSigned(sel, signed, CollectViewChange(sel, signed, s, r))
  {
    hide CollectViewChange, VerifyRecordAtt, Lightened, QuorumAsked, SignedBySender;
    CollectKeepsVotes(sel, signed, s, r);
    if VerifyRecordAtt(sel, signed, r) {
      AttIsSigned(sel, signed, r);
      LightenedSigned(sel, signed, s.viewChanges, r);
    }
    CollectedFrom(sel, signed, s, r);
  }

  /** Whatever is held after a record was held before, or is the record, verified, perhaps lighter. */
  lemma {:induction false} CollectedFrom(sel: Selection, signed: set<Att>, s: Node, r: ViewChange)
    ensures forall h | h in CollectViewChange(sel, signed, s, r).viewChanges ::
      h in s.viewChanges || (VerifyRecordAtt(sel, signed, r) && (h == r || h == Lightened(s.viewChanges, r)))
  {
    hide CarriesMore, LockedBodyFits, VerifyRecordAtt, PolkaAdmitted, Count, Lightened, Remove, Victim;
    var t := CollectViewChange(sel, signed, s, r);
    assert PolkaAdmitted(sel, signed, s, r).1.viewChanges == s.viewChanges by { AdmittedKeeps(sel, signed, s, r); }
    var held := HeldAt(s.viewChanges, r);
    if held.Some? {
      assert forall h | h in t.viewChanges :: h in s.viewChanges || h == r;
    } else if |s.viewChanges| >= MAX_ROUND_VIEW_CHANGES {
      RemoveKeeps(s.viewChanges, Victim(RecordSenders(s.viewChanges), r.att.from));
    }
  }

  lemma {:induction false} AdmittedKeeps(sel: Selection, signed: set<Att>, s: Node, r: ViewChange)
    ensures PolkaAdmitted(sel, signed, s, r).1.viewChanges == s.viewChanges
  {
    hide VerifyRecordPolka;
  }

  lemma {:induction false} RemoveKeeps<T>(items: seq<T>, i: nat)
    requires i < |items|
    ensures forall x | x in Remove(items, i) :: x in items
  {
  }

  lemma {:induction false} AttIsSigned(sel: Selection, signed: set<Att>, r: ViewChange)
    requires VerifyRecordAtt(sel, signed, r)
    ensures SignedBySender(sel, signed, r)
  {
  }

  lemma {:induction false} VerifiedIsSigned(sel: Selection, signed: set<Att>, r: ViewChange)
    requires VerifyRecord(sel, signed, r)
    ensures SignedBySender(sel, signed, r)
  {
  }

  lemma {:induction false} ReactSigned(sel: Selection, signed: set<Att>, s: Node, event: Event, o: Outcome)
    requires NodeSigned(sel, signed, s)
    ensures var (t, sent) := React(sel, signed, s, event, o); NodeSigned(sel, signed + Signatures(sent), t)
  {
    hide EnterRound, OnProposal, OnPrevote, CollectViewChange, TryJustified, MakeViewChange, RecordAttestation, NodeSigned;
    var (t, sent) := React(sel, signed, s, event, o);
    if event.ChangeView? {
      var made := MakeViewChange(s, event.target, o);
      if made.Some? {
        var later := signed + {made.value.att};
        NodeSignedStays(sel, signed, later, s);
        CollectSigned(sel, later, s, made.value);
        assert Signatures([ViewChangeSent(made.value)]) == {made.value.att};
      } else {
        NodeSignedStays(sel, signed, signed + Signatures(sent), t);
      }
    } else {
      match event {
        case Enter => EnterRoundSigned(sel, signed, s, o);
        case HearProposal(from, p) => OnProposalSigned(sel, signed, s, from, p, o);
        case HearPrevote(att, value, pol) =>
          OnPrevoteSame(sel, signed, s, att, o);
          SameStays(sel, signed, s, t);
        case HearPrecommit(att) => SameStays(sel, signed, s, t);
        case HearRecord(r) => CollectSigned(sel, signed, s, r);
        case Lead => TryJustifiedSigned(sel, signed, s, o);
        case Jump(view) => SameStays(sel, signed, s, t);
        case Timeout(view) => SameStays(sel, signed, s, t);
      }
      NodeSignedStays(sel, signed, signed + Signatures(sent), t);
    }
  }

  lemma {:induction false} SameStays(sel: Selection, signed: set<Att>, s: Node, t: Node)
    requires NodeSigned(sel, signed, s) && SameRecords(s, t)
    ensures NodeSigned(sel, signed, t)
  {
  }

  lemma {:induction false} StepSigned(sys: System, step: Step)
    requires AllSigned(sys) && Enabled(sys, step)
    ensures AllSigned(Apply(sys, step))
  {
    hide React, NodeSigned;
    var next := Apply(sys, step);
    if step.Honest? {
      ReactSigned(sys.sel, sys.signed, sys.nodes[step.id], step.event, step.outcome);
    }
    forall id | id in next.nodes ensures NodeSigned(next.sel, next.signed, next.nodes[id]) {
      if !(step.Honest? && step.id == id) {
        NodeSignedStays(sys.sel, sys.signed, next.signed, sys.nodes[id]);
      }
    }
  }

  lemma {:induction false} RunSigned(sys: System, steps: seq<Step>, last: System)
    requires AllSigned(sys) && Reaches(sys, steps, last)
    ensures AllSigned(last)
    decreases |steps|
  {
    hide AllSigned, Apply;
    if steps != [] {
      StepSigned(sys, steps[0]);
      RunSigned(Apply(sys, steps[0]), steps[1..], last);
    }
  }

  /** In every run: a justified proposal staged at view `w` has behind it a seated stake quorum of
      members that signed a move to `w`, and every record an honest node holds or remembers was
      signed by its sender. */
  lemma {:induction false} NoForgedViewChange(sys: System, steps: seq<Step>, last: System, id: NodeId)
    requires Initial(sys) && Reaches(sys, steps, last) && id in last.nodes
    ensures var s := last.nodes[id];
      && (s.staged.Some? && s.staged.value.justification != [] ==> QuorumAsked(last.sel, last.signed, s.staged.value.view))
      && (forall r | r in s.viewChanges || r in s.verified :: SignedBySender(last.sel, last.signed, r))
  {
    hide SignedBySender, QuorumAsked, VerifyRecord;
    assert AllSigned(sys);
    RunSigned(sys, steps, last);
    var s := last.nodes[id];
    assert NodeSigned(last.sel, last.signed, s);
    forall r | r in s.verified ensures SignedBySender(last.sel, last.signed, r) { VerifiedIsSigned(last.sel, last.signed, r); }
  }

  /** In every run, any two honest nodes give the same verdict on the same justification, whatever
      each has verified before, as long as its verification work fits the cap. */
  lemma {:induction false} VerdictsAgree(sys: System, steps: seq<Step>, last: System, i: NodeId, j: NodeId, w: View, records: seq<ViewChange>)
    requires Initial(sys) && Reaches(sys, steps, last) && i in last.nodes && j in last.nodes
    requires TotalCost(records) <= VerificationCap(last.sel)
    ensures ValidJustification(last.sel, last.signed, w, last.nodes[i].verified, records).0
         == ValidJustification(last.sel, last.signed, w, last.nodes[j].verified, records).0
  {
    hide ValidJustification, VerifyRecord, SignedBySender, QuorumAsked;
    assert AllSigned(sys);
    RunSigned(sys, steps, last);
    assert NodeSigned(last.sel, last.signed, last.nodes[i]) && NodeSigned(last.sel, last.signed, last.nodes[j]);
    CacheTransparent(last.sel, last.signed, w, last.nodes[i].verified, records);
    CacheTransparent(last.sel, last.signed, w, last.nodes[j].verified, records);
  }

  /** Among those that asked is an honest member, so no minority moves a view by itself. */
  lemma {:induction false} HonestAsked(sys: System, steps: seq<Step>, last: System, w: View) returns (id: NodeId, a: Att)
    requires Initial(sys) && Reaches(sys, steps, last) && QuorumAsked(last.sel, last.signed, w)
    ensures id in last.nodes && a in last.signed && Asks(a, id, w)
  {
    InitialOk(sys);
    RunsKeep(sys, steps, last);
    var q :| Quorum(last.sel, q) && Seats(last.sel, q, last.sel.tau) && AskedFor(last.sel, last.signed, w, q);
    id := QuorumsShareHonest(last.sel, q, q, MemberSet(last.sel) - last.nodes.Keys);
    a :| a in last.signed && Asks(a, id, w);
  }
}
