/** The validator object: its fields, updated in place, follow the value model. */
module DevNodeObject {
  import opened Committee
  import opened Records
  import opened Justification
  import M = NodeModel
  import opened NodeModel
  import opened FairEviction
  import opened Buffers
  import opened Stripping
  import opened Wrappers

  class DevNode {
    const id: NodeId
    var view: View
    var staged: Option<Staged>
    var lock: Option<Lock>
    var prevoted: map<View, Value>
    var prevotes: seq<Att>
    var roundAtts: seq<Att>
    var viewChanges: seq<ViewChange>
    var polkaRejects: map<NodeId, nat>
    var verified: set<ViewChange>
    var prevoteMark: Option<PrevoteMark>
    var signMark: Option<SignMark>
    var restartHold: nat
    var fatal: bool

    function State(): Node
      reads this
    {
      Node(id, view, staged, lock, prevoted, prevotes, roundAtts, viewChanges, polkaRejects, verified,
           prevoteMark, signMark, restartHold, fatal)
    }

    constructor (id: NodeId, restartHold: nat)
      ensures this.id == id && this.restartHold == restartHold
      ensures view == 0 && staged.None? && lock.None? && prevoted == map[] && prevotes == [] && roundAtts == []
      ensures viewChanges == [] && polkaRejects == map[] && verified == {} && prevoteMark.None? && signMark.None? && !fatal
    {
      this.id := id;
      this.restartHold := restartHold;
      view, staged, lock, prevoted, prevotes, roundAtts := 0, None, None, map[], [], [];
      viewChanges, polkaRejects, verified := [], map[], {};
      prevoteMark, signMark, fatal := None, None, false;
    }

    method RecordPrevote(att: Att)
      modifies this`prevotes
      ensures prevotes == M.RecordPrevote(old(prevotes), att)
      ensures CappedAtts(old(prevotes)) ==> CappedAtts(prevotes)
      ensures CappedAtts(old(prevotes)) ==>
        if PrevoteRefused(old(prevotes), att) then prevotes == old(prevotes) else PrevoteTaken(old(prevotes), att, prevotes)
    {
      if CappedAtts(prevotes) {
        RecordPrevoteExact(prevotes, att);
      }
      if PrevoteKnown(prevotes, att) {
        return;
      }
      if Count(AttSenders(prevotes), att.from) >= MAX_ATTESTATIONS_PER_SENDER {
        var oldest := OldestOf(prevotes, att.from);
        if oldest.None? || prevotes[oldest.value].view >= att.view {
          return;
        }
        prevotes := Remove(prevotes, oldest.value);
      }
      if |prevotes| >= MAX_ROUND_ATTESTATIONS {
        prevotes := EvictAtt(prevotes, att.from);
      }
      prevotes := prevotes + [att];
    }

    method RecordAttestation(att: Att)
      modifies this`roundAtts
      ensures roundAtts == M.RecordAttestation(old(roundAtts), att)
      ensures CappedAtts(old(roundAtts)) ==> CappedAtts(roundAtts)
      ensures CappedAtts(old(roundAtts)) ==>
        if AttestationRefused(old(roundAtts), att) then roundAtts == old(roundAtts) else MakesRoom(old(roundAtts), att, roundAtts)
    {
      if CappedAtts(roundAtts) {
        RecordAttestationExact(roundAtts, att);
      }
      if att in roundAtts || Count(AttSenders(roundAtts), att.from) >= MAX_ATTESTATIONS_PER_SENDER {
        return;
      }
      if |roundAtts| >= MAX_ROUND_ATTESTATIONS {
        roundAtts := EvictAtt(roundAtts, att.from);
      }
      roundAtts := roundAtts + [att];
    }

    /** `guard_height`: write the sign watermark, or refuse. */
    method GuardHeight(value: Value, at: View, o: Outcome) returns (ok: bool)
      modifies this`signMark, this`fatal
      ensures ok == (!old(fatal) && restartHold == 0 && SignPermitted(old(signMark), at, value) && o.signStored)
      ensures signMark == if ok then Some(SignMark(at, value)) else old(signMark)
      ensures fatal == (old(fatal) || (restartHold == 0 && SignPermitted(old(signMark), at, value) && !o.signStored))
    {
      if fatal || restartHold > 0 || !SignPermitted(signMark, at, value) {
        return false;
      }
      if !o.signStored {
        fatal := true;
        return false;
      }
      signMark := Some(SignMark(at, value));
      ok := true;
    }

    method PrecommitStaged(o: Outcome) returns (sent: seq<Message>)
      modifies this
      ensures (State(), sent) == M.PrecommitStaged(old(State()), o)
    {
      sent := [];
      if staged.Some? {
        var value := staged.value.header.value;
        var ok := GuardHeight(value, staged.value.view, o);
        if ok && o.drawn {
          var att := Att(id, staged.value.view, PrecommitFor(value));
          RecordAttestation(att);
          sent := [PrecommitSent(att)];
        }
      }
    }

    method FormPolkaAndPrecommit(sel: Selection, o: Outcome) returns (sent: seq<Message>)
      modifies this
      ensures (State(), sent) == M.FormPolka(sel, old(State()), o)
    {
      sent := [];
      if staged.None? || (lock.Some? && lock.value.view >= staged.value.view) {
        return;
      }
      var subject := PrevoteSubject(staged.value);
      var votes := Matching(prevotes, staged.value.view, subject);
      if !StakeQuorum(sel, Signers(votes)) || !o.aggregated {
        return;
      }
      if !o.lockStored {
        fatal := true;
        return;
      }
      lock := Some(Lock(staged.value.view, staged.value.pol,
                        LockedBlock(staged.value.header, staged.value.body), Cert(subject, votes)));
      sent := PrecommitStaged(o);
    }

    method PrevoteStaged(sel: Selection, o: Outcome) returns (sent: seq<Message>)
      modifies this
      ensures (State(), sent) == M.PrevoteStaged(sel, old(State()), o)
    {
      sent := [];
      if fatal || staged.None? {
        return;
      }
      var value, at, pol := staged.value.header.value, staged.value.view, staged.value.pol;
      if at in prevoted && prevoted[at] != value {
        return;
      }
      if lock.Some? && at > lock.value.view && (pol.None? || pol.value < lock.value.view) {
        return;
      }
      if restartHold > 0 {
        return;
      }
      var subject := PrevoteFor(at, value, pol);
      if !PrevotePermitted(prevoteMark, at, subject) || !o.prevoteStored {
        return;
      }
      assert MayPrevote(State(), o);
      sent := CastPrevote(o);
      if sent != [] {
        var more := FormPolkaAndPrecommit(sel, o);
        sent := sent + more;
      }
    }

    method CastPrevote(o: Outcome) returns (sent: seq<Message>)
      requires MayPrevote(State(), o)
      modifies this
      ensures (State(), sent) == M.CastPrevote(old(State()), o)
    {
      sent := [];
      var subject := PrevoteSubject(staged.value);
      prevoteMark := Some(PrevoteMark(staged.value.view, subject));
      if o.drawn {
        var att := Att(id, staged.value.view, subject);
        prevoted := prevoted[staged.value.view := staged.value.header.value];
        RecordPrevote(att);
        sent := [PrevoteSent(att)];
      }
    }

    method StageFrom(block: LockedBlock, at: View, pol: Option<View>, o: Outcome) returns (ok: bool)
      modifies this`staged
      ensures ok == M.StageFrom(old(State()), block, at, pol, o).Some?
      ensures State() == if ok then M.StageFrom(old(State()), block, at, pol, o).value else old(State())
      ensures ok ==> staged.Some? && staged.value.body == block.body && BodyBytes(staged.value.body) <= MAX_BLOCK_BODY_BYTES
    {
      ok := block in o.accepted && BodyBytes(block.body) <= MAX_BLOCK_BODY_BYTES;
      if ok {
        staged := Some(Staged(at, block.header, block.body, [], pol));
      }
    }

    method OnProposal(sel: Selection, signed: set<Att>, from: NodeId, p: Proposal, o: Outcome) returns (sent: seq<Message>)
      modifies this
      ensures (State(), sent) == M.OnProposal(sel, signed, old(State()), from, p, o)
    {
      sent := [];
      if !o.authentic {
        return;
      }
      if p.justification != [] {
        sent := OnJustifiedProposal(sel, signed, p, o);
        return;
      }
      if LeaderFor(sel, p.view) != from || p.view != view || staged.Some? {
        return;
      }
      if p.header.proposer != LeaderFor(sel, p.view) || (lock.Some? && LockValue(lock.value) != p.header.value) {
        return;
      }
      var ok := StageFrom(LockedBlock(p.header, p.body), p.view, None, o);
      if ok {
        sent := PrevoteStaged(sel, o);
      }
    }

    /** The metered filter loop over received records; it also fills the cache of verified records. */
    method ValidJustification(sel: Selection, signed: set<Att>, records: seq<ViewChange>, at: View)
      returns (valid: Option<seq<ViewChange>>)
      modifies this`verified
      ensures (valid, verified) == Justification.ValidJustification(sel, signed, at, old(verified), records)
    {
      if |records| > |sel.members| {
        return None;
      }
      var cap := VerificationCap(sel);
      var kept: seq<ViewChange>, spent: nat, stopped := [], 0, false;
      ghost var cache := verified;
      var i := 0;
      while i < |records| && !stopped
        invariant i <= |records|
        invariant FilterRecords(sel, signed, at, cache, records[..i]) == Filter(kept, spent, verified, stopped)
        decreases |records| - i
      {
        var record := records[i];
        assert records[..i + 1][..i] == records[..i];
        i := i + 1;
        if record.targetView != at || Seen(kept, record.att.from) {
          continue;
        }
        if record in verified {
          if record.att.from in sel.members {
            kept := kept + [record];
          }
          continue;
        }
        if spent + VerificationCost(record) > cap {
          stopped := true;
          break;
        }
        spent := spent + VerificationCost(record);
        if !VerifyRecord(sel, signed, record) {
          continue;
        }
        verified := Remember(verified, record);
        kept := kept + [record];
      }
      StoppedStays(sel, signed, at, cache, records, i);
      var top := BackedTop(kept);
      kept := Retain(top, kept);
      valid := if StakeQuorum(sel, RecordSigners(kept)) then Some(kept) else None;
    }

    method OnJustifiedProposal(sel: Selection, signed: set<Att>, p: Proposal, o: Outcome) returns (sent: seq<Message>)
      modifies this
      ensures (State(), sent) == M.OnJustifiedProposal(sel, signed, old(State()), p, o)
    {
      hide Justification.ValidJustification, JustifiedLock, M.PrevoteStaged, HighAllows, LockAllows, BodyBytes;
      sent := [];
      if p.view < view {
        return;
      }
      var records := ValidJustification(sel, signed, p.justification, p.view);
      if records.None? || (p.view in prevoted && prevoted[p.view] != p.header.value) {
        return;
      }
      var high := FindJustifiedLock(sel, signed, records.value);
      if !HighAllows(sel, high, p) || !LockAllows(lock, high, p.header.value) {
        return;
      }
      var ok := StageFrom(LockedBlock(p.header, p.body), p.view, PolOf(high), o);
      if !ok {
        return;
      }
      staged := Some(staged.value.(justification := p.justification));
      view := p.view;
      sent := PrevoteStaged(sel, o);
    }

    /** Every record held has a verified signature, a verified polka for its lock, and a fitting body. */
    ghost predicate HoldsCollected(sel: Selection, signed: set<Att>)
      reads this
    {
      forall r | r in viewChanges :: Collected(sel, signed, r)
    }

    method PolkaAdmitted(sel: Selection, signed: set<Att>, r: ViewChange) returns (ok: bool)
      modifies this`polkaRejects
      ensures (ok, State()) == M.PolkaAdmitted(sel, signed, old(State()), r)
      ensures ok <==> old(Rejects(State(), r.att.from)) < MAX_POLKA_REJECTS_PER_SENDER && VerifyRecordPolka(sel, signed, r)
      ensures forall id | id != r.att.from :: Rejects(State(), id) == old(Rejects(State(), id))
      ensures old(Rejects(State(), r.att.from)) <= Rejects(State(), r.att.from)
      ensures old(Rejects(State(), r.att.from)) <= MAX_POLKA_REJECTS_PER_SENDER ==>
        Rejects(State(), r.att.from) <= MAX_POLKA_REJECTS_PER_SENDER
    {
      if Rejects(State(), r.att.from) >= MAX_POLKA_REJECTS_PER_SENDER {
        return false;
      }
      if VerifyRecordPolka(sel, signed, r) {
        return true;
      }
      if r.polka.Some? {
        var count := if r.att.from in polkaRejects then polkaRejects[r.att.from] else 0;
        polkaRejects := polkaRejects[r.att.from := count + 1];
      }
      ok := false;
    }

    method CollectViewChange(sel: Selection, signed: set<Att>, r: ViewChange)
      modifies this
      ensures State() == M.CollectViewChange(sel, signed, old(State()), r)
      ensures old(HoldsCollected(sel, signed)) ==> HoldsCollected(sel, signed)
      ensures RecordsBounded(old(viewChanges)) && RejectsBounded(sel, old(polkaRejects)) ==>
        RecordsBounded(viewChanges) && RejectsBounded(sel, polkaRejects)
    {
      hide HeldAt, CarriesMore, LockedBodyFits, VerifyRecordAtt, VerifyRecordPolka, Count, Lightened, Collected,
        RecordsBounded, RejectsBounded;
      if RecordsBounded(viewChanges) && RejectsBounded(sel, polkaRejects) {
        CollectBounded(sel, signed, State(), r);
      }
      if HoldsCollected(sel, signed) {
        CollectKeepsCollected(sel, signed, State(), r);
      }
      var held := HeldAt(viewChanges, r);
      var fits := r.locked.Some? ==> LockedBodyFits(r.locked.value);
      if held.Some? {
        if !CarriesMore(viewChanges[held.value], r) || !fits || !VerifyRecordAtt(sel, signed, r) {
          return;
        }
        var ok := PolkaAdmitted(sel, signed, r);
        if ok {
          viewChanges := viewChanges[held.value := r];
        }
        return;
      }
      if Count(RecordSenders(viewChanges), r.att.from) >= MAX_VIEW_CHANGES_PER_SENDER
         || !fits || !VerifyRecordAtt(sel, signed, r) {
        return;
      }
      var ok := PolkaAdmitted(sel, signed, r);
      if !ok {
        return;
      }
      var record := Lightened(viewChanges, r);
      if |viewChanges| >= MAX_ROUND_VIEW_CHANGES {
        viewChanges := Remove(viewChanges, Victim(RecordSenders(viewChanges), r.att.from));
      }
      viewChanges := viewChanges + [record];
    }

    /** The leader's proposal at a later view. */
    method BuildJustifiedProposal(sel: Selection, signed: set<Att>, at: View, o: Outcome) returns (proposal: Option<Proposal>)
      modifies this`staged
      ensures (State(), proposal) == M.BuildJustified(sel, signed, old(State()), at, o)
    {
      proposal := None;
      var records := JustifiedRecords(sel, State(), at);
      if records.None? {
        return;
      }
      var high := FindJustifiedLock(sel, signed, records.value);
      if high.Conflict? {
        return;
      }
      var carried := CarriedJustification(records.value);
      var block := o.ownBlock;
      if high.Backed? || lock.Some? {
        block := WithBody(State(), if high.Backed? then high.block else lock.value.block);
        var ok := StageFrom(block, at, PolOf(high), o);
        if !ok {
          return;
        }
      } else {
        if restartHold > 0 {
          return;
        }
        staged := Some(Staged(at, block.header, block.body, [], None));
      }
      if !o.proposalSigned || !o.drawn {
        return;
      }
      staged := Some(staged.value.(justification := carried));
      proposal := Some(Proposal(at, block.header, block.body, carried));
    }

    method OnPrevote(sel: Selection, signed: set<Att>, att: Att, o: Outcome) returns (sent: seq<Message>)
      modifies this
      ensures (State(), sent) == M.OnPrevote(sel, signed, old(State()), att, o)
    {
      if !PrevoteKnown(prevotes, att) && att.from in sel.members && att in signed {
        RecordPrevote(att);
      }
      sent := FormPolkaAndPrecommit(sel, o);
    }

    method EnterRound(sel: Selection, o: Outcome) returns (sent: seq<Message>)
      modifies this
      ensures (State(), sent) == M.EnterRound(sel, old(State()), o)
    {
      hide M.PrevoteStaged, LeaderFor;
      sent := [];
      var leads := LeaderFor(sel, view) == id && !o.silent;
      var current := staged.Some? && staged.value.view == view;
      if leads && (view == 0 || current) {
        if current {
          if o.proposalSigned && o.drawn {
            sent := [ProposalSent(Proposal(view, staged.value.header, staged.value.body, staged.value.justification))];
          }
        } else if restartHold == 0 {
          staged := Some(Staged(0, o.ownBlock.header, o.ownBlock.body, [], None));
          if o.proposalSigned && o.drawn {
            sent := [ProposalSent(Proposal(0, o.ownBlock.header, o.ownBlock.body, []))];
          }
        }
      }
      if staged.Some? && staged.value.view == view {
        var more := PrevoteStaged(sel, o);
        sent := sent + more;
      }
    }

    /** `has_finality_threshold`: group the held precommits for the staged block by view. */
    method HasFinalityThreshold(sel: Selection) returns (ok: bool)
      ensures ok == M.HasFinalityThreshold(sel, State())
    {
      hide Groups, FinalityQuorum, Precommitters;
      if staged.None? {
        return false;
      }
      var value := staged.value.header.value;
      var byView: map<View, set<NodeId>> := map[];
      GroupsNone(sel, value);
      var i := 0;
      while i < |roundAtts|
        invariant i <= |roundAtts|
        invariant Groups(sel, roundAtts[..i], value, byView)
      {
        var att := roundAtts[i];
        GroupsNext(sel, roundAtts[..i], att, value, byView);
        assert roundAtts[..i + 1] == roundAtts[..i] + [att];
        if att.subject == PrecommitFor(value) && att.from in sel.members {
          var seen := if att.view in byView then byView[att.view] else {};
          byView := byView[att.view := seen + {att.from}];
        }
        i := i + 1;
      }
      assert roundAtts[..i] == roundAtts;
      ok := exists v | v in byView.Keys :: FinalityQuorum(sel, byView[v]);
      GateByView(sel, State(), byView, value);
    }

    method JumpTo(target: View)
      modifies this`view
      ensures State() == M.JumpTo(old(State()), target)
      ensures view >= old(view)
    {
      var capped := if target > MAX_VIEW then MAX_VIEW else target;
      if capped > view {
        view := capped;
      }
    }
  }

  lemma {:induction false} StoppedStays(sel: Selection, signed: set<Att>, view: View, cache: set<ViewChange>, records: seq<ViewChange>, i: nat)
    requires i <= |records|
    requires i < |records| ==> FilterRecords(sel, signed, view, cache, records[..i]).stopped
    ensures FilterRecords(sel, signed, view, cache, records) == FilterRecords(sel, signed, view, cache, records[..i])
    decreases |records| - i
  {
    if i == |records| {
      assert records[..i] == records;
    } else {
      assert records[..i + 1][..i] == records[..i];
      StoppedStays(sel, signed, view, cache, records, i + 1);
    }
  }

  lemma {:induction false} MorePrecommitters(sel: Selection, atts: seq<Att>, att: Att, v: View, value: Value)
    ensures Precommitters(sel, atts + [att], v, value) ==
      Precommitters(sel, atts, v, value)
      + if att.view == v && att.subject == PrecommitFor(value) && att.from in sel.members then {att.from} else {}
  {
    forall a ensures a in atts + [att] <==> a in atts || a == att {}
  }

  /** `byView` groups the members whose precommit for `value` is held. */
  ghost predicate Groups(sel: Selection, atts: seq<Att>, value: Value, byView: map<View, set<NodeId>>) {
    && (forall v :: v in byView <==> Precommitters(sel, atts, v, value) != {})
    && (forall v | v in byView :: byView[v] == Precommitters(sel, atts, v, value))
  }

  lemma {:induction false} GroupsNone(sel: Selection, value: Value)
    ensures Groups(sel, [], value, map[])
  {
  }

  lemma {:induction false} GroupsNext(sel: Selection, atts: seq<Att>, att: Att, value: Value, byView: map<View, set<NodeId>>)
    requires Groups(sel, atts, value, byView)
    ensures var seen := if att.view in byView then byView[att.view] else {};
      Groups(sel, atts + [att], value,
             if att.subject == PrecommitFor(value) && att.from in sel.members then byView[att.view := seen + {att.from}] else byView)
  {
    hide Precommitters;
    forall v
      ensures Precommitters(sel, atts + [att], v, value) ==
        Precommitters(sel, atts, v, value)
        + if att.view == v && att.subject == PrecommitFor(value) && att.from in sel.members then {att.from} else {}
    {
      MorePrecommitters(sel, atts, att, v, value);
    }
  }

  lemma {:induction false} GateByView(sel: Selection, s: Node, byView: map<View, set<NodeId>>, value: Value)
    requires s.staged.Some? && value == s.staged.value.header.value
    requires Groups(sel, s.roundAtts, value, byView)
    ensures (exists v | v in byView.Keys :: FinalityQuorum(sel, byView[v])) <==> M.HasFinalityThreshold(sel, s)
  {
    if v :| v in byView.Keys && FinalityQuorum(sel, byView[v]) {
      var id :| id in Precommitters(sel, s.roundAtts, v, value);
    }
    if M.HasFinalityThreshold(sel, s) {
      var a :| a in s.roundAtts && FinalityQuorum(sel, Precommitters(sel, s.roundAtts, a.view, value));
      if Precommitters(sel, s.roundAtts, a.view, value) == {} {
        EmptySeatsNothing(sel, sel.members);
        assert false;
      }
      assert a.view in byView.Keys;
    }
  }

  lemma {:induction false} EmptySeatsNothing(sel: Selection, listed: seq<NodeId>)
    ensures SeatedStake(sel, listed, {}) == 0
  {
    if listed != [] { EmptySeatsNothing(sel, listed[1..]); }
  }

  lemma {:induction false} LightenedCollected(sel: Selection, signed: set<Att>, records: seq<ViewChange>, r: ViewChange)
    requires Collected(sel, signed, r)
    ensures Collected(sel, signed, Lightened(records, r))
  {
  }

  lemma {:induction false} AdmittedOnly(sel: Selection, signed: set<Att>, s: Node, r: ViewChange)
    ensures var (ok, after) := M.PolkaAdmitted(sel, signed, s, r);
      after.viewChanges == s.viewChanges && (ok ==> VerifyRecordPolka(sel, signed, r))
  {
    hide VerifyRecordPolka;
  }

  lemma {:induction false} ReplacedAmong(records: seq<ViewChange>, at: nat, r: ViewChange)
    requires at < |records|
    ensures forall h | h in records[at := r] :: h in records || h == r
  {
  }

  lemma {:induction false} DroppedAmong(records: seq<ViewChange>, at: nat)
    requires at < |records|
    ensures forall h | h in Remove(records, at) :: h in records
  {
  }

  /** Collecting adds at most one record, verified or with its body dropped. */
  lemma {:induction false} CollectAdds(sel: Selection, signed: set<Att>, s: Node, r: ViewChange)
    ensures var t := M.CollectViewChange(sel, signed, s, r);
      || (forall h | h in t.viewChanges :: h in s.viewChanges)
      || (Collected(sel, signed, r)
          && forall h | h in t.viewChanges :: h in s.viewChanges || h == r || h == Lightened(s.viewChanges, r))
  {
    hide HeldAt, CarriesMore, VerifyRecordAtt, VerifyRecordPolka, LockedBodyFits, Count, Lightened, M.PolkaAdmitted, Remove;
    AdmittedOnly(sel, signed, s, r);
    var held := HeldAt(s.viewChanges, r);
    if held.Some? {
      ReplacedAmong(s.viewChanges, held.value, r);
    } else if |s.viewChanges| >= MAX_ROUND_VIEW_CHANGES {
      DroppedAmong(s.viewChanges, Victim(RecordSenders(s.viewChanges), r.att.from));
    }
  }

  /** Whatever is collected stays verified: signature, polka and body. */
  lemma {:induction false} CollectKeepsCollected(sel: Selection, signed: set<Att>, s: Node, r: ViewChange)
    requires forall h | h in s.viewChanges :: Collected(sel, signed, h)
    ensures forall h | h in M.CollectViewChange(sel, signed, s, r).viewChanges :: Collected(sel, signed, h)
  {
    CollectAdds(sel, signed, s, r);
    if Collected(sel, signed, r) {
      LightenedCollected(sel, signed, s.viewChanges, r);
    }
  }

  /** A justified proposal built from collected records is accepted whole by every
      receiver, whatever it has cached, and read there as the same highest lock, if
      its verification work fits the cap. */
  lemma {:induction false} BuiltProposalIsAccepted(sel: Selection, signed: set<Att>, s: Node, view: View, o: Outcome, cache: set<ViewChange>)
    requires forall h | h in s.viewChanges :: Collected(sel, signed, h)
    requires BuildJustified(sel, signed, s, view, o).1.Some?
    requires TotalCost(BuildJustified(sel, signed, s, view, o).1.value.justification) <= VerificationCap(sel)
    ensures var carried := BuildJustified(sel, signed, s, view, o).1.value.justification;
      var high := JustifiedLock(sel, signed, carried);
      && Justification.ValidJustification(sel, signed, view, cache, carried).0 == Some(carried)
      && BuildJustified(sel, signed, s, view, o).0.staged.Some?
      && BuildJustified(sel, signed, s, view, o).0.staged.value.pol == PolOf(high)
      && (high.Backed? ==> high.block.header.value == BuildJustified(sel, signed, s, view, o).1.value.header.value)
  {
    BuiltFrom(sel, signed, s, view, o);
    var records := JustifiedRecords(sel, s, view).value;
    StrippingKeepsMeaning(sel, signed, view, cache, records);
  }

  lemma {:induction false} BuiltFrom(sel: Selection, signed: set<Att>, s: Node, view: View, o: Outcome)
    requires BuildJustified(sel, signed, s, view, o).1.Some?
    ensures JustifiedRecords(sel, s, view).Some?
    ensures var records := JustifiedRecords(sel, s, view).value;
      var (t, p) := BuildJustified(sel, signed, s, view, o);
      var high := JustifiedLock(sel, signed, records);
      && !high.Conflict? && p.value.justification == CarriedJustification(records)
      && t.staged.Some? && t.staged.value.pol == PolOf(high)
      && (high.Backed? ==> high.block.header.value == p.value.header.value)
  {
  }
}
