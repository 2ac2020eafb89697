/** Every reaction of an honest node keeps the agreement invariant, hence every run does. */
module AgreementRuns {
  import opened Committee
  import opened Records
  import opened Justification
  import opened NodeModel
  import opened FairEviction
  import opened Protocol
  import opened Agreement
  import opened Wrappers

  /** The system after node `id` made the move `(t, sent)`. */
  function Moved(a: System, id: NodeId, move: (Node, seq<Message>)): System {
    Update(a, id, move.0, Signatures(move.1))
  }

  lemma {:induction false} SignaturesJoin(x: seq<Message>, y: seq<Message>)
    ensures Signatures(x + y) == Signatures(x) + Signatures(y)
  {
    if x == [] {
      assert x + y == y;
    } else {
      SignaturesJoin(x[1..], y);
      assert (x + y)[1..] == x[1..] + y;
    }
  }

  lemma {:induction false} Stay(a: System, id: NodeId)
    requires id in a.nodes
    ensures Moved(a, id, (a.nodes[id], [])) == a
  {
    assert a.nodes[id := a.nodes[id]] == a.nodes;
    assert a.signed + {} == a.signed;
  }

  /** Two moves of one node in a row are one move. */
  lemma {:induction false} Chain(a: System, id: NodeId, first: (Node, seq<Message>), second: (Node, seq<Message>))
    requires id in a.nodes
    ensures Moved(Moved(a, id, first), id, second) == Moved(a, id, (second.0, first.1 + second.1))
  {
    SignaturesJoin(first.1, second.1);
    assert a.nodes[id := first.0][id := second.0] == a.nodes[id := second.0];
    assert a.signed + Signatures(first.1) + Signatures(second.1) == a.signed + (Signatures(first.1) + Signatures(second.1));
  }

  /** Changes to watermarks, the fatal flag, counters, records or the view alone. */
  lemma {:induction false} Aside(a: System, id: NodeId, t: Node)
    requires Inv(a) && id in a.nodes
    requires var s := a.nodes[id];
      && t.id == s.id && t.lock == s.lock && t.staged == s.staged && t.prevoted == s.prevoted
      && (s.staged.Some? ==> s.view <= t.view) && CacheOk(t)
      && forall x | x in t.prevotes || x in t.roundAtts :: x in a.signed
    ensures Inv(Moved(a, id, (t, [])))
  {
    assert NodeOk(a, id);
    QuietMove(a, id, t, {});
  }

  lemma {:induction false} PrecommitStagedKeeps(a: System, id: NodeId, o: Outcome)
    requires Inv(a) && id in a.nodes
    requires var s := a.nodes[id]; s.staged.Some? && s.lock.Some? && s.lock.value.view == s.staged.value.view
    ensures Inv(Moved(a, id, PrecommitStaged(a.nodes[id], o)))
  {
    var s := a.nodes[id];
    var move := PrecommitStaged(s, o);
    assert NodeOk(a, id);
    if move.1 == [] {
      Aside(a, id, move.0);
    } else {
      var att := Precommit(id, s.staged.value.view, s.staged.value.header.value);
      assert move.1 == [PrecommitSent(att)];
      assert Signatures(move.1) == {att};
      RecordAttestationKeeps(s.roundAtts, att);
      PrecommitMove(a, id, move.0, att);
    }
  }

  lemma {:induction false} MatchingIsPolka(sel: Selection, signed: set<Att>, prevotes: seq<Att>, staged: Staged)
    requires forall x | x in prevotes :: x in signed
    requires StakeQuorum(sel, Signers(Matching(prevotes, staged.view, PrevoteSubject(staged))))
    ensures HasPolka(sel, signed, staged.view, staged.header.value)
  {
    var votes := Matching(prevotes, staged.view, PrevoteSubject(staged));
    BackedIsPolka(sel, signed, staged.view, staged.pol, LockedBlock(staged.header, staged.body), Cert(PrevoteSubject(staged), votes));
  }

  lemma {:induction false} FormPolkaKeeps(a: System, id: NodeId, o: Outcome)
    requires Inv(a) && id in a.nodes
    ensures Inv(Moved(a, id, FormPolka(a.sel, a.nodes[id], o)))
  {
    var s := a.nodes[id];
    var move := FormPolka(a.sel, s, o);
    Stay(a, id);
    assert NodeOk(a, id);
    if move != (s, []) {
      var staged := s.staged.value;
      var votes := Matching(s.prevotes, staged.view, PrevoteSubject(staged));
      if o.lockStored {
        var lock := Lock(staged.view, staged.pol, LockedBlock(staged.header, staged.body), Cert(PrevoteSubject(staged), votes));
        MatchingIsPolka(a.sel, a.signed, s.prevotes, staged);
        LockMove(a, id, lock);
        var locked := (s.(lock := Some(lock)), []);
        assert Signatures(locked.1) == {};
        PrecommitStagedKeeps(Moved(a, id, locked), id, o);
        Chain(a, id, locked, move);
      } else {
        Aside(a, id, s.(fatal := true));
      }
    }
  }

  lemma {:induction false} PrevoteStagedKeeps(a: System, id: NodeId, o: Outcome)
    requires Inv(a) && id in a.nodes
    ensures Inv(Moved(a, id, PrevoteStaged(a.sel, a.nodes[id], o)))
  {
    var s := a.nodes[id];
    Stay(a, id);
    assert NodeOk(a, id);
    if MayPrevote(s, o) {
      var cast := CastPrevote(s, o);
      if o.drawn {
        PrevoteMove(a, id, cast.0, o);
        var b := Moved(a, id, cast);
        FormPolkaKeeps(b, id, o);
        Chain(a, id, cast, FormPolka(a.sel, cast.0, o));
      } else {
        Aside(a, id, cast.0);
      }
    }
  }

  lemma {:induction false} StageKeeps(a: System, id: NodeId, t: Node)
    requires Inv(a) && id in a.nodes && StageOk(a, id, t)
    ensures Inv(Moved(a, id, (t, [])))
  {
    assert NodeOk(a, id);
    assert Signatures([]) == {};
    QuietMove(a, id, t, {});
  }

  /** Staging a block the rules allow, then prevoting it. */
  lemma {:induction false} StageThenPrevote(a: System, id: NodeId, t: Node, o: Outcome)
    requires Inv(a) && id in a.nodes && StageOk(a, id, t)
    ensures Inv(Moved(a, id, (t, []))) && Inv(Moved(a, id, PrevoteStaged(a.sel, t, o)))
  {
    hide Inv;
    StageKeeps(a, id, t);
    var b := Moved(a, id, (t, []));
    assert b.nodes[id] == t && b.sel == a.sel;
    PrevoteStagedKeeps(b, id, o);
    var move := PrevoteStaged(a.sel, t, o);
    Chain(a, id, (t, []), move);
    assert [] + move.1 == move.1;
  }

  /** `t` is the node with a new block staged at its view. */
  ghost predicate StageOk(a: System, id: NodeId, t: Node)
    requires id in a.nodes
  {
    var s := a.nodes[id];
    && t.staged.Some? && t.staged.value.view == t.view && s.view <= t.view
    && t == s.(staged := t.staged, view := t.view, verified := t.verified)
    && CacheOk(t)
    && LockOk(a, t) && StagedOk(a, t)
  }

  lemma {:induction false} HighIsPolka(sel: Selection, signed: set<Att>, records: seq<ViewChange>)
    requires JustifiedLock(sel, signed, records).Backed?
    ensures var high := JustifiedLock(sel, signed, records);
      HasPolka(sel, signed, high.view, high.block.header.value)
  {
    JustifiedLockExact(sel, signed, records);
    var high := JustifiedLock(sel, signed, records);
    var r :| r in records && BacksTop(sel, signed, r, high.view) && r.locked.value == high.block;
    BackedIsPolka(sel, signed, high.view, r.lockPol, high.block, r.polka.value);
  }

  /** Records the filter keeps ask for the view and lock no higher. */
  lemma {:induction false} FilterBounds(sel: Selection, signed: set<Att>, view: View, cache: set<ViewChange>, records: seq<ViewChange>)
    requires forall r | r in cache && r.locked.Some? :: r.lockView <= r.targetView
    ensures var f := FilterRecords(sel, signed, view, cache, records);
      && (forall r | r in f.valid :: r.targetView == view && (r.locked.Some? ==> r.lockView <= view))
      && (forall r | r in f.cache && r.locked.Some? :: r.lockView <= r.targetView)
  {
    if records != [] {
      FilterBounds(sel, signed, view, cache, records[..|records| - 1]);
    }
  }

  lemma {:induction false} RetainSubset(top: Option<(View, Value)>, records: seq<ViewChange>)
    ensures forall r | r in Retain(top, records) :: r in records
  {
    if records != [] { RetainSubset(top, records[..|records| - 1]); }
  }

  lemma {:induction false} JustificationBounds(sel: Selection, signed: set<Att>, view: View, cache: set<ViewChange>, records: seq<ViewChange>)
    requires forall r | r in cache && r.locked.Some? :: r.lockView <= r.targetView
    ensures var (valid, after) := ValidJustification(sel, signed, view, cache, records);
      && (forall r | r in after && r.locked.Some? :: r.lockView <= r.targetView)
      && (valid.Some? && JustifiedLock(sel, signed, valid.value).Backed? ==> JustifiedLock(sel, signed, valid.value).view <= view)
  {
    FilterBounds(sel, signed, view, cache, records);
    var f := FilterRecords(sel, signed, view, cache, records);
    RetainSubset(BackedTop(f.valid), f.valid);
    var (valid, after) := ValidJustification(sel, signed, view, cache, records);
    if valid.Some? {
      JustifiedLockExact(sel, signed, valid.value);
    }
  }

  lemma {:induction false} OnJustifiedProposalKeeps(a: System, id: NodeId, p: Proposal, o: Outcome)
    requires Inv(a) && id in a.nodes
    ensures Inv(Moved(a, id, OnJustifiedProposal(a.sel, a.signed, a.nodes[id], p, o)))
  {
    var s := a.nodes[id];
    Stay(a, id);
    if p.view >= s.view {
      JustifiedPart(a, id, p, o);
    }
  }

  lemma {:induction false} JustifiedPart(a: System, id: NodeId, p: Proposal, o: Outcome)
    requires Inv(a) && id in a.nodes && p.view >= a.nodes[id].view
    ensures Inv(Moved(a, id, OnJustifiedProposal(a.sel, a.signed, a.nodes[id], p, o)))
  {
    hide ValidJustification, JustifiedLock, PrevoteStaged, BodyBytes, PolkasBlock;
    var s := a.nodes[id];
    assert NodeOk(a, id);
    JustificationBounds(a.sel, a.signed, p.view, s.verified, p.justification);
    var (valid, cache) := ValidJustification(a.sel, a.signed, p.view, s.verified, p.justification);
    var seen := s.(verified := cache);
    Aside(a, id, seen);
    var move := OnJustifiedProposal(a.sel, a.signed, s, p, o);
    if move != (seen, []) {
      var high := JustifiedLock(a.sel, a.signed, valid.value);
      var staged := seen.(staged := Some(Staged(p.view, p.header, p.body, p.justification, PolOf(high))), view := p.view);
      assert move == PrevoteStaged(a.sel, staged, o);
      JustifiedStageOk(a, id, p, high, valid.value, staged);
      StageThenPrevote(a, id, staged, o);
    }
  }

  lemma {:induction false} JustifiedStageOk(a: System, id: NodeId, p: Proposal, high: High, records: seq<ViewChange>, t: Node)
    requires Inv(a) && id in a.nodes && p.view >= a.nodes[id].view
    requires high == JustifiedLock(a.sel, a.signed, records) && (high.Backed? ==> high.view <= p.view)
    requires HighAllows(a.sel, high, p) && LockAllows(a.nodes[id].lock, high, p.header.value)
    requires CacheOk(t)
    requires t == a.nodes[id].(verified := t.verified, view := p.view,
                               staged := Some(Staged(p.view, p.header, p.body, p.justification, PolOf(high))))
    ensures StageOk(a, id, t)
  {
    assert NodeOk(a, id);
    if high.Backed? {
      HighIsPolka(a.sel, a.signed, records);
    }
    LockedValueStays(a, id, p, high);
  }

  /** A proposal at the view of the node's own lock can only be for the locked value. */
  lemma {:induction false} LockedValueStays(a: System, id: NodeId, p: Proposal, high: High)
    requires Inv(a) && id in a.nodes && LockAllows(a.nodes[id].lock, high, p.header.value)
    requires high.Backed? ==> high.view <= p.view && HasPolka(a.sel, a.signed, high.view, p.header.value)
    ensures a.nodes[id].lock.Some? && a.nodes[id].lock.value.view == p.view ==>
      LockValue(a.nodes[id].lock.value) == p.header.value
  {
    hide PrecommitsOk, StagedOk, LockRule, HeldAreSigned, CacheOk, PolkasBlock;
    var lock := a.nodes[id].lock;
    assert NodeOk(a, id);
    if lock.Some? && lock.value.view == p.view && LockValue(lock.value) != p.header.value {
      PolkaUnique(a, p.view, LockValue(lock.value), p.header.value);
    }
  }

  lemma {:induction false} OnProposalKeeps(a: System, id: NodeId, from: NodeId, p: Proposal, o: Outcome)
    requires Inv(a) && id in a.nodes
    ensures Inv(Moved(a, id, OnProposal(a.sel, a.signed, a.nodes[id], from, p, o)))
  {
    hide OnJustifiedProposal, PrevoteStaged, BodyBytes, PolkasBlock;
    var s := a.nodes[id];
    Stay(a, id);
    assert NodeOk(a, id);
    var move := OnProposal(a.sel, a.signed, s, from, p, o);
    if o.authentic && p.justification != [] {
      OnJustifiedProposalKeeps(a, id, p, o);
    } else if move != (s, []) {
      var staged := s.(staged := Some(Staged(p.view, p.header, p.body, [], None)));
      StageThenPrevote(a, id, staged, o);
    }
  }

  /** A block staged at the node's view when nothing is staged there yet. */
  lemma {:induction false} NewStageOk(a: System, id: NodeId, staged: Staged)
    requires Inv(a) && id in a.nodes && !CurrentStage(a.nodes[id])
    requires staged.view == a.nodes[id].view
    requires staged.pol.Some? ==> HasPolka(a.sel, a.signed, staged.pol.value, staged.header.value)
    ensures StageOk(a, id, a.nodes[id].(staged := Some(staged)))
  {
    assert NodeOk(a, id);
  }

  ghost predicate BuiltAt(sel: Selection, signed: set<Att>, s: Node, t: Node) {
    && t.staged.Some? && t == s.(staged := t.staged) && t.staged.value.view == s.view
    && (t.staged.value.pol.Some? ==> HasPolka(sel, signed, t.staged.value.pol.value, t.staged.value.header.value))
  }

  /** Whatever the leader builds, it is staged at its own view and names only a real polka. */
  lemma {:induction false} BuiltShape(sel: Selection, signed: set<Att>, s: Node, o: Outcome)
    ensures var t := BuildJustified(sel, signed, s, s.view, o).0;
      t == s || BuiltAt(sel, signed, s, t)
  {
    var records := JustifiedRecords(sel, s, s.view);
    var t := BuildJustified(sel, signed, s, s.view, o).0;
    if records.Some? && t != s {
      var high := JustifiedLock(sel, signed, records.value);
      BuiltStage(sel, signed, s, o, high, records.value);
      if high.Backed? {
        HighIsPolka(sel, signed, records.value);
      }
    }
  }

  lemma {:induction false} BuiltStage(sel: Selection, signed: set<Att>, s: Node, o: Outcome, high: High, records: seq<ViewChange>)
    requires JustifiedRecords(sel, s, s.view) == Some(records) && high == JustifiedLock(sel, signed, records)
    ensures var t := BuildJustified(sel, signed, s, s.view, o).0;
      t == s ||
      (&& t.staged.Some? && t == s.(staged := t.staged) && t.staged.value.view == s.view
       && t.staged.value.pol == PolOf(high)
       && (high.Backed? ==> t.staged.value.header.value == high.block.header.value))
  {
    hide JustifiedRecords, JustifiedLock, CarriedJustification, LockedBodyFor, BodyBytes;
  }

  lemma {:induction false} TryJustifiedKeeps(a: System, id: NodeId, o: Outcome)
    requires Inv(a) && id in a.nodes
    ensures Inv(Moved(a, id, TryJustified(a.sel, a.signed, a.nodes[id], o)))
  {
    var s := a.nodes[id];
    Stay(a, id);
    if s.view != 0 && LeaderFor(a.sel, s.view) == s.id && !CurrentStage(s) {
      BuiltShape(a.sel, a.signed, s, o);
      var (t, proposal) := BuildJustified(a.sel, a.signed, s, s.view, o);
      var move := PrevoteStaged(a.sel, t, o);
      if t == s {
        PrevoteStagedKeeps(a, id, o);
      } else {
        NewStageOk(a, id, t.staged.value);
        StageThenPrevote(a, id, t, o);
      }
      if proposal.Some? {
        AfterProposal([ProposalSent(proposal.value)], move.1);
      }
    }
  }

  lemma {:induction false} AfterProposal(first: seq<Message>, rest: seq<Message>)
    requires |first| <= 1 && forall m | m in first :: m.ProposalSent?
    ensures Signatures(first) == {} && Signatures(first + rest) == Signatures(rest)
  {
    SignaturesJoin(first, rest);
  }

  lemma {:induction false} EnterRoundKeeps(a: System, id: NodeId, o: Outcome)
    requires Inv(a) && id in a.nodes
    ensures Inv(Moved(a, id, EnterRound(a.sel, a.nodes[id], o)))
  {
    var s := a.nodes[id];
    Stay(a, id);
    var leads := LeaderFor(a.sel, s.view) == s.id && !o.silent;
    var own := Staged(0, o.ownBlock.header, o.ownBlock.body, [], None);
    var t := if leads && !CurrentStage(s) && s.view == 0 && s.restartHold == 0 then s.(staged := Some(own)) else s;
    var first := OpeningProposal(s, leads, o);
    var move := PrevoteStaged(a.sel, t, o);
    AfterProposal(first, move.1);
    if t == s {
      PrevoteStagedKeeps(a, id, o);
    } else {
      NewStageOk(a, id, own);
      StageThenPrevote(a, id, t, o);
    }
    EnterRoundShape(a.sel, s, o, t, first);
  }

  lemma {:induction false} EnterRoundShape(sel: Selection, s: Node, o: Outcome, t: Node, first: seq<Message>)
    requires var leads := LeaderFor(sel, s.view) == s.id && !o.silent;
      && first == OpeningProposal(s, leads, o)
      && t == if leads && !CurrentStage(s) && s.view == 0 && s.restartHold == 0
              then s.(staged := Some(Staged(0, o.ownBlock.header, o.ownBlock.body, [], None))) else s
    ensures EnterRound(sel, s, o) ==
      if CurrentStage(t) then (PrevoteStaged(sel, t, o).0, first + PrevoteStaged(sel, t, o).1) else (t, first)
  {
  }

  function OpeningProposal(s: Node, leads: bool, o: Outcome): seq<Message> {
    if !leads || !o.proposalSigned || !o.drawn then []
    else if CurrentStage(s) then
      [ProposalSent(Proposal(s.view, s.staged.value.header, s.staged.value.body, s.staged.value.justification))]
    else if s.view == 0 && s.restartHold == 0 then [ProposalSent(Proposal(0, o.ownBlock.header, o.ownBlock.body, []))]
    else []
  }

  lemma {:induction false} OnPrevoteKeeps(a: System, id: NodeId, att: Att, o: Outcome)
    requires Inv(a) && id in a.nodes
    ensures Inv(Moved(a, id, OnPrevote(a.sel, a.signed, a.nodes[id], att, o)))
  {
    var s := a.nodes[id];
    Stay(a, id);
    assert NodeOk(a, id);
    if !PrevoteKnown(s.prevotes, att) && att.from in a.sel.members && att in a.signed {
      var heard := s.(prevotes := RecordPrevote(s.prevotes, att));
      RecordPrevoteKeeps(s.prevotes, att);
      Aside(a, id, heard);
      var b := Moved(a, id, (heard, []));
      FormPolkaKeeps(b, id, o);
      Chain(a, id, (heard, []), FormPolka(a.sel, heard, o));
    } else {
      FormPolkaKeeps(a, id, o);
    }
  }

  lemma {:induction false} CollectKeepsVotes(sel: Selection, signed: set<Att>, s: Node, r: ViewChange)
    ensures var t := CollectViewChange(sel, signed, s, r);
      t == s.(viewChanges := t.viewChanges, polkaRejects := t.polkaRejects)
  {
    hide HeldAt, CarriesMore, LockedBodyFits, VerifyRecordAtt, VerifyRecordPolka, Count, Lightened;
  }

  lemma {:induction false} ChangeViewKeeps(a: System, id: NodeId, target: View, o: Outcome)
    requires Inv(a) && id in a.nodes
    ensures Inv(Moved(a, id, React(a.sel, a.signed, a.nodes[id], ChangeView(target), o)))
  {
    hide Inv;
    Stay(a, id);
    var made := MakeViewChange(a.nodes[id], target, o);
    if made.Some? {
      RecordSentKeeps(a, id, made.value);
    }
  }

  /** A node that signs a view-change record and collects it itself. */
  lemma {:induction false} RecordSentKeeps(a: System, id: NodeId, r: ViewChange)
    requires Inv(a) && id in a.nodes && r.att.subject.ViewChangeFor?
    ensures Inv(Moved(a, id, (CollectViewChange(a.sel, a.signed + {r.att}, a.nodes[id], r), [ViewChangeSent(r)])))
  {
    var t := CollectViewChange(a.sel, a.signed + {r.att}, a.nodes[id], r);
    CollectKeepsVotes(a.sel, a.signed + {r.att}, a.nodes[id], r);
    assert Signatures([ViewChangeSent(r)]) == {r.att};
    RecordMove(a, id, t, r.att);
  }

  lemma {:induction false} RecordMove(a: System, id: NodeId, t: Node, att: Att)
    requires Inv(a) && id in a.nodes && att.subject.ViewChangeFor?
    requires t == a.nodes[id].(viewChanges := t.viewChanges, polkaRejects := t.polkaRejects)
    ensures Inv(Update(a, id, t, {att}))
  {
    assert NodeOk(a, id);
    QuietMove(a, id, t, {att});
  }

  lemma {:induction false} HearRecordKeeps(a: System, id: NodeId, r: ViewChange)
    requires Inv(a) && id in a.nodes
    ensures Inv(Moved(a, id, (CollectViewChange(a.sel, a.signed, a.nodes[id], r), [])))
  {
    assert NodeOk(a, id);
    CollectKeepsVotes(a.sel, a.signed, a.nodes[id], r);
    Aside(a, id, CollectViewChange(a.sel, a.signed, a.nodes[id], r));
  }

  lemma {:induction false} HearPrecommitKeeps(a: System, id: NodeId, att: Att)
    requires Inv(a) && id in a.nodes
    ensures Inv(Moved(a, id, (OnAttestation(a.sel, a.signed, a.nodes[id], att), [])))
  {
    assert NodeOk(a, id);
    RecordAttestationKeeps(a.nodes[id].roundAtts, att);
    Aside(a, id, OnAttestation(a.sel, a.signed, a.nodes[id], att));
  }

  lemma {:induction false} ClockKeeps(a: System, id: NodeId, view: View)
    requires Inv(a) && id in a.nodes
    ensures Inv(Moved(a, id, (JumpTo(a.nodes[id], view), [])))
    ensures Inv(Moved(a, id, (OnTimeout(a.nodes[id], view), [])))
  {
    assert NodeOk(a, id);
    Aside(a, id, JumpTo(a.nodes[id], view));
    Aside(a, id, OnTimeout(a.nodes[id], view));
  }

  /** Every reaction of an honest node keeps the invariant. */
  lemma {:induction false} ReactKeeps(a: System, id: NodeId, event: Event, o: Outcome)
    requires Inv(a) && id in a.nodes
    ensures Inv(Moved(a, id, React(a.sel, a.signed, a.nodes[id], event, o)))
  {
    hide Inv, EnterRound, OnProposal, OnPrevote, CollectViewChange, TryJustified, OnAttestation, OnTimeout, JumpTo;
    match event {
      case Enter => EnterRoundKeeps(a, id, o);
      case HearProposal(from, p) => OnProposalKeeps(a, id, from, p, o);
      case HearPrevote(att, value, pol) =>
        Stay(a, id);
        OnPrevoteKeeps(a, id, att, o);
      case HearPrecommit(att) => HearPrecommitKeeps(a, id, att);
      case HearRecord(r) => HearRecordKeeps(a, id, r);
      case ChangeView(target) => ChangeViewKeeps(a, id, target, o);
      case Lead => TryJustifiedKeeps(a, id, o);
      case Jump(view) => ClockKeeps(a, id, view);
      case Timeout(view) => ClockKeeps(a, id, view);
    }
  }

  /** Whatever the minority signs keeps the invariant. */
  lemma {:induction false} FaultyKeeps(a: System, att: Att)
    requires Inv(a) && att.from !in a.nodes
    ensures Inv(a.(signed := a.signed + {att}))
  {
    var b := a.(signed := a.signed + {att});
    if att.subject.PrevoteFor? {
      PolkasBlockAfterPrevote(a, b, att);
    } else {
      PolkasStillBlock(a, b);
    }
    forall id | id in b.nodes ensures NodeOk(b, id) {
      OthersKeep(a, b, id);
    }
  }

  lemma {:induction false} InitialOk(sys: System)
    requires Initial(sys)
    ensures Inv(sys)
  {
    forall r, v ensures !HasPolka(sys.sel, sys.signed, r, v) {
      if HasPolka(sys.sel, sys.signed, r, v) {
        var pol, q :| PolkaBy(sys.sel, sys.signed, r, v, pol, q);
        var id := QuorumsShareHonest(sys.sel, q, q, MemberSet(sys.sel) - sys.nodes.Keys);
        assert false;
      }
    }
  }

  lemma {:induction false} RunsKeep(sys: System, steps: seq<Step>, last: System)
    requires Inv(sys) && Reaches(sys, steps, last)
    ensures Inv(last)
    decreases |steps|
  {
    hide Inv;
    if steps != [] {
      match steps[0] {
        case Honest(id, event, o) => ReactKeeps(sys, id, event, o);
        case Faulty(att) => FaultyKeeps(sys, att);
      }
      RunsKeep(Apply(sys, steps[0]), steps[1..], last);
    }
  }

  /** Agreement: in every run of a height, any two same-view precommit quorums are for
      one value, whatever views they are at. */
  lemma {:induction false} AgreementTheorem(
    sys: System, steps: seq<Step>, last: System,
    r: View, v: Value, q: set<NodeId>, r': View, v': Value, q': set<NodeId>)
    requires Initial(sys) && Reaches(sys, steps, last)
    requires PrecommitQuorum(last, r, v, q) && PrecommitQuorum(last, r', v', q')
    ensures v == v'
  {
    InitialOk(sys);
    RunsKeep(sys, steps, last);
    AgreementAt(last, r, v, q, r', v', q');
  }

  /** Two honest nodes that both pass the finality gate hold the same staged value. */
  lemma {:induction false} GatesAgree(sys: System, steps: seq<Step>, last: System, i: NodeId, j: NodeId)
    requires Initial(sys) && Reaches(sys, steps, last)
    requires i in last.nodes && j in last.nodes
    requires HasFinalityThreshold(last.sel, last.nodes[i]) && HasFinalityThreshold(last.sel, last.nodes[j])
    ensures last.nodes[i].staged.value.header.value == last.nodes[j].staged.value.header.value
  {
    InitialOk(sys);
    RunsKeep(sys, steps, last);
    var ri, qi := GateIsQuorum(last, i);
    var rj, qj := GateIsQuorum(last, j);
    AgreementAt(last, ri, last.nodes[i].staged.value.header.value, qi, rj, last.nodes[j].staged.value.header.value, qj);
  }

  lemma {:induction false} GateIsQuorum(sys: System, id: NodeId) returns (r: View, q: set<NodeId>)
    requires Inv(sys) && id in sys.nodes && HasFinalityThreshold(sys.sel, sys.nodes[id])
    ensures PrecommitQuorum(sys, r, sys.nodes[id].staged.value.header.value, q)
  {
    var s := sys.nodes[id];
    var value := s.staged.value.header.value;
    assert NodeOk(sys, id);
    var a :| a in s.roundAtts && FinalityQuorum(sys.sel, Precommitters(sys.sel, s.roundAtts, a.view, value));
    r := a.view;
    q := Precommitters(sys.sel, s.roundAtts, r, value);
    StakeQuorumIsQuorum(sys.sel, q);
    forall other | other in q ensures Precommit(other, r, value) in sys.signed {
      var b :| b in s.roundAtts && b.view == r && b.subject == PrecommitFor(value) && b.from == other;
      assert b == Precommit(other, r, value);
    }
  }
}
