/** What the vote and record buffers may hold, what each new item pushes out, and
    that a sender who says little is never pushed out. */
module Buffers {
  import opened Arithmetic
  import opened Committee
  import opened Records
  import opened NodeModel
  import opened FairEviction

  /** At most `total` items, at most `each` of one sender. */
  ghost predicate Capped(senders: seq<NodeId>, total: nat, each: nat) {
    |senders| <= total && forall id :: Count(senders, id) <= each
  }

  ghost predicate CappedAtts(atts: seq<Att>) {
    Capped(AttSenders(atts), MAX_ROUND_ATTESTATIONS, MAX_ATTESTATIONS_PER_SENDER)
  }

  ghost predicate CappedRecords(records: seq<ViewChange>) {
    Capped(RecordSenders(records), MAX_ROUND_VIEW_CHANGES, MAX_VIEW_CHANGES_PER_SENDER)
  }

  ghost predicate RecordsBounded(records: seq<ViewChange>) {
    && CappedRecords(records)
    && forall r | r in records && r.locked.Some? :: BodyBytes(r.locked.value.body) <= MAX_BLOCK_BODY_BYTES
  }

  predicate RejectsBounded(sel: Selection, rejects: map<NodeId, nat>) {
    forall id | id in rejects :: id in sel.members && rejects[id] <= MAX_POLKA_REJECTS_PER_SENDER
  }

  predicate NoRepeats(atts: seq<Att>) {
    forall i, j | 0 <= i < j < |atts| :: atts[i] != atts[j]
  }

  // ---- counting ----

  lemma {:induction false} CountJoin(a: seq<NodeId>, b: seq<NodeId>, id: NodeId)
    ensures Count(a + b, id) == Count(a, id) + Count(b, id)
  {
    if b == [] {
      assert a + b == a;
    } else {
      var n := |b| - 1;
      CountJoin(a, b[..n], id);
      assert (a + b)[..|a + b| - 1] == a + b[..n];
    }
  }

  lemma {:induction false} CountOne(x: NodeId, id: NodeId)
    ensures Count([x], id) == if x == id then 1 else 0
  {
    assert [x][..0] == [];
  }

  lemma {:induction false} CountRemove(senders: seq<NodeId>, at: nat, id: NodeId)
    requires at < |senders|
    ensures Count(senders, id) == Count(Remove(senders, at), id) + if senders[at] == id then 1 else 0
  {
    var left, right := senders[..at], senders[at + 1..];
    assert senders == left + ([senders[at]] + right);
    CountJoin(left, [senders[at]] + right, id);
    CountJoin([senders[at]], right, id);
    CountJoin(left, right, id);
    CountOne(senders[at], id);
  }

  lemma {:induction false} CountPush(senders: seq<NodeId>, x: NodeId, id: NodeId)
    ensures Count(senders + [x], id) == Count(senders, id) + if x == id then 1 else 0
  {
    CountJoin(senders, [x], id);
    CountOne(x, id);
  }

  /** Replacing an item of a capped buffer by one of a sender with room keeps the caps. */
  lemma {:induction false} SwapCapped(senders: seq<NodeId>, at: nat, x: NodeId, total: nat, each: nat)
    requires Capped(senders, total, each) && at < |senders|
    requires senders[at] == x || Count(senders, x) < each
    ensures Capped(Remove(senders, at) + [x], total, each)
  {
    forall id ensures Count(Remove(senders, at) + [x], id) <= each {
      CountPush(Remove(senders, at), x, id);
      CountRemove(senders, at, id);
    }
  }

  lemma {:induction false} PushCapped(senders: seq<NodeId>, x: NodeId, total: nat, each: nat)
    requires Capped(senders, total, each) && |senders| < total && Count(senders, x) < each
    ensures Capped(senders + [x], total, each)
  {
    forall id ensures Count(senders + [x], id) <= each {
      CountPush(senders, x, id);
    }
  }

  // ---- which item leaves ----

  /** The first item of a sender that no other sender outranks. */
  predicate FirstOfHeaviest(senders: seq<NodeId>, incoming: NodeId, at: nat) {
    && at < |senders|
    && (forall i | 0 <= i < |senders| :: !Outranks(senders, incoming, senders[i], senders[at]))
    && senders[at] !in senders[..at]
  }

  /** The first of the sender's items at its lowest view, which is below the new one. */
  predicate OwnOldest(prevotes: seq<Att>, att: Att, at: nat) {
    && at < |prevotes| && prevotes[at].from == att.from && prevotes[at].view < att.view
    && (forall i | 0 <= i < |prevotes| && prevotes[i].from == att.from :: prevotes[at].view <= prevotes[i].view)
    && (forall i | 0 <= i < at && prevotes[i].from == att.from :: prevotes[at].view < prevotes[i].view)
  }

  function Held(atts: seq<Att>, from: NodeId): nat {
    Count(AttSenders(atts), from)
  }

  /** `after` holds `att` last, the rest in order, and lacks only the item a full buffer gives up. */
  ghost predicate MakesRoom(atts: seq<Att>, att: Att, after: seq<Att>) {
    if |atts| < MAX_ROUND_ATTESTATIONS then after == atts + [att]
    else exists at :: FirstOfHeaviest(AttSenders(atts), att.from, at) && after == Remove(atts, at) + [att]
  }

  /** A prevote over its sender's cap is taken only for one at a lower view. */
  ghost predicate PrevoteTaken(prevotes: seq<Att>, att: Att, after: seq<Att>) {
    if Held(prevotes, att.from) < MAX_ATTESTATIONS_PER_SENDER then MakesRoom(prevotes, att, after)
    else exists at :: OwnOldest(prevotes, att, at) && after == Remove(prevotes, at) + [att]
  }

  predicate PrevoteRefused(prevotes: seq<Att>, att: Att) {
    || PrevoteKnown(prevotes, att)
    || (Held(prevotes, att.from) >= MAX_ATTESTATIONS_PER_SENDER
        && forall p | p in prevotes && p.from == att.from :: att.view <= p.view)
  }

  predicate AttestationRefused(atts: seq<Att>, att: Att) {
    att in atts || Held(atts, att.from) >= MAX_ATTESTATIONS_PER_SENDER
  }

  lemma {:induction false} SendersRemove(atts: seq<Att>, at: nat, att: Att)
    requires at < |atts|
    ensures AttSenders(Remove(atts, at) + [att]) == Remove(AttSenders(atts), at) + [att.from]
  {
  }

  lemma {:induction false} RoomMade(atts: seq<Att>, att: Att)
    requires CappedAtts(atts) && Held(atts, att.from) < MAX_ATTESTATIONS_PER_SENDER
    ensures MakesRoom(atts, att, PushAtt(atts, att)) && CappedAtts(PushAtt(atts, att))
  {
    var senders := AttSenders(atts);
    if |atts| < MAX_ROUND_ATTESTATIONS {
      PushCapped(senders, att.from, MAX_ROUND_ATTESTATIONS, MAX_ATTESTATIONS_PER_SENDER);
      assert AttSenders(atts + [att]) == senders + [att.from];
    } else {
      var at := Victim(senders, att.from);
      SwapCapped(senders, at, att.from, MAX_ROUND_ATTESTATIONS, MAX_ATTESTATIONS_PER_SENDER);
      SendersRemove(atts, at, att);
      assert FirstOfHeaviest(senders, att.from, at);
    }
  }

  lemma {:induction false} OldestReplaced(prevotes: seq<Att>, att: Att, at: nat)
    requires CappedAtts(prevotes) && OwnOldest(prevotes, att, at)
    ensures PushAtt(Remove(prevotes, at), att) == Remove(prevotes, at) + [att]
    ensures CappedAtts(Remove(prevotes, at) + [att])
  {
    SwapCapped(AttSenders(prevotes), at, att.from, MAX_ROUND_ATTESTATIONS, MAX_ATTESTATIONS_PER_SENDER);
    SendersRemove(prevotes, at, att);
  }

  /** A prevote is refused or taken, exactly when, and either way the caps hold. */
  lemma {:induction false} RecordPrevoteExact(prevotes: seq<Att>, att: Att)
    requires CappedAtts(prevotes)
    ensures var after := RecordPrevote(prevotes, att);
      && CappedAtts(after)
      && (if PrevoteRefused(prevotes, att) then after == prevotes else PrevoteTaken(prevotes, att, after))
  {
    hide OldestOf, Count;
    if Held(prevotes, att.from) < MAX_ATTESTATIONS_PER_SENDER {
      RoomMade(prevotes, att);
    } else {
      var oldest := OldestOf(prevotes, att.from);
      if oldest.Some? && prevotes[oldest.value].view < att.view {
        assert OwnOldest(prevotes, att, oldest.value);
        OldestReplaced(prevotes, att, oldest.value);
        assert prevotes[oldest.value] in prevotes;
      } else {
        forall p | p in prevotes && p.from == att.from ensures att.view <= p.view {
          var i :| 0 <= i < |prevotes| && prevotes[i] == p;
        }
      }
    }
  }

  lemma {:induction false} RecordAttestationExact(atts: seq<Att>, att: Att)
    requires CappedAtts(atts)
    ensures var after := RecordAttestation(atts, att);
      && CappedAtts(after)
      && (if AttestationRefused(atts, att) then after == atts else MakesRoom(atts, att, after))
  {
    if !AttestationRefused(atts, att) {
      RoomMade(atts, att);
    }
  }

  // ---- records ----

  lemma {:induction false} RecordRoom(records: seq<ViewChange>, r: ViewChange, stored: ViewChange)
    requires CappedRecords(records) && Count(RecordSenders(records), r.att.from) < MAX_VIEW_CHANGES_PER_SENDER
    requires stored.att == r.att
    ensures |records| < MAX_ROUND_VIEW_CHANGES ==> CappedRecords(records + [stored])
    ensures |records| >= MAX_ROUND_VIEW_CHANGES ==>
      CappedRecords(Remove(records, Victim(RecordSenders(records), r.att.from)) + [stored])
  {
    var senders := RecordSenders(records);
    if |records| < MAX_ROUND_VIEW_CHANGES {
      PushCapped(senders, r.att.from, MAX_ROUND_VIEW_CHANGES, MAX_VIEW_CHANGES_PER_SENDER);
      assert RecordSenders(records + [stored]) == senders + [r.att.from];
    } else {
      var at := Victim(senders, r.att.from);
      SwapCapped(senders, at, r.att.from, MAX_ROUND_VIEW_CHANGES, MAX_VIEW_CHANGES_PER_SENDER);
      assert RecordSenders(Remove(records, at) + [stored]) == Remove(senders, at) + [r.att.from];
    }
  }

  /** Rejections grow by one for a polka checked in vain, and only below the budget. */
  lemma {:induction false} AdmittedBounded(sel: Selection, signed: set<Att>, s: Node, r: ViewChange)
    requires RejectsBounded(sel, s.polkaRejects) && r.att.from in sel.members
    ensures var (ok, t) := PolkaAdmitted(sel, signed, s, r);
      RejectsBounded(sel, t.polkaRejects) && t.viewChanges == s.viewChanges
  {
  }

  lemma {:induction false} CollectBounded(sel: Selection, signed: set<Att>, s: Node, r: ViewChange)
    requires RecordsBounded(s.viewChanges) && RejectsBounded(sel, s.polkaRejects)
    ensures var t := CollectViewChange(sel, signed, s, r);
      RecordsBounded(t.viewChanges) && RejectsBounded(sel, t.polkaRejects)
  {
    hide PolkaAdmitted, RejectsBounded, CarriesMore, VerifyRecordPolka, Count;
    if VerifyRecordAtt(sel, signed, r) {
      AdmittedBounded(sel, signed, s, r);
      var held := HeldAt(s.viewChanges, r);
      if held.Some? {
        assert RecordSenders(s.viewChanges[held.value := r]) == RecordSenders(s.viewChanges);
      } else if Count(RecordSenders(s.viewChanges), r.att.from) < MAX_VIEW_CHANGES_PER_SENDER {
        RecordRoom(s.viewChanges, r, Lightened(s.viewChanges, r));
      }
    }
  }

  // ---- fair shares ----

  function TotalOf(senders: seq<NodeId>, ids: seq<NodeId>): nat {
    if ids == [] then 0 else Count(senders, ids[0]) + TotalOf(senders, ids[1..])
  }

  lemma {:induction false} TotalPush(senders: seq<NodeId>, x: NodeId, ids: seq<NodeId>)
    ensures TotalOf(senders + [x], ids) >= TotalOf(senders, ids) + if x in ids then 1 else 0
  {
    if ids != [] {
      CountPush(senders, x, ids[0]);
      TotalPush(senders, x, ids[1..]);
    }
  }

  lemma {:induction false} AllCounted(senders: seq<NodeId>, ids: seq<NodeId>)
    requires forall x | x in senders :: x in ids
    ensures |senders| <= TotalOf(senders, ids)
  {
    if senders != [] {
      var n := |senders| - 1;
      AllCounted(senders[..n], ids);
      TotalPush(senders[..n], senders[n], ids);
      assert senders == senders[..n] + [senders[n]];
    }
  }

  lemma {:induction false} TotalBelow(senders: seq<NodeId>, ids: seq<NodeId>, most: nat)
    requires forall id | id in ids :: Count(senders, id) <= most
    ensures TotalOf(senders, ids) <= most * |ids|
  {
    if ids != [] {
      TotalBelow(senders, ids[1..], most);
      Distribute(most, |ids| - 1);
    }
  }

  lemma {:induction false} Absent(senders: seq<NodeId>, id: NodeId)
    requires id !in senders
    ensures Count(senders, id) == 0
  {
    if senders != [] { Absent(senders[..|senders| - 1], id); }
  }

  /** Whoever loses an item holds at least the average share. */
  lemma {:induction false} LoserHoldsShare(senders: seq<NodeId>, incoming: NodeId, at: nat, ids: seq<NodeId>)
    requires FirstOfHeaviest(senders, incoming, at) && forall x | x in senders :: x in ids
    ensures Count(senders, senders[at]) * |ids| >= |senders|
  {
    var most := Count(senders, senders[at]);
    forall id | id in ids ensures Count(senders, id) <= most {
      if id in senders {
        var i :| 0 <= i < |senders| && senders[i] == id;
      } else {
        Absent(senders, id);
      }
    }
    AllCounted(senders, ids);
    TotalBelow(senders, ids, most);
  }

  function SignedBy(signed: set<Att>, from: NodeId): set<Att> {
    set a | a in signed && a.from == from
  }

  /** A buffer without repeats holds of each sender no more than it signed. */
  lemma {:induction false} HeldAreDistinct(atts: seq<Att>, signed: set<Att>, from: NodeId)
    requires NoRepeats(atts) && forall a | a in atts :: a in signed
    ensures Held(atts, from) <= |SignedBy(signed, from)|
  {
    if atts != [] {
      var n := |atts| - 1;
      var last := atts[n];
      assert AttSenders(atts)[..n] == AttSenders(atts[..n]);
      if last.from == from {
        HeldAreDistinct(atts[..n], signed - {last}, from);
        assert SignedBy(signed, from) == SignedBy(signed - {last}, from) + {last};
      } else {
        HeldAreDistinct(atts[..n], signed, from);
      }
    }
  }
}
