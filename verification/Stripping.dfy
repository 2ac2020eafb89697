/** Stripping a justification keeps its meaning for the receiver. */
module Stripping {
  import opened Arithmetic
  import opened Committee
  import opened Records
  import opened Justification
  import opened Wrappers

  predicate DistinctSenders(records: seq<ViewChange>) {
    forall i, j :: 0 <= i < j < |records| ==> records[i].att.from != records[j].att.from
  }

  /** What `collect_view_change` has checked of every record it holds. */
  predicate Collected(sel: Selection, signed: set<Att>, r: ViewChange) {
    && VerifyRecordAtt(sel, signed, r)
    && VerifyRecordPolka(sel, signed, r)
    && (r.locked.Some? ==> LockedBodyFits(r.locked.value))
  }

  function TotalCost(records: seq<ViewChange>): nat {
    if records == [] then 0
    else TotalCost(records[..|records| - 1]) + VerificationCost(records[|records| - 1])
  }

  /** `s` is `r` without its body, and without its polka unless `keep`. */
  predicate StrippedForm(r: ViewChange, s: ViewChange, keep: bool) {
    if r.locked.None? then s == r
    else s == r.(locked := Some(r.locked.value.(body := [])), polka := if keep then r.polka else None)
  }

  /** First record locked at `top`, with its polka; the one whose polka is carried. */
  predicate Carries(records: seq<ViewChange>, top: Option<View>, k: nat) {
    && k < |records|
    && records[k].locked.Some? && records[k].polka.Some? && Some(records[k].lockView) == top
    && forall j | 0 <= j < k :: !(records[j].locked.Some? && records[j].polka.Some? && Some(records[j].lockView) == top)
  }

  lemma {:induction false} StripShape(top: Option<View>, backed: bool, records: seq<ViewChange>)
    ensures forall k | 0 <= k < |records| ::
      StrippedForm(records[k], StripFrom(top, backed, records)[k], !backed && Carries(records, top, k))
    decreases |records|
  {
    if records != [] {
      var (head, now) := StripRecord(top, backed, records[0]);
      var rest := records[1..];
      StripShape(top, now, rest);
      forall k | 0 <= k < |records|
        ensures StrippedForm(records[k], StripFrom(top, backed, records)[k], !backed && Carries(records, top, k))
      {
        if k > 0 {
          assert records[k] == rest[k - 1];
          if !backed && records[k].locked.Some? {
            assert !now && Carries(rest, top, k - 1) ==> Carries(records, top, k) by {
              if !now && Carries(rest, top, k - 1) {
                forall j | 0 <= j < k
                  ensures !(records[j].locked.Some? && records[j].polka.Some? && Some(records[j].lockView) == top)
                {
                  if j > 0 { assert records[j] == rest[j - 1]; }
                }
              }
            }
            assert Carries(records, top, k) ==> !now && Carries(rest, top, k - 1) by {
              if Carries(records, top, k) {
                forall j | 0 <= j < k - 1
                  ensures !(rest[j].locked.Some? && rest[j].polka.Some? && Some(rest[j].lockView) == top)
                {
                  assert rest[j] == records[j + 1];
                }
              }
            }
          }
        }
      }
    }
  }

  lemma {:induction false} MembersBound(sel: Selection, records: seq<ViewChange>)
    requires DistinctSenders(records) && forall r | r in records :: r.att.from in sel.members
    ensures |RecordSigners(records)| == |records|
    ensures |records| <= |sel.members|
  {
    SignersCount(records);
    SetOfSeqBound(sel.members);
    assert RecordSigners(records) <= MemberSet(sel);
    SubsetSize(RecordSigners(records), MemberSet(sel));
  }

  lemma {:induction false} SignersCount(records: seq<ViewChange>)
    requires DistinctSenders(records)
    ensures |RecordSigners(records)| == |records|
  {
    if records == [] {
      assert RecordSigners(records) == {};
    } else {
      var front := records[..|records| - 1];
      SignersCount(front);
      assert RecordSigners(records) == RecordSigners(front) + {records[|records| - 1].att.from};
    }
  }

  lemma {:induction false} SetOfSeqBound(ids: seq<NodeId>)
    ensures |IdSet(ids)| <= |ids|
  {
    if ids != [] {
      SetOfSeqBound(ids[1..]);
      assert IdSet(ids) == IdSet(ids[1..]) + {ids[0]};
    }
  }

  /** Every stripped record passes the receiver's filter while the work stays under the cap. */
  lemma {:induction false} FilterKeepsAll(
    sel: Selection, signed: set<Att>, view: View, cache: set<ViewChange>, records: seq<ViewChange>, i: nat)
    requires i <= |records| && DistinctSenders(records)
    requires forall r | r in records :: r.targetView == view && VerifyRecord(sel, signed, r)
    requires TotalCost(records) <= VerificationCap(sel)
    ensures var f := FilterRecords(sel, signed, view, cache, records[..i]);
      f.valid == records[..i] && f.spent <= TotalCost(records[..i]) && !f.stopped
  {
    if i > 0 {
      FilterKeepsAll(sel, signed, view, cache, records, i - 1);
      assert records[..i][..i - 1] == records[..i - 1];
      CostOfPrefix(records, i);
      NotSeenBefore(records, i - 1);
      var f := FilterRecords(sel, signed, view, cache, records[..i - 1]);
      var r := records[i - 1];
      assert r in records;
      FilterKeepsOne(sel, signed, view, f, r);
      assert records[..i] == records[..i - 1] + [r];
    }
  }

  lemma {:induction false} FilterKeepsOne(sel: Selection, signed: set<Att>, view: View, f: Filter, r: ViewChange)
    requires !f.stopped && r.targetView == view && VerifyRecord(sel, signed, r) && !Seen(f.valid, r.att.from)
    requires f.spent + VerificationCost(r) <= VerificationCap(sel)
    ensures var g := FilterRecord(sel, signed, view, f, r);
      g.valid == f.valid + [r] && g.spent <= f.spent + VerificationCost(r) && !g.stopped
  {
  }

  lemma {:induction false} NotSeenBefore(records: seq<ViewChange>, i: nat)
    requires i < |records| && DistinctSenders(records)
    ensures !Seen(records[..i], records[i].att.from)
  {
  }

  lemma {:induction false} CostOfPrefix(records: seq<ViewChange>, i: nat)
    requires i <= |records|
    ensures TotalCost(records[..i]) <= TotalCost(records)
    decreases |records|
  {
    if i == |records| {
      assert records[..i] == records;
    } else {
      var front := records[..|records| - 1];
      CostOfPrefix(front, i);
      assert front[..i] == records[..i];
    }
  }

  lemma {:induction false} BackedTopOf(records: seq<ViewChange>, top: View, value: Value)
    requires forall r | r in records && r.locked.Some? && r.polka.Some? ::
      r.lockView == top && r.locked.value.header.value == value
    ensures BackedTop(records) ==
      if exists r | r in records :: r.locked.Some? && r.polka.Some? then Some((top, value)) else None
  {
    if records != [] {
      var front := records[..|records| - 1];
      assert forall r :: r in records <==> r in front || r == records[|records| - 1];
      BackedTopOf(front, top, value);
    }
  }

  lemma {:induction false} RetainAll(top: Option<(View, Value)>, records: seq<ViewChange>)
    requires forall r | r in records :: Retained(top, r)
    ensures Retain(top, records) == records
  {
    if records != [] {
      RetainAll(top, records[..|records| - 1]);
    }
  }

  lemma {:induction false} TopUnchanged(records: seq<ViewChange>, stripped: seq<ViewChange>)
    requires |records| == |stripped|
    requires forall k | 0 <= k < |records| ::
      records[k].locked.Some? == stripped[k].locked.Some? && records[k].lockView == stripped[k].lockView
    ensures TopLockView(stripped) == TopLockView(records)
  {
    if records != [] {
      TopUnchanged(records[..|records| - 1], stripped[..|records| - 1]);
    }
  }

  lemma {:induction false} CarrierExists(records: seq<ViewChange>, top: View) returns (k: nat)
    requires exists r | r in records :: r.locked.Some? && r.polka.Some? && r.lockView == top
    ensures Carries(records, Some(top), k)
  {
    k := 0;
    while !(records[k].locked.Some? && records[k].polka.Some? && records[k].lockView == top)
      invariant k < |records|
      invariant forall j | 0 <= j < k :: !(records[j].locked.Some? && records[j].polka.Some? && records[j].lockView == top)
      decreases |records| - k
    {
      if k + 1 == |records| {
        var r :| r in records && r.locked.Some? && r.polka.Some? && r.lockView == top;
        assert exists j :: 0 <= j < |records| && records[j] == r;
      }
      k := k + 1;
    }
  }

  lemma {:induction false} SameSigners(records: seq<ViewChange>, carried: seq<ViewChange>)
    requires |records| == |carried|
    requires forall k | 0 <= k < |records| :: records[k].att == carried[k].att
    ensures RecordSigners(carried) == RecordSigners(records)
  {
    forall id | id in RecordSigners(records) ensures id in RecordSigners(carried) {
      var r :| r in records && r.att.from == id;
      var k :| 0 <= k < |records| && records[k] == r;
      assert carried[k] in carried;
    }
    forall id | id in RecordSigners(carried) ensures id in RecordSigners(records) {
      var r :| r in carried && r.att.from == id;
      var k :| 0 <= k < |carried| && carried[k] == r;
      assert records[k] in records;
    }
  }

  lemma {:induction false} StrippedVerify(
    sel: Selection, signed: set<Att>, records: seq<ViewChange>, carried: seq<ViewChange>, top: Option<View>)
    requires |carried| == |records|
    requires forall r | r in records :: Collected(sel, signed, r)
    requires forall k | 0 <= k < |records| :: StrippedForm(records[k], carried[k], Carries(records, top, k))
    ensures forall r | r in carried :: VerifyRecord(sel, signed, r)
  {
    forall r | r in carried ensures VerifyRecord(sel, signed, r) {
      var k :| 0 <= k < |carried| && carried[k] == r;
      assert records[k] in records;
    }
  }

  /** Stripped locks at the top view keep the common value, and only there is a polka left. */
  lemma {:induction false} CarriedValues(records: seq<ViewChange>, carried: seq<ViewChange>, top: View, value: Value)
    requires |carried| == |records|
    requires forall k | 0 <= k < |records| :: StrippedForm(records[k], carried[k], Carries(records, Some(top), k))
    requires forall r | r in records && r.locked.Some? && r.lockView == top :: r.locked.value.header.value == value
    ensures forall r | r in carried && r.locked.Some? && r.lockView == top :: r.locked.value.header.value == value
    ensures forall r | r in carried && r.locked.Some? && r.polka.Some? :: r.lockView == top
  {
    forall r | r in carried && r.locked.Some?
      ensures r.lockView == top ==> r.locked.value.header.value == value
      ensures r.polka.Some? ==> r.lockView == top
    {
      var k :| 0 <= k < |carried| && carried[k] == r;
      assert records[k] in records;
    }
  }

  lemma {:induction false} CarriedBacks(sel: Selection, signed: set<Att>, records: seq<ViewChange>, carried: seq<ViewChange>, top: View)
    returns (r: ViewChange)
    requires |carried| == |records| && TopLockView(records) == Some(top)
    requires forall r | r in records :: Collected(sel, signed, r)
    requires forall k | 0 <= k < |records| :: StrippedForm(records[k], carried[k], Carries(records, Some(top), k))
    ensures r in carried && BacksTop(sel, signed, r, top)
  {
    var k := CarrierExists(records, top) by {
      var r :| r in records && r.locked.Some? && r.lockView == top;
      assert Collected(sel, signed, r);
      assert r.polka.Some?;
    }
    assert records[k] in records && carried[k] in carried;
    assert Collected(sel, signed, records[k]);
    r := carried[k];
  }

  /** Every stripped lock is below, or agrees with, the one lock that kept its polka. */
  lemma {:induction false} CarriedRetained(sel: Selection, signed: set<Att>, carried: seq<ViewChange>, top: View, value: Value, r: ViewChange)
    requires TopLockView(carried) == Some(top)
    requires forall r | r in carried && r.locked.Some? && r.lockView == top :: r.locked.value.header.value == value
    requires forall r | r in carried && r.locked.Some? && r.polka.Some? :: r.lockView == top
    requires r in carried && BacksTop(sel, signed, r, top)
    ensures forall s | s in carried :: Retained(BackedTop(carried), s)
  {
    BackedTopOf(carried, top, value);
    assert BackedTop(carried) == Some((top, value));
  }

  lemma {:induction false} SameLock(
    sel: Selection, signed: set<Att>, records: seq<ViewChange>, carried: seq<ViewChange>, top: View, r: ViewChange)
    requires TopLockView(records) == TopLockView(carried) == Some(top)
    requires JustifiedLock(sel, signed, records).Backed?
    requires forall s | s in carried && s.locked.Some? && s.lockView == top ::
      s.locked.value.header.value == JustifiedLock(sel, signed, records).block.header.value
    requires r in carried && BacksTop(sel, signed, r, top)
    ensures var sent, got := JustifiedLock(sel, signed, records), JustifiedLock(sel, signed, carried);
      got.Backed? && sent.view == got.view && sent.block.header.value == got.block.header.value
  {
    ScanMeaning(sel, signed, top, carried);
    assert OneValueAt(carried, top);
  }

  /** When `justified_lock` succeeds on collected records, the stripped records
      all survive the receiver's filter, keep the stake quorum, and give the
      receiver the same highest lock, as long as their verification work fits
      the cap. */
  lemma {:induction false} StrippingKeepsMeaning(
    sel: Selection, signed: set<Att>, view: View, cache: set<ViewChange>, records: seq<ViewChange>)
    requires DistinctSenders(records) && StakeQuorum(sel, RecordSigners(records))
    requires forall r | r in records :: r.targetView == view && Collected(sel, signed, r)
    requires TotalCost(CarriedJustification(records)) <= VerificationCap(sel)
    requires !JustifiedLock(sel, signed, records).Conflict?
    ensures var carried := CarriedJustification(records);
      && ValidJustification(sel, signed, view, cache, carried).0 == Some(carried)
      && RecordSigners(carried) == RecordSigners(records)
      && var sent, got := JustifiedLock(sel, signed, records), JustifiedLock(sel, signed, carried);
         && sent.Unlocked? == got.Unlocked? && sent.Backed? == got.Backed?
         && (sent.Backed? ==> sent.view == got.view && sent.block.header.value == got.block.header.value)
  {
    var carried := CarriedJustification(records);
    var top := TopLockView(records);
    StripShape(top, false, records);
    StrippedFields(records, carried, top);
    TopUnchanged(records, carried);
    SameSigners(records, carried);
    StrippedVerify(sel, signed, records, carried, top);
    match top {
      case Some(view) =>
        assert !JustifiedLock(sel, signed, records).Unlocked?;
        LocksCarry(sel, signed, records, carried, view);
      case None =>
        BackedTopOf(carried, 0, 0);
    }
    ReceiverAccepts(sel, signed, view, cache, carried);
  }

  lemma {:induction false} StrippedFields(records: seq<ViewChange>, carried: seq<ViewChange>, top: Option<View>)
    requires |carried| == |records|
    requires forall k | 0 <= k < |records| :: StrippedForm(records[k], carried[k], Carries(records, top, k))
    ensures forall k | 0 <= k < |records| ::
      && records[k].att == carried[k].att && records[k].targetView == carried[k].targetView
      && records[k].locked.Some? == carried[k].locked.Some? && records[k].lockView == carried[k].lockView
  {
    forall k | 0 <= k < |records|
      ensures records[k].att == carried[k].att && records[k].targetView == carried[k].targetView
      ensures records[k].locked.Some? == carried[k].locked.Some? && records[k].lockView == carried[k].lockView
    {
      assert StrippedForm(records[k], carried[k], Carries(records, top, k));
    }
  }

  lemma {:induction false} LocksCarry(sel: Selection, signed: set<Att>, records: seq<ViewChange>, carried: seq<ViewChange>, top: View)
    requires |carried| == |records| && TopLockView(records) == TopLockView(carried) == Some(top)
    requires forall r | r in records :: Collected(sel, signed, r)
    requires forall k | 0 <= k < |records| :: StrippedForm(records[k], carried[k], Carries(records, Some(top), k))
    requires JustifiedLock(sel, signed, records).Backed?
    ensures forall s | s in carried :: Retained(BackedTop(carried), s)
    ensures var sent, got := JustifiedLock(sel, signed, records), JustifiedLock(sel, signed, carried);
      got.Backed? && sent.view == got.view && sent.block.header.value == got.block.header.value
  {
    var value := JustifiedLock(sel, signed, records).block.header.value;
    TopValue(sel, signed, records, top);
    CarriedValues(records, carried, top, value);
    var r := CarriedBacks(sel, signed, records, carried, top);
    CarriedRetained(sel, signed, carried, top, value, r);
    SameLock(sel, signed, records, carried, top, r);
  }

  lemma {:induction false} ReceiverAccepts(sel: Selection, signed: set<Att>, view: View, cache: set<ViewChange>, records: seq<ViewChange>)
    requires DistinctSenders(records) && StakeQuorum(sel, RecordSigners(records))
    requires forall r | r in records :: r.targetView == view && VerifyRecord(sel, signed, r)
    requires TotalCost(records) <= VerificationCap(sel)
    requires forall r | r in records :: Retained(BackedTop(records), r)
    ensures ValidJustification(sel, signed, view, cache, records).0 == Some(records)
  {
    MembersBound(sel, records);
    FilterKeepsAll(sel, signed, view, cache, records, |records|);
    assert records[..|records|] == records;
    RetainAll(BackedTop(records), records);
  }

  lemma {:induction false} TopValue(sel: Selection, signed: set<Att>, records: seq<ViewChange>, top: View)
    requires TopLockView(records) == Some(top) && JustifiedLock(sel, signed, records).Backed?
    ensures forall r | r in records && r.locked.Some? && r.lockView == top ::
      r.locked.value.header.value == JustifiedLock(sel, signed, records).block.header.value
  {
    JustifiedLockExact(sel, signed, records);
  }
}
