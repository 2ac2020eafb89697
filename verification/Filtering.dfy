/** What the receiver's metered filter keeps of a justification, independently of its cache, and how
    much verification work it can be made to do. */
module Filtering {
  import opened Committee
  import opened Records
  import opened Justification
  import opened Stripping
  import opened Wrappers

  /** However many records come, the work spent on them stays within the cap. */
  lemma {:induction false} WorkBounded(sel: Selection, signed: set<Att>, view: View, cache: set<ViewChange>, records: seq<ViewChange>)
    ensures FilterRecords(sel, signed, view, cache, records).spent <= VerificationCap(sel)
  {
    hide VerifyRecord, Seen, VerificationCost;
    if records != [] {
      WorkBounded(sel, signed, view, cache, records[..|records| - 1]);
    }
  }

  /** The first verified record of each sender for the view, read from the left. */
  function FirstVerified(sel: Selection, signed: set<Att>, view: View, records: seq<ViewChange>): seq<ViewChange> {
    if records == [] then []
    else
      var rest := FirstVerified(sel, signed, view, records[..|records| - 1]);
      var last := records[|records| - 1];
      if last.targetView == view && VerifyRecord(sel, signed, last) && !Seen(rest, last.att.from) then rest + [last] else rest
  }

  /** What that means record by record. */
  lemma {:induction false} FirstVerifiedMeans(sel: Selection, signed: set<Att>, view: View, records: seq<ViewChange>)
    ensures var out := FirstVerified(sel, signed, view, records);
      && DistinctSenders(out)
      && (forall r | r in out :: r in records && r.targetView == view && VerifyRecord(sel, signed, r))
      && (forall r | r in records && r.targetView == view && VerifyRecord(sel, signed, r) :: Seen(out, r.att.from))
  {
    hide VerifyRecord;
    if records != [] {
      var front, last := records[..|records| - 1], records[|records| - 1];
      FirstVerifiedMeans(sel, signed, view, front);
      var rest, out := FirstVerified(sel, signed, view, front), FirstVerified(sel, signed, view, records);
      assert forall r :: r in records <==> r in front || r == last;
      forall r | r in records && r.targetView == view && VerifyRecord(sel, signed, r) ensures Seen(out, r.att.from) {
        if r in front {
          var h :| h in rest && h.att.from == r.att.from;
          assert h in out;
        } else if !Seen(rest, last.att.from) {
          assert out[|rest|] == last;
        }
      }
    }
  }

  lemma {:induction false} VerifiedMember(sel: Selection, signed: set<Att>, r: ViewChange)
    requires VerifyRecord(sel, signed, r)
    ensures r.att.from in sel.members
  {
  }

  /** With a cache of verified records the filter keeps exactly the first verified record of each
      sender, from all the records or, if the work ran out, from those before that point. */
  lemma {:induction false} FilterKeepsFirst(sel: Selection, signed: set<Att>, view: View, cache: set<ViewChange>, records: seq<ViewChange>)
    returns (read: nat)
    requires forall r | r in cache :: VerifyRecord(sel, signed, r)
    ensures var f := FilterRecords(sel, signed, view, cache, records);
      && read <= |records| && (!f.stopped ==> read == |records|)
      && f.valid == FirstVerified(sel, signed, view, records[..read])
      && forall r | r in f.cache :: VerifyRecord(sel, signed, r)
  {
    hide VerifyRecord, VerificationCost, VerificationCap;
    if records == [] {
      read := 0;
    } else {
      var n := |records| - 1;
      var front, last := records[..n], records[n];
      var before := FilterKeepsFirst(sel, signed, view, cache, front);
      var f := FilterRecords(sel, signed, view, cache, front);
      if VerifyRecord(sel, signed, last) { VerifiedMember(sel, signed, last); }
      if FilterRecords(sel, signed, view, cache, records).stopped {
        read := before;
        assert records[..read] == front[..read];
      } else {
        read := |records|;
        assert front[..before] == front && records[..read] == records;
      }
    }
  }

  /** The work the records ask for is an upper bound on what is spent, so within the cap nothing stops. */
  lemma {:induction false} WithinCap(sel: Selection, signed: set<Att>, view: View, cache: set<ViewChange>, records: seq<ViewChange>)
    requires TotalCost(records) <= VerificationCap(sel)
    ensures var f := FilterRecords(sel, signed, view, cache, records); !f.stopped && f.spent <= TotalCost(records)
  {
    hide VerifyRecord, Seen, VerificationCost, VerificationCap;
    if records != [] {
      WithinCap(sel, signed, view, cache, records[..|records| - 1]);
    }
  }

  /** What was verified before never changes the answer, only the work: within the cap every cache of
      verified records gives the verdict an empty one gives. */
  lemma {:induction false} CacheTransparent(sel: Selection, signed: set<Att>, view: View, cache: set<ViewChange>, records: seq<ViewChange>)
    requires TotalCost(records) <= VerificationCap(sel) && forall r | r in cache :: VerifyRecord(sel, signed, r)
    ensures ValidJustification(sel, signed, view, cache, records).0 == ValidJustification(sel, signed, view, {}, records).0
  {
    hide FilterRecords, VerifyRecord, StakeQuorum, BackedTop, Retain, TotalCost, VerificationCap;
    WithinCap(sel, signed, view, cache, records);
    WithinCap(sel, signed, view, {}, records);
    var a := FilterKeepsFirst(sel, signed, view, cache, records);
    var b := FilterKeepsFirst(sel, signed, view, {}, records);
    assert records[..a] == records[..b];
  }

  /** The highest lock that comes with a polka: no such lock is above it, and it is one of them. */
  lemma {:induction false} BackedTopExact(records: seq<ViewChange>)
    ensures var top := BackedTop(records);
      && (top.None? <==> forall r | r in records :: !(r.polka.Some? && r.locked.Some?))
      && (top.Some? ==>
            && (forall r | r in records && r.polka.Some? && r.locked.Some? :: r.lockView <= top.value.0)
            && exists r | r in records :: r.polka.Some? && r.locked.Some? && top.value == (r.lockView, r.locked.value.header.value))
  {
    if records != [] {
      BackedTopExact(records[..|records| - 1]);
      assert forall r :: r in records <==> r in records[..|records| - 1] || r == records[|records| - 1];
    }
  }

  lemma {:induction false} RetainExact(top: Option<(View, Value)>, records: seq<ViewChange>)
    ensures forall r :: r in Retain(top, records) <==> r in records && Retained(top, r)
  {
    hide Retained;
    if records != [] {
      RetainExact(top, records[..|records| - 1]);
      assert forall r :: r in records <==> r in records[..|records| - 1] || r == records[|records| - 1];
    }
  }

  /** In an accepted justification every lock sent without its polka is below, or at and for the same
      value as, one that came with a polka. */
  lemma {:induction false} BareLocksAreCovered(sel: Selection, signed: set<Att>, view: View, cache: set<ViewChange>, records: seq<ViewChange>)
    ensures var valid := ValidJustification(sel, signed, view, cache, records).0;
      valid.Some? ==> forall r | r in valid.value && r.locked.Some? && r.polka.None? ::
        exists b | b in valid.value :: b.locked.Some? && b.polka.Some?
          && (r.lockView < b.lockView || (r.lockView == b.lockView && r.locked.value.header.value == b.locked.value.header.value))
  {
    hide FilterRecords, StakeQuorum, Retain, BackedTop;
    var f := FilterRecords(sel, signed, view, cache, records);
    var top := BackedTop(f.valid);
    BackedTopExact(f.valid);
    RetainExact(top, f.valid);
    var kept := Retain(top, f.valid);
    if top.Some? {
      var b :| b in f.valid && b.polka.Some? && b.locked.Some? && top.value == (b.lockView, b.locked.value.header.value);
      assert b in kept;
    }
  }

  /** Nothing else is dropped: a kept record leaves the filtered ones only for lacking such cover. */
  lemma {:induction false} AcceptedExactly(sel: Selection, signed: set<Att>, view: View, cache: set<ViewChange>, records: seq<ViewChange>)
    requires |records| <= |sel.members|
    ensures var kept := FilterRecords(sel, signed, view, cache, records).valid;
      var (valid, after) := ValidJustification(sel, signed, view, cache, records);
      && (valid.Some? ==> forall r :: r in valid.value <==> r in kept && Retained(BackedTop(kept), r))
      && (valid.Some? <==> StakeQuorum(sel, set r | r in kept && Retained(BackedTop(kept), r) :: r.att.from))
  {
    hide FilterRecords, StakeQuorum, BackedTop, Retained;
    var kept := FilterRecords(sel, signed, view, cache, records).valid;
    RetainExact(BackedTop(kept), kept);
    assert RecordSigners(Retain(BackedTop(kept), kept)) == set r | r in kept && Retained(BackedTop(kept), r) :: r.att.from;
  }
}
