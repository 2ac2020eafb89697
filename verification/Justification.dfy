/** Justifying a proposal at a later view: reading the highest lock out of
    view-change records, filtering received records, and stripping records
    before they are sent. */
module Justification {
  import opened Committee
  import opened Records
  import opened Wrappers

  /** Result of `justified_lock`: an error, no lock at all, or a lock backed by a polka. */
  datatype High = Conflict | Unlocked | Backed(view: View, block: LockedBlock)

  /** Highest lock view among the records that carry a lock. */
  function TopLockView(records: seq<ViewChange>): (top: Option<View>)
    ensures top.None? <==> forall r | r in records :: r.locked.None?
    ensures top.Some? ==> exists r | r in records :: r.locked.Some? && r.lockView == top.value
    ensures top.Some? ==> forall r | r in records && r.locked.Some? :: r.lockView <= top.value
  {
    if records == [] then None
    else
      var rest := TopLockView(records[..|records| - 1]);
      var last := records[|records| - 1];
      assert forall r :: r in records <==> r in records[..|records| - 1] || r == last;
      if last.locked.None? then rest
      else if rest.None? || rest.value < last.lockView then Some(last.lockView)
      else rest
  }

  /** `r` is a lock at `top` that a polka backs and whose body may be used. */
  predicate BacksTop(sel: Selection, signed: set<Att>, r: ViewChange, top: View) {
    && r.locked.Some?
    && r.lockView == top
    && LockedBodyFits(r.locked.value)
    && r.polka.Some?
    && PolkaBacks(sel, signed, top, r.lockPol, r.locked.value, r.polka.value)
  }

  /** One turn of the scan: the value seen at the top view and the backed block so far. */
  datatype Scan = Clash | Scan(seen: Option<Value>, backed: Option<LockedBlock>)

  function ScanRecord(sel: Selection, signed: set<Att>, top: View, at: Scan, r: ViewChange): Scan {
    if at.Clash? || r.locked.None? || r.lockView != top then at
    else
      var block := r.locked.value;
      if at.seen.Some? && at.seen.value != block.header.value then Clash
      else
        var improves := at.backed.None? || (at.backed.value.body == [] && block.body != []);
        Scan(Some(block.header.value),
             if improves && BacksTop(sel, signed, r, top) then Some(block) else at.backed)
  }

  function ScanRecords(sel: Selection, signed: set<Att>, top: View, records: seq<ViewChange>): Scan {
    if records == [] then Scan(None, None)
    else ScanRecord(sel, signed, top, ScanRecords(sel, signed, top, records[..|records| - 1]), records[|records| - 1])
  }

  function JustifiedLock(sel: Selection, signed: set<Att>, records: seq<ViewChange>): High {
    match TopLockView(records)
    case None => Unlocked
    case Some(top) =>
      var scan := ScanRecords(sel, signed, top, records);
      if scan.Scan? && scan.backed.Some? then Backed(top, scan.backed.value) else Conflict
  }

  /** All locks at `top` carry one value. */
  predicate OneValueAt(records: seq<ViewChange>, top: View) {
    forall r, s | r in records && s in records ::
      r.locked.Some? && s.locked.Some? && r.lockView == top && s.lockView == top
      ==> r.locked.value.header.value == s.locked.value.header.value
  }

  lemma {:induction false} ScanMeaning(sel: Selection, signed: set<Att>, top: View, records: seq<ViewChange>)
    ensures var scan := ScanRecords(sel, signed, top, records);
      && (scan.Scan? <==> OneValueAt(records, top))
      && (scan.Scan? ==>
            && (scan.seen.Some? <==> exists r | r in records :: r.locked.Some? && r.lockView == top)
            && (forall r | r in records && r.locked.Some? && r.lockView == top ::
                  scan.seen == Some(r.locked.value.header.value))
            && (scan.backed.Some? <==> exists r | r in records :: BacksTop(sel, signed, r, top))
            && (scan.backed.Some? ==> exists r | r in records :: BacksTop(sel, signed, r, top) && r.locked.value == scan.backed.value)
            && (scan.backed.Some? && scan.backed.value.body == [] ==>
                  forall r | r in records && BacksTop(sel, signed, r, top) :: r.locked.value.body == []))
  {
    if records != [] {
      var front := records[..|records| - 1];
      var last := records[|records| - 1];
      ScanMeaning(sel, signed, top, front);
      assert forall r :: r in records <==> r in front || r == last;
    }
  }

  /** `justified_lock` is exact: it reports no lock exactly when no record locks,
      and a lock exactly when all locks at the highest lock view agree and one of
      them is backed; the block it returns is then such a backed one, with a body
      whenever any backed one has a body. */
  lemma {:induction false} JustifiedLockExact(sel: Selection, signed: set<Att>, records: seq<ViewChange>)
    ensures var high := JustifiedLock(sel, signed, records);
      && (high.Unlocked? <==> forall r | r in records :: r.locked.None?)
      && (high.Backed? <==>
            exists top | TopLockView(records) == Some(top) ::
              OneValueAt(records, top) && exists r | r in records :: BacksTop(sel, signed, r, top))
      && (high.Backed? ==>
            && TopLockView(records) == Some(high.view)
            && (exists r | r in records :: BacksTop(sel, signed, r, high.view) && r.locked.value == high.block)
            && (forall r | r in records && r.locked.Some? && r.lockView == high.view ::
                  r.locked.value.header.value == high.block.header.value)
            && (high.block.body == [] ==>
                  forall r | r in records && BacksTop(sel, signed, r, high.view) :: r.locked.value.body == []))
  {
    var top := TopLockView(records);
    if top.Some? {
      ScanMeaning(sel, signed, top.value, records);
    }
  }

  /** The loop of `justified_lock`. */
  method FindJustifiedLock(sel: Selection, signed: set<Att>, records: seq<ViewChange>) returns (high: High)
    ensures high == JustifiedLock(sel, signed, records)
  {
    var top := TopLockView(records);
    if top.None? {
      return Unlocked;
    }
    var value: Option<Value> := None;
    var backed: Option<LockedBlock> := None;
    var i := 0;
    while i < |records|
      invariant 0 <= i <= |records|
      invariant ScanRecords(sel, signed, top.value, records[..i]) == Scan(value, backed)
    {
      var record := records[i];
      assert records[..i + 1][..i] == records[..i];
      if record.locked.Some? && record.lockView == top.value {
        var block := record.locked.value;
        if value.Some? && value.value != block.header.value {
          ClashStays(sel, signed, top.value, records, i + 1);
          return Conflict;
        }
        value := Some(block.header.value);
        var improves := backed.None? || (backed.value.body == [] && block.body != []);
        if improves && LockedBodyFits(block) && record.polka.Some?
           && PolkaBacks(sel, signed, top.value, record.lockPol, block, record.polka.value) {
          backed := Some(block);
        }
      }
      i := i + 1;
    }
    assert records[..i] == records;
    high := if backed.Some? then Backed(top.value, backed.value) else Conflict;
  }

  lemma {:induction false} ClashStays(sel: Selection, signed: set<Att>, top: View, records: seq<ViewChange>, i: nat)
    requires i <= |records| && ScanRecords(sel, signed, top, records[..i]).Clash?
    ensures ScanRecords(sel, signed, top, records).Clash?
    decreases |records| - i
  {
    if i == |records| {
      assert records[..i] == records;
    } else {
      assert records[..i + 1][..i] == records[..i];
      ClashStays(sel, signed, top, records, i + 1);
    }
  }

  // ---- filtering received records ----

  function VerificationCost(r: ViewChange): nat {
    1 + if r.polka.Some? then |r.polka.value.atts| else 0
  }

  function VerificationCap(sel: Selection): nat {
    if 4 * sel.budget > |sel.members| then 4 * sel.budget else |sel.members|
  }

  const MAX_JUSTIFICATION_CACHE: nat := 4096

  function Remember(cache: set<ViewChange>, r: ViewChange): set<ViewChange> {
    (if |cache| >= MAX_JUSTIFICATION_CACHE then {} else cache) + {r}
  }

  /** State of the filter loop: kept records, verification work and the cache of verified records. */
  datatype Filter = Filter(valid: seq<ViewChange>, spent: nat, cache: set<ViewChange>, stopped: bool)

  predicate Seen(valid: seq<ViewChange>, id: NodeId) {
    exists r | r in valid :: r.att.from == id
  }

  function FilterRecord(sel: Selection, signed: set<Att>, view: View, f: Filter, r: ViewChange): Filter {
    if f.stopped || r.targetView != view || Seen(f.valid, r.att.from) then f
    else if r in f.cache then
      if r.att.from in sel.members then f.(valid := f.valid + [r]) else f
    else if f.spent + VerificationCost(r) > VerificationCap(sel) then f.(stopped := true)
    else
      var spent := f.spent + VerificationCost(r);
      if !VerifyRecord(sel, signed, r) then f.(spent := spent)
      else Filter(f.valid + [r], spent, Remember(f.cache, r), false)
  }

  function FilterRecords(sel: Selection, signed: set<Att>, view: View, cache: set<ViewChange>, records: seq<ViewChange>): Filter {
    if records == [] then Filter([], 0, cache, false)
    else FilterRecord(sel, signed, view,
                      FilterRecords(sel, signed, view, cache, records[..|records| - 1]), records[|records| - 1])
  }

  /** View and value of the last record with the highest backed lock (`max_by_key` keeps the last maximum). */
  function BackedTop(records: seq<ViewChange>): Option<(View, Value)> {
    if records == [] then None
    else
      var rest := BackedTop(records[..|records| - 1]);
      var last := records[|records| - 1];
      if last.polka.Some? && last.locked.Some? && (rest.None? || rest.value.0 <= last.lockView)
      then Some((last.lockView, last.locked.value.header.value))
      else rest
  }

  /** A lock without its polka is kept only under, or in agreement with, the highest backed lock. */
  predicate Retained(top: Option<(View, Value)>, r: ViewChange) {
    r.locked.Some? && r.polka.None? ==>
      && top.Some?
      && (r.lockView < top.value.0
          || (r.lockView == top.value.0 && r.locked.value.header.value == top.value.1))
  }

  function Retain(top: Option<(View, Value)>, records: seq<ViewChange>): seq<ViewChange> {
    if records == [] then []
    else
      var rest := Retain(top, records[..|records| - 1]);
      var last := records[|records| - 1];
      if Retained(top, last) then rest + [last] else rest
  }

  function RecordSigners(records: seq<ViewChange>): set<NodeId> {
    set r | r in records :: r.att.from
  }

  function ValidJustification(sel: Selection, signed: set<Att>, view: View, cache: set<ViewChange>, records: seq<ViewChange>)
    : (Option<seq<ViewChange>>, set<ViewChange>)
  {
    if |records| > |sel.members| then (None, cache)
    else
      var f := FilterRecords(sel, signed, view, cache, records);
      var kept := Retain(BackedTop(f.valid), f.valid);
      (if StakeQuorum(sel, RecordSigners(kept)) then Some(kept) else None, f.cache)
  }

  // ---- stripping records before sending ----

  function StripRecord(top: Option<View>, backed: bool, r: ViewChange): (ViewChange, bool) {
    if r.locked.None? then (r, backed)
    else
      var bare := r.(locked := Some(r.locked.value.(body := [])));
      if Some(r.lockView) == top && !backed && r.polka.Some? then (bare, true)
      else (bare.(polka := None), backed)
  }

  /** Strips from the left; the flag tells whether a polka at the top view was already kept. */
  function StripFrom(top: Option<View>, backed: bool, records: seq<ViewChange>): (out: seq<ViewChange>)
    ensures |out| == |records|
    decreases |records|
  {
    if records == [] then []
    else
      var (head, now) := StripRecord(top, backed, records[0]);
      [head] + StripFrom(top, now, records[1..])
  }

  function CarriedJustification(records: seq<ViewChange>): seq<ViewChange> {
    StripFrom(TopLockView(records), false, records)
  }
}
