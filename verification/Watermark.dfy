/** The prevote and proposal watermark: a mark in memory that may run ahead of the
    mark on disk after a reservation, over any mix of calls, failed writes and crashes. */
module Watermark {
  import opened Wrappers

  /** Height, view and the 32-byte value read as a number; 0 is the all-zero value. */
  datatype Mark = Mark(height: nat, view: nat, value: nat)

  const ZERO: nat := 0

  datatype Guard = Guard(mark: Option<Mark>, reserved: bool, disk: Option<Mark>)

  datatype Write = Ok | FailedOld | FailedNew

  datatype Call =
    | Reserve(height: nat, view: nat, write: Write)
    | TryPrevote(height: nat, view: nat, value: nat, write: Write)
    | RaiseTo(height: nat, write: Write)
    | Restart

  predicate Before(h: nat, v: nat, m: Mark) {
    h < m.height || (h == m.height && v < m.view)
  }

  predicate Permits(mark: Option<Mark>, h: nat, v: nat, value: nat) {
    mark.None? || !(Before(h, v, mark.value) || (h == mark.value.height && v == mark.value.view && value != mark.value.value))
  }

  function Persist(g: Guard, m: Mark, write: Write): Guard {
    match write
    case Ok => g.(mark := Some(m), disk := Some(m))
    case FailedOld => g
    case FailedNew => g.(disk := Some(m))
  }

  /** The guard after a call and whether it granted a signature. */
  function Step(g: Guard, call: Call): (Guard, bool) {
    match call
    case Reserve(h, v, write) =>
      if g.mark.Some? && (Before(h, v, g.mark.value) || (h == g.mark.value.height && v == g.mark.value.view)) then (g, false)
      else
        var next := Persist(g, Mark(h, v, ZERO), write);
        (if write.Ok? then next.(reserved := true) else next, false)
    case TryPrevote(h, v, value, write) =>
      if g.reserved && g.mark == Some(Mark(h, v, ZERO)) then
        (g.(mark := Some(Mark(h, v, value)), reserved := false), true)
      else if !Permits(g.mark, h, v, value) then (g, false)
      else (Persist(g, Mark(h, v, value), write), write.Ok?)
    case RaiseTo(h, write) =>
      if g.mark.Some? && g.mark.value.height >= h then (g, false)
      else (Persist(g, Mark(h, U64_MAX, ZERO), write), false)
    case Restart => (Guard(g.disk, false, g.disk), false)
  }

  datatype Grant = Grant(height: nat, view: nat, value: nat)

  /** Signatures granted over a history of calls. */
  function Grants(g: Guard, calls: seq<Call>): set<Grant>
    decreases |calls|
  {
    if calls == [] then {}
    else
      var (next, granted) := Step(g, calls[0]);
      Grants(next, calls[1..])
      + if granted && calls[0].TryPrevote? then {Grant(calls[0].height, calls[0].view, calls[0].value)} else {}
  }

  predicate NoZero(calls: seq<Call>) {
    forall c | c in calls && c.TryPrevote? :: c.value != ZERO
  }

  predicate OneValue(grants: set<Grant>) {
    forall a, b | a in grants && b in grants :: a.height == b.height && a.view == b.view ==> a.value == b.value
  }

  /** A mark covers a grant: past it, at it with its value, or at it as a spent reservation. */
  predicate Covers(m: Option<Mark>, a: Grant, spent: bool) {
    m.Some? &&
    (Before(a.height, a.view, m.value)
     || (a.height == m.value.height && a.view == m.value.view
         && (a.value == m.value.value || (spent && m.value.value == ZERO))))
  }

  predicate GuardOk(g: Guard, past: set<Grant>) {
    && (forall a | a in past :: a.value != ZERO && Covers(g.mark, a, !g.reserved) && Covers(g.disk, a, true))
    && OneValue(past)
    && (g.reserved && g.mark.Some? && g.mark.value.value == ZERO ==>
          g.disk.Some? && (g.disk == g.mark || Before(g.mark.value.height, g.mark.value.view, g.disk.value)))
  }

  lemma {:induction false} GrantsStayOneValue(g: Guard, calls: seq<Call>, past: set<Grant>)
    requires GuardOk(g, past) && NoZero(calls)
    ensures OneValue(past + Grants(g, calls))
    decreases |calls|
  {
    if calls == [] {
      assert past + Grants(g, calls) == past;
    } else {
      var (next, granted) := Step(g, calls[0]);
      var new_ := if granted && calls[0].TryPrevote? then {Grant(calls[0].height, calls[0].view, calls[0].value)} else {};
      StepKeeps(g, calls[0], past);
      GrantsStayOneValue(next, calls[1..], past + new_);
      assert past + Grants(g, calls) == past + new_ + Grants(next, calls[1..]);
    }
  }

  lemma {:induction false} StepKeeps(g: Guard, call: Call, past: set<Grant>)
    requires GuardOk(g, past) && (call.TryPrevote? ==> call.value != ZERO)
    ensures var (next, granted) := Step(g, call);
      GuardOk(next, past + if granted && call.TryPrevote? then {Grant(call.height, call.view, call.value)} else {})
  {
    var (next, granted) := Step(g, call);
    if granted {
      GrantKeeps(g, call, past);
    } else {
      RefusalKeeps(g, call, past);
      assert past + {} == past;
    }
  }

  lemma {:induction false} GrantKeeps(g: Guard, call: Call, past: set<Grant>)
    requires GuardOk(g, past) && Step(g, call).1 && call.TryPrevote? && call.value != ZERO
    ensures GuardOk(Step(g, call).0, past + {Grant(call.height, call.view, call.value)})
  {
    var new_ := Grant(call.height, call.view, call.value);
    forall a | a in past ensures a.height == new_.height && a.view == new_.view ==> a.value == new_.value {
      assert Covers(g.mark, a, !g.reserved);
    }
  }

  lemma {:induction false} RefusalKeeps(g: Guard, call: Call, past: set<Grant>)
    requires GuardOk(g, past) && !Step(g, call).1
    ensures GuardOk(Step(g, call).0, past)
  {
    hide OneValue;
  }

  /** A signature is granted exactly when the write goes through and the mark is absent, earlier, or at
      the very same height, view and value; or, without a write, when a reservation for the height and
      view is still unspent. */
  lemma {:induction false} GrantedExactly(g: Guard, h: nat, v: nat, value: nat, write: Write)
    ensures var (next, granted) := Step(g, TryPrevote(h, v, value, write));
      && (granted <==>
            || (g.reserved && g.mark == Some(Mark(h, v, ZERO)))
            || (write.Ok? && (g.mark.None? || g.mark.value.height < h || (g.mark.value.height == h && g.mark.value.view < v)
                              || g.mark.value == Mark(h, v, value))))
      && (granted ==> next.mark == Some(Mark(h, v, value)))
      && (granted && !(g.reserved && g.mark == Some(Mark(h, v, ZERO))) ==> next.disk == next.mark)
  {
  }

  /** A reservation is taken exactly above the mark, and a raise exactly to a later height. */
  lemma {:induction false} ReservedExactly(g: Guard, h: nat, v: nat, write: Write)
    ensures var next := Step(g, Reserve(h, v, write)).0;
      if g.mark.None? || g.mark.value.height < h || (g.mark.value.height == h && g.mark.value.view < v) then
        && (write.Ok? ==> next == Guard(Some(Mark(h, v, ZERO)), true, Some(Mark(h, v, ZERO))))
        && (write.FailedOld? ==> next == g) && (write.FailedNew? ==> next == g.(disk := Some(Mark(h, v, ZERO))))
      else next == g
    ensures var next := Step(g, RaiseTo(h, write)).0;
      if g.mark.None? || g.mark.value.height < h then
        (write.Ok? ==> next.mark == Some(Mark(h, U64_MAX, ZERO)) && next.disk == next.mark) && (write.FailedOld? ==> next == g)
      else next == g
  {
  }

  predicate Opened(g: Guard) {
    g.mark == g.disk && !g.reserved
  }

  /** Over any calls, failed writes and restarts from an opened guard, no two granted
      signatures of one height and view differ, as long as nobody asks to sign the
      all-zero value. */
  lemma {:induction false} NeverEquivocates(g: Guard, calls: seq<Call>)
    requires Opened(g) && NoZero(calls)
    ensures OneValue(Grants(g, calls))
  {
    GrantsStayOneValue(g, calls, {});
    assert {} + Grants(g, calls) == Grants(g, calls);
  }

  /** A spent reservation looks all-zero on disk, so after a restart the all-zero value is
      granted beside the value signed before. */
  lemma {:induction false} ZeroEquivocates(w: nat)
    requires w != ZERO
    ensures var g := Guard(None, false, None);
      Opened(g) && !OneValue(Grants(g, ZeroHistory(w)))
  {
    var g := Guard(None, false, None);
    var c0, c1, c2, c3 := Reserve(1, 0, Ok), TryPrevote(1, 0, w, Ok), Restart, TryPrevote(1, 0, ZERO, Ok);
    var g1 := Step(g, c0).0;
    var g2 := Step(g1, c1).0;
    var g3 := Step(g2, c2).0;
    assert Grant(1, 0, ZERO) in Grants(g3, [c3]);
    assert [c2, c3][1..] == [c3];
    assert Grants(g2, [c2, c3]) == Grants(g3, [c3]);
    assert [c1, c2, c3][1..] == [c2, c3];
    assert Grant(1, 0, w) in Grants(g1, [c1, c2, c3]) && Grant(1, 0, ZERO) in Grants(g1, [c1, c2, c3]);
    assert [c0, c1, c2, c3][1..] == [c1, c2, c3];
    assert Grants(g, [c0, c1, c2, c3]) == Grants(g1, [c1, c2, c3]);
  }

  function ZeroHistory(w: nat): seq<Call> {
    [Reserve(1, 0, Ok), TryPrevote(1, 0, w, Ok), Restart, TryPrevote(1, 0, ZERO, Ok)]
  }

  /** Every value asked for is among the allowed ones. */
  ghost predicate Asks(calls: seq<Call>, allowed: iset<nat>) {
    forall c | c in calls && c.TryPrevote? :: c.value in allowed
  }

  lemma {:induction false} GrantsAreAsked(g: Guard, calls: seq<Call>, allowed: iset<nat>)
    requires Asks(calls, allowed)
    ensures forall a | a in Grants(g, calls) :: a.value in allowed
    decreases |calls|
  {
    if calls != [] {
      GrantsAreAsked(Step(g, calls[0]).0, calls[1..], allowed);
    }
  }

  /** Exactly which values keep the guard to one value per height and view over every history:
      any without the all-zero value, or the all-zero value alone. */
  lemma {:induction false} EquivocationExactly(allowed: iset<nat>)
    ensures (forall g, calls | Opened(g) && Asks(calls, allowed) :: OneValue(Grants(g, calls)))
      <==> ZERO !in allowed || allowed <= iset{ZERO}
  {
    if ZERO !in allowed {
      forall g, calls | Opened(g) && Asks(calls, allowed) ensures OneValue(Grants(g, calls)) {
        NeverEquivocates(g, calls);
      }
    } else if allowed <= iset{ZERO} {
      forall g, calls | Opened(g) && Asks(calls, allowed) ensures OneValue(Grants(g, calls)) {
        GrantsAreAsked(g, calls, allowed);
      }
    } else {
      var w :| w in allowed && w != ZERO;
      ZeroEquivocates(w);
      assert Asks(ZeroHistory(w), allowed);
    }
  }
}
