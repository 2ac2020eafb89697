/** Signing precommits across crashes: the lock file, the sign watermark and the
    chain head are on disk; everything else is lost when the process dies. A write
    either succeeds or fails, and a failed write leaves the old or the new contents. */
module CrashSafety {
  import opened Wrappers

  type Height = nat
  type View = nat
  type Value = nat

  datatype Vote = Vote(view: View, value: Value)

  datatype StoredLock = StoredLock(height: Height, vote: Vote)

  datatype Mark = Mark(height: Height, view: View, value: Value)

  datatype Disk = Disk(head: Height, lockFile: Option<StoredLock>, signMark: Option<Mark>)

  /** How far `form_polka_and_precommit` has come, or a finalised block being persisted. */
  datatype Progress = Idle | LockWritten | Locked | MarkWritten | Marked | Persisted

  datatype Memory =
    | Down
    | Up(height: Height, view: View, staged: Option<Vote>, lock: Option<Vote>, mark: Option<Mark>,
         hold: nat, fatal: bool, at: Progress)

  datatype Precommit = Precommit(height: Height, vote: Vote)

  datatype State = State(disk: Disk, mem: Memory, signed: set<Precommit>)

  /** Outcome of a write to disk. */
  datatype Write = Ok | FailedOld | FailedNew

  datatype Step =
    | Stage(vote: Vote)
    | MoveView(view: View)
    | Release
    | WriteLock(write: Write)
    | SetLock
    | WriteMark(write: Write)
    | SetMark
    | Attest(drawn: bool)
    | Persist(write: Write)
    | Advance(raise: Option<Write>)
    | Crash
    | Reopen(restage: bool, manyValidators: bool)

  const RESTART_HOLD_TIMEOUTS: nat := 2

  /** `SignGuard::permits`. */
  predicate Permits(mark: Option<Mark>, h: Height, vote: Vote) {
    mark.None?
    || h > mark.value.height
    || (h == mark.value.height && vote.view > mark.value.view)
    || (h == mark.value.height && vote.view == mark.value.view && vote.value == mark.value.value)
  }

  function RaisedMark(mark: Option<Mark>, h: Height): Option<Mark> {
    if mark.Some? && mark.value.height >= h then mark else Some(Mark(h, U64_MAX, 0))
  }

  function Written<T>(write: Write, before: T, after: T): T {
    if write.FailedOld? then before else after
  }

  predicate Enabled(s: State, step: Step) {
    match step
    case Stage(vote) => s.mem.Up? && s.mem.at.Idle? && vote.view >= s.mem.view
    case MoveView(view) => s.mem.Up? && s.mem.at.Idle? && view >= s.mem.view
    case Release => s.mem.Up? && s.mem.at.Idle?
    case WriteLock(_) =>
      && s.mem.Up? && s.mem.at.Idle? && s.mem.staged.Some?
      && (s.mem.lock.Some? ==> s.mem.lock.value.view < s.mem.staged.value.view)
    case SetLock => s.mem.Up? && s.mem.at.LockWritten?
    case WriteMark(_) => s.mem.Up? && s.mem.at.Locked?
    case SetMark => s.mem.Up? && s.mem.at.MarkWritten?
    case Attest(_) => s.mem.Up? && s.mem.at.Marked?
    case Persist(_) => s.mem.Up? && s.mem.at.Idle?
    case Advance(_) => s.mem.Up? && s.mem.at.Persisted?
    case Crash => s.mem.Up?
    case Reopen(_, _) => s.mem.Down? && (s.disk.head > 0 ==> s.disk.signMark.Some?)
  }

  function Next(s: State, step: Step): State
    requires Enabled(s, step)
  {
    var mem := s.mem;
    match step
    case Stage(vote) => s.(mem := mem.(staged := Some(vote), view := vote.view))
    case MoveView(view) => s.(mem := mem.(view := view))
    case Release => s.(mem := mem.(hold := if mem.hold == 0 then 0 else mem.hold - 1))
    case WriteLock(write) =>
      var file := Written(write, s.disk.lockFile, Some(StoredLock(mem.height, mem.staged.value)));
      s.(disk := s.disk.(lockFile := file),
         mem := if write.Ok? then mem.(at := LockWritten) else mem.(fatal := true))
    case SetLock => s.(mem := mem.(lock := mem.staged, at := Locked))
    case WriteMark(write) =>
      if mem.fatal || mem.hold > 0 || mem.staged.None? || !Permits(mem.mark, mem.height, mem.staged.value)
      then s.(mem := mem.(at := Idle))
      else
        var mark := Some(Mark(mem.height, mem.staged.value.view, mem.staged.value.value));
        s.(disk := s.disk.(signMark := Written(write, s.disk.signMark, mark)),
           mem := if write.Ok? then mem.(at := MarkWritten) else mem.(fatal := true, at := Idle))
    case SetMark =>
      if mem.staged.None? then s.(mem := mem.(at := Idle))
      else s.(mem := mem.(mark := Some(Mark(mem.height, mem.staged.value.view, mem.staged.value.value)), at := Marked))
    case Attest(drawn) =>
      State(s.disk, mem.(at := Idle),
            if drawn && mem.staged.Some? then s.signed + {Precommit(mem.height, mem.staged.value)} else s.signed)
    case Persist(write) =>
      s.(disk := s.disk.(head := Written(write, s.disk.head, if mem.height > s.disk.head then mem.height else s.disk.head)),
         mem := if write.Ok? then mem.(at := Persisted) else mem.(fatal := true))
    case Advance(raise) =>
      var up := mem.(height := mem.height + 1, view := 0, staged := None, lock := None, at := Idle);
      if raise.None? then s.(mem := up)
      else
        var mark := RaisedMark(mem.mark, mem.height);
        s.(disk := s.disk.(signMark := if mark == mem.mark then s.disk.signMark else Written(raise.value, s.disk.signMark, mark)),
           mem := if raise.value.Ok? then up.(mark := mark) else up)
    case Crash => s.(mem := Down)
    case Reopen(restage, many) =>
      var mark := if s.disk.head > 0 then RaisedMark(s.disk.signMark, s.disk.head) else s.disk.signMark;
      var height := s.disk.head + 1;
      var resumed := if mark.Some? && mark.value.height == height then mark.value.view else 0;
      var held := s.disk.lockFile.Some? && s.disk.lockFile.value.height == height;
      var lock := if held then Some(s.disk.lockFile.value.vote) else None;
      var view := if held && lock.value.view > resumed then lock.value.view else resumed;
      s.(disk := s.disk.(signMark := mark),
         mem := Up(height, view, if restage then lock else None, lock, mark,
                   if s.disk.head > 0 && many then RESTART_HOLD_TIMEOUTS else 0, false, Idle))
  }

  ghost predicate Run(s: State, steps: seq<Step>, last: State)
    decreases |steps|
  {
    if steps == [] then last == s
    else Enabled(s, steps[0]) && Run(Next(s, steps[0]), steps[1..], last)
  }

  // ---- the invariant ----

  /** The lock file protects every precommit above the durable head. */
  predicate LockCovers(s: State) {
    forall p | p in s.signed ::
      p.height <= s.disk.head
      || (s.disk.lockFile.Some? && s.disk.lockFile.value.height == p.height
          && s.disk.lockFile.value.vote.view >= p.vote.view)
  }

  /** A watermark is at or past every signed precommit, and at it only for the same value. */
  predicate MarkCovers(mark: Option<Mark>, signed: set<Precommit>) {
    forall p | p in signed :: mark.Some? && Below(p, mark.value)
  }

  predicate Below(p: Precommit, mark: Mark) {
    || p.height < mark.height
    || (p.height == mark.height && p.vote.view < mark.view)
    || (p.height == mark.height && p.vote.view == mark.view && p.vote.value == mark.value)
  }

  predicate OneValuePerView(signed: set<Precommit>) {
    forall p, q | p in signed && q in signed ::
      p.height == q.height && p.vote.view == q.vote.view ==> p.vote.value == q.vote.value
  }

  predicate Signing(at: Progress) {
    at.LockWritten? || at.Locked? || at.MarkWritten? || at.Marked?
  }

  /** The running process never works below the lock file of its height. */
  predicate LockOk(disk: Disk, mem: Memory) {
    mem.Up? ==>
      && mem.height <= disk.head + 1
      && (mem.at.Persisted? ==> mem.height <= disk.head)
      && (disk.lockFile.Some? ==> disk.lockFile.value.height <= mem.height)
      && (mem.staged.Some? ==> mem.staged.value.view <= mem.view)
      && (disk.lockFile.Some? && disk.lockFile.value.height == mem.height ==> AtOrAbove(mem, disk.lockFile.value.vote.view))
      && (mem.lock.Some? ==>
            (disk.lockFile.Some? && disk.lockFile.value.height == mem.height
             && mem.lock.value.view <= disk.lockFile.value.vote.view))
      && (Signing(mem.at) ==> mem.staged.Some? && disk.lockFile == Some(StoredLock(mem.height, mem.staged.value)))
  }

  predicate AtOrAbove(mem: Memory, view: View)
    requires mem.Up?
  {
    view <= mem.view && (mem.staged.Some? ==> view <= mem.staged.value.view)
  }

  /** The watermark in memory covers the signatures too, and while a signature is being
      made both watermarks are at it. */
  predicate MarkOk(s: State) {
    && MarkCovers(s.disk.signMark, s.signed)
    && (s.mem.Up? ==>
          && MarkCovers(s.mem.mark, s.signed)
          && (s.mem.at.MarkWritten? || s.mem.at.Marked? ==>
                s.mem.staged.Some?
                && s.disk.signMark == Some(Mark(s.mem.height, s.mem.staged.value.view, s.mem.staged.value.value)))
          && (s.mem.at.Marked? ==> s.mem.mark == s.disk.signMark))
  }

  predicate Inv(s: State) {
    && LockCovers(s)
    && MarkOk(s)
    && OneValuePerView(s.signed)
    && (s.disk.lockFile.Some? ==> s.disk.lockFile.value.height <= s.disk.head + 1)
    && LockOk(s.disk, s.mem)
  }

  predicate Fresh(s: State) {
    s.disk.head == 0 && s.disk.lockFile.None? && s.signed == {} && s.mem.Down?
  }

  /** Steps that touch the lock file or the votes being signed. */
  predicate Votes(step: Step) {
    step.Stage? || step.WriteLock? || step.SetLock? || step.WriteMark? || step.SetMark? || step.Attest?
  }

  lemma {:induction false} VotesKeepLock(s: State, step: Step)
    requires Inv(s) && Enabled(s, step) && Votes(step)
    ensures var t := Next(s, step); LockOk(t.disk, t.mem)
  {
  }

  lemma {:induction false} OthersKeepLock(s: State, step: Step)
    requires Inv(s) && Enabled(s, step) && !Votes(step)
    ensures var t := Next(s, step); LockOk(t.disk, t.mem)
  {
    hide MarkOk, LockCovers, OneValuePerView;
  }

  lemma {:induction false} StepKeepsCover(s: State, step: Step)
    requires Inv(s) && Enabled(s, step)
    ensures var t := Next(s, step);
      LockCovers(t) && (t.disk.lockFile.Some? ==> t.disk.lockFile.value.height <= t.disk.head + 1)
  {
  }

  lemma {:induction false} VotesKeepMark(s: State, step: Step)
    requires Inv(s) && Enabled(s, step) && Votes(step)
    ensures MarkOk(Next(s, step)) && OneValuePerView(Next(s, step).signed)
  {
  }

  lemma {:induction false} OthersKeepMark(s: State, step: Step)
    requires Inv(s) && Enabled(s, step) && !Votes(step)
    ensures MarkOk(Next(s, step)) && OneValuePerView(Next(s, step).signed)
  {
    hide OneValuePerView, AtOrAbove;
  }

  lemma {:induction false} StepKeeps(s: State, step: Step)
    requires Inv(s) && Enabled(s, step)
    ensures Inv(Next(s, step))
  {
    if Votes(step) {
      VotesKeepLock(s, step);
      VotesKeepMark(s, step);
    } else {
      OthersKeepLock(s, step);
      OthersKeepMark(s, step);
    }
    StepKeepsCover(s, step);
  }

  /** While a height is not durably finalised its lock file stays and its view never falls. */
  predicate LockHolds(s: State, t: State, h: Height) {
    s.disk.lockFile.Some? && s.disk.lockFile.value.height == h && t.disk.head < h ==>
      && t.disk.lockFile.Some? && t.disk.lockFile.value.height == h
      && t.disk.lockFile.value.vote.view >= s.disk.lockFile.value.vote.view
  }

  lemma {:induction false} StepHolds(s: State, step: Step, h: Height)
    requires Inv(s) && Enabled(s, step)
    ensures LockHolds(s, Next(s, step), h) && s.disk.head <= Next(s, step).disk.head
  {
  }

  lemma {:induction false} RunKeeps(s: State, steps: seq<Step>, last: State, h: Height)
    requires Inv(s) && Run(s, steps, last)
    ensures Inv(last) && LockHolds(s, last, h) && s.disk.head <= last.disk.head
    decreases |steps|
  {
    if steps != [] {
      StepKeeps(s, steps[0]);
      StepHolds(s, steps[0], h);
      RunKeeps(Next(s, steps[0]), steps[1..], last, h);
    }
  }

  /** Crash safety: however a run crashes and reopens, every precommit it signed at a
      height not yet durably finalised has the lock of that height on disk at its view or
      higher, and no two precommits of one height and view carry different values. */
  lemma {:induction false} CrashSafe(s: State, steps: seq<Step>, last: State)
    requires Fresh(s) && Run(s, steps, last)
    ensures LockCovers(last) && OneValuePerView(last.signed)
  {
    RunKeeps(s, steps, last, 0);
  }

  /** Between any two moments of a run, the stored lock of a height still open at the
      later one is kept and at no lower view, and a reopened node holds exactly it. */
  lemma {:induction false} LockNeverFalls(s: State, before: seq<Step>, mid: State, after: seq<Step>, last: State, h: Height)
    requires Fresh(s) && Run(s, before, mid) && Run(mid, after, last)
    requires mid.disk.lockFile.Some? && mid.disk.lockFile.value.height == h && last.disk.head < h
    ensures last.disk.lockFile.Some? && last.disk.lockFile.value.height == h
    ensures last.disk.lockFile.value.vote.view >= mid.disk.lockFile.value.vote.view
    ensures forall restage, many | Enabled(last, Reopen(restage, many)) ::
      var up := Next(last, Reopen(restage, many)).mem;
      && up.lock == Some(last.disk.lockFile.value.vote) && (restage ==> up.staged == up.lock)
      && up.lock.value.view >= mid.disk.lockFile.value.vote.view && up.view >= up.lock.value.view
  {
    RunKeeps(s, before, mid, h);
    RunKeeps(mid, after, last, h);
  }

  // ---- the value of the lock ----

  /** The file holds the lock in memory or a higher one, and whatever was signed at an open
      height is the vote on file or below it. */
  predicate Held(s: State) {
    && (forall p | p in s.signed && p.height > s.disk.head :: s.disk.lockFile.Some? && Under(p.vote, s.disk.lockFile.value.vote))
    && (s.mem.Up? ==>
          && s.disk.head <= s.mem.height
          && (s.mem.lock.Some? ==> s.disk.lockFile.Some? && Under(s.mem.lock.value, s.disk.lockFile.value.vote))
          && (s.mem.at.LockWritten? && s.mem.lock.Some? ==> s.mem.staged.Some? && s.mem.lock.value.view < s.mem.staged.value.view)
          && (s.mem.at.Locked? || s.mem.at.MarkWritten? || s.mem.at.Marked? ==> s.mem.lock == s.mem.staged)
          && (forall p | p in s.signed && p.height == s.mem.height :: s.mem.lock.Some? && Under(p.vote, s.mem.lock.value)))
  }

  /** The same vote, or one at a lower view. */
  predicate Under(a: Vote, b: Vote) {
    a == b || a.view < b.view
  }

  lemma {:induction false} VotesKeepHeld(s: State, step: Step)
    requires Inv(s) && Held(s) && Enabled(s, step) && Votes(step)
    ensures Held(Next(s, step))
  {
    hide MarkOk, OneValuePerView, Permits;
  }

  lemma {:induction false} OthersKeepHeld(s: State, step: Step)
    requires Inv(s) && Held(s) && Enabled(s, step) && !Votes(step)
    ensures Held(Next(s, step))
  {
    hide MarkOk, OneValuePerView, RaisedMark;
  }

  /** The lock of height `h`: in memory while the process works on it, else on file. */
  function LockAt(s: State, h: Height): Option<Vote> {
    if s.mem.Up? && s.mem.height == h then s.mem.lock
    else if s.disk.lockFile.Some? && s.disk.lockFile.value.height == h then Some(s.disk.lockFile.value.vote)
    else None
  }

  predicate Rises(a: Option<Vote>, b: Option<Vote>) {
    a.Some? ==> b.Some? && Under(a.value, b.value)
  }

  lemma {:induction false} StepRises(s: State, step: Step, h: Height)
    requires Inv(s) && Held(s) && Enabled(s, step)
    ensures Next(s, step).disk.head < h ==> Rises(LockAt(s, h), LockAt(Next(s, step), h))
  {
    hide MarkOk, OneValuePerView, RaisedMark, Permits, LockCovers;
  }

  lemma {:induction false} RunRises(s: State, steps: seq<Step>, last: State, h: Height)
    requires Inv(s) && Held(s) && Run(s, steps, last)
    ensures Inv(last) && Held(last) && s.disk.head <= last.disk.head
    ensures last.disk.head < h ==> Rises(LockAt(s, h), LockAt(last, h))
    decreases |steps|
  {
    hide Inv, Held, Next, LockAt;
    if steps != [] {
      var next := Next(s, steps[0]);
      StepKeeps(s, steps[0]);
      if Votes(steps[0]) { VotesKeepHeld(s, steps[0]); } else { OthersKeepHeld(s, steps[0]); }
      StepRises(s, steps[0], h);
      StepHolds(s, steps[0], h);
      RunRises(next, steps[1..], last, h);
    }
  }

  /** A lock in memory, whatever crashes follow, comes back as the same vote or as one at a
      higher view, as long as its height is not durably finalised. */
  lemma {:induction false} LockComesBack(s: State, before: seq<Step>, mid: State, after: seq<Step>, last: State)
    requires Fresh(s) && Run(s, before, mid) && Run(mid, after, last)
    requires mid.mem.Up? && mid.mem.lock.Some? && last.mem.Up? && last.mem.height == mid.mem.height && last.disk.head < mid.mem.height
    ensures last.mem.lock.Some? && (last.mem.lock == mid.mem.lock || last.mem.lock.value.view > mid.mem.lock.value.view)
  {
    hide Inv, Held, Next;
    FreshHeld(s);
    RunRises(s, before, mid, 0);
    RunRises(mid, after, last, mid.mem.height);
  }

  lemma {:induction false} FreshHeld(s: State)
    requires Fresh(s)
    ensures Inv(s) && Held(s)
  {
  }

  /** A reopened node is locked on a vote that every precommit it ever signed at its height
      equals or is below in view, and works at no lower view than any of them. */
  lemma {:induction false} RestoredLockCovers(s: State, steps: seq<Step>, last: State, restage: bool, many: bool, p: Precommit)
    requires Fresh(s) && Run(s, steps, last) && Enabled(last, Reopen(restage, many))
    requires var up := Next(last, Reopen(restage, many)).mem; p in last.signed && p.height == up.height
    ensures var up := Next(last, Reopen(restage, many)).mem;
      && up.lock.Some? && up.view >= p.vote.view
      && (p.vote.view < up.lock.value.view || p.vote == up.lock.value)
  {
    FreshHeld(s);
    RunRises(s, steps, last, 0);
    StepKeeps(last, Reopen(restage, many));
    OthersKeepHeld(last, Reopen(restage, many));
  }

  // ---- what a working node signs ----

  const SIGNING: seq<Step> := [WriteLock(Ok), SetLock, WriteMark(Ok), SetMark, Attest(true)]

  /** A staged vote above the lock and the mark is signed when the writes go through. */
  lemma {:induction false} FreeVoteIsSigned(s: State) returns (last: State)
    requires s.mem.Up? && s.mem.at.Idle? && !s.mem.fatal && s.mem.hold == 0 && s.mem.staged.Some?
    requires s.mem.lock.Some? ==> s.mem.lock.value.view < s.mem.staged.value.view
    requires s.mem.mark.Some? ==>
      s.mem.mark.value.height < s.mem.height
      || (s.mem.mark.value.height == s.mem.height && s.mem.mark.value.view < s.mem.staged.value.view)
    ensures Run(s, SIGNING, last)
    ensures last.signed == s.signed + {Precommit(s.mem.height, s.mem.staged.value)}
    ensures last.mem.Up? && last.mem.at.Idle? && last.mem.lock == s.mem.staged
    ensures last.disk.lockFile == Some(StoredLock(s.mem.height, s.mem.staged.value))
  {
    var a := Next(s, WriteLock(Ok));
    var b := Next(a, SetLock);
    var c := Next(b, WriteMark(Ok));
    var d := Next(c, SetMark);
    last := Next(d, Attest(true));
    assert Run(last, SIGNING[5..], last);
    assert SIGNING[4..][1..] == SIGNING[5..] && Run(d, SIGNING[4..], last);
    assert SIGNING[3..][1..] == SIGNING[4..] && Run(c, SIGNING[3..], last);
    assert SIGNING[2..][1..] == SIGNING[3..] && Run(b, SIGNING[2..], last);
    assert SIGNING[1..][1..] == SIGNING[2..] && Run(a, SIGNING[1..], last);
  }

  function Releases(steps: seq<Step>): nat {
    if steps == [] then 0 else Releases(steps[1..]) + if steps[0].Release? then 1 else 0
  }

  /** A node held after a restart signs nothing before it is released often enough. */
  lemma {:induction false} HeldSignsNothing(s: State, steps: seq<Step>, last: State)
    requires s.mem.Up? && Run(s, steps, last) && Releases(steps) < s.mem.hold
    requires (forall step | step in steps :: !step.Reopen?) && !s.mem.at.MarkWritten? && !s.mem.at.Marked?
    ensures last.signed == s.signed
    decreases |steps|
  {
    if steps != [] && !steps[0].Crash? {
      HeldSignsNothing(Next(s, steps[0]), steps[1..], last);
    } else if steps != [] {
      DownSignsNothing(Next(s, steps[0]), steps[1..], last);
    }
  }

  lemma {:induction false} DownSignsNothing(s: State, steps: seq<Step>, last: State)
    requires s.mem.Down? && Run(s, steps, last) && forall step | step in steps :: !step.Reopen?
    ensures last == s
  {
  }

  /** After a restart with others to wait for, a node that has finalised anything waits two timeouts. */
  lemma {:induction false} RestartIsHeld(s: State, restage: bool)
    requires Enabled(s, Reopen(restage, true)) && s.disk.head > 0
    ensures Next(s, Reopen(restage, true)).mem.hold == 2 && Next(s, Reopen(restage, true)).mem.at.Idle?
  {
  }
}
