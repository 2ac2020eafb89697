/** Epoch registrations of one-time roots: recording them block by block, promoting
    them when the epoch turns, rebuilding them from stored blocks after a restart, and
    the roster they seat. */
module Registrations {
  import opened Arithmetic

  type Id = nat
  type Height = nat
  type Epoch = nat

  datatype Root = Root(digest: nat, slots: nat)

  const UNSEATED_ROOT := Root(0, 0)

  const MIN_HEIGHT: Height := 1

  datatype Note = Note(id: Id, epoch: Epoch, root: Root)

  /** The notes of a block are its calls to the registration address that decode. */
  datatype Block = Block(height: Height, notes: seq<Note>)

  /** `open` is the registration window; `admits` says that a note's id is on the base
      roster and its signature verifies under that validator's key. */
  datatype Config = Config(len: nat, open: Height -> bool, admits: Note -> bool)

  /** `epoch` is the epoch the consensus committee was last rotated to. */
  datatype Regs = Regs(
    epochRoots: map<Id, Root>, epochConflicted: set<Id>,
    nextRoots: map<Id, Root>, nextConflicted: set<Id>, nextFor: Epoch,
    epoch: Epoch)

  const FRESH := Regs(map[], {}, map[], {}, 1, 0)

  function EpochOf(cfg: Config, h: Height): Epoch
    requires cfg.len > 0
  {
    h / cfg.len
  }

  // ---- the live, incremental form ----

  function RecordNote(cfg: Config, r: Regs, next: Epoch, note: Note): Regs {
    if note.epoch != next || note.id in r.nextConflicted || !cfg.admits(note) then r
    else if note.id !in r.nextRoots then r.(nextRoots := r.nextRoots[note.id := note.root])
    else if r.nextRoots[note.id] == note.root then r
    else r.(nextRoots := r.nextRoots - {note.id}, nextConflicted := r.nextConflicted + {note.id})
  }

  function RecordNotes(cfg: Config, r: Regs, next: Epoch, notes: seq<Note>): Regs {
    if notes == [] then r
    else RecordNote(cfg, RecordNotes(cfg, r, next, notes[..|notes| - 1]), next, notes[|notes| - 1])
  }

  function Record(cfg: Config, r: Regs, block: Block): Regs
    requires cfg.len > 0
  {
    if !cfg.open(block.height) then r
    else
      var next := EpochOf(cfg, block.height) + 1;
      var base := if next != r.nextFor then r.(nextRoots := map[], nextConflicted := {}, nextFor := next) else r;
      RecordNotes(cfg, base, next, block.notes)
  }

  function Promote(r: Regs, epoch: Epoch): Regs {
    if r.nextFor == epoch
    then Regs(r.nextRoots, r.nextConflicted, map[], {}, epoch + 1, r.epoch)
    else Regs(map[], {}, map[], {}, epoch + 1, r.epoch)
  }

  /** `refresh_committee` once the node is at height `h`. */
  function Refresh(cfg: Config, r: Regs, h: Height): Regs
    requires cfg.len > 0
  {
    var epoch := EpochOf(cfg, h);
    (if epoch != r.epoch then Promote(r, epoch) else r).(epoch := epoch)
  }

  ghost predicate Contiguous(blocks: seq<Block>) {
    forall i | 0 <= i < |blocks| :: blocks[i].height == MIN_HEIGHT + i
  }

  /** A node that was up from genesis, after the first `n` blocks. */
  function Live(cfg: Config, blocks: seq<Block>, n: nat): Regs
    requires cfg.len > 0 && n <= |blocks|
  {
    if n == 0 then Refresh(cfg, FRESH, MIN_HEIGHT)
    else Refresh(cfg, Record(cfg, Live(cfg, blocks, n - 1), blocks[n - 1]), MIN_HEIGHT + n)
  }

  // ---- the rebuild from disk ----

  function FromEpoch(cfg: Config, head: Height): Epoch
    requires cfg.len > 0
  {
    if EpochOf(cfg, head) == 0 then 0 else EpochOf(cfg, head) - 1
  }

  function FromHeight(cfg: Config, head: Height): Height
    requires cfg.len > 0
  {
    var from := FromEpoch(cfg, head) * cfg.len;
    if from < MIN_HEIGHT then MIN_HEIGHT else from
  }

  /** The replay loop before it reads height `h`: registrations and the epoch it is in. */
  function Replay(cfg: Config, blocks: seq<Block>, r: Regs, head: Height, h: Height): (Regs, Epoch)
    requires cfg.len > 0 && FromHeight(cfg, head) <= h <= MIN_HEIGHT + |blocks|
    decreases h
  {
    if h == FromHeight(cfg, head) then
      (Regs(map[], {}, map[], {}, FromEpoch(cfg, head) + 1, r.epoch), FromEpoch(cfg, head))
    else
      var (before, at) := Replay(cfg, blocks, r, head, h - 1);
      var epoch := EpochOf(cfg, h - 1);
      (Record(cfg, if epoch != at then Promote(before, epoch) else before, blocks[h - 1 - MIN_HEIGHT]), epoch)
  }

  /** `reload`: rebuild, rotate to the epoch of the head, then refresh for the next height. */
  function Reloaded(cfg: Config, blocks: seq<Block>, r: Regs): Regs
    requires cfg.len > 0 && blocks != []
    requires FromHeight(cfg, |blocks|) <= MIN_HEIGHT + |blocks|
  {
    var head := |blocks|;
    var (rebuilt, _) := Replay(cfg, blocks, r, head, head + 1);
    Refresh(cfg, rebuilt.(epoch := EpochOf(cfg, head)), head + 1)
  }

  // ---- arithmetic of epochs ----

  lemma {:induction false} EpochStep(cfg: Config, h: Height)
    requires cfg.len > 0
    ensures EpochOf(cfg, h + 1) == EpochOf(cfg, h) || EpochOf(cfg, h + 1) == EpochOf(cfg, h) + 1
    ensures EpochOf(cfg, h + 1) == EpochOf(cfg, h) + 1 <==> (h + 1) % cfg.len == 0
  {
    var q, r := h / cfg.len, h % cfg.len;
    assert h == q * cfg.len + r;
    if r + 1 == cfg.len {
      RemainderIs(h + 1, cfg.len, q + 1, 0);
    } else {
      RemainderIs(h + 1, cfg.len, q, r + 1);
    }
  }

  lemma {:induction false} FromBounds(cfg: Config, head: Height)
    requires cfg.len > 0 && head >= MIN_HEIGHT
    ensures FromHeight(cfg, head) <= head
    ensures FromEpoch(cfg, head) > 0 ==>
      EpochOf(cfg, FromHeight(cfg, head)) == FromEpoch(cfg, head) && FromHeight(cfg, head) % cfg.len == 0
  {
    var f := FromEpoch(cfg, head);
    var e := EpochOf(cfg, head);
    assert head == e * cfg.len + head % cfg.len;
    assert f * cfg.len <= e * cfg.len by { Product(f, e, cfg.len, cfg.len); }
    if f > 0 {
      assert f * cfg.len >= 1 by { Product(1, f, 1, cfg.len); }
      RemainderIs(f * cfg.len, cfg.len, f, 0);
    }
  }

  lemma {:induction false} EpochMono(cfg: Config, a: Height, b: Height)
    requires cfg.len > 0 && a <= b
    ensures EpochOf(cfg, a) <= EpochOf(cfg, b)
  {
    var qa, qb := a / cfg.len, b / cfg.len;
    assert a == qa * cfg.len + a % cfg.len && b == qb * cfg.len + b % cfg.len;
    Above(qa, qb, cfg.len);
  }

  // ---- replay equals live ----

  /** A live node is rotated to the epoch of its next height and collects for the one after. */
  lemma {:induction false} LiveEpoch(cfg: Config, blocks: seq<Block>, n: nat)
    requires cfg.len > 0 && n <= |blocks| && Contiguous(blocks)
    ensures Live(cfg, blocks, n).epoch == EpochOf(cfg, MIN_HEIGHT + n)
    ensures Live(cfg, blocks, n).nextFor == EpochOf(cfg, MIN_HEIGHT + n) + 1
    ensures n > 0 && EpochOf(cfg, MIN_HEIGHT + n) != EpochOf(cfg, n) ==>
      Live(cfg, blocks, n).nextRoots == map[] && Live(cfg, blocks, n).nextConflicted == {}
  {
    if n > 0 {
      LiveEpoch(cfg, blocks, n - 1);
      var before := Live(cfg, blocks, n - 1);
      RecordKeeps(cfg, before, blocks[n - 1]);
    } else {
      EpochStep(cfg, 0);
    }
  }

  lemma {:induction false} RecordNotesKeeps(cfg: Config, r: Regs, next: Epoch, notes: seq<Note>)
    ensures var t := RecordNotes(cfg, r, next, notes);
      t.nextFor == r.nextFor && t.epoch == r.epoch && t.epochRoots == r.epochRoots && t.epochConflicted == r.epochConflicted
  {
    if notes != [] { RecordNotesKeeps(cfg, r, next, notes[..|notes| - 1]); }
  }

  lemma {:induction false} RecordKeeps(cfg: Config, r: Regs, block: Block)
    requires cfg.len > 0 && r.nextFor == EpochOf(cfg, block.height) + 1
    ensures var t := Record(cfg, r, block);
      && t.nextFor == r.nextFor && t.epoch == r.epoch && t.epochRoots == r.epochRoots && t.epochConflicted == r.epochConflicted
      && (cfg.open(block.height) ==> t == RecordNotes(cfg, r, r.nextFor, block.notes))
  {
    RecordNotesKeeps(cfg, r, r.nextFor, block.notes);
  }

  /** Recording depends only on what is collected for the next epoch. */
  lemma {:induction false} RecordNotesSame(cfg: Config, a: Regs, b: Regs, next: Epoch, notes: seq<Note>)
    requires a.nextRoots == b.nextRoots && a.nextConflicted == b.nextConflicted
    ensures var x, y := RecordNotes(cfg, a, next, notes), RecordNotes(cfg, b, next, notes);
      x.nextRoots == y.nextRoots && x.nextConflicted == y.nextConflicted
  {
    if notes != [] { RecordNotesSame(cfg, a, b, next, notes[..|notes| - 1]); }
  }

  lemma {:induction false} RecordSame(cfg: Config, a: Regs, b: Regs, block: Block)
    requires cfg.len > 0 && SameNext(a, b) && a.nextFor == EpochOf(cfg, block.height) + 1
    ensures SameNext(Record(cfg, a, block), Record(cfg, b, block))
  {
    RecordNotesSame(cfg, a, b, a.nextFor, block.notes);
    RecordKeeps(cfg, a, block);
    RecordKeeps(cfg, b, block);
  }

  predicate SameNext(a: Regs, b: Regs) {
    a.nextRoots == b.nextRoots && a.nextConflicted == b.nextConflicted && a.nextFor == b.nextFor
  }

  predicate SameSeated(a: Regs, b: Regs) {
    a.epochRoots == b.epochRoots && a.epochConflicted == b.epochConflicted
  }

  /** The replay state brought to the epoch of the height it is about to read. */
  function Turned(cfg: Config, replay: (Regs, Epoch), h: Height): Regs
    requires cfg.len > 0
  {
    if EpochOf(cfg, h) != replay.1 then Promote(replay.0, EpochOf(cfg, h)) else replay.0
  }

  /** A block recorded on both sides, before either turns to the next epoch. */
  lemma {:induction false} RecordFollows(cfg: Config, turned: Regs, live: Regs, block: Block)
    requires cfg.len > 0 && SameNext(turned, live) && live.nextFor == EpochOf(cfg, block.height) + 1
    ensures var x, y := Record(cfg, turned, block), Record(cfg, live, block);
      && SameNext(x, y) && y.nextFor == live.nextFor && y.epoch == live.epoch
      && (SameSeated(turned, live) ==> SameSeated(x, y))
  {
    hide Record, EpochOf;
    RecordSame(cfg, turned, live, block);
    RecordKeeps(cfg, turned, block);
    RecordKeeps(cfg, live, block);
  }

  /** Turning to the epoch of height `h`, which both sides do after the block before it. */
  lemma {:induction false} TurnFollows(cfg: Config, x: Regs, y: Regs, h: Height)
    requires cfg.len > 0 && SameNext(x, y) && 0 < h
    requires y.nextFor == EpochOf(cfg, h - 1) + 1 && y.epoch == EpochOf(cfg, h - 1)
    ensures var turned, live := Turned(cfg, (x, EpochOf(cfg, h - 1)), h), Refresh(cfg, y, h);
      && SameNext(turned, live)
      && (EpochOf(cfg, h) != EpochOf(cfg, h - 1) || SameSeated(x, y) ==> SameSeated(turned, live))
  {
    hide EpochOf;
  }

  lemma {:induction false} LiveStep(cfg: Config, blocks: seq<Block>, n: nat)
    requires cfg.len > 0 && 0 < n <= |blocks|
    ensures Live(cfg, blocks, n) == Refresh(cfg, Record(cfg, Live(cfg, blocks, n - 1), blocks[n - 1]), MIN_HEIGHT + n)
  {
  }

  lemma {:induction false} ReplayStep(cfg: Config, blocks: seq<Block>, r: Regs, head: Height, h: Height)
    requires cfg.len > 0 && FromHeight(cfg, head) < h <= MIN_HEIGHT + |blocks|
    ensures Replay(cfg, blocks, r, head, h) ==
      (Record(cfg, Turned(cfg, Replay(cfg, blocks, r, head, h - 1), h - 1), blocks[h - 1 - MIN_HEIGHT]), EpochOf(cfg, h - 1))
  {
    hide Record, EpochOf;
  }

  /** The replay collects what the live node collects, and from the head's epoch on it
      also seats what the live node seats. */
  lemma {:induction false} ReplayFollowsLive(cfg: Config, blocks: seq<Block>, r: Regs, h: Height)
    requires cfg.len > 0 && Contiguous(blocks) && blocks != []
    requires FromHeight(cfg, |blocks|) <= h <= |blocks|
    ensures var turned := Turned(cfg, Replay(cfg, blocks, r, |blocks|, h), h);
      var live := Live(cfg, blocks, h - MIN_HEIGHT);
      && SameNext(turned, live)
      && (EpochOf(cfg, h) == EpochOf(cfg, |blocks|) ==> SameSeated(turned, live))
    decreases h
  {
    hide Live, Replay, Record, Turned, Refresh, EpochOf, FromEpoch, SameNext, SameSeated;
    var head := |blocks|;
    if h == FromHeight(cfg, head) {
      ReplayStart(cfg, blocks, r);
    } else {
      ReplayFollowsLive(cfg, blocks, r, h - 1);
      LiveEpoch(cfg, blocks, h - 1 - MIN_HEIGHT);
      EpochStep(cfg, h - 1);
      EpochMono(cfg, h, head);
      var turned := Turned(cfg, Replay(cfg, blocks, r, head, h - 1), h - 1);
      var live := Live(cfg, blocks, h - 1 - MIN_HEIGHT);
      var block := blocks[h - 1 - MIN_HEIGHT];
      RecordFollows(cfg, turned, live, block);
      TurnFollows(cfg, Record(cfg, turned, block), Record(cfg, live, block), h);
      LiveStep(cfg, blocks, h - MIN_HEIGHT);
      ReplayStep(cfg, blocks, r, head, h);
    }
  }

  lemma {:induction false} ReplayStart(cfg: Config, blocks: seq<Block>, r: Regs)
    requires cfg.len > 0 && Contiguous(blocks) && blocks != []
    requires FromHeight(cfg, |blocks|) <= |blocks|
    ensures var h := FromHeight(cfg, |blocks|);
      var turned := Turned(cfg, Replay(cfg, blocks, r, |blocks|, h), h);
      var live := Live(cfg, blocks, h - MIN_HEIGHT);
      && SameNext(turned, live)
      && (EpochOf(cfg, h) == EpochOf(cfg, |blocks|) ==> SameSeated(turned, live))
  {
    var head := |blocks|;
    var h := FromHeight(cfg, head);
    FromBounds(cfg, head);
    LiveEpoch(cfg, blocks, h - MIN_HEIGHT);
    if FromEpoch(cfg, head) > 0 {
      EpochStep(cfg, h - 1);
    } else {
      EpochStep(cfg, 0);
      EpochMono(cfg, MIN_HEIGHT, head);
    }
  }

  /** Restart replay equals live: reading only the last two epochs of stored blocks gives
      exactly the registrations of a node that processed every block. */
  lemma {:induction false} ReplayEqualsLive(cfg: Config, blocks: seq<Block>, r: Regs)
    requires cfg.len > 0 && Contiguous(blocks) && blocks != []
    ensures FromHeight(cfg, |blocks|) <= |blocks|
    ensures Reloaded(cfg, blocks, r) == Live(cfg, blocks, |blocks|)
  {
    hide Live, Replay, Record, Turned, Refresh, EpochOf, FromEpoch, SameNext, SameSeated;
    var head := |blocks|;
    FromBounds(cfg, head);
    ReplayFollowsLive(cfg, blocks, r, head);
    LiveEpoch(cfg, blocks, head - MIN_HEIGHT);
    var turned := Turned(cfg, Replay(cfg, blocks, r, head, head), head);
    var live := Live(cfg, blocks, head - MIN_HEIGHT);
    var block := blocks[head - MIN_HEIGHT];
    RecordFollows(cfg, turned, live, block);
    ReplayStep(cfg, blocks, r, head, head + 1);
    LiveStep(cfg, blocks, head);
    SameRegs(Record(cfg, turned, block), Record(cfg, live, block));
  }

  lemma {:induction false} SameRegs(x: Regs, y: Regs)
    requires SameNext(x, y) && SameSeated(x, y)
    ensures x.(epoch := y.epoch) == y
  {
  }

  // ---- what is seated ----

  /** Some note among `notes` validly registers `root` for `id` in epoch `next`. */
  ghost predicate Registers(cfg: Config, notes: seq<Note>, next: Epoch, id: Id, root: Root) {
    exists note | note in notes :: note.epoch == next && note.id == id && note.root == root && cfg.admits(note)
  }

  ghost function NoteRoots(cfg: Config, notes: seq<Note>, next: Epoch, id: Id): iset<Root> {
    iset root | Registers(cfg, notes, next, id, root)
  }

  /** `r` holds for `id` exactly what a set of roots says: nothing, its one root, or a conflict. */
  ghost predicate Holds(r: Regs, id: Id, roots: iset<Root>) {
    && (id in r.nextRoots ==> roots == iset{r.nextRoots[id]})
    && (id in r.nextConflicted <==> exists a, b | a in roots && b in roots :: a != b)
    && (id !in r.nextRoots && id !in r.nextConflicted ==> roots == iset{})
    && (id in r.nextRoots ==> id !in r.nextConflicted)
  }

  lemma {:induction false} RecordNoteHolds(cfg: Config, r: Regs, next: Epoch, note: Note, id: Id, before: iset<Root>)
    requires Holds(r, id, before)
    ensures Holds(RecordNote(cfg, r, next, note), id,
                  before + if note.epoch == next && note.id == id && cfg.admits(note) then iset{note.root} else iset{})
  {
    var after := before + if note.epoch == next && note.id == id && cfg.admits(note) then iset{note.root} else iset{};
    if note.epoch == next && note.id == id && cfg.admits(note) {
      if id in r.nextConflicted {
        var a, b :| a in before && b in before && a != b;
        assert a in after && b in after;
      } else if id in r.nextRoots {
        assert r.nextRoots[id] in after && note.root in after;
        if r.nextRoots[id] == note.root {
          assert after == before;
        }
      } else {
        assert after == iset{note.root};
      }
    } else {
      assert after == before;
    }
  }

  lemma {:induction false} RecordNotesHolds(cfg: Config, r: Regs, next: Epoch, notes: seq<Note>, id: Id, before: iset<Root>)
    requires Holds(r, id, before)
    ensures Holds(RecordNotes(cfg, r, next, notes), id, before + NoteRoots(cfg, notes, next, id))
  {
    if notes == [] {
      assert before + NoteRoots(cfg, notes, next, id) == before;
    } else {
      var front, last := notes[..|notes| - 1], notes[|notes| - 1];
      RecordNotesHolds(cfg, r, next, front, id, before);
      var mid := before + NoteRoots(cfg, front, next, id);
      RecordNoteHolds(cfg, RecordNotes(cfg, r, next, front), next, last, id, mid);
      assert forall n :: n in notes <==> n in front || n == last;
      assert before + NoteRoots(cfg, notes, next, id)
          == mid + if last.epoch == next && last.id == id && cfg.admits(last) then iset{last.root} else iset{};
    }
  }

  /** Some open block of the epoch at hand validly registers `root` for `id`. */
  ghost predicate Registered(cfg: Config, blocks: seq<Block>, n: nat, epoch: Epoch, id: Id, root: Root)
    requires cfg.len > 0 && n <= |blocks|
  {
    exists i | 0 <= i < n ::
      && EpochOf(cfg, blocks[i].height) == epoch && cfg.open(blocks[i].height)
      && Registers(cfg, blocks[i].notes, epoch + 1, id, root)
  }

  ghost function RegisteredRoots(cfg: Config, blocks: seq<Block>, n: nat, epoch: Epoch, id: Id): iset<Root>
    requires cfg.len > 0 && n <= |blocks|
  {
    iset root | Registered(cfg, blocks, n, epoch, id, root)
  }

  /** What a node collects for a validator depends only on the set of roots validly
      registered in the open blocks of the epoch: its one root, or a conflict if there are
      two, or nothing; order and repeats do not matter. */
  lemma {:induction false} CollectedBySet(cfg: Config, blocks: seq<Block>, n: nat, id: Id)
    requires cfg.len > 0 && Contiguous(blocks) && n <= |blocks|
    ensures Holds(Live(cfg, blocks, n), id, RegisteredRoots(cfg, blocks, n, EpochOf(cfg, MIN_HEIGHT + n), id))
  {
    var epoch := EpochOf(cfg, MIN_HEIGHT + n);
    if n == 0 {
      assert RegisteredRoots(cfg, blocks, 0, epoch, id) == iset{};
    } else {
      CollectedBySet(cfg, blocks, n - 1, id);
      LiveEpoch(cfg, blocks, n - 1);
      LiveEpoch(cfg, blocks, n);
      EpochStep(cfg, n);
      if epoch != EpochOf(cfg, n) {
        NothingYet(cfg, blocks, n, id);
      } else {
        var before := Live(cfg, blocks, n - 1);
        RecordHolds(cfg, before, blocks, n, id);
        RecordKeeps(cfg, before, blocks[n - 1]);
        assert Live(cfg, blocks, n) == Record(cfg, before, blocks[n - 1]);
      }
    }
  }

  /** Right after the epoch turned, no block of the new epoch exists. */
  lemma {:induction false} NothingYet(cfg: Config, blocks: seq<Block>, n: nat, id: Id)
    requires cfg.len > 0 && Contiguous(blocks) && 0 < n <= |blocks| && EpochOf(cfg, n + 1) > EpochOf(cfg, n)
    ensures RegisteredRoots(cfg, blocks, n, EpochOf(cfg, n + 1), id) == iset{}
  {
    forall i | 0 <= i < n ensures EpochOf(cfg, blocks[i].height) != EpochOf(cfg, n + 1) {
      EpochMono(cfg, blocks[i].height, n);
    }
  }

  lemma {:induction false} RecordHolds(cfg: Config, before: Regs, blocks: seq<Block>, n: nat, id: Id)
    requires cfg.len > 0 && Contiguous(blocks) && 0 < n <= |blocks|
    requires before.nextFor == EpochOf(cfg, n) + 1
    requires Holds(before, id, RegisteredRoots(cfg, blocks, n - 1, EpochOf(cfg, n), id))
    ensures Holds(Record(cfg, before, blocks[n - 1]), id, RegisteredRoots(cfg, blocks, n, EpochOf(cfg, n), id))
  {
    hide Holds, RegisteredRoots, NoteRoots, RecordNotes, EpochOf;
    var epoch, block := EpochOf(cfg, n), blocks[n - 1];
    RecordKeeps(cfg, before, block);
    RecordNotesHolds(cfg, before, epoch + 1, block.notes, id, RegisteredRoots(cfg, blocks, n - 1, epoch, id));
    MoreRegistered(cfg, blocks, n, epoch, id);
    var held := RegisteredRoots(cfg, blocks, n - 1, epoch, id);
    assert held + iset{} == held;
  }

  lemma {:induction false} MoreRegistered(cfg: Config, blocks: seq<Block>, n: nat, epoch: Epoch, id: Id)
    requires cfg.len > 0 && 0 < n <= |blocks| && EpochOf(cfg, blocks[n - 1].height) == epoch
    ensures RegisteredRoots(cfg, blocks, n, epoch, id) ==
      RegisteredRoots(cfg, blocks, n - 1, epoch, id)
      + if cfg.open(blocks[n - 1].height) then NoteRoots(cfg, blocks[n - 1].notes, epoch + 1, id) else iset{}
  {
  }

  // ---- rosters ----

  datatype Member = Member(id: Id, stake: nat, key: nat, root: Root)

  function Seat(roots: map<Id, Root>, conflicted: set<Id>, m: Member): Member {
    m.(root := if m.id in roots then roots[m.id] else if m.id in conflicted then UNSEATED_ROOT else m.root)
  }

  function SeatAll(roots: map<Id, Root>, conflicted: set<Id>, base: seq<Member>): seq<Member> {
    seq(|base|, i requires 0 <= i < |base| => Seat(roots, conflicted, base[i]))
  }

  /** The roster consensus rotates to; `base` is the roster reweighed by the ledger for the epoch. */
  function EpochRoster(r: Regs, base: seq<Member>, epoch: Epoch): seq<Member> {
    if epoch != 0 then SeatAll(r.epochRoots, r.epochConflicted, base) else base
  }

  /** The roster whose commitment a closing block seals, before its own notes are recorded. */
  function ProspectiveRoster(r: Regs, base: seq<Member>, epoch: Epoch): seq<Member> {
    if r.nextFor == epoch then SeatAll(r.nextRoots, r.nextConflicted, base) else base
  }

  predicate ClosesEpoch(cfg: Config, h: Height)
    requires cfg.len > 0
  {
    EpochOf(cfg, h + 1) != EpochOf(cfg, h)
  }

  /** A member's root is the one root registered, the unseated root after a conflict, or its own. */
  ghost predicate SeatedAs(m: Member, seated: Member, roots: iset<Root>) {
    && (forall root | roots == iset{root} :: seated == m.(root := root))
    && (roots == iset{} ==> seated == m)
    && ((exists a, b | a in roots && b in roots :: a != b) ==> seated == m.(root := UNSEATED_ROOT))
  }

  /** With the window shut at the closing height, the roster sealed in an epoch's closing
      block is the roster consensus rotates to at the next height, on a node that stayed up
      and on one that reloads there. */
  lemma {:induction false} SealedRosterIsRotated(cfg: Config, blocks: seq<Block>, r: Regs, base: seq<Member>)
    requires cfg.len > 0 && Contiguous(blocks) && blocks != []
    requires ClosesEpoch(cfg, |blocks|) && !cfg.open(|blocks|)
    ensures FromHeight(cfg, |blocks|) <= |blocks|
    ensures var next := EpochOf(cfg, |blocks| + 1);
      var sealed := ProspectiveRoster(Live(cfg, blocks, |blocks| - 1), base, next);
      && sealed == EpochRoster(Live(cfg, blocks, |blocks|), base, next)
      && sealed == EpochRoster(Reloaded(cfg, blocks, r), base, next)
  {
    ReplayEqualsLive(cfg, blocks, r);
    LiveEpoch(cfg, blocks, |blocks| - 1);
    EpochStep(cfg, |blocks|);
  }

  /** The sealed roster seats each validator by the set of roots validly registered in the
      open blocks of the epoch, whatever their order or repeats. */
  lemma {:induction false} SealedRosterBySet(cfg: Config, blocks: seq<Block>, base: seq<Member>, i: nat)
    requires cfg.len > 0 && Contiguous(blocks) && blocks != [] && ClosesEpoch(cfg, |blocks|) && i < |base|
    ensures var next := EpochOf(cfg, |blocks| + 1);
      var sealed := ProspectiveRoster(Live(cfg, blocks, |blocks| - 1), base, next);
      && |sealed| == |base| && next > 0
      && SeatedAs(base[i], sealed[i], RegisteredRoots(cfg, blocks, |blocks| - 1, next - 1, base[i].id))
  {
    var n := |blocks| - 1;
    LiveEpoch(cfg, blocks, n);
    EpochStep(cfg, |blocks|);
    CollectedBySet(cfg, blocks, n, base[i].id);
    SeatedBySet(Live(cfg, blocks, n), base[i], RegisteredRoots(cfg, blocks, n, EpochOf(cfg, |blocks|), base[i].id));
  }

  lemma {:induction false} SeatedBySet(r: Regs, m: Member, roots: iset<Root>)
    requires Holds(r, m.id, roots)
    ensures SeatedAs(m, Seat(r.nextRoots, r.nextConflicted, m), roots)
  {
    forall root | roots == iset{root}
      ensures Seat(r.nextRoots, r.nextConflicted, m) == m.(root := root)
    {
      assert root in roots;
      if m.id in r.nextRoots {
        assert r.nextRoots[m.id] in iset{r.nextRoots[m.id]};
      }
    }
    if m.id in r.nextRoots {
      assert r.nextRoots[m.id] in roots;
    }
  }

  // ---- the object ----

  /** The registration fields of `DevNode`, updated in place. */
  class Book {
    var epochRoots: map<Id, Root>
    var epochConflicted: set<Id>
    var nextRoots: map<Id, Root>
    var nextConflicted: set<Id>
    var nextFor: Epoch
    var epoch: Epoch

    function State(): Regs
      reads this
    {
      Regs(epochRoots, epochConflicted, nextRoots, nextConflicted, nextFor, epoch)
    }

    constructor ()
      ensures State() == FRESH
    {
      epochRoots, epochConflicted, nextRoots, nextConflicted, nextFor, epoch := map[], {}, map[], {}, 1, 0;
    }

    method RecordRegistrations(cfg: Config, block: Block)
      requires cfg.len > 0
      modifies this
      ensures State() == Record(cfg, old(State()), block)
    {
      if !cfg.open(block.height) {
        return;
      }
      var next := EpochOf(cfg, block.height) + 1;
      if next != nextFor {
        nextRoots, nextConflicted, nextFor := map[], {}, next;
      }
      ghost var base := State();
      var i := 0;
      while i < |block.notes|
        invariant 0 <= i <= |block.notes|
        invariant State() == RecordNotes(cfg, base, next, block.notes[..i])
      {
        var note := block.notes[i];
        assert block.notes[..i + 1][..i] == block.notes[..i];
        i := i + 1;
        if note.epoch != next || note.id in nextConflicted || !cfg.admits(note) {
          continue;
        }
        if note.id !in nextRoots {
          nextRoots := nextRoots[note.id := note.root];
        } else if nextRoots[note.id] != note.root {
          nextRoots := nextRoots - {note.id};
          nextConflicted := nextConflicted + {note.id};
        }
      }
      assert block.notes[..i] == block.notes;
    }

    method PromoteRegistrations(to: Epoch)
      modifies this
      ensures State() == Promote(old(State()), to)
    {
      if nextFor == to {
        epochRoots, epochConflicted := nextRoots, nextConflicted;
      } else {
        epochRoots, epochConflicted := map[], {};
      }
      nextRoots, nextConflicted, nextFor := map[], {}, to + 1;
    }

    method RefreshCommittee(cfg: Config, height: Height)
      requires cfg.len > 0
      modifies this
      ensures State() == Refresh(cfg, old(State()), height)
    {
      var to := EpochOf(cfg, height);
      if to != epoch {
        PromoteRegistrations(to);
      }
      epoch := to;
    }

    /** Rebuilding from stored blocks and refreshing leaves the object as if it had lived through them. */
    method Reload(cfg: Config, blocks: seq<Block>)
      requires cfg.len > 0 && blocks != [] && Contiguous(blocks)
      modifies this
      ensures State() == Live(cfg, blocks, |blocks|)
    {
      ghost var r := State();
      var head := |blocks|;
      FromBounds(cfg, head);
      var fromEpoch := FromEpoch(cfg, head);
      epochRoots, epochConflicted, nextRoots, nextConflicted, nextFor := map[], {}, map[], {}, fromEpoch + 1;
      var at := fromEpoch;
      var height := FromHeight(cfg, head);
      while height <= head
        invariant FromHeight(cfg, head) <= height <= head + 1
        invariant (State(), at) == Replay(cfg, blocks, r, head, height)
      {
        var now := EpochOf(cfg, height);
        if now != at {
          PromoteRegistrations(now);
          at := now;
        }
        RecordRegistrations(cfg, blocks[height - MIN_HEIGHT]);
        height := height + 1;
      }
      epoch := EpochOf(cfg, head);
      RefreshCommittee(cfg, head + 1);
      ReplayEqualsLive(cfg, blocks, r);
    }
  }
}
