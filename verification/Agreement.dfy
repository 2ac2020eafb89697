/** No run of a height finalises two values. */
module Agreement {
  import opened Committee
  import opened Records
  import opened NodeModel
  import opened FairEviction
  import opened Protocol
  import opened Wrappers

  function Prevote(id: NodeId, r: View, v: Value, pol: Option<View>): Att {
    Att(id, r, PrevoteFor(r, v, pol))
  }

  function Precommit(id: NodeId, r: View, v: Value): Att {
    Att(id, r, PrecommitFor(v))
  }

  // ---- polkas ----

  ghost predicate PolkaBy(sel: Selection, signed: set<Att>, r: View, v: Value, pol: Option<View>, q: set<NodeId>) {
    Quorum(sel, q) && forall id | id in q && id in sel.members :: Prevote(id, r, v, pol) in signed
  }

  /** A quorum of prevotes for `v` at view `r`, all naming the same earlier polka. */
  ghost predicate HasPolka(sel: Selection, signed: set<Att>, r: View, v: Value) {
    exists pol, q :: PolkaBy(sel, signed, r, v, pol, q)
  }

  lemma {:induction false} PolkasStay(sel: Selection, old_: set<Att>, new_: set<Att>)
    requires old_ <= new_
    ensures forall r, v :: HasPolka(sel, old_, r, v) ==> HasPolka(sel, new_, r, v)
  {
    forall r, v | HasPolka(sel, old_, r, v) ensures HasPolka(sel, new_, r, v) {
      var pol, q :| PolkaBy(sel, old_, r, v, pol, q);
      assert PolkaBy(sel, new_, r, v, pol, q);
    }
  }

  lemma {:induction false} BackedIsPolka(sel: Selection, signed: set<Att>, view: View, pol: Option<View>, block: LockedBlock, polka: Cert)
    requires PolkaBacks(sel, signed, view, pol, block, polka)
    ensures HasPolka(sel, signed, view, block.header.value)
  {
    var q := Signers(polka.atts);
    StakeQuorumIsQuorum(sel, q);
    forall id | id in q ensures Prevote(id, view, block.header.value, pol) in signed {
      var a :| a in polka.atts && a.from == id;
      assert a == Prevote(id, view, block.header.value, pol);
    }
    assert PolkaBy(sel, signed, view, block.header.value, pol, q);
  }

  // ---- the invariant ----

  /** Prevotes of `id`: at most one value per view, never above the staged view, and
      an earlier polka named by a prevote exists. */
  ghost predicate PrevotesOk(sys: System, id: NodeId, s: Node) {
    forall a | a in sys.signed && a.from == id && a.subject.PrevoteFor? ::
      && a.view == a.subject.view
      && s.staged.Some? && a.view <= s.staged.value.view
      && a.view in s.prevoted && s.prevoted[a.view] == a.subject.value
      && (a.subject.pol.Some? ==> HasPolka(sys.sel, sys.signed, a.subject.pol.value, a.subject.value))
  }

  /** Precommits of `id` are for polkas and never above its lock. */
  ghost predicate PrecommitsOk(sys: System, id: NodeId, s: Node) {
    forall a | a in sys.signed && a.from == id && a.subject.PrecommitFor? ::
      && s.lock.Some? && a.view <= s.lock.value.view
      && HasPolka(sys.sel, sys.signed, a.view, a.subject.value)
  }

  ghost predicate LockOk(sys: System, s: Node) {
    s.lock.Some? ==>
      && s.staged.Some? && s.lock.value.view <= s.staged.value.view
      && HasPolka(sys.sel, sys.signed, s.lock.value.view, LockValue(s.lock.value))
      && (s.lock.value.view == s.staged.value.view ==> LockValue(s.lock.value) == s.staged.value.header.value)
  }

  ghost predicate StagedOk(sys: System, s: Node) {
    s.staged.Some? ==>
      && s.staged.value.view <= s.view
      && (s.staged.value.pol.Some? ==>
            HasPolka(sys.sel, sys.signed, s.staged.value.pol.value, s.staged.value.header.value))
  }

  /** The lock rule seen from outside: after precommitting at `c`, a node prevotes at a
      later view only with a named polka at or above `c`, or for a value that already has
      a polka at that later view. */
  ghost predicate LockRule(sys: System, id: NodeId) {
    forall p, c | p in sys.signed && c in sys.signed && p.from == id && c.from == id
                  && p.subject.PrevoteFor? && c.subject.PrecommitFor? && c.view < p.view ::
      || (p.subject.pol.Some? && p.subject.pol.value >= c.view)
      || HasPolka(sys.sel, sys.signed, p.view, p.subject.value)
  }

  ghost predicate HeldAreSigned(sys: System, s: Node) {
    && (forall a | a in s.prevotes :: a in sys.signed)
    && (forall a | a in s.roundAtts :: a in sys.signed)
  }

  /** Records the node remembers as verified do not lock above the view they ask for. */
  predicate CacheOk(s: Node) {
    forall r | r in s.verified && r.locked.Some? :: r.lockView <= r.targetView
  }

  ghost predicate NodeOk(sys: System, id: NodeId)
    requires id in sys.nodes
  {
    var s := sys.nodes[id];
    && s.id == id
    && PrevotesOk(sys, id, s)
    && PrecommitsOk(sys, id, s)
    && LockOk(sys, s)
    && StagedOk(sys, s)
    && LockRule(sys, id)
    && HeldAreSigned(sys, s)
    && CacheOk(s)
  }

  /** Members of `q` that can never again complete a precommit quorum for `(r, v)`. */
  ghost predicate BlockedBy(sys: System, r: View, v: Value, q: set<NodeId>) {
    && Quorum(sys.sel, q)
    && forall id | id in q && id in sys.nodes ::
         && sys.nodes[id].staged.Some? && sys.nodes[id].staged.value.view > r
         && Precommit(id, r, v) !in sys.signed
  }

  ghost predicate Blocked(sys: System, r: View, v: Value) {
    exists q :: BlockedBy(sys, r, v, q)
  }

  /** A polka at a view shuts out every other value at every earlier view. */
  ghost predicate PolkasBlock(sys: System) {
    forall r', v', r, v | HasPolka(sys.sel, sys.signed, r', v') && r < r' && v != v' :: Blocked(sys, r, v)
  }

  ghost predicate Base(sys: System) {
    && ValidSelection(sys.sel)
    && sys.nodes.Keys <= MemberSet(sys.sel)
    && Minority(sys.sel, MemberSet(sys.sel) - sys.nodes.Keys)
  }

  ghost predicate Inv(sys: System) {
    && Base(sys)
    && (forall id | id in sys.nodes :: NodeOk(sys, id))
    && PolkasBlock(sys)
  }

  // ---- consequences of the invariant ----

  /** One view has polkas for one value only. */
  lemma {:induction false} PolkaUnique(sys: System, r: View, v: Value, w: Value)
    requires Base(sys) && forall id | id in sys.nodes :: PrevotesOk(sys, id, sys.nodes[id])
    requires HasPolka(sys.sel, sys.signed, r, v) && HasPolka(sys.sel, sys.signed, r, w)
    ensures v == w
  {
    var polV, qv :| PolkaBy(sys.sel, sys.signed, r, v, polV, qv);
    var polW, qw :| PolkaBy(sys.sel, sys.signed, r, w, polW, qw);
    var id := QuorumsShareHonest(sys.sel, qv, qw, MemberSet(sys.sel) - sys.nodes.Keys);
    assert Prevote(id, r, v, polV) in sys.signed && Prevote(id, r, w, polW) in sys.signed;
    assert id in sys.nodes && PrevotesOk(sys, id, sys.nodes[id]);
  }

  /** A same-view precommit quorum for `v` at `r`. */
  ghost predicate PrecommitQuorum(sys: System, r: View, v: Value, q: set<NodeId>) {
    Quorum(sys.sel, q) && forall id | id in q && id in sys.sel.members :: Precommit(id, r, v) in sys.signed
  }

  lemma {:induction false} PrecommittedHasPolka(sys: System, r: View, v: Value, q: set<NodeId>)
    requires Inv(sys) && PrecommitQuorum(sys, r, v, q)
    ensures HasPolka(sys.sel, sys.signed, r, v)
  {
    var id := QuorumsShareHonest(sys.sel, q, q, MemberSet(sys.sel) - sys.nodes.Keys);
    assert Precommit(id, r, v) in sys.signed && NodeOk(sys, id);
  }

  lemma {:induction false} AgreementAt(sys: System, r: View, v: Value, q: set<NodeId>, r': View, v': Value, q': set<NodeId>)
    requires Inv(sys)
    requires PrecommitQuorum(sys, r, v, q) && PrecommitQuorum(sys, r', v', q')
    ensures v == v'
  {
    PrecommittedHasPolka(sys, r, v, q);
    PrecommittedHasPolka(sys, r', v', q');
    if r == r' {
      PolkaUnique(sys, r, v, v');
    } else if r < r' {
      LaterPolkaAgrees(sys, r, v, q, r', v');
    } else {
      LaterPolkaAgrees(sys, r', v', q', r, v);
    }
  }

  /** Once a value has a precommit quorum, every later polka is for it. */
  lemma {:induction false} LaterPolkaAgrees(sys: System, r: View, v: Value, q: set<NodeId>, r': View, v': Value)
    requires Inv(sys) && PrecommitQuorum(sys, r, v, q) && r < r'
    requires HasPolka(sys.sel, sys.signed, r', v')
    ensures v == v'
  {
    if v != v' {
      assert Blocked(sys, r, v);
      var b :| BlockedBy(sys, r, v, b);
      var id := QuorumsShareHonest(sys.sel, q, b, MemberSet(sys.sel) - sys.nodes.Keys);
      assert false;
    }
  }

  // ---- how one node's move changes the system ----

  ghost predicate StagedNotBelow(s: Node, t: Node) {
    s.staged.Some? ==> t.staged.Some? && s.staged.value.view <= t.staged.value.view
  }

  /** `b` is `a` after one node moved (or none) and some attestations were signed. */
  ghost predicate Evolves(a: System, b: System) {
    && a.sel == b.sel && a.nodes.Keys == b.nodes.Keys && a.signed <= b.signed
    && (forall id | id in a.nodes :: StagedNotBelow(a.nodes[id], b.nodes[id]))
    && (forall c | c in b.signed && c !in a.signed && c.subject.PrecommitFor? && c.from in a.nodes ::
          a.nodes[c.from].staged.Some? ==> a.nodes[c.from].staged.value.view <= c.view)
  }

  lemma {:induction false} BlockedStays(a: System, b: System)
    requires Evolves(a, b)
    ensures forall r, v :: Blocked(a, r, v) ==> Blocked(b, r, v)
  {
    forall r, v | Blocked(a, r, v) ensures Blocked(b, r, v) {
      var q :| BlockedBy(a, r, v, q);
      assert BlockedBy(b, r, v, q);
    }
  }

  /** With no new polka, polkas still block. */
  lemma {:induction false} PolkasStillBlock(a: System, b: System)
    requires PolkasBlock(a) && Evolves(a, b)
    requires forall p | p in b.signed && p !in a.signed :: !p.subject.PrevoteFor?
    ensures PolkasBlock(b)
  {
    BlockedStays(a, b);
    forall r, v | HasPolka(b.sel, b.signed, r, v) ensures HasPolka(a.sel, a.signed, r, v) {
      var pol, q :| PolkaBy(b.sel, b.signed, r, v, pol, q);
      assert PolkaBy(a.sel, a.signed, r, v, pol, q);
    }
  }

  /** What an honest signer of a polka that is new in `b` satisfies in `a`. */
  ghost predicate FairSigner(a: System, b: System, r': View, v': Value, pol': Option<View>, id: NodeId)
    requires id in b.nodes
  {
    && b.nodes[id].staged.Some? && b.nodes[id].staged.value.view >= r'
    && (pol'.Some? ==> HasPolka(a.sel, a.signed, pol'.value, v'))
    && forall c | c in b.signed && c.from == id && c.subject.PrecommitFor? ::
         && HasPolka(a.sel, a.signed, c.view, c.subject.value)
         && (c.view < r' ==> pol'.Some? && pol'.value >= c.view)
  }

  ghost predicate FairSigners(a: System, b: System, r': View, v': Value, pol': Option<View>, q: set<NodeId>) {
    forall id | id in q && id in b.nodes :: FairSigner(a, b, r', v', pol', id)
  }

  lemma {:induction false} NewPolkaBlocks(a: System, b: System, r': View, v': Value, pol': Option<View>, q: set<NodeId>, r: View, v: Value)
    requires Inv(a) && Evolves(a, b)
    requires PolkaBy(b.sel, b.signed, r', v', pol', q) && FairSigners(a, b, r', v', pol', q)
    requires r < r' && v != v'
    ensures Blocked(b, r, v)
  {
    hide LockOk, StagedOk, LockRule, HeldAreSigned, CacheOk;
    BlockedStays(a, b);
    var honest := QuorumsShareHonest(a.sel, q, q, MemberSet(a.sel) - a.nodes.Keys);
    assert FairSigner(a, b, r', v', pol', honest);
    if pol'.Some? && r < pol'.value {
      assert HasPolka(a.sel, a.signed, pol'.value, v');
      assert Blocked(a, r, v);
    } else {
      forall id | id in q && id in b.nodes ensures Precommit(id, r, v) !in b.signed {
        if Precommit(id, r, v) in b.signed {
          assert FairSigner(a, b, r', v', pol', id);
          assert pol'.Some? && pol'.value == r;
          PolkaUnique(a, r, v, v');
        }
      }
      assert BlockedBy(b, r, v, q);
    }
  }

  /** One new prevote: either no polka is new, or its signers are fair and it blocks. */
  lemma {:induction false} PolkasBlockAfterPrevote(a: System, b: System, att: Att)
    requires Inv(a) && Evolves(a, b) && b.signed == a.signed + {att} && att.subject.PrevoteFor?
    requires att.from in a.nodes ==>
      && FairCaster(a, att)
      && b.nodes[att.from].staged.Some? && b.nodes[att.from].staged.value.view >= att.view
    ensures PolkasBlock(b)
  {
    BlockedStays(a, b);
    forall r', v', r, v | HasPolka(b.sel, b.signed, r', v') && r < r' && v != v' ensures Blocked(b, r, v) {
      if HasPolka(a.sel, a.signed, r', v') {
        assert Blocked(a, r, v);
      } else {
        var pol', q :| PolkaBy(b.sel, b.signed, r', v', pol', q);
        SignersAreFair(a, b, att, r', v', pol', q);
        NewPolkaBlocks(a, b, r', v', pol', q, r, v);
      }
    }
  }

  /** The casting node obeys the lock rule in the state it casts from. */
  ghost predicate FairCaster(a: System, att: Att)
    requires att.subject.PrevoteFor?
  {
    && (att.subject.pol.Some? ==> HasPolka(a.sel, a.signed, att.subject.pol.value, att.subject.value))
    && forall c | c in a.signed && c.from == att.from && c.subject.PrecommitFor? && c.view < att.view ::
         || (att.subject.pol.Some? && att.subject.pol.value >= c.view)
         || HasPolka(a.sel, a.signed, att.view, att.subject.value)
  }

  lemma {:induction false} SignersAreFair(a: System, b: System, att: Att, r': View, v': Value, pol': Option<View>, q: set<NodeId>)
    requires Inv(a) && Evolves(a, b) && b.signed == a.signed + {att} && att.subject.PrevoteFor?
    requires att.from in a.nodes ==>
      && FairCaster(a, att)
      && b.nodes[att.from].staged.Some? && b.nodes[att.from].staged.value.view >= att.view
    requires !HasPolka(a.sel, a.signed, r', v') && PolkaBy(b.sel, b.signed, r', v', pol', q)
    ensures FairSigners(a, b, r', v', pol', q)
  {
    forall id | id in q && id in b.nodes ensures FairSigner(a, b, r', v', pol', id) {
      var p := Prevote(id, r', v', pol');
      assert p in b.signed;
      assert NodeOk(a, id) && StagedNotBelow(a.nodes[id], b.nodes[id]);
      SignerIsFair(a, b, att, p);
    }
  }

  lemma {:induction false} SignerIsFair(a: System, b: System, att: Att, p: Att)
    requires p.from in a.nodes && NodeOk(a, p.from) && p.from in b.nodes && b.signed == a.signed + {att} && p in b.signed
    requires att.subject.PrevoteFor? && p.subject.PrevoteFor? && p.view == p.subject.view
    requires StagedNotBelow(a.nodes[p.from], b.nodes[p.from])
    requires att.from == p.from ==>
      && FairCaster(a, att)
      && b.nodes[att.from].staged.Some? && b.nodes[att.from].staged.value.view >= att.view
    requires !HasPolka(a.sel, a.signed, p.view, p.subject.value)
    ensures FairSigner(a, b, p.view, p.subject.value, p.subject.pol, p.from)
  {
    assert p in a.signed || p == att;
  }

  /** Facts about a node survive when only others sign. */
  lemma {:induction false} OthersKeep(a: System, b: System, id: NodeId)
    requires id in a.nodes && NodeOk(a, id)
    requires a.sel == b.sel && a.signed <= b.signed && id in b.nodes && b.nodes[id] == a.nodes[id]
    requires forall x | x in b.signed && x !in a.signed :: x.from != id || x.subject.ViewChangeFor?
    ensures NodeOk(b, id)
  {
    PolkasStay(a.sel, a.signed, b.signed);
  }

  /** A move that signs no vote and does not touch lock or prevotes. */
  lemma {:induction false} QuietMove(a: System, id: NodeId, t: Node, sent: set<Att>)
    requires Inv(a) && id in a.nodes
    requires forall x | x in sent :: x.subject.ViewChangeFor?
    requires t.id == id && t.lock == a.nodes[id].lock && t.prevoted == a.nodes[id].prevoted
    requires StagedNotBelow(a.nodes[id], t)
    requires LockOk(a, t) && StagedOk(a, t) && CacheOk(t)
    requires forall x | x in t.prevotes || x in t.roundAtts :: x in a.signed + sent
    ensures Inv(Update(a, id, t, sent))
  {
    hide NodeOk, PolkasBlock;
    var b := Update(a, id, t, sent);
    PolkasStillBlock(a, b);
    assert NodeOk(a, id);
    forall other | other in b.nodes ensures NodeOk(b, other) {
      if other != id { OthersKeep(a, b, other); } else { QuietKeeps(a, b, id); }
    }
  }

  lemma {:induction false} QuietKeeps(a: System, b: System, id: NodeId)
    requires id in a.nodes && NodeOk(a, id) && id in b.nodes
    requires a.sel == b.sel && a.signed <= b.signed
    requires forall x | x in b.signed && x !in a.signed :: x.subject.ViewChangeFor?
    requires var s, t := a.nodes[id], b.nodes[id];
      && t.id == id && t.lock == s.lock && t.prevoted == s.prevoted && StagedNotBelow(s, t)
      && LockOk(a, t) && StagedOk(a, t) && CacheOk(t)
      && forall x | x in t.prevotes || x in t.roundAtts :: x in b.signed
    ensures NodeOk(b, id)
  {
    PolkasStay(a.sel, a.signed, b.signed);
  }

  /** A node that may prevote its staged block obeys the lock rule in doing so. */
  lemma {:induction false} CasterIsFair(a: System, id: NodeId, o: Outcome)
    requires id in a.nodes && NodeOk(a, id) && MayPrevote(a.nodes[id], o)
    ensures var staged := a.nodes[id].staged.value;
      FairCaster(a, Prevote(id, staged.view, staged.header.value, staged.pol))
  {
  }

  /** Signing a prevote the rules permit. */
  lemma {:induction false} PrevoteMove(a: System, id: NodeId, t: Node, o: Outcome)
    requires Inv(a) && id in a.nodes && MayPrevote(a.nodes[id], o) && o.drawn
    requires t == CastPrevote(a.nodes[id], o).0
    ensures Inv(Update(a, id, t, Signatures(CastPrevote(a.nodes[id], o).1)))
  {
    hide NodeOk, PolkasBlock, FairCaster, RecordPrevote, LockForbids;
    var s := a.nodes[id];
    var staged := s.staged.value;
    var att := Prevote(id, staged.view, staged.header.value, staged.pol);
    var b := Update(a, id, t, {att});
    assert NodeOk(a, id);
    OwnId(a, id);
    assert Signatures(CastPrevote(s, o).1) == {att} by {
      assert CastPrevote(s, o).1 == [PrevoteSent(att)];
    }
    RecordPrevoteKeeps(s.prevotes, att);
    CasterIsFair(a, id, o);
    PolkasBlockAfterPrevote(a, b, att);
    forall other | other in b.nodes ensures NodeOk(b, other) {
      if other != id { OthersKeep(a, b, other); } else { CasterKeeps(a, b, id, att); }
    }
  }

  lemma {:induction false} OwnId(a: System, id: NodeId)
    requires id in a.nodes && NodeOk(a, id)
    ensures a.nodes[id].id == id
  {
  }

  lemma {:induction false} CasterKeeps(a: System, b: System, id: NodeId, att: Att)
    requires id in a.nodes && NodeOk(a, id) && a.nodes[id].staged.Some?
    requires att == Prevote(id, a.nodes[id].staged.value.view, a.nodes[id].staged.value.header.value, a.nodes[id].staged.value.pol)
    requires a.sel == b.sel && b.signed == a.signed + {att} && id in b.nodes && FairCaster(a, att)
    requires var s, t := a.nodes[id], b.nodes[id];
      && t.id == s.id && t.lock == s.lock && t.staged == s.staged && t.view == s.view && t.roundAtts == s.roundAtts && t.verified == s.verified
      && (att.view in s.prevoted ==> s.prevoted[att.view] == att.subject.value)
      && t.prevoted == s.prevoted[att.view := att.subject.value]
      && forall x | x in t.prevotes :: x in s.prevotes || x == att
    ensures NodeOk(b, id)
  {
    PolkasStay(a.sel, a.signed, b.signed);
  }

  lemma {:induction false} RemoveKeeps(atts: seq<Att>, at: nat)
    requires at < |atts|
    ensures forall x | x in Remove(atts, at) :: x in atts
  {
  }

  lemma {:induction false} PushKeeps(atts: seq<Att>, att: Att)
    ensures forall x | x in PushAtt(atts, att) :: x in atts || x == att
  {
    if |atts| >= MAX_ROUND_ATTESTATIONS {
      RemoveKeeps(atts, Victim(AttSenders(atts), att.from));
    }
  }

  lemma {:induction false} RecordPrevoteKeeps(prevotes: seq<Att>, att: Att)
    ensures forall x | x in RecordPrevote(prevotes, att) :: x in prevotes || x == att
  {
    PushKeeps(prevotes, att);
    var oldest := OldestOf(prevotes, att.from);
    if oldest.Some? {
      var rest := Remove(prevotes, oldest.value);
      RemoveKeeps(prevotes, oldest.value);
      PushKeeps(rest, att);
    }
  }

  lemma {:induction false} RecordAttestationKeeps(atts: seq<Att>, att: Att)
    ensures forall x | x in RecordAttestation(atts, att) :: x in atts || x == att
  {
    PushKeeps(atts, att);
  }

  /** Locking on a polka at the staged view. */
  lemma {:induction false} LockMove(a: System, id: NodeId, lock: Lock)
    requires Inv(a) && id in a.nodes && a.nodes[id].staged.Some?
    requires lock.view == a.nodes[id].staged.value.view && LockValue(lock) == a.nodes[id].staged.value.header.value
    requires a.nodes[id].lock.Some? ==> a.nodes[id].lock.value.view < lock.view
    requires HasPolka(a.sel, a.signed, lock.view, LockValue(lock))
    ensures Inv(Update(a, id, a.nodes[id].(lock := Some(lock)), {}))
  {
    hide NodeOk, PolkasBlock;
    var b := Update(a, id, a.nodes[id].(lock := Some(lock)), {});
    assert b.signed == a.signed;
    PolkasStillBlock(a, b);
    assert NodeOk(a, id);
    forall other | other in b.nodes ensures NodeOk(b, other) {
      if other != id { OthersKeep(a, b, other); } else { LockerKeeps(a, b, id, lock); }
    }
  }

  lemma {:induction false} LockerKeeps(a: System, b: System, id: NodeId, lock: Lock)
    requires id in a.nodes && NodeOk(a, id) && id in b.nodes
    requires a.sel == b.sel && b.signed == a.signed
    requires var s := a.nodes[id];
      && s.staged.Some? && lock.view == s.staged.value.view && LockValue(lock) == s.staged.value.header.value
      && (s.lock.Some? ==> s.lock.value.view < lock.view)
      && b.nodes[id] == s.(lock := Some(lock))
    requires HasPolka(a.sel, a.signed, lock.view, LockValue(lock))
    ensures NodeOk(b, id)
  {
  }

  /** Precommitting the staged value under a lock at the staged view. */
  lemma {:induction false} PrecommitMove(a: System, id: NodeId, t: Node, att: Att)
    requires Inv(a) && id in a.nodes
    requires var s := a.nodes[id];
      && s.staged.Some? && s.lock.Some? && s.lock.value.view == s.staged.value.view
      && att == Precommit(id, s.staged.value.view, s.staged.value.header.value)
      && t.id == s.id && t.lock == s.lock && t.staged == s.staged && t.view == s.view
      && t.prevoted == s.prevoted && t.prevotes == s.prevotes && t.verified == s.verified
      && forall x | x in t.roundAtts :: x in s.roundAtts || x == att
    ensures Inv(Update(a, id, t, {att}))
  {
    hide NodeOk, PolkasBlock;
    var b := Update(a, id, t, {att});
    PolkasStillBlock(a, b);
    assert NodeOk(a, id);
    forall other | other in b.nodes ensures NodeOk(b, other) {
      if other != id { OthersKeep(a, b, other); } else { PrecommitterKeeps(a, b, id, att); }
    }
  }

  lemma {:induction false} PrecommitterKeeps(a: System, b: System, id: NodeId, att: Att)
    requires id in a.nodes && NodeOk(a, id) && id in b.nodes
    requires a.sel == b.sel && b.signed == a.signed + {att}
    requires var s, t := a.nodes[id], b.nodes[id];
      && s.staged.Some? && s.lock.Some? && s.lock.value.view == s.staged.value.view
      && att == Precommit(id, s.staged.value.view, s.staged.value.header.value)
      && t.id == s.id && t.lock == s.lock && t.staged == s.staged && t.view == s.view
      && t.prevoted == s.prevoted && t.prevotes == s.prevotes && t.verified == s.verified
      && forall x | x in t.roundAtts :: x in s.roundAtts || x == att
    ensures NodeOk(b, id)
  {
    PolkasStay(a.sel, a.signed, b.signed);
  }
}
