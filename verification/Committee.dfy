/** The seated committee of one height and its stake thresholds.

    Every call site of the threshold functions passes a duplicate-free list of
    validator ids, so the model passes the set of those ids. */
module Committee {
  import opened Arithmetic

  type NodeId = nat

  type View = nat

  const MAX_U128: nat := 0xFFFF_FFFF_FFFF_FFFF_FFFF_FFFF_FFFF_FFFF

  /** `stake` is `CommitteeCommitment::stake_of`; `quorumStake` also counts absent stake. */
  datatype Selection = Selection(
    members: seq<NodeId>,
    stake: map<NodeId, nat>,
    quorumStake: nat,
    tau: nat,
    finalityFloor: nat,
    full: bool,
    leader: NodeId,
    budget: nat)

  function SatAdd(a: nat, b: nat): nat {
    if a + b > MAX_U128 then MAX_U128 else a + b
  }

  function SatMul(a: nat, b: nat): nat {
    if a * b > MAX_U128 then MAX_U128 else a * b
  }

  function StakeOf(sel: Selection, id: NodeId): nat {
    if id in sel.stake then sel.stake[id] else 0
  }

  predicate Distinct(ids: seq<NodeId>) {
    forall i, j :: 0 <= i < j < |ids| ==> ids[i] != ids[j]
  }

  function IdSet(ids: seq<NodeId>): set<NodeId> {
    set id | id in ids
  }

  function MemberSet(sel: Selection): set<NodeId> {
    IdSet(sel.members)
  }

  /** Stake of the listed members that are in `ids`, in exact arithmetic. */
  function Weight(sel: Selection, listed: seq<NodeId>, ids: set<NodeId>): nat {
    if listed == [] then 0
    else Weight(sel, listed[1..], ids) + if listed[0] in ids then StakeOf(sel, listed[0]) else 0
  }

  /** The same sum with the 128-bit saturating additions of the source. */
  function SeatedStake(sel: Selection, listed: seq<NodeId>, ids: set<NodeId>): nat {
    if listed == [] then 0
    else SatAdd(SeatedStake(sel, listed[1..], ids),
                if listed[0] in ids then StakeOf(sel, listed[0]) else 0)
  }

  predicate StakeQuorum(sel: Selection, ids: set<NodeId>) {
    && (sel.full || |ids| >= sel.tau)
    && sel.quorumStake > 0
    && SatMul(SeatedStake(sel, sel.members, ids), 3) > SatMul(sel.quorumStake, 2)
  }

  /** The finality gate also asks for the fixed seat threshold of the committee size. */
  predicate FinalityQuorum(sel: Selection, ids: set<NodeId>) {
    StakeQuorum(sel, ids) && (sel.full || |ids| >= sel.finalityFloor)
  }

  predicate ValidSelection(sel: Selection) {
    && Distinct(sel.members)
    && sel.stake.Keys == MemberSet(sel)
    && Weight(sel, sel.members, MemberSet(sel)) <= sel.quorumStake
  }

  /** More than two thirds of the quorum stake, in exact arithmetic. */
  ghost predicate Quorum(sel: Selection, ids: set<NodeId>) {
    3 * Weight(sel, sel.members, ids) > 2 * sel.quorumStake
  }

  /** At most a third of the quorum stake misbehaves. */
  ghost predicate Minority(sel: Selection, byz: set<NodeId>) {
    3 * Weight(sel, sel.members, byz) <= sel.quorumStake
  }

  lemma {:induction false} SaturationOnlyShrinks(sel: Selection, listed: seq<NodeId>, ids: set<NodeId>)
    ensures SeatedStake(sel, listed, ids) <= Weight(sel, listed, ids)
  {
    if listed != [] {
      SaturationOnlyShrinks(sel, listed[1..], ids);
    }
  }

  /** Saturation can hide a quorum but never invent one. */
  lemma {:induction false} StakeQuorumIsQuorum(sel: Selection, ids: set<NodeId>)
    requires StakeQuorum(sel, ids)
    ensures Quorum(sel, ids)
  {
    SaturationOnlyShrinks(sel, sel.members, ids);
  }

  /** The saturating sum is the exact one cut off at the largest 128-bit number. */
  lemma {:induction false} SeatedIsWeight(sel: Selection, listed: seq<NodeId>, ids: set<NodeId>)
    ensures SeatedStake(sel, listed, ids) == if Weight(sel, listed, ids) > MAX_U128 then MAX_U128 else Weight(sel, listed, ids)
  {
    if listed != [] {
      SeatedIsWeight(sel, listed[1..], ids);
    }
  }

  /** The seats a vote needs when the committee is drawn. */
  predicate Seats(sel: Selection, ids: set<NodeId>, floor: nat) {
    sel.full || |ids| >= floor
  }

  /** The stake test accepts exactly the seated quorums, as long as twice the quorum stake is
      below the largest 128-bit number; from there on saturation refuses everything. */
  lemma {:induction false} StakeQuorumExact(sel: Selection, ids: set<NodeId>)
    ensures StakeQuorum(sel, ids) <==>
      Seats(sel, ids, sel.tau) && 0 < sel.quorumStake && 2 * sel.quorumStake < MAX_U128 && Quorum(sel, ids)
    ensures FinalityQuorum(sel, ids) <==>
      && Seats(sel, ids, sel.tau) && Seats(sel, ids, sel.finalityFloor)
      && 0 < sel.quorumStake && 2 * sel.quorumStake < MAX_U128 && Quorum(sel, ids)
  {
    SeatedIsWeight(sel, sel.members, ids);
  }

  /** More voters weigh no less. */
  lemma {:induction false} WeightGrows(sel: Selection, listed: seq<NodeId>, few: set<NodeId>, many: set<NodeId>)
    requires forall id | id in listed && id in few :: id in many
    ensures Weight(sel, listed, few) <= Weight(sel, listed, many)
  {
    if listed != [] {
      WeightGrows(sel, listed[1..], few, many);
    }
  }

  /** The members take turns: in any run of views as long as the committee, each leads exactly once. */
  lemma {:induction false} LeadersRotate(sel: Selection, view: View, id: NodeId)
    requires Distinct(sel.members) && id in sel.members
    ensures exists v | view <= v < view + |sel.members| :: LeaderFor(sel, v) == id
    ensures forall u, v | view <= u < v < view + |sel.members| :: LeaderFor(sel, u) != LeaderFor(sel, v)
    ensures sel.leader in sel.members ==> LeaderFor(sel, 0) == sel.leader
  {
    hide LeaderFor, Turn;
    var n := |sel.members|;
    var base := PositionOf(sel.members, sel.leader);
    forall u, v | view <= u < v < view + n ensures LeaderFor(sel, u) != LeaderFor(sel, v) {
      TurnsDiffer(base, view, u - view, v - view, n);
      LeaderIs(sel, u);
      LeaderIs(sel, v);
    }
    var k := TurnOf(base, view, PositionOf(sel.members, id), n);
    LeaderIs(sel, view + k);
    LeaderIs(sel, 0);
    FirstTurn(base, n);
  }

  lemma {:induction false} LeaderIs(sel: Selection, view: View)
    requires sel.members != []
    ensures var t := Turn(PositionOf(sel.members, sel.leader), view, |sel.members|);
      t < |sel.members| && LeaderFor(sel, view) == sel.members[t]
  {
    hide PositionOf;
  }

  lemma {:induction false} FirstTurn(base: nat, n: nat)
    requires base < n
    ensures Turn(base, 0, n) == base
  {
    RemainderIs(0, n, 0, 0);
    RemainderIs(base, n, 0, base);
  }

  /** Place of the leader `k` views on, counted on the ring of members. */
  function Turn(base: nat, view: nat, n: nat): nat
    requires n > 0
  {
    (base + view % n) % n
  }

  lemma {:induction false} TurnNext(base: nat, view: nat, n: nat)
    requires base < n
    ensures Turn(base, view, n) < n
    ensures Turn(base, view + 1, n) == if Turn(base, view, n) + 1 == n then 0 else Turn(base, view, n) + 1
  {
    var q, r := view / n, view % n;
    Divide(view, n);
    if r + 1 == n {
      assert view + 1 == (q + 1) * n by { Spread(q, 1, 1, n); }
      RemainderIs(view + 1, n, q + 1, 0);
    } else {
      RemainderIs(view + 1, n, q, r + 1);
    }
    Wrap(base + r, n);
    Wrap(base + (view + 1) % n, n);
  }

  lemma {:induction false} Wrap(x: nat, n: nat)
    requires x < 2 * n
    ensures x % n == if x < n then x else x - n
  {
    if x < n { RemainderIs(x, n, 0, x); } else { RemainderIs(x, n, 1, x - n); }
  }

  lemma {:induction false} TurnAfter(base: nat, view: nat, k: nat, n: nat)
    requires base < n && k < n
    ensures var t := Turn(base, view, n); t < n && Turn(base, view + k, n) == if t + k < n then t + k else t + k - n
  {
    hide Turn;
    if k == 0 {
      TurnNext(base, view, n);
    } else {
      TurnAfter(base, view, k - 1, n);
      TurnNext(base, view + k - 1, n);
    }
  }

  lemma {:induction false} TurnsDiffer(base: nat, view: nat, j: nat, k: nat, n: nat)
    requires base < n && j < k < n
    ensures Turn(base, view + j, n) < n && Turn(base, view + k, n) < n && Turn(base, view + j, n) != Turn(base, view + k, n)
  {
    hide Turn;
    TurnAfter(base, view, j, n);
    TurnAfter(base, view, k, n);
  }

  lemma {:induction false} TurnOf(base: nat, view: nat, at: nat, n: nat) returns (k: nat)
    requires base < n && at < n
    ensures k < n && Turn(base, view + k, n) == at
  {
    hide Turn;
    TurnAfter(base, view, 0, n);
    var t := Turn(base, view, n);
    k := if t <= at then at - t else at + n - t;
    TurnAfter(base, view, k, n);
  }

  lemma {:induction false} WeightSplit(sel: Selection, listed: seq<NodeId>, a: set<NodeId>, b: set<NodeId>, all: set<NodeId>)
    requires forall id :: id in listed ==> id in all
    ensures Weight(sel, listed, a) + Weight(sel, listed, b)
         <= Weight(sel, listed, a * b) + Weight(sel, listed, all)
  {
    if listed != [] {
      WeightSplit(sel, listed[1..], a, b, all);
    }
  }

  lemma {:induction false} WeightOutside(sel: Selection, listed: seq<NodeId>, a: set<NodeId>, byz: set<NodeId>)
    requires forall id :: id in listed && id in a ==> id in byz
    ensures Weight(sel, listed, a) <= Weight(sel, listed, byz)
  {
    if listed != [] {
      WeightOutside(sel, listed[1..], a, byz);
    }
  }

  /** Any two quorums share a member outside a minority. */
  lemma {:induction false} QuorumsShareHonest(sel: Selection, a: set<NodeId>, b: set<NodeId>, byz: set<NodeId>)
    returns (id: NodeId)
    requires ValidSelection(sel) && Minority(sel, byz)
    requires Quorum(sel, a) && Quorum(sel, b)
    ensures id in sel.members && id in a && id in b && id !in byz
  {
    if forall x :: x in sel.members && x in a * b ==> x in byz {
      WeightSplit(sel, sel.members, a, b, MemberSet(sel));
      WeightOutside(sel, sel.members, a * b, byz);
      assert false;
    }
    id :| id in sel.members && id in a * b && id !in byz;
  }

  /** `leader_for`: the members take turns, starting from the drawn leader. */
  function LeaderFor(sel: Selection, view: View): NodeId {
    if sel.members == [] then sel.leader
    else
      var base := PositionOf(sel.members, sel.leader);
      sel.members[(base + view % |sel.members|) % |sel.members|]
  }

  /** First position of `id`, or 0 when it is absent. */
  function PositionOf(ids: seq<NodeId>, id: NodeId): (at: nat)
    ensures ids != [] ==> at < |ids|
    ensures id in ids ==> ids[at] == id && id !in ids[..at]
    ensures id !in ids ==> at == 0
  {
    if id !in ids then 0
    else if ids[0] == id then 0
    else 1 + PositionOf(ids[1..], id)
  }
}
