/** Event and transaction roots of a block, in the shape of section 2.1 of RFC 6962, and
    inclusion proofs against them. */
module BlockMerkle {
  import opened Field
  import opened Hashing
  import opened Wrappers

  datatype MerkleStep = MerkleStep(sibling: Digest, siblingOnLeft: bool)

  const LEAF_DOMAIN: Byte := 0
  const NODE_DOMAIN: Byte := 1

  function LeafInput(data: Bytes): Bytes {
    [LEAF_DOMAIN] + data
  }

  function PairInput(left: Digest, right: Digest): Bytes {
    [NODE_DOMAIN] + left + right
  }

  lemma {:induction false} InputsInjective(a: Bytes, b: Bytes, l: Digest, r: Digest, l': Digest, r': Digest)
    ensures LeafInput(a) == LeafInput(b) ==> a == b
    ensures PairInput(l, r) == PairInput(l', r') ==> l == l' && r == r'
    ensures LeafInput(a) != PairInput(l, r) && LeafInput(a) != [] && PairInput(l, r) != []
  {
    assert LeafInput(a)[1..] == a && LeafInput(b)[1..] == b;
    assert PairInput(l, r)[1..33] == l && PairInput(l, r)[33..] == r;
    assert PairInput(l', r')[1..33] == l' && PairInput(l', r')[33..] == r';
    assert LeafInput(a)[0] != PairInput(l, r)[0];
  }

  // ---- the split point ----

  predicate PowerOfTwo(n: nat) {
    n == 1 || (n > 1 && n % 2 == 0 && PowerOfTwo(n / 2))
  }

  /** The power of two at least half of `n` and below it. */
  function Split(n: nat): (s: nat)
    requires n >= 2
    ensures PowerOfTwo(s) && 1 <= s < n <= 2 * s
  {
    if n == 2 then 1 else 2 * Split((n + 1) / 2)
  }

  lemma {:induction false} SplitUnique(n: nat, s: nat)
    requires n >= 2 && PowerOfTwo(s) && s < n <= 2 * s
    ensures s == Split(n)
  {
    if n > 2 {
      SplitUnique((n + 1) / 2, s / 2);
    }
  }

  method LargestPowerOfTwoBelow(n: nat) returns (split: nat)
    requires n >= 2
    ensures split == Split(n)
  {
    split := 1;
    while split * 2 < n
      invariant PowerOfTwo(split) && split < n
      decreases n - split
    {
      split := split * 2;
    }
    SplitUnique(n, split);
  }

  // ---- the tree ----

  function MerkleRoot(h: Hash, leaves: seq<Digest>): Digest
    decreases |leaves|
  {
    if |leaves| == 0 then h([])
    else if |leaves| == 1 then leaves[0]
    else
      var s := Split(|leaves|);
      h(PairInput(MerkleRoot(h, leaves[..s]), MerkleRoot(h, leaves[s..])))
  }

  function Leaves(h: Hash, events: seq<Bytes>): (v: seq<Digest>)
    ensures |v| == |events| && forall i | 0 <= i < |events| :: v[i] == h(LeafInput(events[i]))
  {
    seq<Digest>(|events|, i requires 0 <= i < |events| => h(LeafInput(events[i])))
  }

  function EventRoot(h: Hash, events: seq<Bytes>): Digest {
    if events == [] then h([]) else MerkleRoot(h, Leaves(h, events))
  }

  /** The steps from leaf `index` up to the root. */
  function Steps(h: Hash, leaves: seq<Digest>, index: nat): seq<MerkleStep>
    requires index < |leaves|
    decreases |leaves|
  {
    if |leaves| <= 1 then []
    else
      var s := Split(|leaves|);
      if index < s then Steps(h, leaves[..s], index) + [MerkleStep(MerkleRoot(h, leaves[s..]), false)]
      else Steps(h, leaves[s..], index - s) + [MerkleStep(MerkleRoot(h, leaves[..s]), true)]
  }

  function StepInput(acc: Digest, step: MerkleStep): Bytes {
    if step.siblingOnLeft then PairInput(step.sibling, acc) else PairInput(acc, step.sibling)
  }

  /** The value a verifier computes from a leaf digest and steps. */
  function Fold(h: Hash, acc: Digest, steps: seq<MerkleStep>): Digest {
    if steps == [] then acc
    else h(StepInput(Fold(h, acc, steps[..|steps| - 1]), steps[|steps| - 1]))
  }

  function Proves(h: Hash, root: Digest, event: Bytes, steps: seq<MerkleStep>): bool {
    Fold(h, h(LeafInput(event)), steps) == root
  }

  // ---- exactness ----

  lemma {:induction false} StepsFold(h: Hash, leaves: seq<Digest>, index: nat)
    requires index < |leaves|
    ensures Fold(h, leaves[index], Steps(h, leaves, index)) == MerkleRoot(h, leaves)
    decreases |leaves|
  {
    hide PairInput, Fold, Split, PowerOfTwo;
    if |leaves| > 1 {
      var s := Split(|leaves|);
      var left, right := leaves[..s], leaves[s..];
      if index < s {
        StepsFold(h, left, index);
        FoldSnoc(h, leaves[index], Steps(h, left, index), MerkleStep(MerkleRoot(h, right), false));
      } else {
        StepsFold(h, right, index - s);
        FoldSnoc(h, leaves[index], Steps(h, right, index - s), MerkleStep(MerkleRoot(h, left), true));
      }
    } else {
      FoldNone(h, leaves[index]);
    }
  }

  lemma {:induction false} FoldNone(h: Hash, acc: Digest)
    ensures Fold(h, acc, []) == acc
  {}

  lemma {:induction false} FoldSnoc(h: Hash, acc: Digest, steps: seq<MerkleStep>, step: MerkleStep)
    ensures Fold(h, acc, steps + [step]) == h(StepInput(Fold(h, acc, steps), step))
  {
    assert (steps + [step])[..|steps|] == steps;
  }

  /** Every honest proof is accepted. */
  lemma {:induction false} HonestIncluded(h: Hash, events: seq<Bytes>, index: nat)
    requires index < |events|
    ensures Proves(h, EventRoot(h, events), events[index], Steps(h, Leaves(h, events), index))
  {
    StepsFold(h, Leaves(h, events), index);
  }

  lemma {:induction false} LeavesSplit(h: Hash, events: seq<Bytes>, s: nat)
    requires s <= |events|
    ensures Leaves(h, events)[..s] == Leaves(h, events[..s]) && Leaves(h, events)[s..] == Leaves(h, events[s..])
  {}

  /** The hash input at the root of a tree: a leaf's, a pair's, or the empty one. */
  ghost function RootInput(h: Hash, events: seq<Bytes>): (x: Bytes)
    ensures h(x) == EventRoot(h, events)
  {
    if |events| == 0 then []
    else if |events| == 1 then LeafInput(events[0])
    else
      var s := Split(|events|);
      LeavesSplit(h, events, s);
      PairInput(EventRoot(h, events[..s]), EventRoot(h, events[s..]))
  }

  /** An accepted proof is the honest proof of an event in the list, or two inputs collide. */
  lemma {:induction false} InclusionSound(h: Hash, events: seq<Bytes>, event: Bytes, steps: seq<MerkleStep>)
      returns (i: nat, a: Bytes, b: Bytes)
    requires Proves(h, EventRoot(h, events), event, steps)
    ensures (i < |events| && events[i] == event && steps == Steps(h, Leaves(h, events), i)) || Collision(h, a, b)
    decreases |events|
  {
    hide PairInput, LeafInput, EventRoot;
    i := 0;
    b := RootInput(h, events);
    var zero := h([]);
    if steps == [] {
      a := LeafInput(event);
      if |events| == 1 {
        InputsInjective(event, events[0], zero, zero, zero, zero);
      } else if |events| > 1 {
        var s := Split(|events|);
        InputsInjective(event, [], EventRoot(h, events[..s]), EventRoot(h, events[s..]), zero, zero);
      } else {
        InputsInjective(event, [], zero, zero, zero, zero);
      }
    } else {
      i, a, b := LastStepSound(h, events, event, steps);
    }
  }

  lemma {:induction false} LastStepSound(h: Hash, events: seq<Bytes>, event: Bytes, steps: seq<MerkleStep>)
      returns (i: nat, a: Bytes, b: Bytes)
    requires steps != [] && Proves(h, EventRoot(h, events), event, steps)
    ensures (i < |events| && events[i] == event && steps == Steps(h, Leaves(h, events), i)) || Collision(h, a, b)
    decreases |events|, 0
  {
    hide PairInput, LeafInput, EventRoot, Steps, Split, PowerOfTwo;
    var m := |steps| - 1;
    var step, acc: Digest, zero: Digest := steps[m], Fold(h, h(LeafInput(event)), steps[..m]), h([]);
    i := 0;
    a, b := StepInput(acc, step), RootInput(h, events);
    var l: Digest, r: Digest := if step.siblingOnLeft then step.sibling else acc, if step.siblingOnLeft then acc else step.sibling;
    if |events| <= 1 {
      InputsInjective(if events == [] then [] else events[0], [], l, r, zero, zero);
    } else {
      var s := Split(|events|);
      InputsInjective([], [], l, r, EventRoot(h, events[..s]), EventRoot(h, events[s..]));
      if a == b {
        if step.siblingOnLeft {
          i, a, b := InclusionSound(h, events[s..], event, steps[..m]);
          i := i + s;
        } else {
          i, a, b := InclusionSound(h, events[..s], event, steps[..m]);
        }
        if !Collision(h, a, b) {
          assert steps == steps[..m] + [step];
          StepsOfHalf(h, events, i);
        }
      }
    }
  }

  /** The steps of `i` are those within its half, and the root of the other half. */
  lemma {:induction false} StepsOfHalf(h: Hash, events: seq<Bytes>, i: nat)
    requires |events| > 1 && i < |events|
    ensures var s := Split(|events|);
      Steps(h, Leaves(h, events), i) ==
      if i < s then Steps(h, Leaves(h, events[..s]), i) + [MerkleStep(EventRoot(h, events[s..]), false)]
      else Steps(h, Leaves(h, events[s..]), i - s) + [MerkleStep(EventRoot(h, events[..s]), true)]
  {
    hide PairInput, LeafInput, Split, PowerOfTwo;
    LeavesSplit(h, events, Split(|events|));
  }

  /** Equal roots come from equal lists, of whatever lengths, or two inputs collide. */
  lemma {:induction false} RootBinding(h: Hash, events: seq<Bytes>, other: seq<Bytes>) returns (a: Bytes, b: Bytes)
    requires EventRoot(h, events) == EventRoot(h, other)
    ensures events == other || Collision(h, a, b)
    decreases |events|
  {
    hide PairInput, LeafInput, EventRoot;
    a, b := RootInput(h, events), RootInput(h, other);
    if a == b {
      SameShape(h, events, other);
      if |events| > 1 {
        var s, t := Split(|events|), Split(|other|);
        a, b := RootBinding(h, events[..s], other[..t]);
        if !Collision(h, a, b) {
          a, b := RootBinding(h, events[s..], other[t..]);
          assert events == events[..s] + events[s..] && other == other[..t] + other[t..];
        }
      }
    }
  }

  /** Equal root inputs are of one kind, with equal parts. */
  lemma {:induction false} SameShape(h: Hash, events: seq<Bytes>, other: seq<Bytes>)
    requires RootInput(h, events) == RootInput(h, other)
    ensures |events| <= 1 ==> events == other
    ensures |events| > 1 ==> |other| > 1
    ensures |events| > 1 ==> EventRoot(h, events[..Split(|events|)]) == EventRoot(h, other[..Split(|other|)])
    ensures |events| > 1 ==> EventRoot(h, events[Split(|events|)..]) == EventRoot(h, other[Split(|other|)..])
  {
    hide PairInput, LeafInput, EventRoot;
    var zero: Digest := h([]);
    var x := if |events| == 1 then events[0] else if |other| == 1 then other[0] else [];
    var y := if |other| == 1 then other[0] else [];
    var l, r := zero, zero;
    if |events| > 1 {
      l, r := EventRoot(h, events[..Split(|events|)]), EventRoot(h, events[Split(|events|)..]);
    }
    var l', r' := l, r;
    if |other| > 1 {
      l', r' := EventRoot(h, other[..Split(|other|)]), EventRoot(h, other[Split(|other|)..]);
    }
    InputsInjective(x, y, l, r, l', r');
    InputsInjective(x, y, l', r', l, r);
    if |events| == 1 && |other| == 1 { assert events == [x] && other == [y]; }
  }

  // ---- the loops ----

  method LeafHashes(h: Hash, events: seq<Bytes>) returns (leaves: seq<Digest>)
    ensures leaves == Leaves(h, events)
  {
    leaves := [];
    var i := 0;
    while i < |events|
      invariant 0 <= i <= |events| && |leaves| == i
      invariant forall j | 0 <= j < i :: leaves[j] == h(LeafInput(events[j]))
    {
      leaves := leaves + [h(LeafInput(events[i]))];
      i := i + 1;
    }
  }

  /** `collect_steps`: appends the steps of `index` below what is already collected. */
  method CollectSteps(h: Hash, leaves: seq<Digest>, index: nat, collected: seq<MerkleStep>) returns (steps: seq<MerkleStep>)
    requires index < |leaves|
    ensures steps == collected + Steps(h, leaves, index)
    decreases |leaves|
  {
    hide MerkleRoot;
    steps := collected;
    if |leaves| <= 1 {
      return;
    }
    var split := LargestPowerOfTwoBelow(|leaves|);
    if index < split {
      steps := CollectSteps(h, leaves[..split], index, steps);
      steps := steps + [MerkleStep(MerkleRoot(h, leaves[split..]), false)];
    } else {
      steps := CollectSteps(h, leaves[split..], index - split, steps);
      steps := steps + [MerkleStep(MerkleRoot(h, leaves[..split]), true)];
    }
  }

  method ProveInclusion(h: Hash, events: seq<Bytes>, index: nat) returns (proof: Option<seq<MerkleStep>>)
    ensures proof == if index < |events| then Some(Steps(h, Leaves(h, events), index)) else None
  {
    if index >= |events| {
      return None;
    }
    var leaves := LeafHashes(h, events);
    var steps := CollectSteps(h, leaves, index, []);
    assert [] + Steps(h, leaves, index) == Steps(h, leaves, index);
    proof := Some(steps);
  }

  method VerifyInclusion(h: Hash, root: Digest, event: Bytes, steps: seq<MerkleStep>) returns (ok: bool)
    ensures ok == Proves(h, root, event, steps)
  {
    var acc: Digest := h(LeafInput(event));
    var i := 0;
    while i < |steps|
      invariant 0 <= i <= |steps| && acc == Fold(h, h(LeafInput(event)), steps[..i])
    {
      assert steps[..i + 1][..i] == steps[..i];
      acc := if steps[i].siblingOnLeft then h(PairInput(steps[i].sibling, acc)) else h(PairInput(acc, steps[i].sibling));
      i := i + 1;
    }
    assert steps[..i] == steps;
    ok := acc == root;
  }
}
