/** The ring overlay: who each node gossips to, and the graph that makes. */
module Overlay {
  import opened Arithmetic

  function Cap(n: nat, fanout: nat): nat {
    if n <= 1 then 0 else if fanout < n - 1 then fanout else n - 1
  }

  /** The i-th nearest place on a ring of `n`: one ahead, one behind, two ahead, and so on. */
  function Offset(i: nat, n: nat): (d: nat)
    requires i + 1 < n
    ensures 1 <= d < n
  {
    if i % 2 == 0 then i / 2 + 1 else n - (i / 2 + 1)
  }

  /** No two of the nearest places coincide. */
  lemma {:induction false} OffsetsDiffer(i: nat, j: nat, n: nat)
    requires i < j && j + 1 < n
    ensures Offset(i, n) != Offset(j, n)
  {}

  function Place(pos: nat, d: nat, n: nat): (q: nat)
    requires pos < n && d < n
    ensures q < n
  {
    (pos + d) % n
  }

  /** Different distances lead to different places, and back. */
  lemma {:induction false} PlacesDiffer(pos: nat, d: nat, e: nat, n: nat)
    requires pos < n && d < n && e < n
    ensures Place(pos, d, n) == if pos + d < n then pos + d else pos + d - n
    ensures Place(pos, d, n) == Place(pos, e, n) <==> d == e
    ensures d > 0 ==> Place(pos, d, n) != pos
  {
    RingMod(pos + d, n);
    RingMod(pos + e, n);
  }

  lemma {:induction false} RingMod(x: nat, n: nat)
    requires x < 2 * n
    ensures x % n == if x < n then x else x - n
  {
    if x < n {
      RemainderIs(x, n, 0, x);
    } else {
      RemainderIs(x, n, 1, x - n);
    }
  }

  function Neighbors(pos: nat, n: nat, fanout: nat): (out: seq<nat>)
    requires pos < n
    ensures |out| == Cap(n, fanout)
    ensures forall i | 0 <= i < |out| :: out[i] == Place(pos, Offset(i, n), n)
  {
    seq(Cap(n, fanout), i requires 0 <= i < Cap(n, fanout) => Place(pos, Offset(i, n), n))
  }

  /** Exactly `Cap` distinct others. */
  lemma {:induction false} NeighborsDistinct(pos: nat, n: nat, fanout: nat)
    requires pos < n
    ensures var out := Neighbors(pos, n, fanout);
      (forall i | 0 <= i < |out| :: out[i] < n && out[i] != pos) && forall i, j | 0 <= i < j < |out| :: out[i] != out[j]
  {
    var out := Neighbors(pos, n, fanout);
    forall i | 0 <= i < |out| ensures out[i] < n && out[i] != pos { PlacesDiffer(pos, Offset(i, n), 0, n); }
    forall i, j | 0 <= i < j < |out| ensures out[i] != out[j] {
      OffsetsDiffer(i, j, n);
      PlacesDiffer(pos, Offset(i, n), Offset(j, n), n);
    }
  }

  /** Places are counted from where the position falls on the ring. */
  lemma {:induction false} Around(pos: nat, d: nat, n: nat)
    requires d < n
    ensures pos % n < n && (pos + d) % n == Place(pos % n, d, n)
    ensures pos < n ==> pos % n == pos
  {
    Divide(pos, n);
    Shifted(pos, d, n, pos / n, pos % n);
    RingMod(pos % n + d, n);
    if pos < n { RingMod(pos, n); }
  }

  lemma {:induction false} Shifted(pos: nat, d: nat, n: nat, q: nat, r: nat)
    requires r < n && d < n && pos == q * n + r
    ensures (pos + d) % n == if r + d < n then r + d else r + d - n
  {
    if r + d < n {
      RemainderIs(pos + d, n, q, r + d);
    } else {
      assert (q + 1) * n == q * n + n by { Spread(q, 1, 1, n); }
      RemainderIs(pos + d, n, q + 1, r + d - n);
    }
  }

  lemma {:induction false} StepOffsets(step: nat, n: nat)
    requires step >= 1
    ensures 2 * step - 1 < n ==> Offset(2 * (step - 1), n) == step
    ensures 2 * step < n ==> Offset(2 * (step - 1) + 1, n) == n - step
  {}

  /** The places `step` ahead and `step` behind are the next two neighbours. */
  lemma {:induction false} PairAt(pos: nat, n: nat, fanout: nat, step: nat)
    requires n > 1 && step >= 1
    ensures var all := Neighbors(pos % n, n, fanout);
      && (forall i | 0 <= i < |all| :: all[i] != pos)
      && (2 * step - 2 < |all| ==> all[2 * step - 2] == (pos + step) % n)
      && (2 * step - 1 < |all| ==> step < n && all[2 * step - 1] == (pos + n - step) % n)
  {
    hide Offset, Place;
    var all := Neighbors(pos % n, n, fanout);
    NeighborsDistinct(pos % n, n, fanout);
    StepOffsets(step, n);
    Around(pos, 0, n);
    if 2 * step - 2 < |all| { Around(pos, step, n); }
    if 2 * step - 1 < |all| { Around(pos, n - step, n); }
  }

  /** `ring_neighbors`: the step never passes half the ring, so the subtraction cannot underflow. */
  method RingNeighbors(pos: nat, n: nat, fanout: nat) returns (out: seq<nat>)
    ensures n == 0 ==> out == []
    ensures n > 0 ==> out == Neighbors(pos % n, n, fanout)
  {
    hide Neighbors, Place, Offset;
    out := [];
    if n <= 1 {
      return;
    }
    var cap := if fanout < n - 1 then fanout else n - 1;
    NeighborsDistinct(pos % n, n, fanout);
    ghost var all := Neighbors(pos % n, n, fanout);
    var step := 1;
    while |out| < cap
      invariant out <= all && |all| == cap
      invariant |out| < cap ==> |out| == 2 * (step - 1) && 1 <= step && 2 * step <= n
      decreases cap - |out|
    {
      PairAt(pos, n, fanout, step);
      var successor := (pos + step) % n;
      assert all[|out|] == successor;
      if successor != pos && successor !in out {
        out := out + [successor];
        if |out| == cap {
          break;
        }
      }
      assert 0 <= pos + n - step;
      var predecessor := (pos + n - step) % n;
      assert all[|out|] == predecessor;
      if predecessor != pos && predecessor !in out {
        out := out + [predecessor];
        if |out| == cap {
          break;
        }
      }
      step := step + 1;
    }
  }

  // ---- the lattice ----

  predicate Chooses(p: nat, q: nat, n: nat, fanout: nat)
    requires p < n
  {
    q in Neighbors(p, n, fanout)
  }

  /** Those `p` chose and those that chose `p`. */
  function Linked(p: nat, n: nat, fanout: nat): (s: set<nat>)
    requires p < n
  {
    set q | 0 <= q < n && (Chooses(p, q, n, fanout) || Chooses(q, p, n, fanout))
  }

  /** The links of `p` once every node before `pos` has chosen. */
  function LinkedSoFar(p: nat, n: nat, fanout: nat, pos: nat): (s: set<nat>)
    requires p < n
  {
    set q | 0 <= q < n && ((p < pos && Chooses(p, q, n, fanout)) || (q < pos && Chooses(q, p, n, fanout)))
  }

  predicate Ascending(list: seq<nat>) {
    forall i, j | 0 <= i < j < |list| :: list[i] < list[j]
  }

  /** `ring_lattice`. */
  method RingLattice(n: nat, fanout: nat) returns (lists: seq<seq<nat>>)
    ensures |lists| == n && forall p | 0 <= p < n :: Ascending(lists[p]) && Named(lists[p]) == Linked(p, n, fanout)
  {
    hide LinkedSoFar, Linked, Neighbors, LinksAt, Ascending, Named;
    var sets: seq<set<nat>> := seq(n, i => {});
    forall p | 0 <= p < n ensures LinkedSoFar(p, n, fanout, 0) == {} { NoLinks(p, n, fanout); }
    var pos := 0;
    while pos < n
      invariant 0 <= pos <= n && |sets| == n
      invariant forall p | 0 <= p < n :: sets[p] == LinkedSoFar(p, n, fanout, pos)
    {
      var others := RingNeighbors(pos, n, fanout);
      Around(pos, 0, n);
      NeighborsDistinct(pos, n, fanout);
      forall p | 0 <= p < n ensures LinksAt(sets, pos, others, p) == LinkedSoFar(p, n, fanout, pos + 1) {
        LinksNext(sets, pos, n, fanout, p);
      }
      sets := LinkAll(sets, pos, others);
      pos := pos + 1;
    }
    lists := [];
    var p := 0;
    while p < n
      invariant 0 <= p <= n && |lists| == p
      invariant forall q | 0 <= q < p :: Ascending(lists[q]) && Named(lists[q]) == Linked(q, n, fanout)
    {
      AllChosen(p, n, fanout);
      var list := InOrder(sets[p], n);
      lists := lists + [list];
      p := p + 1;
    }
  }

  /** The members of a set below `n`, in ascending order. */
  method InOrder(s: set<nat>, n: nat) returns (list: seq<nat>)
    requires forall q | q in s :: q < n
    ensures Ascending(list) && Named(list) == s
  {
    list := [];
    var q := 0;
    while q < n
      invariant 0 <= q <= n && Ascending(list)
      invariant forall i | 0 <= i < |list| :: list[i] < q && list[i] in s
      invariant forall x | x in s && x < q :: x in list
    {
      if q in s {
        list := list + [q];
      }
      q := q + 1;
    }
    forall x | x in s ensures x in Named(list) { assert x in list; }
  }

  lemma {:induction false} NoLinks(p: nat, n: nat, fanout: nat)
    requires p < n
    ensures LinkedSoFar(p, n, fanout, 0) == {}
  {}

  lemma {:induction false} AllChosen(p: nat, n: nat, fanout: nat)
    requires p < n
    ensures LinkedSoFar(p, n, fanout, n) == Linked(p, n, fanout) && forall q | q in Linked(p, n, fanout) :: q < n
  {
    hide Chooses;
  }

  lemma {:induction false} LinksNext(sets: seq<set<nat>>, pos: nat, n: nat, fanout: nat, p: nat)
    requires |sets| == n && pos < n && p < n && sets[p] == LinkedSoFar(p, n, fanout, pos)
    ensures LinksAt(sets, pos, Neighbors(pos, n, fanout), p) == LinkedSoFar(p, n, fanout, pos + 1)
  {
    hide Neighbors;
    NeighborsDistinct(pos, n, fanout);
    var links := LinksAt(sets, pos, Neighbors(pos, n, fanout), p);
    forall q ensures q in links <==> q in LinkedSoFar(p, n, fanout, pos + 1) {
      assert q in LinkedSoFar(p, n, fanout, pos + 1) <==>
        q in LinkedSoFar(p, n, fanout, pos) || (p == pos && 0 <= q < n && Chooses(pos, q, n, fanout)) || (q == pos && Chooses(pos, p, n, fanout));
    }
  }

  /** The links of `p` once `pos` and `others` are linked both ways. */
  function LinksAt(sets: seq<set<nat>>, pos: nat, others: seq<nat>, p: nat): set<nat>
    requires p < |sets|
  {
    sets[p] + (if p in others then {pos} else {}) + (if p == pos then set q | q in others else {})
  }

  method LinkAll(sets: seq<set<nat>>, pos: nat, others: seq<nat>) returns (out: seq<set<nat>>)
    requires pos < |sets| && forall i | 0 <= i < |others| :: others[i] < |sets|
    ensures |out| == |sets|
    ensures forall p | 0 <= p < |sets| :: out[p] == LinksAt(sets, pos, others, p)
  {
    out := sets;
    var i := 0;
    while i < |others|
      invariant 0 <= i <= |others| && |out| == |sets|
      invariant forall p | 0 <= p < |sets| :: out[p] == LinksAt(sets, pos, others[..i], p)
    {
      var other := others[i];
      assert others[..i + 1] == others[..i] + [other];
      out := out[pos := out[pos] + {other}];
      out := out[other := out[other] + {pos}];
      i := i + 1;
    }
    assert others[..i] == others;
  }

  lemma {:induction false} LatticeSymmetric(p: nat, q: nat, n: nat, fanout: nat)
    requires p < n && q < n
    ensures q in Linked(p, n, fanout) <==> p in Linked(q, n, fanout)
    ensures p !in Linked(p, n, fanout)
  {
    NeighborsDistinct(p, n, fanout);
  }

  /** The nodes a list names. */
  function Named(s: seq<nat>): set<nat> {
    set i | 0 <= i < |s| :: s[i]
  }

  lemma {:induction false} NamedSize(s: seq<nat>)
    ensures |Named(s)| <= |s|
  {
    if s != [] {
      var n := |s| - 1;
      NamedSize(s[..n]);
      assert Named(s) == Named(s[..n]) + {s[n]} by {
        forall x | x in Named(s[..n]) ensures x in Named(s) {
          var i :| 0 <= i < n && s[..n][i] == x;
          assert s[i] == x;
        }
      }
    }
  }

  /** Those that chose `p`, by their distance behind it. */
  function Choosers(p: nat, n: nat, fanout: nat): (s: seq<nat>)
    requires p < n
    ensures |s| == Cap(n, fanout)
    ensures forall i | 0 <= i < |s| :: s[i] == Place(p, n - Offset(i, n), n)
  {
    seq(Cap(n, fanout), i requires 0 <= i < Cap(n, fanout) => Place(p, n - Offset(i, n), n))
  }

  lemma {:induction false} ChooserFound(p: nat, q: nat, n: nat, fanout: nat)
    requires p < n && q < n && Chooses(q, p, n, fanout)
    ensures q in Named(Choosers(p, n, fanout))
  {
    var out := Neighbors(q, n, fanout);
    var i :| 0 <= i < |out| && out[i] == p;
    PlacesDiffer(q, Offset(i, n), 0, n);
    PlacesDiffer(p, n - Offset(i, n), 0, n);
    assert Choosers(p, n, fanout)[i] == q;
  }

  /** Every node has at most twice the fan-out links. */
  lemma {:induction false} DegreeBound(p: nat, n: nat, fanout: nat)
    requires p < n
    ensures |Linked(p, n, fanout)| <= 2 * Cap(n, fanout)
  {
    var a, b := Named(Neighbors(p, n, fanout)), Named(Choosers(p, n, fanout));
    NamedSize(Neighbors(p, n, fanout));
    NamedSize(Choosers(p, n, fanout));
    forall q | q in Linked(p, n, fanout) ensures q in a + b {
      if Chooses(p, q, n, fanout) {
        var i :| 0 <= i < |Neighbors(p, n, fanout)| && Neighbors(p, n, fanout)[i] == q;
      } else {
        ChooserFound(p, q, n, fanout);
      }
    }
    SubsetSize(Linked(p, n, fanout), a + b);
    assert |a + b| <= |a| + |b|;
  }

  /** A walk along links. */
  predicate Walk(path: seq<nat>, n: nat, fanout: nat) {
    && path != [] && (forall i | 0 <= i < |path| :: path[i] < n)
    && forall i | 0 <= i < |path| - 1 :: path[i + 1] in Linked(path[i], n, fanout)
  }

  lemma {:induction false} NextLinked(p: nat, n: nat, fanout: nat)
    requires p + 1 < n && fanout >= 1
    ensures p + 1 in Linked(p, n, fanout) && p in Linked(p + 1, n, fanout)
  {
    assert Neighbors(p, n, fanout)[0] == Place(p, 1, n);
    PlacesDiffer(p, 1, 0, n);
  }

  /** With a fan-out of at least one the lattice is connected. */
  lemma {:induction false} Connected(p: nat, q: nat, n: nat, fanout: nat) returns (path: seq<nat>)
    requires p < n && q < n && fanout >= 1
    ensures Walk(path, n, fanout) && path[0] == p && path[|path| - 1] == q
    decreases if p < q then q - p else p - q
  {
    if p == q {
      path := [p];
    } else {
      var next := if p < q then p + 1 else p - 1;
      var rest := Connected(next, q, n, fanout);
      NextLinked(if p < q then p else next, n, fanout);
      path := [p] + rest;
      forall i | 0 <= i < |path| - 1 ensures path[i + 1] in Linked(path[i], n, fanout) {
        if i > 0 { assert rest[i - 1 + 1] in Linked(rest[i - 1], n, fanout); }
      }
    }
  }
}
