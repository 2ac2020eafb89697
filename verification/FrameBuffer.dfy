/** The driver's buffer of early frames: bounded in frames and bytes, and full means the oldest
    frame of the source holding the most bytes goes. */
module FrameBuffer {
  import opened Field
  import opened Wrappers

  const MAX_BUFFERED_FRAMES: nat := 8192
  const MAX_BUFFERED_BYTES: nat := 32 * 1024 * 1024

  datatype Frame = Frame(source: nat, bytes: seq<Byte>)

  function Sum(frames: seq<Frame>): nat {
    if frames == [] then 0 else Sum(frames[..|frames| - 1]) + |frames[|frames| - 1].bytes|
  }

  /** Bytes held for one source. */
  function Held(frames: seq<Frame>, source: nat): nat {
    if frames == [] then 0
    else
      var last := frames[|frames| - 1];
      Held(frames[..|frames| - 1], source) + if last.source == source then |last.bytes| else 0
  }

  /** Index of a source's oldest frame. */
  function Oldest(frames: seq<Frame>, source: nat): (r: Option<nat>)
    ensures r.Some? ==> r.value < |frames| && frames[r.value].source == source
    ensures r.Some? ==> forall i | 0 <= i < r.value :: frames[i].source != source
    ensures r.None? ==> forall i | 0 <= i < |frames| :: frames[i].source != source
  {
    if frames == [] then None
    else
      var r := Oldest(frames[..|frames| - 1], source);
      if r.Some? then r else if frames[|frames| - 1].source == source then Some(|frames| - 1) else None
  }

  function First(frames: seq<Frame>, source: nat): nat {
    var r := Oldest(frames, source);
    if r.Some? then r.value else |frames|
  }

  /** `at` is the oldest frame of a source no other source outweighs. */
  ghost predicate Evictable(frames: seq<Frame>, at: nat) {
    && at < |frames| && Oldest(frames, frames[at].source) == Some(at)
    && forall i | 0 <= i < |frames| :: Held(frames, frames[i].source) <= Held(frames, frames[at].source)
  }

  function Without(frames: seq<Frame>, at: nat): seq<Frame>
    requires at < |frames|
  {
    frames[..at] + frames[at + 1..]
  }

  /** Sources seen so far with the bytes each holds, in order of first appearance. */
  ghost predicate Tallied(frames: seq<Frame>, tally: seq<(nat, nat)>) {
    TallyHolds(frames, tally) && TallyOrdered(frames, tally) && TallyCovers(frames, tally)
  }

  predicate TallyHolds(frames: seq<Frame>, tally: seq<(nat, nat)>) {
    forall t | 0 <= t < |tally| :: tally[t].1 == Held(frames, tally[t].0) && Oldest(frames, tally[t].0).Some?
  }

  predicate TallyOrdered(frames: seq<Frame>, tally: seq<(nat, nat)>) {
    forall t, u | 0 <= t < u < |tally| :: tally[t].0 != tally[u].0 && First(frames, tally[t].0) < First(frames, tally[u].0)
  }

  predicate TallyCovers(frames: seq<Frame>, tally: seq<(nat, nat)>) {
    forall i | 0 <= i < |frames| :: Listed(tally, frames[i].source)
  }

  predicate Listed(tally: seq<(nat, nat)>, source: nat) {
    exists t | 0 <= t < |tally| :: tally[t].0 == source
  }

  /** The tally with the bytes of `f` added to its source's entry at `t`, or as a new entry. */
  predicate Bumped(f: Frame, tally: seq<(nat, nat)>, t: nat, next: seq<(nat, nat)>) {
    && t <= |tally| && (forall u | 0 <= u < t :: tally[u].0 != f.source)
    && (t < |tally| ==> tally[t].0 == f.source && next == tally[t := (f.source, tally[t].1 + |f.bytes|)])
    && (t == |tally| ==> next == tally + [(f.source, |f.bytes|)])
  }

  lemma {:induction false} SumWithout(frames: seq<Frame>, at: nat)
    requires at < |frames|
    ensures Sum(frames) == Sum(Without(frames, at)) + |frames[at].bytes|
  {
    hide Sum;
    var n := |frames| - 1;
    var front, last := frames[..n], frames[n];
    assert frames == front + [last];
    SumSnoc(front, last);
    if at == n {
      assert Without(frames, at) == front;
    } else {
      SumWithout(front, at);
      assert Without(frames, at) == Without(front, at) + [last];
      SumSnoc(Without(front, at), last);
    }
  }

  /** Evicting touches no other source's bytes. */
  lemma {:induction false} HeldWithout(frames: seq<Frame>, at: nat, source: nat)
    requires at < |frames|
    ensures Held(frames, source) == Held(Without(frames, at), source) + if frames[at].source == source then |frames[at].bytes| else 0
  {
    hide Held, Oldest;
    var n := |frames| - 1;
    var front, last := frames[..n], frames[n];
    assert frames == front + [last];
    HeldSnoc(front, last, source);
    if at == n {
      assert Without(frames, at) == front;
    } else {
      HeldWithout(front, at, source);
      assert Without(frames, at) == Without(front, at) + [last];
      HeldSnoc(Without(front, at), last, source);
    }
  }

  // ---- runs of evictions ----

  /** `after` is reached from `before` by evictions, each made only while `need` more bytes or one
      more frame would not fit. */
  ghost predicate Evicted(before: seq<Frame>, after: seq<Frame>, need: nat)
    decreases |before|
  {
    || after == before
    || (Over(before, need) && exists at: nat :: Evictable(before, at) && Evicted(Without(before, at), after, need))
  }

  predicate Over(frames: seq<Frame>, need: nat) {
    frames != [] && (|frames| + 1 > MAX_BUFFERED_FRAMES || Sum(frames) + need > MAX_BUFFERED_BYTES)
  }

  lemma {:induction false} EvictedOnce(before: seq<Frame>, mid: seq<Frame>, need: nat, at: nat)
    requires Evicted(before, mid, need) && Over(mid, need) && Evictable(mid, at)
    ensures Evicted(before, Without(mid, at), need)
    decreases |before|
  {
    if mid != before {
      var first: nat :| Evictable(before, first) && Evicted(Without(before, first), mid, need);
      EvictedOnce(Without(before, first), mid, need, at);
    } else {
      assert Evicted(Without(before, at), Without(before, at), need);
    }
  }

  /** Increasing positions of survivors. */
  ghost predicate Picks(before: seq<Frame>, after: seq<Frame>, at: seq<nat>) {
    && |at| == |after| && (forall i | 0 <= i < |at| :: at[i] < |before| && after[i] == before[at[i]])
    && forall i, j | 0 <= i < j < |at| :: at[i] < at[j]
  }

  /** Survivors keep their arrival order. */
  lemma {:induction false} SurvivorsInOrder(before: seq<Frame>, after: seq<Frame>, need: nat) returns (at: seq<nat>)
    requires Evicted(before, after, need)
    ensures Picks(before, after, at)
    decreases |before|
  {
    if after == before {
      at := seq(|before|, i => i);
    } else {
      var gone: nat :| Evictable(before, gone) && Evicted(Without(before, gone), after, need);
      var rest := SurvivorsInOrder(Without(before, gone), after, need);
      at := PicksThrough(before, after, gone, rest);
    }
  }

  lemma {:induction false} PicksThrough(before: seq<Frame>, after: seq<Frame>, gone: nat, rest: seq<nat>) returns (at: seq<nat>)
    requires gone < |before| && Picks(Without(before, gone), after, rest)
    ensures Picks(before, after, at)
  {
    at := seq(|rest|, i requires 0 <= i < |rest| => if rest[i] < gone then rest[i] else rest[i] + 1);
  }

  class Buffer {
    var frames: seq<Frame>
    var bytes: nat

    ghost predicate Valid()
      reads this
    {
      bytes == Sum(frames) && |frames| <= MAX_BUFFERED_FRAMES && bytes <= MAX_BUFFERED_BYTES
    }

    constructor ()
      ensures Valid() && frames == []
    {
      frames, bytes := [], 0;
    }

    /** `heaviest_source`: of the sources holding the most bytes, the one last to appear. */
    method HeaviestSource() returns (r: Option<nat>)
      ensures r.None? <==> frames == []
      ensures r.Some? ==> Oldest(frames, r.value).Some? && Evictable(frames, Oldest(frames, r.value).value)
      ensures r.Some? ==> forall i | 0 <= i < |frames| && Held(frames, frames[i].source) == Held(frames, r.value) ::
        First(frames, frames[i].source) <= First(frames, r.value)
    {
      hide Held, Oldest, First, Tallied;
      var tally := Tally(frames);
      if tally == [] {
        NothingTallied(frames, tally);
        return None;
      }
      var best := 0;
      var t := 1;
      while t < |tally|
        invariant 1 <= t <= |tally| && 0 <= best < t && forall u | 0 <= u < t :: tally[u].1 <= tally[best].1
        invariant forall u | best < u < t :: tally[u].1 < tally[best].1
      {
        if tally[t].1 >= tally[best].1 {
          best := t;
        }
        t := t + 1;
      }
      TopOfTally(frames, tally, best);
      r := Some(tally[best].0);
    }

    /** `evict_one`. */
    method EvictOne(incoming: nat)
      requires bytes == Sum(frames)
      modifies this
      ensures bytes == Sum(frames)
      ensures old(frames) == [] ==> frames == []
      ensures old(frames) != [] ==> exists at: nat :: at < |old(frames)| && Evictable(old(frames), at) && frames == Without(old(frames), at)
    {
      hide Held, Sum;
      var heaviest := HeaviestSource();
      var target := if heaviest.Some? then heaviest.value else incoming;
      var at := Oldest(frames, target);
      if at.Some? {
        SumWithout(frames, at.value);
        bytes := bytes - |frames[at.value].bytes|;
        frames := Without(frames, at.value);
      }
    }

    /** `push`: an oversize frame is dropped; otherwise the frame is added last, after no more
        evictions than it takes to fit. */
    method Push(source: nat, frame: seq<Byte>)
      requires Valid()
      modifies this
      ensures Valid()
      ensures |frame| > MAX_BUFFERED_BYTES ==> frames == old(frames)
      ensures |frame| <= MAX_BUFFERED_BYTES ==> frames != [] && frames[|frames| - 1] == Frame(source, frame)
      ensures |frame| <= MAX_BUFFERED_BYTES ==> Evicted(old(frames), frames[..|frames| - 1], |frame|)
    {
      hide Sum, Evictable;
      if |frame| > MAX_BUFFERED_BYTES {
        return;
      }
      while frames != [] && (|frames| + 1 > MAX_BUFFERED_FRAMES || bytes + |frame| > MAX_BUFFERED_BYTES)
        invariant Valid() && Evicted(old(frames), frames, |frame|)
        decreases |frames|
      {
        ghost var before := frames;
        EvictOne(source);
        ghost var at: nat :| at < |before| && Evictable(before, at) && frames == Without(before, at);
        EvictedOnce(old(frames), before, |frame|, at);
        SumWithout(before, at);
      }
      ghost var kept := frames;
      SumSnoc(frames, Frame(source, frame));
      bytes := bytes + |frame|;
      frames := frames + [Frame(source, frame)];
      assert frames[..|frames| - 1] == kept;
    }

    method Take() returns (taken: seq<Frame>)
      requires Valid()
      modifies this
      ensures Valid() && taken == old(frames) && frames == []
    {
      taken := frames;
      bytes := 0;
      frames := [];
    }
  }

  lemma {:induction false} SumSnoc(frames: seq<Frame>, f: Frame)
    ensures Sum(frames + [f]) == Sum(frames) + |f.bytes|
    ensures Sum([]) == 0
  {
    assert (frames + [f])[..|frames|] == frames;
  }

  /** One pass over the frames, adding each to its source's count. */
  method Tally(frames: seq<Frame>) returns (tally: seq<(nat, nat)>)
    ensures Tallied(frames, tally)
  {
    hide Tallied;
    tally := [];
    TalliedNone();
    assert frames[..0] == [];
    var i := 0;
    while i < |frames|
      invariant 0 <= i <= |frames| && Tallied(frames[..i], tally)
    {
      var t := 0;
      while t < |tally| && tally[t].0 != frames[i].source
        invariant 0 <= t <= |tally| && forall u | 0 <= u < t :: tally[u].0 != frames[i].source
      {
        t := t + 1;
      }
      var found := t < |tally|;
      var next := if found then tally[t := (tally[t].0, tally[t].1 + |frames[i].bytes|)] else tally + [(frames[i].source, |frames[i].bytes|)];
      TallyNext(frames[..i], frames[i], tally, t, next);
      tally := next;
      assert frames[..i + 1] == frames[..i] + [frames[i]];
      i := i + 1;
    }
    assert frames[..i] == frames;
  }

  /** The last of the largest entries names the source to evict from. */
  lemma {:induction false} TopOfTally(frames: seq<Frame>, tally: seq<(nat, nat)>, best: nat)
    requires Tallied(frames, tally) && best < |tally|
    requires forall u | 0 <= u < |tally| :: tally[u].1 <= tally[best].1
    requires forall u | best < u < |tally| :: tally[u].1 < tally[best].1
    ensures var source := tally[best].0;
      && Oldest(frames, source).Some? && Evictable(frames, Oldest(frames, source).value)
      && forall i | 0 <= i < |frames| && Held(frames, frames[i].source) == Held(frames, source) ::
           First(frames, frames[i].source) <= First(frames, source)
  {
    hide Held, Oldest, First;
    var source := tally[best].0;
    forall i | 0 <= i < |frames| ensures Held(frames, frames[i].source) <= Held(frames, source)
      ensures Held(frames, frames[i].source) == Held(frames, source) ==> First(frames, frames[i].source) <= First(frames, source)
    {
      assert Listed(tally, frames[i].source);
      var u :| 0 <= u < |tally| && tally[u].0 == frames[i].source;
    }
  }

  lemma {:induction false} TalliedNone()
    ensures Tallied([], [])
  {}

  lemma {:induction false} TallyOrder(frames: seq<Frame>, f: Frame, tally: seq<(nat, nat)>, t: nat, next: seq<(nat, nat)>)
    requires Tallied(frames, tally) && Bumped(f, tally, t, next)
    ensures TallyOrdered(frames + [f], next)
  {
    hide Held, Oldest, First;
    forall u, w | 0 <= u < w < |next|
      ensures next[u].0 != next[w].0 && First(frames + [f], next[u].0) < First(frames + [f], next[w].0)
    {
      FirstSnoc(frames, f, next[u].0);
      FirstSnoc(frames, f, next[w].0);
    }
  }

  lemma {:induction false} TallyHeld(frames: seq<Frame>, f: Frame, tally: seq<(nat, nat)>, t: nat, next: seq<(nat, nat)>)
    requires Tallied(frames, tally) && Bumped(f, tally, t, next)
    ensures TallyHolds(frames + [f], next)
  {
    hide Held, Oldest, First;
    forall u | 0 <= u < |next| ensures next[u].1 == Held(frames + [f], next[u].0) && Oldest(frames + [f], next[u].0).Some? {
      HeldSnoc(frames, f, next[u].0);
      if t == |tally| && u == t { NotHeld(frames, f.source) by { NoFrame(frames, tally, f.source); } }
    }
  }

  lemma {:induction false} TallyNext(frames: seq<Frame>, f: Frame, tally: seq<(nat, nat)>, t: nat, next: seq<(nat, nat)>)
    requires Tallied(frames, tally) && Bumped(f, tally, t, next)
    ensures Tallied(frames + [f], next)
  {
    hide TallyHolds, TallyOrdered;
    TallyOrder(frames, f, tally, t, next);
    TallyHeld(frames, f, tally, t, next);
    var more := frames + [f];
    forall i | 0 <= i < |more| ensures Listed(next, more[i].source) {
      if i < |frames| {
        assert Listed(tally, frames[i].source);
        var u :| 0 <= u < |tally| && tally[u].0 == frames[i].source;
        assert next[u].0 == more[i].source;
      } else {
        assert next[t].0 == more[i].source;
      }
    }
  }

  lemma {:induction false} NothingTallied(frames: seq<Frame>, tally: seq<(nat, nat)>)
    requires Tallied(frames, tally)
    ensures frames != [] ==> tally != []
  {
    if frames != [] {
      var source := frames[0].source;
      var t :| 0 <= t < |tally| && tally[t].0 == source;
    }
  }

  /** A first appearance stays; a source new with this frame first appears at its end. */
  lemma {:induction false} FirstSnoc(frames: seq<Frame>, f: Frame, source: nat)
    ensures Oldest(frames, source).Some? ==> First(frames + [f], source) == First(frames, source) < |frames|
    ensures Oldest(frames, source).None? && f.source == source ==> First(frames + [f], source) == |frames|
  {
    assert (frames + [f])[..|frames|] == frames;
  }

  lemma {:induction false} HeldSnoc(frames: seq<Frame>, f: Frame, source: nat)
    ensures Held(frames + [f], source) == Held(frames, source) + if f.source == source then |f.bytes| else 0
    ensures Oldest(frames, source).Some? || f.source == source ==> Oldest(frames + [f], source).Some?
  {
    assert (frames + [f])[..|frames|] == frames;
  }

  lemma {:induction false} NoFrame(frames: seq<Frame>, tally: seq<(nat, nat)>, source: nat)
    requires Tallied(frames, tally) && forall u | 0 <= u < |tally| :: tally[u].0 != source
    ensures forall i | 0 <= i < |frames| :: frames[i].source != source
  {
    hide Held, Oldest;
    forall i | 0 <= i < |frames| ensures frames[i].source != source {
      var u :| 0 <= u < |tally| && tally[u].0 == frames[i].source;
    }
  }

  lemma {:induction false} NotHeld(frames: seq<Frame>, source: nat)
    requires forall i | 0 <= i < |frames| :: frames[i].source != source
    ensures Held(frames, source) == 0
  {
    if frames != [] { NotHeld(frames[..|frames| - 1], source); }
  }
}
