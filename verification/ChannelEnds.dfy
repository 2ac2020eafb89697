/** The two ends of a channel as the objects that hold their counters and buffers. */
module ChannelEnds {
  import opened Hashing
  import opened Channel
  import opened Wrappers

  class SendEnd {
    var sequence: nat
    var torn: bool
    var written: Bytes
    ghost var sealed: seq<Bytes>
    ghost var attempted: seq<Bytes>

    ghost predicate Valid()
      reads this
    {
      sequence == |sealed|
    }

    ghost function State(): Sender
      reads this
    {
      Sender(sealed, torn, attempted)
    }

    /** The bytes written are the frames of the records sealed, but for the one whose write failed. */
    ghost predicate OnWire(ct: Cipher)
      reads this`torn, this`sealed, this`written
    {
      && (torn ==> sealed != [])
      && written == Frames(ct, 0, if torn then sealed[..|sealed| - 1] else sealed)
    }

    constructor ()
      ensures Valid() && State() == Sender([], false, []) && written == []
      ensures forall ct :: OnWire(ct)
    {
      sequence, torn, written, sealed, attempted := 0, false, [], [], [];
    }

    /** `seal`: the sequence number advances before the write, so no number seals twice. */
    method Seal(ct: Cipher, record: Bytes, ok: bool) returns (good: bool)
      requires Valid()
      modifies this`sequence, this`torn, this`written, this`sealed
      ensures Valid() && (State(), good) == Channel.Seal(old(State()), record, ok)
      ensures written == if good then old(written) + Frame(ct, old(sequence), record) else old(written)
      ensures old(OnWire(ct)) ==> OnWire(ct)
    {
      FramesSnoc(ct, 0, sealed, record);
      assert (sealed + [record])[..|sealed|] == sealed;
      if torn || |record| > MAX_RECORD_PLAINTEXT || sequence >= U64_MAX {
        return false;
      }
      var s := sequence;
      sequence := sequence + 1;
      sealed := sealed + [record];
      if !ok {
        torn := true;
        return false;
      }
      written := written + Frame(ct, s, record);
      good := true;
    }

    /** `send`: one record per chunk, the last one marked final. */
    method Send(ct: Cipher, m: Bytes, ok: nat -> bool) returns (good: bool)
      requires Valid()
      modifies this
      ensures Valid() && (State(), good) == Channel.Send(old(State()), m, ok)
      ensures good ==> written == old(written) + Frames(ct, old(sequence), Fragments(m))
      ensures |m| > MAX_MESSAGE ==> !good && State() == old(State()) && written == old(written)
      ensures old(OnWire(ct)) ==> OnWire(ct)
    {
      hide Frame, Frames, Fragments, OnWire, SealAll;
      if |m| > MAX_MESSAGE {
        return false;
      }
      ghost var before := State();
      attempted := attempted + [m];
      Attempt(before, State(), Fragments(m), ok);
      if m == [] {
        NoChunks();
        FramesOne(ct, sequence, [FRAGMENT_FINAL]);
        SealNext(State(), Fragments(m), ok);
        good := Seal(ct, [FRAGMENT_FINAL], ok(sequence));
        return;
      }
      good := SealChunks(ct, m, ok);
    }

    /** The records of a message, sealed one after the other until one fails. */
    method SealChunks(ct: Cipher, m: Bytes, ok: nat -> bool) returns (good: bool)
      requires Valid() && m != []
      modifies this`sequence, this`torn, this`written, this`sealed
      ensures Valid() && (State(), good) == SealAll(old(State()), Fragments(m), ok)
      ensures good ==> written == old(written) + Frames(ct, old(sequence), Fragments(m))
      ensures old(OnWire(ct)) ==> OnWire(ct)
    {
      hide Frame, Frames, Fragments, OnWire, SealAll, Channel.Seal;
      assert m[0..] == m;
      good := true;
      var offset := 0;
      while offset < |m|
        invariant Valid() && 0 <= offset <= |m|
        invariant offset < |m| ==> SealAll(State(), Fragments(m[offset..]), ok) == SealAll(old(State()), Fragments(m), ok)
        invariant offset == |m| ==> good && (State(), true) == SealAll(old(State()), Fragments(m), ok)
        invariant old(OnWire(ct)) ==> OnWire(ct)
        invariant written + Left(ct, sequence, m, offset) == old(written) + Left(ct, old(sequence), m, 0)
      {
        var end := if offset + FRAGMENT_PAYLOAD < |m| then offset + FRAGMENT_PAYLOAD else |m|;
        var record := [if end < |m| then FRAGMENT_MORE else FRAGMENT_FINAL] + m[offset..end];
        ChunkIs(m, offset, end);
        LeftNext(ct, written, sequence, m, offset, end, record);
        SealNext(State(), Fragments(m[offset..]), ok);
        SealCounts(State(), record, ok(sequence));
        good := Seal(ct, record, ok(sequence));
        if !good {
          return;
        }
        offset := end;
      }
    }
  }

  /** The frames still to write from `offset` on. */
  ghost function Left(ct: Cipher, s: nat, m: Bytes, offset: nat): Bytes
    requires offset <= |m|
  {
    if offset < |m| then Frames(ct, s, Fragments(m[offset..])) else []
  }

  lemma {:induction false} LeftNext(ct: Cipher, written: Bytes, s: nat, m: Bytes, offset: nat, end: nat, record: Bytes)
    requires offset < |m| && end == if offset + FRAGMENT_PAYLOAD < |m| then offset + FRAGMENT_PAYLOAD else |m|
    requires record == [if end < |m| then FRAGMENT_MORE else FRAGMENT_FINAL] + m[offset..end]
    ensures written + Left(ct, s, m, offset) == written + Frame(ct, s, record) + Left(ct, s + 1, m, end)
  {
    hide Frame, Frames, Fragments;
    ChunkIs(m, offset, end);
    FramesNext(ct, s, Fragments(m[offset..]));
    FramesNone(ct, s + 1);
    assert written + (Frame(ct, s, record) + Left(ct, s + 1, m, end)) == written + Frame(ct, s, record) + Left(ct, s + 1, m, end);
  }

  lemma {:induction false} SealCounts(s: Sender, record: Bytes, ok: bool)
    ensures Channel.Seal(s, record, ok).1 ==> |Channel.Seal(s, record, ok).0.sealed| == |s.sealed| + 1
  {
  }

  /** The frames of `records`, numbered from `s`. */
  function Frames(ct: Cipher, s: nat, records: seq<Bytes>): Bytes
    decreases |records|
  {
    if records == [] then [] else Frame(ct, s, records[0]) + Frames(ct, s + 1, records[1..])
  }

  lemma {:induction false} FramesNext(ct: Cipher, s: nat, records: seq<Bytes>)
    requires records != []
    ensures Frames(ct, s, records) == Frame(ct, s, records[0]) + Frames(ct, s + 1, records[1..])
  {
    hide Frame;
  }

  lemma {:induction false} FramesNone(ct: Cipher, s: nat)
    ensures Frames(ct, s, []) == []
  {}

  lemma {:induction false} NoChunks()
    ensures Fragments([]) == [[FRAGMENT_FINAL]] && Fragments([])[1..] == []
  {
    assert [FRAGMENT_FINAL] + [] == [FRAGMENT_FINAL];
  }

  lemma {:induction false} FramesOne(ct: Cipher, s: nat, record: Bytes)
    ensures Frames(ct, s, [record]) == Frame(ct, s, record)
  {
    hide Frame;
    assert [record][1..] == [];
  }

  lemma {:induction false} FramesSnoc(ct: Cipher, s: nat, records: seq<Bytes>, record: Bytes)
    ensures Frames(ct, s, records + [record]) == Frames(ct, s, records) + Frame(ct, s + |records|, record)
    decreases |records|
  {
    hide Frame;
    if records == [] {
      FramesOne(ct, s, record);
      assert records + [record] == [record];
    } else {
      FramesSnoc(ct, s + 1, records[1..], record);
      assert (records + [record])[1..] == records[1..] + [record];
    }
  }

  /** The frames of everything sealed are the wire the delivery theorem is about. */
  lemma {:induction false} FramesAreWire(ct: Cipher, sealed: seq<Bytes>, s: nat)
    requires s <= |sealed|
    ensures Frames(ct, s, sealed[s..]) == Channel.Wire(ct, sealed, s)
    decreases |sealed| - s
  {
    hide Frame;
    if s < |sealed| {
      FramesAreWire(ct, sealed, s + 1);
      assert sealed[s..][1..] == sealed[s + 1..];
    }
  }

  /** What a sender that sealed `messages` and lost nothing has written, a fresh receiver
      reads back whole and in order. */
  lemma {:induction false} WrittenIsDelivered(ct: Cipher, messages: seq<Bytes>, sealed: seq<Bytes>, written: Bytes)
    requires Tagged(ct) && MessagesFit(messages)
    requires sealed == Stream(messages) && written == Frames(ct, 0, sealed)
    ensures RecvMany(ct, sealed, Receiver(0, [], []), written, |messages|).delivered == messages
  {
    hide RecvMany, Frames, Stream;
    FramesAreWire(ct, sealed, 0);
    assert sealed[0..] == sealed;
    DeliversAll(ct, messages);
  }

  lemma {:induction false} ChunkIs(m: Bytes, offset: nat, end: nat)
    requires offset < |m| && end == if offset + FRAGMENT_PAYLOAD < |m| then offset + FRAGMENT_PAYLOAD else |m|
    ensures Fragments(m[offset..])[0] == [if end < |m| then FRAGMENT_MORE else FRAGMENT_FINAL] + m[offset..end]
    ensures Fragments(m[offset..])[1..] == if end < |m| then Fragments(m[end..]) else []
  {
    var rest := m[offset..];
    if end < |m| {
      assert rest[..FRAGMENT_PAYLOAD] == m[offset..end] && rest[FRAGMENT_PAYLOAD..] == m[end..];
    }
  }

  lemma {:induction false} SealNext(s: Sender, records: seq<Bytes>, ok: nat -> bool)
    requires records != []
    ensures var (s', good) := Channel.Seal(s, records[0], ok(|s.sealed|));
      SealAll(s, records, ok) == if !good then (s', false) else if records[1..] == [] then (s', true) else SealAll(s', records[1..], ok)
  {
    hide Channel.Seal;
  }

  /** The list of accepted messages plays no part in sealing. */
  lemma {:induction false} Attempt(s: Sender, t: Sender, records: seq<Bytes>, ok: nat -> bool)
    requires t == s.(attempted := t.attempted)
    ensures SealAll(t, records, ok) == (SealAll(s, records, ok).0.(attempted := t.attempted), SealAll(s, records, ok).1)
    decreases records
  {
    if records != [] {
      var (s', good) := Seal(s, records[0], ok(|s.sealed|));
      Attempt(s', s'.(attempted := t.attempted), records[1..], ok);
    }
  }

  class ReceiveEnd {
    var sequence: nat
    var partial: Bytes
    ghost var delivered: seq<Bytes>

    ghost function State(): Receiver
      reads this
    {
      Receiver(sequence, partial, delivered)
    }

    constructor ()
      ensures State() == Receiver(0, [], [])
    {
      sequence, partial, delivered := 0, [], [];
    }

    /** `recv`: records are opened until one completes a message or something is wrong. */
    method Recv(ct: Cipher, sealed: seq<Bytes>, incoming: Bytes) returns (result: Received, rest: Bytes)
      modifies this
      ensures (State(), result, rest) == Channel.Recv(ct, sealed, old(State()), incoming)
    {
      rest := incoming;
      while true
        invariant Channel.Recv(ct, sealed, State(), rest) == Channel.Recv(ct, sealed, old(State()), incoming)
        decreases |rest|
      {
        var (record, left) := Open(ct, sealed, sequence, rest);
        rest := left;
        if record.None? {
          return Fault(WireFault), rest;
        }
        sequence := sequence + 1;
        if record.value == [] {
          return Fault(BadFragment), rest;
        }
        var flag, payload := record.value[0], record.value[1..];
        if |partial| + |payload| > MAX_MESSAGE {
          partial := [];
          return Fault(MessageTooLarge), rest;
        }
        partial := partial + payload;
        if flag == FRAGMENT_FINAL {
          var message := partial;
          partial := [];
          delivered := delivered + [message];
          return Message(message), rest;
        } else if flag != FRAGMENT_MORE || payload == [] {
          partial := [];
          return Fault(BadFragment), rest;
        }
      }
    }
  }
}
