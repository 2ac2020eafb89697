/** The record layer and message fragments over an ideal AEAD: a record opens at a sequence
    number only if it is the one sealed there. */
module Channel {
  import opened Field
  import opened Hashing
  import opened Wrappers

  const MAX_MESSAGE: nat := 16 * 1024 * 1024
  const MAX_RECORD_PLAINTEXT: nat := 0x10_0000
  const FRAGMENT_PAYLOAD: nat := MAX_RECORD_PLAINTEXT - 1
  const FRAGMENT_FINAL: Byte := 0
  const FRAGMENT_MORE: Byte := 1
  const TAG_BYTES: nat := 16
  const NONCE_BYTES: nat := 12

  // ---- nonces ----

  /** The low `n` bytes of `x`, highest first. */
  function BigEndian(x: nat, n: nat): (s: Bytes)
    ensures |s| == n
  {
    if n == 0 then [] else BigEndian(x / 256, n - 1) + [x % 256]
  }

  lemma {:induction false} BigEndianInjective(x: nat, y: nat, n: nat)
    requires x < Power256(n) && y < Power256(n) && BigEndian(x, n) == BigEndian(y, n)
    ensures x == y
  {
    if n > 0 {
      var a, b := BigEndian(x, n), BigEndian(y, n);
      assert a[n - 1] == b[n - 1];
      assert a[..n - 1] == BigEndian(x / 256, n - 1) && b[..n - 1] == BigEndian(y / 256, n - 1);
      BigEndianInjective(x / 256, y / 256, n - 1);
    }
  }

  function XorBytes(a: Bytes, b: Bytes): (c: Bytes)
    requires |a| == |b|
    ensures |c| == |a| && forall i | 0 <= i < |a| :: c[i] == Add(a[i], b[i])
  {
    seq(|a|, i requires 0 <= i < |a| => Add(a[i], b[i]))
  }

  /** `record_nonce`: the sequence number folded into the last eight bytes of the iv. */
  function RecordNonce(iv: Bytes, sequence: U64): (nonce: Bytes)
    requires |iv| == NONCE_BYTES
    ensures |nonce| == NONCE_BYTES
  {
    iv[..4] + XorBytes(iv[4..], BigEndian(sequence, 8))
  }

  /** No two sequence numbers share a nonce. */
  lemma {:induction false} NonceInjective(iv: Bytes, s: U64, t: U64)
    requires |iv| == NONCE_BYTES && RecordNonce(iv, s) == RecordNonce(iv, t)
    ensures s == t
  {
    hide Add;
    var a, b, tail := BigEndian(s, 8), BigEndian(t, 8), iv[4..];
    assert XorBytes(tail, a) == RecordNonce(iv, s)[4..] == RecordNonce(iv, t)[4..] == XorBytes(tail, b);
    forall i | 0 <= i < 8 ensures a[i] == b[i] {
      assert Add(tail[i], a[i]) == XorBytes(tail, a)[i] == XorBytes(tail, b)[i] == Add(tail[i], b[i]);
      AddComm(tail[i], a[i]);
      AddComm(tail[i], b[i]);
      AddCancel(a[i], tail[i]);
      AddCancel(b[i], tail[i]);
    }
    assert a == b;
    assert Power256(2) == 0x1_0000;
    assert Power256(4) == 0x1_0000_0000;
    assert Power256(6) == 0x1_0000_0000_0000;
    assert Power256(8) == 0x1_0000_0000_0000_0000;
    BigEndianInjective(s, t, 8);
  }

  // ---- frames ----

  function Be32(x: nat): (s: Bytes)
    ensures |s| == 4
  {
    [x / 0x100_0000 % 256, x / 0x1_0000 % 256, x / 0x100 % 256, x % 256]
  }

  function FromBe32(s: Bytes): nat
    requires |s| == 4
  {
    var a: nat, b: nat, c: nat, d: nat := s[0], s[1], s[2], s[3];
    a * 0x100_0000 + b * 0x1_0000 + c * 0x100 + d
  }

  lemma {:induction false} Be32RoundTrip(x: nat)
    requires x < 0x1_0000_0000
    ensures FromBe32(Be32(x)) == x
  {
    var a, b, c := x / 0x100, x / 0x1_0000, x / 0x100_0000;
    assert x == 256 * a + x % 256;
    assert a == 256 * b + a % 256;
    assert b == 256 * c + b % 256;
    assert c % 256 == c;
  }

  /** What the ideal AEAD puts on the wire for a record: as long as the record and its tag. */
  type Cipher = (nat, Bytes) -> Bytes

  ghost predicate Tagged(ct: Cipher) {
    forall s, p :: |ct(s, p)| == |p| + TAG_BYTES
  }

  function Frame(ct: Cipher, s: nat, record: Bytes): Bytes {
    Be32(|record| + TAG_BYTES) + ct(s, record)
  }

  /** The frames of records `s` onward. */
  function Wire(ct: Cipher, sealed: seq<Bytes>, s: nat): Bytes
    requires s <= |sealed|
    decreases |sealed| - s
  {
    if s == |sealed| then [] else Frame(ct, s, sealed[s]) + Wire(ct, sealed, s + 1)
  }

  /** `open`: the record at the expected sequence number, or no record; and the bytes left. */
  function Open(ct: Cipher, sealed: seq<Bytes>, sequence: nat, incoming: Bytes): (r: (Option<Bytes>, Bytes))
    ensures r.0.Some? ==> sequence < |sealed| && r.0.value == sealed[sequence] && |r.1| < |incoming|
  {
    if |incoming| < 4 then (None, [])
    else
      var length, rest := FromBe32(incoming[..4]), incoming[4..];
      if length < TAG_BYTES || length > MAX_RECORD_PLAINTEXT + TAG_BYTES then (None, rest)
      else if |rest| < length then (None, [])
      else if sequence < |sealed| && rest[..length] == ct(sequence, sealed[sequence]) then (Some(sealed[sequence]), rest[length..])
      else (None, rest[length..])
  }

  // ---- sending ----

  /** The records of a message: full fragments marked "more", then the final one. */
  function Fragments(m: Bytes): (f: seq<Bytes>)
    ensures f != []
  {
    if |m| <= FRAGMENT_PAYLOAD then [[FRAGMENT_FINAL] + m]
    else [[FRAGMENT_MORE] + m[..FRAGMENT_PAYLOAD]] + Fragments(m[FRAGMENT_PAYLOAD..])
  }

  function Stream(messages: seq<Bytes>): seq<Bytes> {
    if messages == [] then [] else Fragments(messages[0]) + Stream(messages[1..])
  }

  /** Sender: records sealed so far, whether a write failed part way, messages accepted for sending. */
  datatype Sender = Sender(sealed: seq<Bytes>, torn: bool, attempted: seq<Bytes>)

  /** `seal`; `ok` says whether the write went through. */
  function Seal(s: Sender, record: Bytes, ok: bool): (Sender, bool) {
    if s.torn || |record| > MAX_RECORD_PLAINTEXT || |s.sealed| >= U64_MAX then (s, false)
    else (s.(sealed := s.sealed + [record], torn := !ok), ok)
  }

  function SealAll(s: Sender, records: seq<Bytes>, ok: nat -> bool): (Sender, bool)
    decreases records
  {
    if records == [] then (s, true)
    else
      var (s', good) := Seal(s, records[0], ok(|s.sealed|));
      if good then SealAll(s', records[1..], ok) else (s', false)
  }

  /** `send`. */
  function Send(s: Sender, m: Bytes, ok: nat -> bool): (Sender, bool) {
    if |m| > MAX_MESSAGE then (s, false)
    else
      var (s', good) := SealAll(s, Fragments(m), ok);
      (s'.(attempted := s.attempted + [m]), good)
  }

  // ---- receiving ----

  datatype Receiver = Receiver(sequence: nat, partial: Bytes, delivered: seq<Bytes>)

  datatype RecvError = WireFault | BadFragment | MessageTooLarge

  datatype Received = Message(m: Bytes) | Fault(e: RecvError)

  /** What one opened record does to the receiver: a result, or read on. */
  function Absorb(r: Receiver, record: Bytes): (Receiver, Option<Received>) {
    var r' := r.(sequence := r.sequence + 1);
    if record == [] then (r', Some(Fault(BadFragment)))
    else
      var flag, payload := record[0], record[1..];
      if |r.partial| + |payload| > MAX_MESSAGE then (r'.(partial := []), Some(Fault(MessageTooLarge)))
      else if flag == FRAGMENT_FINAL then
        (r'.(partial := [], delivered := r.delivered + [r.partial + payload]), Some(Message(r.partial + payload)))
      else if flag == FRAGMENT_MORE && payload != [] then (r'.(partial := r.partial + payload), None)
      else (r'.(partial := []), Some(Fault(BadFragment)))
  }

  /** `recv` on whatever bytes arrive: the new state, the result and the bytes left. */
  function Recv(ct: Cipher, sealed: seq<Bytes>, r: Receiver, incoming: Bytes): (Receiver, Received, Bytes)
    decreases |incoming|
  {
    var (record, rest) := Open(ct, sealed, r.sequence, incoming);
    if record.None? then (r, Fault(WireFault), rest)
    else
      var (r', result) := Absorb(r, record.value);
      if result.Some? then (r', result.value, rest) else Recv(ct, sealed, r', rest)
  }

  // ---- safety ----

  predicate MessagesFit(messages: seq<Bytes>) {
    forall i | 0 <= i < |messages| :: |messages[i]| <= MAX_MESSAGE
  }

  /** The sealed records are the first records of the accepted messages, all of them unless torn or full. */
  ghost predicate SenderOk(s: Sender) {
    && MessagesFit(s.attempted) && s.sealed <= Stream(s.attempted)
    && (!s.torn && |s.sealed| < U64_MAX ==> s.sealed == Stream(s.attempted))
  }

  /** The receiver has delivered the first messages whole and holds the start of the next. */
  ghost predicate ReceiverOk(messages: seq<Bytes>, r: Receiver) {
    var all, j := Stream(messages), |r.delivered|;
    && j <= |messages| && r.delivered == messages[..j] && r.sequence <= |all|
    && if j == |messages| then r.partial == [] && r.sequence == |all|
       else r.partial <= messages[j] && all[r.sequence..] == Fragments(messages[j][|r.partial|..]) + Stream(messages[j + 1..])
  }

  lemma {:induction false} StreamSnoc(messages: seq<Bytes>, m: Bytes)
    ensures Stream(messages + [m]) == Stream(messages) + Fragments(m)
  {
    hide Fragments;
    if messages == [] {
      assert (messages + [m])[1..] == [];
    } else {
      StreamSnoc(messages[1..], m);
      assert (messages + [m])[1..] == messages[1..] + [m];
    }
  }

  lemma {:induction false} FragmentsFit(m: Bytes)
    ensures forall i | 0 <= i < |Fragments(m)| :: |Fragments(m)[i]| <= MAX_RECORD_PLAINTEXT
  {
    if |m| > FRAGMENT_PAYLOAD {
      FragmentsFit(m[FRAGMENT_PAYLOAD..]);
    }
  }

  lemma {:induction false} SealAllOk(s: Sender, records: seq<Bytes>, ok: nat -> bool)
    requires forall i | 0 <= i < |records| :: |records[i]| <= MAX_RECORD_PLAINTEXT
    ensures var s' := SealAll(s, records, ok).0;
      s'.attempted == s.attempted && s.sealed <= s'.sealed <= s.sealed + records
      && (!s'.torn && |s'.sealed| < U64_MAX ==> s'.sealed == s.sealed + records)
    decreases records
  {
    if records != [] {
      var (s', good) := Seal(s, records[0], ok(|s.sealed|));
      if good {
        assert s'.sealed + records[1..] == s.sealed + records;
        SealAllOk(s', records[1..], ok);
      }
    }
  }

  /** `send` keeps the sealed records in step with the accepted messages. */
  lemma {:induction false} SendKeeps(s: Sender, m: Bytes, ok: nat -> bool)
    requires SenderOk(s)
    ensures SenderOk(Send(s, m, ok).0) && s.attempted <= Send(s, m, ok).0.attempted
  {
    hide Fragments, Stream;
    if |m| <= MAX_MESSAGE {
      var all, more := Stream(s.attempted), Fragments(m);
      StreamSnoc(s.attempted, m);
      FragmentsFit(m);
      SealAllOk(s, more, ok);
    }
  }

  /** A record of the stream is absorbed without fault, and completes only the next message. */
  lemma {:induction false} AbsorbKeeps(messages: seq<Bytes>, r: Receiver)
    requires MessagesFit(messages) && ReceiverOk(messages, r) && r.sequence < |Stream(messages)|
    ensures var (r', result) := Absorb(r, Stream(messages)[r.sequence]);
      ReceiverOk(messages, r') && r'.sequence == r.sequence + 1
      && |r.delivered| < |messages|
      && (result.None? ==> r'.delivered == r.delivered)
      && (result.Some? ==> result.value == Message(messages[|r.delivered|]) && r'.delivered == messages[..|r.delivered| + 1])
  {
    hide Stream;
    var all, j := Stream(messages), |r.delivered|;
    var rest := messages[j][|r.partial|..];
    assert messages[j] == r.partial + rest;
    var record := all[r.sequence];
    assert record == all[r.sequence..][0] == Fragments(rest)[0];
    assert all[r.sequence + 1..] == all[r.sequence..][1..];
    if |rest| <= FRAGMENT_PAYLOAD {
      assert all[r.sequence + 1..] == Stream(messages[j + 1..]);
      NextMessage(messages, j + 1);
    } else {
      var more := rest[..FRAGMENT_PAYLOAD];
      assert record[1..] == more;
      assert rest[FRAGMENT_PAYLOAD..] == messages[j][|r.partial + more|..];
      assert all[r.sequence + 1..] == Fragments(rest[FRAGMENT_PAYLOAD..]) + Stream(messages[j + 1..]);
    }
  }

  lemma {:induction false} NextMessage(messages: seq<Bytes>, j: nat)
    requires j <= |messages|
    ensures j == |messages| ==> Stream(messages[j..]) == []
    ensures j < |messages| ==> Stream(messages[j..]) == Fragments(messages[j][0..]) + Stream(messages[j + 1..])
  {
    hide Fragments;
    if j < |messages| {
      assert messages[j..][1..] == messages[j + 1..] && messages[j][0..] == messages[j];
    }
  }

  /** `recv` on any bytes at all: delivery stays in step, and the only fault is the wire's. */
  lemma {:induction false} RecvKeeps(ct: Cipher, sealed: seq<Bytes>, messages: seq<Bytes>, r: Receiver, incoming: Bytes)
    requires MessagesFit(messages) && ReceiverOk(messages, r) && sealed <= Stream(messages)
    ensures var (r', result, rest) := Recv(ct, sealed, r, incoming);
      ReceiverOk(messages, r')
      && (result.Fault? ==> result.e == WireFault && r'.delivered == r.delivered)
      && (result.Message? ==> r'.delivered == r.delivered + [result.m])
    decreases |incoming|
  {
    hide Stream, ReceiverOk, MessagesFit, Absorb;
    var (record, rest) := Open(ct, sealed, r.sequence, incoming);
    if record.Some? {
      assert record.value == Stream(messages)[r.sequence];
      AbsorbKeeps(messages, r);
      DeliveredFirst(messages, r);
      var (r', result) := Absorb(r, record.value);
      if result.None? {
        RecvKeeps(ct, sealed, messages, r', rest);
      }
    }
  }

  lemma {:induction false} DeliveredFirst(messages: seq<Bytes>, r: Receiver)
    requires ReceiverOk(messages, r)
    ensures r.delivered <= messages
    ensures |r.delivered| < |messages| ==> messages[..|r.delivered| + 1] == r.delivered + [messages[|r.delivered|]]
  {}

  /** New messages leave what was delivered in step. */
  lemma {:induction false} ReceiverExtends(messages: seq<Bytes>, m: Bytes, r: Receiver)
    requires ReceiverOk(messages, r)
    ensures ReceiverOk(messages + [m], r)
  {
    hide Stream, Fragments;
    StreamSnoc(messages, m);
    var j := |r.delivered|;
    if j < |messages| {
      StreamSnoc(messages[j + 1..], m);
      assert (messages + [m])[j + 1..] == messages[j + 1..] + [m];
      assert (Stream(messages) + Fragments(m))[r.sequence..] == Stream(messages)[r.sequence..] + Fragments(m);
    } else {
      assert (messages + [m])[j + 1..] == [] && m[0..] == m;
      assert (Stream(messages) + Fragments(m))[r.sequence..] == Fragments(m);
      NextMessage([], 0);
    }
  }

  // ---- every run ----

  datatype Event = Sending(m: Bytes, ok: nat -> bool) | Receiving(incoming: Bytes)

  datatype Link = Link(s: Sender, r: Receiver)

  /** One call at either end; the bytes a receiver meets are the adversary's choice. */
  function Happens(ct: Cipher, l: Link, e: Event): Link {
    match e
    case Sending(m, ok) => l.(s := Send(l.s, m, ok).0)
    case Receiving(incoming) => l.(r := Recv(ct, l.s.sealed, l.r, incoming).0)
  }

  function Run(ct: Cipher, events: seq<Event>): Link {
    if events == [] then Link(Sender([], false, []), Receiver(0, [], []))
    else Happens(ct, Run(ct, events[..|events| - 1]), events[|events| - 1])
  }

  ghost predicate LinkOk(l: Link) {
    SenderOk(l.s) && ReceiverOk(l.s.attempted, l.r)
  }

  lemma {:induction false} EventKeeps(ct: Cipher, l: Link, e: Event)
    requires LinkOk(l)
    ensures LinkOk(Happens(ct, l, e))
  {
    match e
    case Sending(m, ok) =>
      hide ReceiverOk, Stream, Fragments, SealAll;
      SendKeeps(l.s, m, ok);
      if |m| <= MAX_MESSAGE { ReceiverExtends(l.s.attempted, m, l.r); }
    case Receiving(incoming) =>
      hide ReceiverOk, Recv;
      RecvKeeps(ct, l.s.sealed, l.s.attempted, l.r, incoming);
  }

  lemma {:induction false} FreshLink()
    ensures LinkOk(Link(Sender([], false, []), Receiver(0, [], [])))
  {}

  /** However the bytes are dropped, repeated, reordered or altered, what is delivered is a
      prefix of what was sent, message for message. */
  lemma {:induction false} PrefixDelivery(ct: Cipher, events: seq<Event>)
    ensures LinkOk(Run(ct, events)) && Run(ct, events).r.delivered <= Run(ct, events).s.attempted
  {
    hide ReceiverOk, SenderOk, Happens;
    if events == [] {
      FreshLink();
    } else {
      PrefixDelivery(ct, events[..|events| - 1]);
      EventKeeps(ct, Run(ct, events[..|events| - 1]), events[|events| - 1]);
    }
    DeliveredFirst(Run(ct, events).s.attempted, Run(ct, events).r);
  }

  // ---- an untouched wire ----

  lemma {:induction false} OpensNext(ct: Cipher, sealed: seq<Bytes>, s: nat)
    requires Tagged(ct) && s < |sealed| && |sealed[s]| <= MAX_RECORD_PLAINTEXT
    ensures Open(ct, sealed, s, Wire(ct, sealed, s)) == (Some(sealed[s]), Wire(ct, sealed, s + 1))
  {
    hide Be32, FromBe32;
    var n, body, tail := |sealed[s]| + TAG_BYTES, ct(s, sealed[s]), Wire(ct, sealed, s + 1);
    Be32RoundTrip(n);
    var w := Wire(ct, sealed, s);
    assert w == Be32(n) + body + tail;
    assert w[..4] == Be32(n) && w[4..] == body + tail;
    assert w[4..][..n] == body && w[4..][n..] == tail;
  }

  lemma {:induction false} StreamFits(messages: seq<Bytes>)
    ensures forall i | 0 <= i < |Stream(messages)| :: |Stream(messages)[i]| <= MAX_RECORD_PLAINTEXT
  {
    hide Fragments;
    if messages != [] {
      FragmentsFit(messages[0]);
      StreamFits(messages[1..]);
    }
  }

  /** On an untouched wire `recv` returns the next message whole and leaves the wire after it. */
  lemma {:induction false} DeliversNext(ct: Cipher, messages: seq<Bytes>, r: Receiver) returns (r': Receiver)
    requires Tagged(ct) && MessagesFit(messages) && ReceiverOk(messages, r) && |r.delivered| < |messages|
    ensures ReceiverOk(messages, r') && r'.delivered == messages[..|r.delivered| + 1]
    ensures r'.sequence <= |Stream(messages)|
    ensures Recv(ct, Stream(messages), r, Wire(ct, Stream(messages), r.sequence)) ==
      (r', Message(messages[|r.delivered|]), Wire(ct, Stream(messages), r'.sequence))
    decreases |Stream(messages)| - r.sequence
  {
    hide Stream, Fragments, MessagesFit, Absorb, Wire, Open;
    var all := Stream(messages);
    assert r.sequence < |all|;
    StreamFits(messages);
    OpensNext(ct, all, r.sequence);
    AbsorbKeeps(messages, r);
    var (next, result) := Absorb(r, all[r.sequence]);
    if result.Some? {
      r' := next;
    } else {
      r' := DeliversNext(ct, messages, next);
    }
  }

  /** Calling `recv` `n` times on the bytes that arrived. */
  function RecvMany(ct: Cipher, sealed: seq<Bytes>, r: Receiver, incoming: Bytes, n: nat): Receiver
    decreases n
  {
    if n == 0 then r
    else
      var (r', result, rest) := Recv(ct, sealed, r, incoming);
      RecvMany(ct, sealed, r', rest, n - 1)
  }

  lemma {:induction false} DeliversRest(ct: Cipher, messages: seq<Bytes>, r: Receiver)
    requires Tagged(ct) && MessagesFit(messages) && ReceiverOk(messages, r)
    ensures var n := |messages| - |r.delivered|;
      RecvMany(ct, Stream(messages), r, Wire(ct, Stream(messages), r.sequence), n).delivered == messages
    decreases |messages| - |r.delivered|
  {
    hide Stream, Wire, Recv, MessagesFit;
    if |r.delivered| < |messages| {
      var r' := DeliversNext(ct, messages, r);
      DeliversRest(ct, messages, r');
    } else {
      assert r.delivered == messages;
    }
  }

  /** An untouched wire delivers every message of any allowed length whole and in order. */
  lemma {:induction false} DeliversAll(ct: Cipher, messages: seq<Bytes>)
    requires Tagged(ct) && MessagesFit(messages)
    ensures RecvMany(ct, Stream(messages), Receiver(0, [], []), Wire(ct, Stream(messages), 0), |messages|).delivered == messages
  {
    hide RecvMany, Wire, ReceiverOk;
    FreshReceiver(messages);
    DeliversRest(ct, messages, Receiver(0, [], []));
  }

  lemma {:induction false} FreshReceiver(messages: seq<Bytes>)
    ensures ReceiverOk(messages, Receiver(0, [], []))
  {
    hide Stream, Fragments;
    NextMessage(messages, 0);
    assert messages[0..] == messages && messages[..0] == [];
    assert Stream(messages)[0..] == Stream(messages);
  }
}
