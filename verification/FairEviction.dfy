/** Choosing what a full buffer drops: the first item of the sender with the most items. */
module FairEviction {
  import opened Committee

  function Count(senders: seq<NodeId>, id: NodeId): nat {
    if senders == [] then 0
    else Count(senders[..|senders| - 1], id) + if senders[|senders| - 1] == id then 1 else 0
  }

  /** `a` outranks `b` for eviction: more items, then not the incoming sender, then the smaller id. */
  predicate Outranks(senders: seq<NodeId>, incoming: NodeId, a: NodeId, b: NodeId) {
    var ca, cb := Count(senders, a), Count(senders, b);
    || ca > cb
    || (ca == cb && a != incoming && b == incoming)
    || (ca == cb && (a != incoming) == (b != incoming) && a < b)
  }

  /** Best-ranked sender among the first `n` items. */
  function Heaviest(senders: seq<NodeId>, incoming: NodeId, n: nat): (id: NodeId)
    requires 0 < n <= |senders|
    ensures id in senders
    ensures forall i | 0 <= i < n :: !Outranks(senders, incoming, senders[i], id)
  {
    if n == 1 then senders[0]
    else
      var best := Heaviest(senders, incoming, n - 1);
      if Outranks(senders, incoming, senders[n - 1], best) then senders[n - 1] else best
  }

  /** Index that `evict_fairly` removes. */
  function Victim(senders: seq<NodeId>, incoming: NodeId): (at: nat)
    requires senders != []
    ensures at < |senders|
    ensures forall i | 0 <= i < |senders| :: !Outranks(senders, incoming, senders[i], senders[at])
    ensures senders[at] !in senders[..at]
  {
    PositionOf(senders, Heaviest(senders, incoming, |senders|))
  }

  /** Who loses an item: nobody holds more, a sender arriving now is spared while another holds as
      many, and among equals the smallest id goes first. */
  lemma {:induction false} VictimIsFair(senders: seq<NodeId>, incoming: NodeId, other: NodeId)
    requires other in senders
    ensures var loser := senders[Victim(senders, incoming)];
      && Count(senders, other) <= Count(senders, loser)
      && (loser == incoming && other != incoming ==> Count(senders, other) < Count(senders, loser))
      && (Count(senders, other) == Count(senders, loser) && other != incoming && loser != incoming ==> loser <= other)
  {
    hide Count;
    var i :| 0 <= i < |senders| && senders[i] == other;
  }

  function Remove<T>(buffer: seq<T>, at: nat): seq<T>
    requires at < |buffer|
  {
    buffer[..at] + buffer[at + 1..]
  }
}
