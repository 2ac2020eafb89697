/** A height as a step system: honest nodes reacting to arbitrary deliveries and
    outcomes, a minority signing whatever it likes, and a growing set of signed
    attestations. No node restarts within the height. */
module Protocol {
  import opened Committee
  import opened Records
  import opened NodeModel
  import opened Wrappers

  datatype System = System(sel: Selection, nodes: map<NodeId, Node>, signed: set<Att>)

  /** What the network or a timer hands to a node. Contents are arbitrary. */
  datatype Event =
    | Enter
    | HearProposal(from: NodeId, proposal: Proposal)
    | HearPrevote(att: Att, value: Value, pol: Option<View>)
    | HearPrecommit(att: Att)
    | HearRecord(record: ViewChange)
    | ChangeView(target: View)
    | Lead
    | Jump(view: View)
    | Timeout(view: View)

  datatype Step = Honest(id: NodeId, event: Event, outcome: Outcome) | Faulty(att: Att)

  function SignaturesIn(m: Message): set<Att> {
    match m
    case ProposalSent(_) => {}
    case PrevoteSent(att) => {att}
    case PrecommitSent(att) => {att}
    case ViewChangeSent(record) => {record.att}
  }

  function Signatures(sent: seq<Message>): set<Att> {
    if sent == [] then {} else SignaturesIn(sent[0]) + Signatures(sent[1..])
  }

  function React(sel: Selection, signed: set<Att>, s: Node, event: Event, o: Outcome): (Node, seq<Message>) {
    match event
    case Enter => EnterRound(sel, s, o)
    case HearProposal(from, p) => OnProposal(sel, signed, s, from, p, o)
    case HearPrevote(att, value, pol) => OnPrevoteNote(sel, signed, s, att, value, pol, o)
    case HearPrecommit(att) => (OnAttestation(sel, signed, s, att), [])
    case HearRecord(r) => (CollectViewChange(sel, signed, s, r), [])
    case ChangeView(target) =>
      var made := MakeViewChange(s, target, o);
      if made.None? then (s, [])
      else (CollectViewChange(sel, signed + {made.value.att}, s, made.value), [ViewChangeSent(made.value)])
    case Lead => TryJustified(sel, signed, s, o)
    case Jump(view) => (JumpTo(s, view), [])
    case Timeout(view) => (OnTimeout(s, view), [])
  }

  function Update(sys: System, id: NodeId, s: Node, sent: set<Att>): System {
    sys.(nodes := sys.nodes[id := s], signed := sys.signed + sent)
  }

  predicate Enabled(sys: System, step: Step) {
    match step
    case Honest(id, _, _) => id in sys.nodes
    case Faulty(att) => att.from !in sys.nodes
  }

  function Apply(sys: System, step: Step): System
    requires Enabled(sys, step)
  {
    match step
    case Honest(id, event, o) =>
      var (s, sent) := React(sys.sel, sys.signed, sys.nodes[id], event, o);
      Update(sys, id, s, Signatures(sent))
    case Faulty(att) => sys.(signed := sys.signed + {att})
  }

  ghost predicate Initial(sys: System) {
    && ValidSelection(sys.sel)
    && sys.nodes.Keys <= MemberSet(sys.sel)
    && Minority(sys.sel, MemberSet(sys.sel) - sys.nodes.Keys)
    && (forall a | a in sys.signed :: a.from !in sys.nodes)
    && (forall id | id in sys.nodes :: FreshNode(sys.nodes[id], id))
  }

  /** A node that has just reached the height. */
  predicate FreshNode(s: Node, id: NodeId) {
    && s.id == id && s.staged.None? && s.lock.None? && s.prevoted == map[]
    && s.prevotes == [] && s.roundAtts == [] && s.viewChanges == [] && s.polkaRejects == map[] && s.verified == {}
  }

  /** `steps` can be taken one after the other from `sys` and end in `last`. */
  ghost predicate Reaches(sys: System, steps: seq<Step>, last: System)
    decreases |steps|
  {
    if steps == [] then last == sys
    else Enabled(sys, steps[0]) && Reaches(Apply(sys, steps[0]), steps[1..], last)
  }
}
