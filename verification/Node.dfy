/** One validator at one height, as a value: what each `DevNode` call does to its
    voting state and which signed statements it sends. */
module NodeModel {
  import opened Committee
  import opened Records
  import opened Justification
  import opened FairEviction
  import opened Wrappers

  datatype Staged = Staged(view: View, header: Header, body: seq<Tx>, justification: seq<ViewChange>, pol: Option<View>)

  datatype Lock = Lock(view: View, pol: Option<View>, block: LockedBlock, polka: Cert)

  datatype Proposal = Proposal(view: View, header: Header, body: seq<Tx>, justification: seq<ViewChange>)

  datatype Message =
    | ProposalSent(proposal: Proposal)
    | PrevoteSent(att: Att)
    | PrecommitSent(att: Att)
    | ViewChangeSent(record: ViewChange)

  /** Watermarks are kept for the height at hand: `None` means every mark is at an earlier height. */
  datatype PrevoteMark = PrevoteMark(view: View, subject: Subject)
  datatype SignMark = SignMark(view: View, value: Value)

  datatype Node = Node(
    id: NodeId,
    view: View,
    staged: Option<Staged>,
    lock: Option<Lock>,
    prevoted: map<View, Value>,
    prevotes: seq<Att>,
    roundAtts: seq<Att>,
    viewChanges: seq<ViewChange>,
    polkaRejects: map<NodeId, nat>,
    verified: set<ViewChange>,
    prevoteMark: Option<PrevoteMark>,
    signMark: Option<SignMark>,
    restartHold: nat,
    fatal: bool)

  /** Outcomes of what a call asks of the ledger, the disk, the draw and the aggregator. */
  datatype Outcome = Outcome(
    authentic: bool,       // the proposal carries its leader's signature
    accepted: set<LockedBlock>, // blocks that extend the chain and execute to their header
    drawn: bool,           // this validator may sign at this slot
    aggregated: bool,      // the collected prevotes aggregate into a certificate
    prevoteStored: bool,   // the prevote watermark was written
    signStored: bool,      // the sign watermark was written
    lockStored: bool,      // the lock file was written
    proposalSigned: bool,  // the proposal watermark allowed the signature
    silent: bool,
    ownBlock: LockedBlock) // the block this node would build itself

  const MAX_ATTESTATIONS_PER_SENDER: nat := 64
  const MAX_ROUND_ATTESTATIONS: nat := 8192
  const MAX_VIEW_CHANGES_PER_SENDER: nat := 64
  const MAX_ROUND_VIEW_CHANGES: nat := 8192
  const MAX_POLKA_REJECTS_PER_SENDER: nat := 8
  const ATTESTATION_VIEW_LOOKAHEAD: nat := 16

  function LockValue(l: Lock): Value { l.block.header.value }

  function PrevoteSubject(s: Staged): Subject {
    PrevoteFor(s.view, s.header.value, s.pol)
  }

  // ---- watermarks ----

  predicate PrevotePermitted(mark: Option<PrevoteMark>, view: View, subject: Subject) {
    mark.None? || view > mark.value.view || (view == mark.value.view && subject == mark.value.subject)
  }

  predicate SignPermitted(mark: Option<SignMark>, view: View, value: Value) {
    mark.None? || view > mark.value.view || (view == mark.value.view && value == mark.value.value)
  }

  // ---- buffers ----

  function AttSenders(atts: seq<Att>): (out: seq<NodeId>)
    ensures |out| == |atts|
    ensures forall i | 0 <= i < |atts| :: out[i] == atts[i].from
  {
    seq(|atts|, i requires 0 <= i < |atts| => atts[i].from)
  }

  function EvictAtt(atts: seq<Att>, incoming: NodeId): seq<Att> {
    if atts == [] then [] else Remove(atts, Victim(AttSenders(atts), incoming))
  }

  /** Only prevotes and view-change signatures have the cost tag the prevote buffer takes. */
  predicate PrevoteKnown(prevotes: seq<Att>, att: Att) {
    att.subject.PrecommitFor? || att in prevotes
  }

  /** First position of the lowest view among the sender's prevotes. */
  function OldestOf(prevotes: seq<Att>, from: NodeId): (at: Option<nat>)
    ensures at.Some? <==> exists i | 0 <= i < |prevotes| :: prevotes[i].from == from
    ensures at.Some? ==> at.value < |prevotes| && prevotes[at.value].from == from
    ensures at.Some? ==> forall i | 0 <= i < |prevotes| && prevotes[i].from == from :: prevotes[at.value].view <= prevotes[i].view
    ensures at.Some? ==> forall i | 0 <= i < at.value && prevotes[i].from == from :: prevotes[at.value].view < prevotes[i].view
  {
    if prevotes == [] then None
    else
      var last := |prevotes| - 1;
      var rest := OldestOf(prevotes[..last], from);
      if prevotes[last].from == from && (rest.None? || prevotes[last].view < prevotes[rest.value].view)
      then Some(last) else rest
  }

  function RecordPrevote(prevotes: seq<Att>, att: Att): seq<Att> {
    if PrevoteKnown(prevotes, att) then prevotes
    else if Count(AttSenders(prevotes), att.from) >= MAX_ATTESTATIONS_PER_SENDER then
      var oldest := OldestOf(prevotes, att.from);
      if oldest.Some? && prevotes[oldest.value].view < att.view
      then PushAtt(Remove(prevotes, oldest.value), att)
      else prevotes
    else PushAtt(prevotes, att)
  }

  function PushAtt(atts: seq<Att>, att: Att): seq<Att> {
    (if |atts| >= MAX_ROUND_ATTESTATIONS then EvictAtt(atts, att.from) else atts) + [att]
  }

  function RecordAttestation(atts: seq<Att>, att: Att): seq<Att> {
    if att in atts || Count(AttSenders(atts), att.from) >= MAX_ATTESTATIONS_PER_SENDER then atts
    else PushAtt(atts, att)
  }

  // ---- voting ----

  function Matching(prevotes: seq<Att>, view: View, subject: Subject): (out: seq<Att>)
    ensures forall a :: a in out <==> a in prevotes && a.view == view && a.subject == subject
  {
    if prevotes == [] then []
    else
      var last := prevotes[|prevotes| - 1];
      var rest := Matching(prevotes[..|prevotes| - 1], view, subject);
      assert prevotes == prevotes[..|prevotes| - 1] + [last];
      if last.view == view && last.subject == subject then rest + [last] else rest
  }

  function PrecommitStaged(s: Node, o: Outcome): (Node, seq<Message>) {
    if s.staged.None? || s.fatal || s.restartHold > 0 then (s, [])
    else
      var staged := s.staged.value;
      if !SignPermitted(s.signMark, staged.view, staged.header.value) then (s, [])
      else if !o.signStored then (s.(fatal := true), [])
      else
        var marked := s.(signMark := Some(SignMark(staged.view, staged.header.value)));
        if !o.drawn then (marked, [])
        else
          var att := Att(s.id, staged.view, PrecommitFor(staged.header.value));
          (marked.(roundAtts := RecordAttestation(s.roundAtts, att)), [PrecommitSent(att)])
  }

  function FormPolka(sel: Selection, s: Node, o: Outcome): (Node, seq<Message>) {
    if s.staged.None? then (s, [])
    else
      var staged := s.staged.value;
      if s.lock.Some? && s.lock.value.view >= staged.view then (s, [])
      else
        var subject := PrevoteSubject(staged);
        var votes := Matching(s.prevotes, staged.view, subject);
        if !StakeQuorum(sel, Signers(votes)) || !o.aggregated then (s, [])
        else if !o.lockStored then (s.(fatal := true), [])
        else
          var lock := Lock(staged.view, staged.pol, LockedBlock(staged.header, staged.body), Cert(subject, votes));
          PrecommitStaged(s.(lock := Some(lock)), o)
  }

  /** The lock forbids a prevote above it unless the proposal shows a polka at or above it. */
  predicate LockForbids(lock: Option<Lock>, staged: Staged) {
    lock.Some? && staged.view > lock.value.view && (staged.pol.None? || staged.pol.value < lock.value.view)
  }

  predicate MayPrevote(s: Node, o: Outcome) {
    && !s.fatal
    && s.staged.Some?
    && (s.staged.value.view in s.prevoted ==> s.prevoted[s.staged.value.view] == s.staged.value.header.value)
    && !LockForbids(s.lock, s.staged.value)
    && s.restartHold == 0
    && PrevotePermitted(s.prevoteMark, s.staged.value.view, PrevoteSubject(s.staged.value))
    && o.prevoteStored
  }

  /** The prevote itself: watermark first, then the signature, then the local record of it. */
  function CastPrevote(s: Node, o: Outcome): (Node, seq<Message>)
    requires MayPrevote(s, o)
  {
    var staged := s.staged.value;
    var subject := PrevoteSubject(staged);
    var marked := s.(prevoteMark := Some(PrevoteMark(staged.view, subject)));
    if !o.drawn then (marked, [])
    else
      var att := Att(s.id, staged.view, subject);
      (marked.(prevoted := s.prevoted[staged.view := staged.header.value],
               prevotes := RecordPrevote(s.prevotes, att)),
       [PrevoteSent(att)])
  }

  function PrevoteStaged(sel: Selection, s: Node, o: Outcome): (Node, seq<Message>) {
    if !MayPrevote(s, o) then (s, [])
    else
      var (cast, sent) := CastPrevote(s, o);
      if sent == [] then (cast, [])
      else
        var (after, more) := FormPolka(sel, cast, o);
        (after, sent + more)
  }

  // ---- staging ----

  function StageFrom(s: Node, block: LockedBlock, view: View, pol: Option<View>, o: Outcome): Option<Node> {
    if block !in o.accepted || BodyBytes(block.body) > MAX_BLOCK_BODY_BYTES then None
    else Some(s.(staged := Some(Staged(view, block.header, block.body, [], pol))))
  }

  function OnProposal(sel: Selection, signed: set<Att>, s: Node, from: NodeId, p: Proposal, o: Outcome): (Node, seq<Message>) {
    if !o.authentic then (s, [])
    else if p.justification != [] then OnJustifiedProposal(sel, signed, s, p, o)
    else if LeaderFor(sel, p.view) != from || p.view != s.view || s.staged.Some? then (s, [])
    else if p.header.proposer != LeaderFor(sel, p.view) then (s, [])
    else if s.lock.Some? && LockValue(s.lock.value) != p.header.value then (s, [])
    else
      match StageFrom(s, LockedBlock(p.header, p.body), p.view, None, o)
      case None => (s, [])
      case Some(staged) => PrevoteStaged(sel, staged, o)
  }

  /** The highest justified lock decides: a lock binds the value, no lock leaves it to the leader. */
  predicate HighAllows(sel: Selection, high: High, p: Proposal) {
    match high
    case Conflict => false
    case Backed(_, block) => block.header.value == p.header.value
    case Unlocked => p.header.proposer == LeaderFor(sel, p.view)
  }

  predicate LockAllows(lock: Option<Lock>, high: High, value: Value) {
    lock.Some? && LockValue(lock.value) != value ==> high.Backed? && high.view >= lock.value.view
  }

  function PolOf(high: High): Option<View> {
    if high.Backed? then Some(high.view) else None
  }

  function OnJustifiedProposal(sel: Selection, signed: set<Att>, s: Node, p: Proposal, o: Outcome): (Node, seq<Message>) {
    if p.view < s.view then (s, [])
    else
      var (valid, cache) := ValidJustification(sel, signed, p.view, s.verified, p.justification);
      var seen := s.(verified := cache);
      if valid.None? then (seen, [])
      else if p.view in s.prevoted && s.prevoted[p.view] != p.header.value then (seen, [])
      else
        var high := JustifiedLock(sel, signed, valid.value);
        if !HighAllows(sel, high, p) || !LockAllows(s.lock, high, p.header.value) then (seen, [])
        else
          match StageFrom(seen, LockedBlock(p.header, p.body), p.view, PolOf(high), o)
          case None => (seen, [])
          case Some(next) =>
            var staged := next.(staged := Some(next.staged.value.(justification := p.justification)), view := p.view);
            PrevoteStaged(sel, staged, o)
  }

  // ---- view changes ----

  function MakeViewChange(s: Node, target: View, o: Outcome): Option<ViewChange> {
    if !o.drawn then None
    else
      var bare := match s.lock
        case None => ViewChange(target, 0, None, Att(s.id, s.view, PrecommitFor(0)), None, None, NoPolka)
        case Some(l) => ViewChange(target, l.view, Some(l.block), Att(s.id, s.view, PrecommitFor(0)), Some(l.polka), l.pol, PolkaOf(l.polka, l.pol));
      Some(bare.(att := Att(s.id, s.view, RecordSubject(bare))))
  }

  function RecordSenders(records: seq<ViewChange>): (out: seq<NodeId>)
    ensures |out| == |records|
    ensures forall i | 0 <= i < |records| :: out[i] == records[i].att.from
  {
    seq(|records|, i requires 0 <= i < |records| => records[i].att.from)
  }

  predicate HasBody(r: ViewChange) {
    r.locked.Some? && r.locked.value.body != []
  }

  predicate CarriesMore(held: ViewChange, incoming: ViewChange) {
    (HasBody(incoming) && !HasBody(held)) || (incoming.polka.Some? && held.polka.None?)
  }

  /** Position of the record held for the same sender and target view. */
  function HeldAt(records: seq<ViewChange>, r: ViewChange): (at: Option<nat>)
    ensures at.Some? ==> at.value < |records|
    ensures at.Some? ==> records[at.value].att.from == r.att.from && records[at.value].targetView == r.targetView
    ensures at.None? ==> forall h | h in records :: h.att.from != r.att.from || h.targetView != r.targetView
  {
    if records == [] then None
    else
      var rest := HeldAt(records[..|records| - 1], r);
      var last := records[|records| - 1];
      if rest.Some? then rest
      else if last.att.from == r.att.from && last.targetView == r.targetView then Some(|records| - 1)
      else None
  }

  function Rejects(s: Node, from: NodeId): nat {
    if from in s.polkaRejects then s.polkaRejects[from] else 0
  }

  /** A failed polka counts against its sender; too many close the door. */
  function PolkaAdmitted(sel: Selection, signed: set<Att>, s: Node, r: ViewChange): (bool, Node) {
    if Rejects(s, r.att.from) >= MAX_POLKA_REJECTS_PER_SENDER then (false, s)
    else if VerifyRecordPolka(sel, signed, r) then (true, s)
    else if r.polka.Some? then (false, s.(polkaRejects := s.polkaRejects[r.att.from := Rejects(s, r.att.from) + 1]))
    else (false, s)
  }

  /** A sender's second record of the same block is stored without its body. */
  function Lightened(records: seq<ViewChange>, r: ViewChange): ViewChange {
    if r.locked.Some?
       && exists h | h in records :: h.att.from == r.att.from && HasBody(h) && h.locked.value.header.value == r.locked.value.header.value
    then r.(locked := Some(r.locked.value.(body := [])))
    else r
  }

  function CollectViewChange(sel: Selection, signed: set<Att>, s: Node, r: ViewChange): Node {
    var held := HeldAt(s.viewChanges, r);
    var fits := r.locked.Some? ==> LockedBodyFits(r.locked.value);
    if held.Some? then
      if !CarriesMore(s.viewChanges[held.value], r) || !fits || !VerifyRecordAtt(sel, signed, r) then s
      else
        var (ok, after) := PolkaAdmitted(sel, signed, s, r);
        if ok then after.(viewChanges := s.viewChanges[held.value := r]) else after
    else if Count(RecordSenders(s.viewChanges), r.att.from) >= MAX_VIEW_CHANGES_PER_SENDER
         || !fits || !VerifyRecordAtt(sel, signed, r) then s
    else
      var (ok, after) := PolkaAdmitted(sel, signed, s, r);
      if !ok then after
      else
        var room := if |s.viewChanges| >= MAX_ROUND_VIEW_CHANGES
          then Remove(s.viewChanges, Victim(RecordSenders(s.viewChanges), r.att.from)) else s.viewChanges;
        after.(viewChanges := room + [Lightened(s.viewChanges, r)])
  }

  /** First record of each sender for the view. */
  function FirstPerSender(records: seq<ViewChange>, view: View): (out: seq<ViewChange>)
    ensures forall r | r in out :: r in records && r.targetView == view
    ensures forall r | r in records && r.targetView == view :: r.att.from in RecordSigners(out)
    ensures forall i, j | 0 <= i < j < |out| :: out[i].att.from != out[j].att.from
  {
    if records == [] then []
    else
      var rest := FirstPerSender(records[..|records| - 1], view);
      var last := records[|records| - 1];
      if last.targetView != view || Seen(rest, last.att.from) then rest else rest + [last]
  }

  function JustifiedRecords(sel: Selection, s: Node, view: View): Option<seq<ViewChange>> {
    var records := FirstPerSender(s.viewChanges, view);
    if StakeQuorum(sel, RecordSigners(records)) then Some(records) else None
  }

  /** A body for the header from the held records, else from the own lock. */
  function LockedBodyFor(s: Node, value: Value): seq<Tx> {
    var found := FirstBody(s.viewChanges, value);
    if found != [] then found
    else if s.lock.Some? && LockValue(s.lock.value) == value then s.lock.value.block.body
    else []
  }

  function FirstBody(records: seq<ViewChange>, value: Value): seq<Tx> {
    if records == [] then []
    else if HasBody(records[0]) && records[0].locked.value.header.value == value then records[0].locked.value.body
    else FirstBody(records[1..], value)
  }

  function WithBody(s: Node, block: LockedBlock): LockedBlock {
    if block.body == [] then block.(body := LockedBodyFor(s, block.header.value)) else block
  }

  /** The leader's own proposal at a later view: bound by the justified lock, else by
      its own lock, else fresh. */
  function BuildJustified(sel: Selection, signed: set<Att>, s: Node, view: View, o: Outcome): (Node, Option<Proposal>) {
    var records := JustifiedRecords(sel, s, view);
    if records.None? then (s, None)
    else
      var high := JustifiedLock(sel, signed, records.value);
      if high.Conflict? then (s, None)
      else
        var carried := CarriedJustification(records.value);
        if high.Backed? || s.lock.Some? then
          var block := WithBody(s, if high.Backed? then high.block else s.lock.value.block);
          match StageFrom(s, block, view, PolOf(high), o)
          case None => (s, None)
          case Some(staged) => Signed(staged, Proposal(view, block.header, block.body, carried), o)
        else if s.restartHold > 0 then (s, None)
        else
          var staged := s.(staged := Some(Staged(view, o.ownBlock.header, o.ownBlock.body, [], None)));
          Signed(staged, Proposal(view, o.ownBlock.header, o.ownBlock.body, carried), o)
  }

  /** Without a signature the block stays staged but no proposal leaves. */
  function Signed(s: Node, p: Proposal, o: Outcome): (Node, Option<Proposal>)
    requires s.staged.Some?
  {
    if !o.proposalSigned || !o.drawn then (s, None)
    else (s.(staged := Some(s.staged.value.(justification := p.justification))), Some(p))
  }

  /** The driver's guard: only the leader of a view above 0 proposes, and not at a view it has staged. */
  function TryJustified(sel: Selection, signed: set<Att>, s: Node, o: Outcome): (Node, seq<Message>) {
    if s.view == 0 || LeaderFor(sel, s.view) != s.id then (s, [])
    else if s.staged.Some? && s.staged.value.view == s.view then (s, [])
    else
      var (built, proposal) := BuildJustified(sel, signed, s, s.view, o);
      if proposal.None? then (built, [])
      else
        var (after, sent) := PrevoteStaged(sel, built, o);
        (after, [ProposalSent(proposal.value)] + sent)
  }

  // ---- rounds ----

  predicate CurrentStage(s: Node) {
    s.staged.Some? && s.staged.value.view == s.view
  }

  function EnterRound(sel: Selection, s: Node, o: Outcome): (Node, seq<Message>) {
    var leads := LeaderFor(sel, s.view) == s.id && !o.silent;
    var (entered, first) :=
      if leads && CurrentStage(s) && o.proposalSigned && o.drawn then
        (s, [ProposalSent(Proposal(s.view, s.staged.value.header, s.staged.value.body, s.staged.value.justification))])
      else if leads && !CurrentStage(s) && s.view == 0 && s.restartHold == 0 then
        var staged := s.(staged := Some(Staged(0, o.ownBlock.header, o.ownBlock.body, [], None)));
        (staged, if o.proposalSigned && o.drawn then [ProposalSent(Proposal(0, o.ownBlock.header, o.ownBlock.body, []))] else [])
      else (s, []);
    if CurrentStage(entered) then
      var (after, sent) := PrevoteStaged(sel, entered, o);
      (after, first + sent)
    else (entered, first)
  }

  function OnPrevote(sel: Selection, signed: set<Att>, s: Node, att: Att, o: Outcome): (Node, seq<Message>) {
    var heard :=
      if !PrevoteKnown(s.prevotes, att) && att.from in sel.members && att in signed
      then s.(prevotes := RecordPrevote(s.prevotes, att)) else s;
    FormPolka(sel, heard, o)
  }

  function OnPrevoteNote(sel: Selection, signed: set<Att>, s: Node, att: Att, value: Value, pol: Option<View>, o: Outcome): (Node, seq<Message>) {
    if att.subject != PrevoteFor(att.view, value, pol) then (s, []) else OnPrevote(sel, signed, s, att, o)
  }

  function OnAttestation(sel: Selection, signed: set<Att>, s: Node, att: Att): Node {
    if att.view > s.view + ATTESTATION_VIEW_LOOKAHEAD || att !in signed
       || att.from !in sel.members || !att.subject.PrecommitFor? then s
    else s.(roundAtts := RecordAttestation(s.roundAtts, att))
  }

  function JumpTo(s: Node, view: View): Node {
    var capped := if view > MAX_VIEW then MAX_VIEW else view;
    if capped > s.view then s.(view := capped) else s
  }

  function OnTimeout(s: Node, view: View): Node {
    var released := ReleaseHold(s);
    if s.view != view || s.staged.Some? then released
    else released.(view := if s.view + 1 > MAX_VIEW then MAX_VIEW else s.view + 1)
  }

  function ReleaseHold(s: Node): Node {
    s.(restartHold := if s.restartHold == 0 then 0 else s.restartHold - 1)
  }

  /** Members whose precommit for the staged value at `view` is held. */
  function Precommitters(sel: Selection, atts: seq<Att>, view: View, value: Value): set<NodeId> {
    set a | a in atts && a.view == view && a.subject == PrecommitFor(value) && a.from in sel.members :: a.from
  }

  /** Some single view holds precommits for the staged block worth more than two thirds. */
  predicate HasFinalityThreshold(sel: Selection, s: Node) {
    s.staged.Some? && exists a | a in s.roundAtts ::
      FinalityQuorum(sel, Precommitters(sel, s.roundAtts, a.view, s.staged.value.header.value))
  }
}
