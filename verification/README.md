# Quantova chain: a verified model

This project models the hard core of the chain in Dafny and proves what it is for.

- **Consensus at one height.** `Committee`, `Records`, `Justification`, `NodeModel` and `Protocol`
  give nodes that stage, prevote, lock, precommit and change view, faulty members that sign
  anything, and runs of any length. `Agreement` holds the invariant, `AgreementRuns` shows that
  every call keeps it, and `DevNodeObject` is the node as the object that updates its fields.
  `Validity` shows that only executed blocks are voted for, `Buffers` and `BufferRuns` that no
  flood grows a node's buffers or silences a member that says little. `Rounds`, `Progress` and
  `Leading` prove progress: a good round, first view or later view opens every honest finality
  gate. `SignedRecords` and `Filtering` show that view changes cannot be forged and that the
  receiver's filter does not depend on its cache; `Handlers` says exactly when each call acts.
  `Stripping` covers justifications cut down for sending. Nodes may give up a lock, so safety
  rests on the prevote rule.
- **Restarts.** `CrashSafety` lets the process die between any two steps of signing.
  `Watermark` is the prevote guard. `Registrations` compares live registration state with the
  state rebuilt from stored blocks, and follows it into the sealed roster.
- **Dispersal.** `Field` is GF(256), `Matrix` elimination, `ReedSolomon` polynomials and
  Vandermonde matrices, `Erasure` encoding and reconstruction, `ShardTree` the odd-width tree,
  `Dispersal` block reconstruction, `Assembler` the collection of shards.
- **Trees, codecs and printers.** `BlockMerkle` has the tree of section 2.1 of RFC 6962.
  `Wire`, `Gossip` and `Codec` are the canonical codec, `Regroup`, `Polymod` and `Bech32m` the
  identifiers of BIP-350, `Json`, `JsonParser` and `JsonGrammar` the
  integer-only JSON of the gateway.
- **Transport.** `Channel` and `ChannelEnds` are fragments and records, `Overlay` the gossip
  ring, `FrameBuffer` the buffer of early frames.

The theorems to read first: `AgreementRuns.AgreementTheorem`, `Leading.GoodView`,
`SignedRecords.NoForgedViewChange`, `Validity.FinalIsExecuted`,
`BufferRuns.FloodBounded`, `BufferRuns.QuietIsHeard`, `Stripping.StrippingKeepsMeaning`,
`CrashSafety.CrashSafe`, `CrashSafety.LockComesBack`, `Registrations.ReplayEqualsLive`, `Erasure.RoundTrip`,
`Dispersal.DispersalConsistent`, `ShardTree.ShardExact`, `BlockMerkle.InclusionSound`,
`Wire.MessagesTwoWay`, `Gossip.GossipTwoWay`, `Bech32m.RoundTrip`, `Bech32m.SubstitutionCaught`,
`Json.RoundTrip`, `JsonGrammar.AcceptsExactly`, `Channel.PrefixDelivery` and `Assembler.ProposalAssembler.Admit`. Three promises hold only on a
condition, which is proved exact: `Bech32m.RoundTrip` (the text fits 128 characters),
`Json.RoundTrip` (depth, node and key limits) and `Watermark.EquivocationExactly` (the all-zero
value is not signed beside another).

Conventions. Bytes are numbers under 256, and exclusive or is defined bit by bit. Machine widths
are written out where they matter: saturating 128-bit stake sums, 64-bit lengths and counters,
30-bit checksum words. A hash is a parameter, and soundness reads "the claim holds, or here are
two inputs with one digest". In the consensus modules digests are free terms and a signature
check is membership in the set of signed statements. The record cipher is ideal: a record opens
at a sequence number only if it is the one sealed there. Disk, clock, network and signer
behaviour enter as parameters, so every theorem holds for all of them.

`Wrappers`, `Arithmetic` and `Hashing` hold what the others share.

Objects are classes whose methods are proved against functions of their state; the theorems are
about those functions. `dafny verify dfyconfig.toml` checks everything.

## Model

| member | source | states |
|---|---|---|
| `AgreementRuns.AgreementTheorem` | crates/qtv-devnet/src/node.rs:1950-2158 | in every run with faulty stake at most a third and no restart inside the height, any two same-view precommit quorums, at whatever views, are for one value |
| `AgreementRuns.GatesAgree` | crates/qtv-devnet/src/node.rs:2940-2976 | any two honest nodes whose finality gate is open have staged the same value, so they finalise the same block |
| `AgreementRuns.GateIsQuorum` | crates/qtv-devnet/src/node.rs:2940-2976 | an open finality gate holds a same-view quorum of real precommits for the staged value |
| `AgreementRuns.RunsKeep` | crates/qtv-devnet/src/node.rs:1914-2158 | every reachable state keeps the invariant, by induction over runs |
| `AgreementRuns.ReactKeeps` | crates/qtv-devnet/src/node.rs:1914-2158 | whatever a node is told and however its disk, clock and signer behave, its reaction keeps the invariant |
| `AgreementRuns.FaultyKeeps` | crates/qtv-devnet/src/node.rs:3793-3800 | anything faulty members sign keeps the invariant |
| `AgreementRuns.InitialOk` | crates/qtv-devnet/src/node.rs:430-580 | the opening state of a height satisfies the invariant |
| `AgreementRuns.OnProposalKeeps` | crates/qtv-devnet/src/node.rs:1950-1979 | staging a first-view proposal and prevoting it keeps the invariant |
| `AgreementRuns.OnJustifiedProposalKeeps` | crates/qtv-devnet/src/node.rs:1981-2035 | staging a justified proposal, where a lock may be given up, keeps the invariant |
| `AgreementRuns.FormPolkaKeeps` | crates/qtv-devnet/src/node.rs:2323-2387 | locking on a polka and precommitting keeps the invariant |
| `AgreementRuns.PrevoteStagedKeeps` | crates/qtv-devnet/src/node.rs:2103-2158 | prevoting the staged value keeps the invariant |
| `AgreementRuns.TryJustifiedKeeps` | crates/qtv-daemon/src/driver.rs:926-940 | the driver building a justified proposal, guarded against staging a view twice, keeps the invariant |
| `AgreementRuns.EnterRoundKeeps` | crates/qtv-devnet/src/node.rs:1914-1948 | entering a round keeps the invariant |
| `AgreementRuns.OnPrevoteKeeps` | crates/qtv-devnet/src/node.rs:2306-2321 | hearing a prevote keeps the invariant |
| `AgreementRuns.ChangeViewKeeps` | crates/qtv-devnet/src/node.rs:2435-2475 | signing and collecting a view-change record keeps the invariant |
| `Agreement.AgreementAt` | crates/qtv-devnet/src/node.rs:2940-2976 | in a state satisfying the invariant two precommit quorums agree, whichever view is later |
| `Agreement.LaterPolkaAgrees` | crates/qtv-devnet/src/node.rs:1981-2035 | once a value has a precommit quorum, every later polka is for that value although honest nodes may unlock |
| `Agreement.PolkaUnique` | crates/qtv-devnet/src/node.rs:2103-2158 | one view has polkas for at most one value |
| `Agreement.NewPolkaBlocks` | crates/qtv-devnet/src/node.rs:2103-2158 | a new polka leaves, for every earlier view and other value, a quorum whose honest members staged past it and never precommitted it |
| `Committee.QuorumsShareHonest` | crates/qtv-devnet/src/node.rs:3793-3800 | two quorums over two thirds of the stake share an honest member when faulty stake is at most a third |
| `Committee.SaturationOnlyShrinks` | crates/qtv-devnet/src/node.rs:3787-3791 | the saturating sum never exceeds the exact one |
| `DevNodeObject.DevNode.OnProposal` | crates/qtv-devnet/src/node.rs:1950-1979 | the new state and the messages sent are those of the transition function, fields updated in place |
| `DevNodeObject.DevNode.OnJustifiedProposal` | crates/qtv-devnet/src/node.rs:1981-2035 | as above for a justified proposal: justification checked, lock compared, stage replaced, prevote cast |
| `DevNodeObject.DevNode.PrevoteStaged` | crates/qtv-devnet/src/node.rs:2103-2158 | the prevote step in place, for which Rounds.PrevotedExactly says exactly when a vote goes out and AgreementRuns.PrevoteStagedKeeps that it is safe |
| `DevNodeObject.DevNode.CastPrevote` | crates/qtv-devnet/src/node.rs:2103-2158 | the prevote is recorded, remembered for its view and sent once |
| `DevNodeObject.DevNode.FormPolkaAndPrecommit` | crates/qtv-devnet/src/node.rs:2323-2387 | a quorum of matching prevotes stores a new lock only above the old one and then precommits |
| `DevNodeObject.DevNode.PrecommitStaged` | crates/qtv-devnet/src/node.rs:2389-2403 | a precommit is signed only if the sign guard allows it |
| `DevNodeObject.DevNode.GuardHeight` | crates/qtv-devnet/src/node.rs:1677-1698 | signing is permitted exactly when not held after a restart, the mark permits it and the store succeeds; a failed store is fatal |
| `Validity.StageFromSound` | crates/qtv-devnet/src/node.rs:1616-1664 | staging refuses exactly what execution refuses or what is over six mebibytes, so whatever is staged was executed and fits |
| `Validity.FinalIsExecuted` | crates/qtv-devnet/src/node.rs:2940-2976 | validity: in every run a value with a precommit quorum is the header of a block of legal size that an honest node executed or built, and an open finality gate has its own executed block behind it |
| `Validity.PolkaIsExecuted` | crates/qtv-devnet/src/node.rs:2103-2158 | the same already for every value with a polka |
| `Validity.ReactSound` | crates/qtv-devnet/src/node.rs:1914-2158 | no reaction stages, locks or votes for a block that was not executed |
| `DevNodeObject.DevNode.ValidJustification` | crates/qtv-devnet/src/node.rs:2657-2725 | the metered filter loop returns the records and cache of the specification, which Filtering.AcceptedExactly, Filtering.FilterKeepsFirst and SignedRecords.AcceptedIsSigned describe |
| `DevNodeObject.DevNode.PolkaAdmitted` | crates/qtv-devnet/src/node.rs:2624-2636 | admitted exactly when the polka verifies and its sender is under budget; only that sender's count may rise, and never past eight |
| `BufferRuns.RejectBudget` | crates/qtv-devnet/src/node.rs:2624-2636 | in every run at most eight certificate checks per sender fail at a node |
| `DevNodeObject.DevNode.CollectViewChange` | crates/qtv-devnet/src/node.rs:2477-2542 | the record buffer after a record, holding only verified records, at most 8192 and 64 of one sender, with bodies of legal size |
| `DevNodeObject.DevNode.BuildJustifiedProposal` | crates/qtv-devnet/src/node.rs:2772-2830 | proposal and stage built from collected records |
| `DevNodeObject.DevNode.OnPrevote` | crates/qtv-devnet/src/node.rs:2306-2321 | a verified prevote is recorded and may complete a polka |
| `DevNodeObject.DevNode.EnterRound` | crates/qtv-devnet/src/node.rs:1914-1948 | what a leader proposes and a follower does on entering a round |
| `DevNodeObject.DevNode.HasFinalityThreshold` | crates/qtv-devnet/src/node.rs:2940-2976 | the per-view grouping loop opens the gate exactly when some view has a finality quorum for the staged value |
| `DevNodeObject.DevNode.JumpTo` | crates/qtv-devnet/src/node.rs:2852-2857 | the view never goes back |
| `DevNodeObject.DevNode.RecordPrevote` | crates/qtv-devnet/src/node.rs:2405-2433 | at most 8192 prevotes and 64 of one sender; refused exactly when known or over the cap without a lower view held; otherwise last, with the one item that leaves named: the sender's oldest at the cap, else the heaviest sender's first when full |
| `Buffers.RecordPrevoteExact` | crates/qtv-devnet/src/node.rs:2405-2433 | the same of the transition function |
| `DevNodeObject.DevNode.RecordAttestation` | crates/qtv-devnet/src/node.rs:2999-3023 | at most 8192 precommits and 64 of one sender; refused exactly when held or over the cap; a full buffer gives up the heaviest sender's first |
| `Buffers.RecordAttestationExact` | crates/qtv-devnet/src/node.rs:2999-3023 | the same of the transition function |
| `Buffers.CollectBounded` | crates/qtv-devnet/src/node.rs:2477-2542 | collecting a record keeps the caps on records, bodies and rejections |
| `Buffers.LoserHoldsShare` | crates/qtv-devnet/src/node.rs:177-192 | a sender that loses an item holds at least an even share of the buffer |
| `BufferRuns.FloodBounded` | crates/qtv-devnet/src/node.rs:2405-2542 | in every run, whatever is delivered, an honest node holds at most 8192 prevotes, precommits and records, 64 of each per sender, 4096 cached records and eight rejections per member |
| `BufferRuns.QuietIsHeard` | crates/qtv-devnet/src/node.rs:177-192 | in every run a vote delivered from a member that signed at most 64 statements and less than an even share of a buffer is held at every later point, whatever others send |
| `BufferRuns.QuietStays` | crates/qtv-devnet/src/node.rs:2405-2433 | such a vote, once held, is never evicted |
| `DevNodeObject.CollectKeepsCollected` | crates/qtv-devnet/src/node.rs:2477-2542 | every record a node holds passed verification |
| `DevNodeObject.BuiltProposalIsAccepted` | crates/qtv-devnet/src/node.rs:2772-2836 | the justification a leader sends passes every receiver's filter whole and justifies the leader's value |
| `FairEviction.Victim` | crates/qtv-devnet/src/node.rs:177-192 | the dropped item is the first of a sender no other sender outranks |
| `Committee.StakeQuorumExact` | crates/qtv-devnet/src/node.rs:3787-3800 | both saturating stake tests accept exactly the seated quorums of more than two thirds, as long as twice the quorum stake is below the largest 128-bit number |
| `Committee.SeatedIsWeight` | crates/qtv-devnet/src/node.rs:3787-3800 | the saturating sum is the exact stake cut off at the largest 128-bit number |
| `Committee.LeadersRotate` | crates/qtv-devnet/src/node.rs:70-81 | in any run of views as long as the committee each member leads exactly once, starting with the drawn leader |
| `FairEviction.VictimIsFair` | crates/qtv-devnet/src/node.rs:177-192 | nobody holds more than the loser, a sender arriving now is spared while another holds as many, and among equals the smallest id goes first |
| `Leading.GoodView` | crates/qtv-devnet/src/node.rs:2772-2836 | in any run: when an honest leader of a later view has heard every honest member's record, leads, and the round's messages get through, every honest finality gate is open at the end on its block, whatever was locked before and whatever faulty members sign |
| `Leading.GoodStart` | crates/qtv-devnet/src/node.rs:1914-1948 | the same for the first view, where the leader proposes its own block |
| `Progress.GoodRound` | crates/qtv-devnet/src/node.rs:1950-2403 | if the honest members are a quorum, can be won for the proposal and hear it, then the prevotes, then the precommits, every honest finality gate opens on the proposed block |
| `Progress.GateExact` | crates/qtv-devnet/src/node.rs:2940-2976 | the gate is open exactly when at some view the members whose precommits for the staged value are held are a seated quorum |
| `Leading.LocksAgree` | crates/qtv-devnet/src/node.rs:2037-2077 | in a reachable state the collected records never conflict: locks at one view are for one value |
| `Leading.BuiltJustifies` | crates/qtv-devnet/src/node.rs:2772-2836 | what a leader sends is read whole and to the same effect by every receiver, the value, the polka view and the absence of a conflict |
| `Rounds.PrevotedExactly` | crates/qtv-devnet/src/node.rs:2103-2158 | a staged block is prevoted exactly when the node is neither held nor fatal, voted nothing else at the view, its lock is at this view or below the polka shown or absent, its mark allows the vote, the mark is written and it is drawn; the vote names the staged view, value and polka |
| `Rounds.ProposalPrevotedExactly` | crates/qtv-devnet/src/node.rs:1950-2035 | a proposal is prevoted exactly when the node may support it and nothing forbids the vote |
| `Rounds.PolkaLocks` | crates/qtv-devnet/src/node.rs:2323-2403 | with the block staged and its prevote cast, a quorum of prevotes locks and precommits it at once, and less does nothing |
| `Handlers.StagedExactly` | crates/qtv-devnet/src/node.rs:1950-2035 | a proposal is staged exactly when the node may support it, with its own view, block, justification and polka; a plain one comes from the leader of its view |
| `Handlers.LockedExactly` | crates/qtv-devnet/src/node.rs:2323-2387 | a node locks exactly on a stake quorum of prevotes above its lock with disk and certificate serving; it locks the staged block and keeps exactly those prevotes as its certificate |
| `Handlers.PrecommittedExactly` | crates/qtv-devnet/src/node.rs:2389-2403 | a staged block is precommitted exactly when the node is neither held nor fatal, its sign mark allows it, the mark is written and it is drawn |
| `Handlers.PrevoteHeardExactly` | crates/qtv-devnet/src/node.rs:2160-2173 | a prevote note is stored exactly when it is what it claims and a member signed it |
| `Handlers.BuiltExactly` | crates/qtv-devnet/src/node.rs:2772-2810 | the leader's block at a later view: the justified one, else the one it is locked on, else its own, with the stripped records and the polka they show |
| `Handlers.BodyFound` | crates/qtv-devnet/src/node.rs:2756-2770 | a missing body comes from the first held record that has one for the header, else from the own lock |
| `Handlers.BodyMatches` | crates/qtv-devnet/src/node.rs:2756-2770 | a restored body is the one its header commits to |
| `Handlers.FirstRecordStored` | crates/qtv-devnet/src/node.rs:2503-2542 | a first sound record for its sender and view is stored last, and a full buffer gives up the heaviest sender's first |
| `Handlers.LightenedExactly` | crates/qtv-devnet/src/node.rs:2526-2537 | lightening drops only a body, exactly when a held record of the sender has one for that header |
| `Handlers.SecondRecordReplaces` | crates/qtv-devnet/src/node.rs:2481-2501 | a second sound record for a sender and view replaces the first exactly when it adds a body or a polka |
| `Handlers.BadRecordIgnored` | crates/qtv-devnet/src/node.rs:2477-2542 | a record that is not sound or over the cap leaves the held records alone |
| `Handlers.RecordNamesLock` | crates/qtv-devnet/src/node.rs:2435-2475 | a signed record names its signer's lock, its polka and the polka's own polka, and the signature covers view, lock and polka |
| `Handlers.RunBacked` | crates/qtv-devnet/src/node.rs:2323-2387 | in every run the lock of an honest node comes with a certificate that backs it |
| `Handlers.HonestRecordHolds` | crates/qtv-devnet/src/node.rs:2435-2542 | in every run the record an honest node signs for a view not below its lock is sound to whoever hears it |
| `Handlers.EnterProposesExactly` | crates/qtv-devnet/src/node.rs:1914-1948 | on entering a round exactly the leader proposes: its current stage again, or at the first view its own block |
| `SignedRecords.NoForgedViewChange` | crates/qtv-devnet/src/node.rs:2648-2725 | in every run a justified proposal staged at a view has behind it a seated stake quorum that signed a move there, and every record held or remembered was signed by its sender |
| `SignedRecords.HonestAsked` | crates/qtv-devnet/src/node.rs:2648-2725 | an honest member is among them, so no minority moves a view |
| `SignedRecords.AcceptedIsSigned` | crates/qtv-devnet/src/node.rs:2648-2725 | what the receiver's filter accepts, a seated stake quorum signed, and its cache stays a set of verified records |
| `SignedRecords.VerdictsAgree` | crates/qtv-devnet/src/node.rs:2648-2725 | in every run any two honest nodes give the same verdict on the same justification, whatever each verified before, within the verification cap |
| `Filtering.CacheTransparent` | crates/qtv-devnet/src/node.rs:2657-2725 | the cache of verified records changes the work, never the verdict, within the cap |
| `Filtering.FilterKeepsFirst` | crates/qtv-devnet/src/node.rs:2657-2700 | the metered filter keeps exactly the first verified record of each sender, up to the point where the work ran out |
| `Filtering.FirstVerifiedMeans` | crates/qtv-devnet/src/node.rs:2657-2700 | what that is: distinct senders, verified records of the view, and no sender with such a record left out |
| `Filtering.WorkBounded` | crates/qtv-devnet/src/node.rs:2657-2700 | however many records come, the work stays within the cap |
| `Filtering.AcceptedExactly` | crates/qtv-devnet/src/node.rs:2701-2725 | a justification is accepted exactly when the senders of the kept records are a quorum, and exactly those are returned |
| `Filtering.BareLocksAreCovered` | crates/qtv-devnet/src/node.rs:2701-2717 | every lock accepted without its polka is below one that came with a polka, or beside it and for the same value |
| `Filtering.BackedTopExact` | crates/qtv-devnet/src/node.rs:2701-2710 | the top backed lock: none above it, and it is one of them |
| `Justification.JustifiedLockExact` | crates/qtv-devnet/src/node.rs:2037-2077 | which lock the records justify: none, the one value at the top locked view backed by a polka, or a conflict, each exactly when |
| `Justification.FindJustifiedLock` | crates/qtv-devnet/src/node.rs:2037-2077 | the scanning loop computes that lock |
| `Justification.ScanMeaning` | crates/qtv-devnet/src/node.rs:2037-2077 | what one pass over the records has seen: a clash, the value at the top view, and a backed block, preferring one with a body |
| `Justification.TopLockView` | crates/qtv-devnet/src/node.rs:2037-2045 | the highest locked view among the records |
| `Stripping.StrippingKeepsMeaning` | crates/qtv-devnet/src/node.rs:2657-2725 | records stripped for sending all survive the receiver's filter, keep the same signers and quorum, and justify the same view and header, when the verification cap is not hit |
| `Stripping.StripShape` | crates/qtv-devnet/src/node.rs:3815-3836 | stripping keeps the attestations and drops bodies and polkas but those of the first backed top record |
| `Stripping.FilterKeepsAll` | crates/qtv-devnet/src/node.rs:2657-2725 | distinct verified records under the cap all pass the filter |
| `CrashSafety.CrashSafe` | crates/qtv-devnet/src/node.rs:2323-2403 | with crashes between any two steps, the lock on disk is never below a precommit signed at its height, and no view signs two values |
| `CrashSafety.LockNeverFalls` | crates/qtv-devnet/src/node.rs:581-605 | across crashes and reopens within a height the stored lock view never falls, and a reopened node is locked on exactly the stored vote, staged again when it can be |
| `CrashSafety.LockComesBack` | crates/qtv-devnet/src/node.rs:581-605 | a lock held in memory comes back, after whatever crashes, as the same vote or one at a higher view, while its height is open |
| `CrashSafety.RestoredLockCovers` | crates/qtv-devnet/src/node.rs:581-605 | a reopened node is locked on a vote that every precommit it signed at its height equals or is below in view, and works at no lower view |
| `CrashSafety.FreeVoteIsSigned` | crates/qtv-devnet/src/node.rs:2323-2403 | a staged vote above lock and mark is locked, stored and signed when the writes go through |
| `CrashSafety.HeldSignsNothing` | crates/qtv-devnet/src/node.rs:2922-2938 | a node held after a restart signs nothing before it is released often enough |
| `CrashSafety.StepKeeps` | crates/qtv-devnet/src/node.rs:1677-1698 | every single step, crash or failed write keeps the disk and memory invariant |
| `Watermark.NeverEquivocates` | crates/qtv-node/src/watermark.rs:173-229 | over any calls, failed writes and restarts, one value is granted per height and view unless the all-zero value is asked for |
| `Watermark.EquivocationExactly` | crates/qtv-node/src/watermark.rs:197-229 | the values for which the guard keeps that promise over every history: exactly those without the all-zero value, or it alone |
| `Watermark.GrantedExactly` | crates/qtv-node/src/watermark.rs:173-229 | a signature is granted exactly on an unspent reservation, or when the write goes through and the mark is absent, earlier or the very same |
| `Watermark.ZeroEquivocates` | crates/qtv-node/src/watermark.rs:197-229 | a reservation spent before a restart lets the all-zero value through beside the value signed |
| `Registrations.ReplayEqualsLive` | crates/qtv-devnet/src/node.rs:999-1027 | rebuilding from the last two epochs of stored blocks gives exactly the registrations of a node that saw every block |
| `Registrations.ReplayFollowsLive` | crates/qtv-devnet/src/node.rs:999-1027 | the same at every height of the replay |
| `Registrations.CollectedBySet` | crates/qtv-devnet/src/node.rs:801-846 | what is collected for a validator depends only on the set of valid roots it registered: none, the one, or conflicted |
| `Registrations.SealedRosterIsRotated` | crates/qtv-devnet/src/node.rs:722-783 | the roster sealed in an epoch's closing block is the one rotated to at the next height, live or after a reload |
| `Registrations.SealedRosterBySet` | crates/qtv-devnet/src/node.rs:742-770 | each sealed seat is decided by the set of registered roots alone |
| `Registrations.LiveEpoch` | crates/qtv-devnet/src/node.rs:848-874 | the live epoch and the epoch collected for follow the height |
| `Registrations.Book.RecordRegistrations` | crates/qtv-devnet/src/node.rs:801-846 | the recording loop over a block's notes |
| `Registrations.Book.PromoteRegistrations` | crates/qtv-devnet/src/node.rs:848-862 | collected roots become seated roots when the epoch turns |
| `Registrations.Book.RefreshCommittee` | crates/qtv-devnet/src/node.rs:864-874 | promotion happens exactly when the height enters a new epoch |
| `Registrations.Book.Reload` | crates/qtv-devnet/src/node.rs:1071-1175 | reloading from stored blocks gives the live state |
| `Field.MulAssoc` | crates/qtv-net/src/erasure.rs:55-61 | multiplication of bytes is associative |
| `Field.MulComm` | crates/qtv-net/src/erasure.rs:55-61 | multiplication commutes |
| `Field.MulAdd` | crates/qtv-net/src/erasure.rs:55-61 | multiplication distributes over exclusive or on both sides |
| `Field.NoSmallerPeriod` | crates/qtv-net/src/erasure.rs:37-53 | the powers of two repeat after exactly 255 steps |
| `Field.LogExists` | crates/qtv-net/src/erasure.rs:37-53 | every nonzero byte is a power of two, so the logarithm table is complete |
| `Field.MulNonzero` | crates/qtv-net/src/erasure.rs:55-66 | a product is zero only if a factor is |
| `Field.BuildTables` | crates/qtv-net/src/erasure.rs:37-53 | the table loop fills powers and logarithms, the doubled part included |
| `Field.TableMul` | crates/qtv-net/src/erasure.rs:55-61 | the table product is the field product |
| `Field.TableInv` | crates/qtv-net/src/erasure.rs:63-66 | the table inverse is the field inverse |
| `Matrix.Invert` | crates/qtv-net/src/erasure.rs:445-487 | Gauss-Jordan elimination returns a two-sided inverse, or nothing exactly when some nonzero vector is sent to zero |
| `Matrix.ClearColumn` | crates/qtv-net/src/erasure.rs:470-484 | one elimination step keeps the solution set and clears the column |
| `Matrix.FindPivot` | crates/qtv-net/src/erasure.rs:456-458 | a pivot row, or proof that the column has none |
| `Matrix.NoPivot` | crates/qtv-net/src/erasure.rs:456-458 | a column without a pivot means a nonzero vector sent to zero |
| `ReedSolomon.RootsVanish` | crates/qtv-net/src/erasure.rs:412-429 | a polynomial with as many distinct roots as coefficients is zero |
| `ReedSolomon.Interpolation` | crates/qtv-net/src/erasure.rs:412-429 | polynomials with k coefficients that agree at k points are equal |
| `ReedSolomon.VandermondeRegular` | crates/qtv-net/src/erasure.rs:424-429 | Vandermonde matrices on distinct points are never singular |
| `ReedSolomon.GeneratorRegular` | crates/qtv-net/src/erasure.rs:396-410 | decode matrices on distinct indices are never singular |
| `ReedSolomon.ParityGenerates` | crates/qtv-net/src/erasure.rs:386-394 | a parity row turns data into the value at its index, for every polynomial |
| `Erasure.RoundTrip` | crates/qtv-net/src/erasure.rs:242-339 | encode, take the shards at any k distinct indices, reconstruct: the result is the data, for all data and all 1 <= k <= n <= 256 |
| `Erasure.AnyKOfN` | crates/qtv-net/src/erasure.rs:299-339 | any decoding of any k shards of an encoding joins to the data |
| `Erasure.EncodeShards` | crates/qtv-net/src/erasure.rs:242-264 | refused exactly on bad parameters; otherwise the zero-padded pieces extended to a codeword of degree below k at every byte |
| `Erasure.EncodingUnique` | crates/qtv-net/src/erasure.rs:242-264 | the encoding of given data is unique |
| `Erasure.Reconstruct` | crates/qtv-net/src/erasure.rs:299-339 | succeeds exactly when the first k shards are usable, never singular; each error names the first fault; the result interpolates the shards |
| `Erasure.DecodeIsHead` | crates/qtv-net/src/erasure.rs:299-339 | decoding k shards of any codeword gives its first k rows |
| `Erasure.DecodeUnique` | crates/qtv-net/src/erasure.rs:299-339 | decoding has one result |
| `Erasure.Combine` | crates/qtv-net/src/erasure.rs:341-356 | each output byte is the dot product of the coefficients with that column |
| `Erasure.CombineAll` | crates/qtv-net/src/erasure.rs:360-384 | the rows come back in order, one combination each |
| `Erasure.ParityCoefficients` | crates/qtv-net/src/erasure.rs:386-394 | rows that generate the parity shards |
| `Erasure.DecodeMatrix` | crates/qtv-net/src/erasure.rs:396-410 | unit or parity rows for the indices at hand |
| `Erasure.VandermondeRow` | crates/qtv-net/src/erasure.rs:412-422 | the powers of a point |
| `Erasure.RowTimesMatrix` | crates/qtv-net/src/erasure.rs:431-443 | row vector times matrix |
| `Erasure.SplitPieces` | crates/qtv-net/src/erasure.rs:248-257 | k pieces padded with zeros |
| `ShardTree.ShardExact` | crates/qtv-net/src/erasure.rs:96-131 | under an honest commitment an accepted shard and proof are the committed ones at that index, or two inputs with one digest are exhibited |
| `ShardTree.HonestVerifies` | crates/qtv-net/src/erasure.rs:152-175 | every committed shard verifies with its own path, at every width |
| `ShardTree.ClimbSound` | crates/qtv-net/src/erasure.rs:96-131 | whatever climbs to the root from a position is the node there with its own path, or a collision |
| `ShardTree.VerifyShard` | crates/qtv-net/src/erasure.rs:96-131 | the climbing loop, which must use up every sibling |
| `ShardTree.Proof` | crates/qtv-net/src/erasure.rs:152-175 | the siblings read off the stored levels, odd last nodes skipped |
| `ShardTree.MerkleTree` | crates/qtv-net/src/erasure.rs:222-240 | all levels up to the root |
| `ShardTree.NextLevel` | crates/qtv-net/src/erasure.rs:225-237 | pairs hashed, a last odd node hashed alone |
| `Dispersal.DispersalConsistent` | crates/qtv-devnet/src/coded.rs:139-176 | if one set of verified shards gives an accepted block, every other k distinct verified shards under the same header and commitment give that block, or a collision is exhibited |
| `Dispersal.HonestReconstructs` | crates/qtv-devnet/src/coded.rs:139-176 | what an honest leader disperses, any pieces of it with k distinct indices bring back, in any order and with repeats |
| `Dispersal.ReconstructBlock` | crates/qtv-devnet/src/coded.rs:139-176 | each error exactly when, in order; otherwise the verdict on the bytes rebuilt from the first k distinct verified shards |
| `Dispersal.RebuildsCommitted` | crates/qtv-devnet/src/coded.rs:148-162 | verified shards rebuild the committed data, or a collision |
| `Dispersal.RederivesExact` | crates/qtv-devnet/src/coded.rs:171-174 | encoding again decides whether bytes belong to a commitment |
| `Dispersal.PickCount` | crates/qtv-devnet/src/coded.rs:148-160 | k shards are found exactly when k distinct indices verified |
| `Dispersal.RebuildsOnce` | crates/qtv-devnet/src/coded.rs:162-163 | the chosen shards rebuild one byte string |
| `Dispersal.HonestCanonical` | crates/qtv-devnet/src/coded.rs:123-137 | an honest commitment is canonical exactly when the block fits twelve mebibytes |
| `Dispersal.Encode` | crates/qtv-net/src/erasure.rs:242-297 | shards, tree and commitment of the data |
| `Dispersal.PieceAt` | crates/qtv-devnet/src/coded.rs:106-108 | the shard at an index with its proof, none past the end |
| `Dispersal.ChooseShards` | crates/qtv-devnet/src/coded.rs:148-157 | the choosing loop |
| `Dispersal.AcceptedExactly` | crates/qtv-devnet/src/coded.rs:164-176 | a rebuilt block is accepted exactly when bytes, header, body root and commitment all agree, and each refusal is named exactly when its check is the first to fail |
| `Dispersal.ParamsTolerateHalf` | crates/qtv-devnet/src/coded.rs:180-186 | the fewest pieces of the target size, at least two, and as many again, so any half may be lost |
| `Assembler.AdmitAll` | crates/qtv-devnet/src/coded.rs:345-495 | k distinct honest shards of a pinned slot, fed in any order, end in the leader's block under its view, header and authority |
| `Assembler.ProposalAssembler.ReleasedIsSound` | crates/qtv-devnet/src/coded.rs:468-494 | whatever is released re-derives its commitment, has the entry's header and the body root it names, and carries a certificate that decodes |
| `Assembler.ProposalAssembler.HonestIsReleased` | crates/qtv-devnet/src/coded.rs:468-494 | a full entry of an honest leader's pieces is released as its block |
| `Assembler.ProposalAssembler.Admit` | crates/qtv-devnet/src/coded.rs:345-495 | a proposal is rebuilt exactly when the shard is the k-th of a fitting, pinned entry, and the answer is then the verdict on that entry's shards under its own header; a welcome shard that does not complete its entry is kept; the byte count stays exact and in budget; only the source pays, and a new pin costs it a token; with a round height set first and never lowered one commitment is handed out per height and view |
| `Assembler.ProposalAssembler.Take` | crates/qtv-devnet/src/coded.rs:372-466 | prune, pin and store, with the exact condition for completion, the verdict returned, and what is kept when there is none |
| `Assembler.ProposalAssembler.Pin` | crates/qtv-devnet/src/coded.rs:374-402 | a slot keeps its first commitment and authority; a first pin costs the source a token and a check, and nobody else any |
| `Assembler.ProposalAssembler.Store` | crates/qtv-devnet/src/coded.rs:404-466 | the entry after a shard, exactly when it fills |
| `Assembler.ProposalAssembler.Keep` | crates/qtv-devnet/src/coded.rs:440-472 | the shard is kept exactly when its entry fits the budget |
| `Assembler.ProposalAssembler.Finish` | crates/qtv-devnet/src/coded.rs:468-494 | the answer is the verdict on the entry's shards: a rebuilt block under the entry's view, header and authority, or undecodable when only its certificate is refused |
| `Assembler.ProposalAssembler.Prune` | crates/qtv-devnet/src/coded.rs:497-507 | what is below the floor goes and the byte count is taken afresh |
| `Assembler.ProposalAssembler.EvictUntilFits` | crates/qtv-devnet/src/coded.rs:522-539 | entries go lowest height first, never the kept one, no more than needed |
| `Assembler.ProposalAssembler.EvictOne` | crates/qtv-devnet/src/coded.rs:509-520 | one lowest entry goes and the byte count follows |
| `Assembler.ProposalAssembler.EvictLowestDone` | crates/qtv-devnet/src/coded.rs:541-550 | one lowest finished key goes |
| `Assembler.ProposalAssembler.SetRoundHeight` | crates/qtv-devnet/src/coded.rs:335-337 | the round height is replaced and the invariant kept |
| `Assembler.ProposalAssembler.Tick` | crates/qtv-devnet/src/coded.rs:331-333 | tokens are refilled and nothing else changes |
| `Assembler.ProposalAssembler.SpendToken` | crates/qtv-devnet/src/coded.rs:306-316 | eight tokens a source each tick |
| `Assembler.EnoughPieces` | crates/qtv-devnet/src/coded.rs:436-466 | distinct verified pieces are all counted |
| `Assembler.HandOut` | crates/qtv-devnet/src/coded.rs:374-402 | handing out a pinned entry keeps one commitment per slot |
| `Assembler.SumWeights` | crates/qtv-devnet/src/coded.rs:222-233 | summed weight of the entries, in whatever order they are met |
| `BlockMerkle.InclusionSound` | crates/qtv-block/src/lib.rs:350-360 | an accepted proof is the honest proof of an event at some index, or a collision is exhibited; the empty list accepts nothing |
| `BlockMerkle.HonestIncluded` | crates/qtv-block/src/lib.rs:319-327 | every honest proof is accepted |
| `BlockMerkle.RootBinding` | crates/qtv-block/src/lib.rs:208-253 | equal roots come from equal event lists, whatever their lengths, or a collision |
| `BlockMerkle.LargestPowerOfTwoBelow` | crates/qtv-block/src/lib.rs:255-265 | the one power of two below n and at least half of it |
| `BlockMerkle.SplitUnique` | crates/qtv-block/src/lib.rs:255-265 | that power of two is unique |
| `BlockMerkle.CollectSteps` | crates/qtv-block/src/lib.rs:329-348 | the steps of an index, leaf first, after what was collected |
| `BlockMerkle.ProveInclusion` | crates/qtv-block/src/lib.rs:319-327 | the steps of an index, none past the end |
| `BlockMerkle.VerifyInclusion` | crates/qtv-block/src/lib.rs:350-360 | the folding loop |
| `Bech32m.RoundTrip` | crates/qtv-idfmt/src/lib.rs:151-213 | parsing a rendering returns the payload exactly when the text fits 128 characters: always for digests |
| `Bech32m.LongKeyLost` | crates/qtv-idfmt/src/lib.rs:233-251 | a 75-byte key renders under Q2 to 129 characters, which every parse refuses |
| `Bech32m.ParsedIsRendered` | crates/qtv-idfmt/src/lib.rs:157-213 | accepted text, upper-cased, is the rendering of its payload |
| `Bech32m.SubstitutionCaught` | crates/qtv-idfmt/src/lib.rs:157-200 | replacing one body character by another of the alphabet always fails the checksum |
| `Bech32m.RenderedDecodes` | crates/qtv-idfmt/src/lib.rs:151-205 | rendered text decodes to its payload or is refused only for its length |
| `Bech32m.AcceptedIsRendered` | crates/qtv-idfmt/src/lib.rs:157-205 | the same for decoding under any spelling of the prefix |
| `Bech32m.Decode` | crates/qtv-idfmt/src/lib.rs:157-205 | each error exactly when, in order |
| `Bech32m.Render` | crates/qtv-idfmt/src/lib.rs:151-155 | the upper-case text of the padded groups with the six check groups |
| `Bech32m.Encode` | crates/qtv-idfmt/src/lib.rs:128-149 | the check groups spell the residue |
| `Bech32m.Parse` | crates/qtv-idfmt/src/lib.rs:207-213 | decode, then the prefix up to case |
| `Bech32m.CharsetTable` | crates/qtv-idfmt/src/lib.rs:64-72 | the alphabet index, -1 elsewhere |
| `Bech32m.RenderDigest` | crates/qtv-idfmt/src/lib.rs:254-261 | only 32-byte digests render |
| `Bech32m.ParseDigest` | crates/qtv-idfmt/src/lib.rs:262-267 | only 32-byte payloads parse |
| `Bech32m.RenderKey` | crates/qtv-idfmt/src/lib.rs:237-243 | only keys at or above the floor render |
| `Bech32m.ParseKey` | crates/qtv-idfmt/src/lib.rs:245-250 | only keys at or above the floor parse |
| `Polymod.OneChange` | crates/qtv-idfmt/src/lib.rs:77-86 | changing one group changes the checksum, at every length |
| `Polymod.ChecksumExact` | crates/qtv-idfmt/src/lib.rs:128-136 | a checksum passes exactly when its six groups spell the residue |
| `Polymod.StepInjective` | crates/qtv-idfmt/src/lib.rs:77-86 | no two words step to one |
| `Polymod.StepLinear` | crates/qtv-idfmt/src/lib.rs:77-86 | the step is linear |
| `Polymod.PolymodStep` | crates/qtv-idfmt/src/lib.rs:77-86 | the generator loop computes the step |
| `Regroup.ConvertBits` | crates/qtv-idfmt/src/lib.rs:100-126 | both sides are digits of one number: padded regrouping extends it by the missing bits, unpadded succeeds exactly on fewer than a group of zero bits |
| `Regroup.RegroupsBack` | crates/qtv-idfmt/src/lib.rs:100-126 | eight to five padded and five to eight unpadded are one relation |
| `Regroup.PaddedUnique` | crates/qtv-idfmt/src/lib.rs:100-126 | padded regrouping has one result |
| `Regroup.UnpaddedUnique` | crates/qtv-idfmt/src/lib.rs:100-126 | unpadded regrouping has one result |
| `Channel.PrefixDelivery` | crates/qtv-net/src/channel.rs:62-102 | however bytes are dropped, repeated, reordered or altered, the messages received are a prefix of those sent |
| `Channel.RecvKeeps` | crates/qtv-net/src/channel.rs:84-102 | on any bytes the receiver stays in step and its only fault is the wire's |
| `Channel.SendKeeps` | crates/qtv-net/src/channel.rs:62-82 | sealed records stay in step with accepted messages, torn writes and an exhausted counter included |
| `Channel.DeliversAll` | crates/qtv-net/src/channel.rs:62-102 | an untouched wire delivers every message of any allowed length whole and in order |
| `Channel.DeliversNext` | crates/qtv-net/src/channel.rs:84-102 | one call returns the next message and leaves the wire after it |
| `Channel.OpensNext` | crates/qtv-net/src/record.rs:128-153 | the next frame opens to its record |
| `Channel.NonceInjective` | crates/qtv-net/src/record.rs:15-24 | no two sequence numbers share a nonce |
| `ChannelEnds.SendEnd.Seal` | crates/qtv-net/src/record.rs:50-85 | the sequence number advances before the write and a failed write tears the stream |
| `ChannelEnds.SendEnd.Send` | crates/qtv-net/src/channel.rs:62-82 | the chunk loop seals the fragments of the message and writes exactly their frames; whatever fails, the bytes written are the frames of the records sealed but the torn one |
| `ChannelEnds.WrittenIsDelivered` | crates/qtv-net/src/channel.rs:62-102 | what an untorn sender has written, a fresh receiver reads back whole and in order |
| `ChannelEnds.ReceiveEnd.Recv` | crates/qtv-net/src/channel.rs:84-102 | the accumulating loop |
| `Json.RoundTrip` | crates/qtv-gateway/src/json.rs:25-55 | parsing a value's own text returns it exactly when it is within the depth and node limits and no object repeats a key |
| `JsonGrammar.AcceptsExactly` | crates/qtv-gateway/src/json.rs:115-326 | the parser accepts a text as a value exactly when the grammar derives it for that value within the limits: white space anywhere between tokens, every escape spelling, nothing after it |
| `JsonGrammar.TreeReads` | crates/qtv-gateway/src/json.rs:157-240 | every derivation within the limits reads as its value, wherever it stands |
| `JsonGrammar.TreeOf` | crates/qtv-gateway/src/json.rs:157-240 | every value the parser reads has a derivation that is the text read |
| `JsonGrammar.ShortMeans` | crates/qtv-gateway/src/json.rs:249-256 | the short escapes stand for the code points the JSON grammar gives them, and no other letter is one |
| `Json.RepeatedKeyLost` | crates/qtv-gateway/src/json.rs:25-55 | an object naming one key twice does not come back |
| `Json.ValueReads` | crates/qtv-gateway/src/json.rs:157-240 | a printed value within the limits reads back wherever it stands |
| `Json.ValueWithin` | crates/qtv-gateway/src/json.rs:157-240 | whatever the parser returns is within the limits and counted exactly |
| `Json.EscapeReads` | crates/qtv-gateway/src/json.rs:95-109 | an escaped string reads back |
| `Json.NumberReads` | crates/qtv-gateway/src/json.rs:281-297 | a printed number reads back |
| `Json.ParseValue` | crates/qtv-gateway/src/json.rs:157-172 | on every input the position advances and stays in bounds |
| `JsonParser.Parser.Value` | crates/qtv-gateway/src/json.rs:157-172 | the mutually recursive parser terminates on every input and computes the position function |
| `JsonParser.Parser.ReadArray` | crates/qtv-gateway/src/json.rs:221-240 | the item loop |
| `JsonParser.Parser.ReadObject` | crates/qtv-gateway/src/json.rs:187-219 | the field loop, repeated keys refused |
| `JsonParser.Parser.String` | crates/qtv-gateway/src/json.rs:242-267 | the character loop |
| `JsonParser.Parser.ReadUnicode` | crates/qtv-gateway/src/json.rs:269-279 | four hex digits, surrogates refused |
| `JsonParser.Parser.Number` | crates/qtv-gateway/src/json.rs:281-297 | digits without a leading zero, no sign, within 64 bits |
| `JsonParser.Parser.Nested` | crates/qtv-gateway/src/json.rs:174-185 | depth is limited and restored |
| `JsonParser.ParseText` | crates/qtv-gateway/src/json.rs:115-129 | nothing may follow the value |
| `JsonParser.Write` | crates/qtv-gateway/src/json.rs:25-55 | the printer appends the text of the value |
| `JsonParser.WriteText` | crates/qtv-gateway/src/json.rs:95-109 | the escaping loop |
| `Overlay.RingNeighbors` | crates/qtv-devnet/src/overlay.rs:6-31 | terminates without underflow and returns the nearest places in order |
| `Overlay.NeighborsDistinct` | crates/qtv-devnet/src/overlay.rs:6-31 | exactly min(fanout, n-1) distinct others |
| `Overlay.RingLattice` | crates/qtv-devnet/src/overlay.rs:33-42 | each node lists, in ascending order, those it chose and those that chose it |
| `Overlay.LatticeSymmetric` | crates/qtv-devnet/src/overlay.rs:33-42 | links go both ways and never to oneself |
| `Overlay.DegreeBound` | crates/qtv-devnet/src/overlay.rs:33-42 | no node has more than twice that many links |
| `Overlay.Connected` | crates/qtv-devnet/src/overlay.rs:33-42 | with a fan-out of at least one there is a walk between any two nodes |
| `FrameBuffer.Buffer.Push` | crates/qtv-daemon/src/driver.rs:366-378 | both ceilings hold, the frame is last, and no more evictions happen than it takes to fit |
| `FrameBuffer.Buffer.EvictOne` | crates/qtv-daemon/src/driver.rs:353-364 | the oldest frame of a source no other outweighs goes, and the byte count follows |
| `FrameBuffer.Buffer.HeaviestSource` | crates/qtv-daemon/src/driver.rs:339-351 | of the sources holding the most bytes, the one last to appear |
| `FrameBuffer.Buffer.Take` | crates/qtv-daemon/src/driver.rs:380-383 | everything held comes out and the buffer is empty |
| `FrameBuffer.SurvivorsInOrder` | crates/qtv-daemon/src/driver.rs:366-378 | survivors keep their arrival order |
| `FrameBuffer.HeldWithout` | crates/qtv-daemon/src/driver.rs:353-364 | evicting touches no other source's bytes |
| `FrameBuffer.Tally` | crates/qtv-daemon/src/driver.rs:339-346 | bytes per source |
| `Wire.MessagesTwoWay` | crates/qtv-devnet/src/wire.rs:439-630 | for headers, proofs, attestations, credentials, certificates, view changes, commitments, coded proposals, locks, blocks and justifications: bytes decode to a value exactly when they are its encoding, given a two-way wrapper codec |
| `Wire.TwoWay` | crates/qtv-codec/src/lib.rs:116-188 | the same for every format built from the codec's calls with honest list minima |
| `Wire.DecodesBack` | crates/qtv-devnet/src/wire.rs:439-585 | every value in limits decodes back to itself, leaving what follows |
| `Wire.AcceptedIsEncoding` | crates/qtv-devnet/src/wire.rs:644-768 | whatever is accepted is the encoding of what is returned |
| `Wire.CapacityHonest` | crates/qtv-devnet/src/wire.rs:46-56 | the capacity check never refuses an honest count |
| `Wire.AttestationLeast` | crates/qtv-devnet/src/wire.rs:439-469 | no attestation is shorter than the declared 3526 bytes |
| `Wire.ViewChangeLeast` | crates/qtv-devnet/src/wire.rs:537-562 | no view change is shorter than the declared 3561 bytes |
| `Wire.RevealLeast` | crates/qtv-devnet/src/wire.rs:500-525 | no reveal is shorter than the declared 64 bytes |
| `Wire.JustificationTwoWay` | crates/qtv-devnet/src/wire.rs:599-630 | no records are no bytes, a written count of zero is refused, anything else is two-way |
| `Codec.Decoder.Take` | crates/qtv-codec/src/lib.rs:116-130 | advances by n or reports what was needed and found |
| `Codec.Decoder.GetU64` | crates/qtv-codec/src/lib.rs:151-156 | eight bytes, lowest first |
| `Codec.Decoder.GetBytes` | crates/qtv-codec/src/lib.rs:165-174 | a length past the end is an overrun |
| `Codec.Decoder.Finish` | crates/qtv-codec/src/lib.rs:180-188 | trailing bytes are counted |
| `Codec.Decoder.Read` | crates/qtv-devnet/src/wire.rs:450-469 | reading field by field computes the decoding function |
| `Codec.Decoder.ReadList` | crates/qtv-devnet/src/wire.rs:480-498 | count, caps and the element loop |
| `Codec.Encoder.PutU64` | crates/qtv-codec/src/lib.rs:75-77 | the buffer grows by eight bytes that read back as the number |
| `Codec.Encoder.PutBytes` | crates/qtv-codec/src/lib.rs:83-86 | length, then bytes |
| `Codec.Encoder.Write` | crates/qtv-devnet/src/wire.rs:439-448 | writing field by field appends the encoding |
| `Codec.EncodeMessage` | crates/qtv-devnet/src/wire.rs:870-880 | the whole message is the encoding of the value |
| `Codec.DecodeMessage` | crates/qtv-devnet/src/wire.rs:882-904 | a whole message with nothing after it |
| `Codec.EncodeNote` | crates/qtv-devnet/src/wire.rs:160-239 | the encoder writes the tag and then the fields of its kind |
| `Codec.DecodeNote` | crates/qtv-devnet/src/wire.rs:246-346 | the decoder reads the tag, the fields of that kind and nothing more |
| `Gossip.GossipTwoWay` | crates/qtv-devnet/src/wire.rs:160-346 | gossip bytes decode to a message exactly when they are its encoding, so no bytes are two messages, of one kind or of two |
| `Gossip.PeerLeast` | crates/qtv-devnet/src/wire.rs:287-297 | no peer entry is shorter than the declared 1968 bytes |
| `Gossip.ChainBlockLeast` | crates/qtv-devnet/src/wire.rs:303-316 | no stored block is shorter than the declared 208 bytes |
| `Gossip.LockFileExact` | crates/qtv-devnet/src/wire.rs:841-868 | a lock in the current layout reads back as itself; other accepted bytes are one lock in the older layout, read without a pol |

## Left out

- Agreement across a restart inside a height: reopening resumes the view from the sign mark only, so a node may stage a lower view again; `CrashSafety` and `Watermark` say what restarts keep.
- AgreementRuns.AgreementTheorem: fixes one committee for the height and takes certificate and signature checks as "a quorum really signed this".
- Liveness without good rounds: that a good round eventually comes depends on the driver's clock and the network, which are not modelled.
- Progress.GoodRound: takes the phases in order (proposal, prevotes, precommits), members that signed few statements at the height, and disk, draw, execution and aggregation that serve; view changes and timeouts inside the round are left out.
- Leading.GoodView: takes a record from every honest member at the leader, naming the lock it holds then, and justification work within the verification cap; otherwise as Progress.GoodRound.
- Leading.GoodStart: as Progress.GoodRound, with no honest member having voted.
- The digest filter of attestations seen before and the relay buckets of `on_attestation`: a precommit is looked at each time it comes.
- SignedRecords.VerdictsAgree: holds within the verification cap only; beyond it a cache may let a node read further.
- CrashSafety.HeldSignsNothing: takes runs without a further reopen, which would set the hold again.
- Assembler.AdmitAll: takes a slot already pinned to the commitment and pieces that fit the byte budget together.
- View-sync jumps are allowed at any time to any later view instead of only on blocking stake; this only adds runs.
- Proposals buffered for later views (`buffer_proposal`, `take_buffered_proposal`): they re-enter through `on_proposal`.
- Evidence and slashing (`watch_prevote`, `watch_precommit`, `queue_lock_violation`, `settle_evidence`).
- Block execution, mempool, staking, fees and the ledger: staging takes the set of blocks execution accepts as input.
- Validity.FinalIsExecuted: takes the block a leader builds itself as executed and within the size limit, which the bounded execution of `stage_proposal` is trusted for.
- Finalising itself (`finalize`): it takes the stage before it reports a fatal store, after which the node never votes at the height again.
- Sortition, ML-DSA, ML-KEM, SHA3 and ChaCha20-Poly1305 internals.
- Registrations.ReplayEqualsLive: takes the epoch of a height as height divided by epoch length and stored heights as contiguous.
- Registrations.SealedRosterIsRotated: takes the registration window as shut at the closing height, which the configuration promises.
- CrashSafety.CrashSafe: takes a lock-file store as atomic, leaving the old or the new contents; the legacy 20-byte mark is not modelled.
- Erasure.CombineAll: the threads of `map_ordered` are not modelled, only that results come back in order.
- Field.BuildTables: built by each call that needs the tables instead of once behind a lock.
- Assembler.ProposalAssembler.Admit: hash-map iteration order is any order, and the authority check is an input.
- Channel.PrefixDelivery: handshake and key schedule are not modelled, and read timeouts count as wire faults.
- Wire.MessagesTwoWay: messages are terms of a format language, the wrapper codec is assumed two-way, UTF-8 validity is a parameter, and decoding errors are not told apart.
- Codec.Decoder.Read: returns no value without saying which decoding error the source names.
- Codec.Decoder.ReadList: as for Codec.Decoder.Read.
- Codec.DecodeMessage: as for Codec.Decoder.Read.
- Codec.DecodeNote: as for Codec.Decoder.Read.
- Gossip.PeerLeast: takes 1952 bytes for a public key, the ML-DSA-65 size of FIPS 204; the constant's own file is not part of this model.
- Json.RoundTrip: error texts are constructors, and lookup helpers and hex parsing are left out as easy.
- Sockets, threads, timers, dialling, RPC and HTTP handling, genesis and configuration parsing.
