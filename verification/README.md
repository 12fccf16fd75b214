# A verified model of the consensus commit rule and the checkpoint archive

The project models three parts of the system and proves, for all inputs and all runs, what they
are there for.

**The commit rule** (`consensus/core`, `consensus/config`). Validators exchange blocks that
reference earlier blocks. Each validator stores the blocks it accepted (`DagStates`), decides
leader slots directly or from a later anchor (`BaseCommitters`), and turns the decisions into an
ordered commit sequence (`UniversalCommitters`). `CommitRule` states the rule declaratively;
the loops, the vote cache, the early exits and the downward scan are methods proved against it.
`Finality`, `Agreement` and `Runs` prove that it is safe: no decision is ever contradicted in
another view, growing a view only extends the sequence, and the logs of any two validators, built
by any number of calls on growing views, are prefixes of one another. `WaveLengths` shows that the
default wave length is the only one for which this holds. `Anchors`, `Blames` and `Liveness` show
that the rule decides whenever it should: a slot with an anchor is always decided, a slot is skipped
exactly under a stated condition, and validators in lockstep commit every leader.

The safety theorems assume `Dags.IsGlobal` of the set of all blocks that exist: it is closed under
ancestors at lower rounds, every block past genesis references a quorum of the previous round,
authorities outside `honest` hold less than the validity threshold, and honest ones never put two
blocks in a slot. A view is any ancestor-closed part of that set. Where the source panics, the
model returns `Panic`, and the theorems show that it never does.

**Block production** (`Core` and what it is built from). `Cores.Core` is the validator as a class
over a clock, a block manager and a transaction queue. `Nodes` holds the invariant its methods
keep, `NodeRuns` follows it through any interleaving of receiving and proposing:
nothing accepted is lost although references are compressed, and the proposals are exactly as
sound as the commit rule assumes honest blocks to be. `Consensus` closes that circle:
`ConsensusAgreement` derives agreement from validators that run this code from genesis.
`ThresholdClocks` and `Transactions` have theorems of their own.

**The checkpoint archive** (`crates/mgo-archival`). A writer cuts files, an uploader publishes
data before the manifest, both can stop at any step and be restarted (`ArchiveSystems`). In every
state of every run the published manifest can be trusted (`ArchiveRuns`), and a reader that holds
it, or any earlier one, reads back exactly the original checkpoints (`ArchiveReaders`).

## Findings

Places where the code does something else than its comments or its purpose suggest. The model
follows the code.

- The comment at consensus/core/src/base_committer.rs:185-187 promises that later blocks of an
  author keep supporting what an earlier one supports. `SupportOrder.SupportChanges` is a graph
  that satisfies every assumption and where an honest author's support changes.
  `OrderFreeIff` gives the exact condition under which the order of ancestors, which is arbitrary
  in the code, does not matter: the block's history holds no second block of the slot.
  `SupportKept` is the claim under that condition. No theorem needs the claim.
- Longer waves are accepted, and consensus/core/src/commit.rs:11-13 recommends them against asynchrony, but blame only looks at the round after the leader
  while votes may come later. `WaveLengths.AgreementIff`: agreement holds at a wave length exactly
  when it is 3. In the counterexample for longer waves no authority equivocates, and every block
  continues its author's last one.
- The threshold clock ignores a quorum reached by the first block of a higher round
  (consensus/core/src/threshold_clock.rs:52-56). `ThresholdClocks.OrderIndependent`: the closed
  form holds for every order exactly when no single authority is a quorum.
- Batches of transactions can exceed the byte and count limits when a client may submit more than
  a batch holds. `BytesRespectedIff` and `CountRespectedIff` give the exact conditions.
- Blame requires that no ancestor at all is by the leader's authority, not only none in the
  leader's slot. `Blames.EnoughBlameIff` gives the exact condition for a direct skip, and
  `OlderBlockPreventsSkip` a graph without faults where a leader that has no block is not skipped,
  because the others list an older block of its authority, so that the sequence does not move on.
- The block manager does not know the genesis blocks, so one that is received again becomes pending
  again. `Compression.RunIrredundant`: as long as no known block is accepted again, no reference is
  implied by another. `AcceptedAgain` shows what happens otherwise.
- The size limit of an archive file counts the magic bytes, but not those of the first file after a
  start: `FileSizes.FirstOffset`, on which `FilesFilled` is exact.
- The comment at consensus/core/src/universal_committer.rs:43-46 says that a direct decision needs
  blocks two rounds above the leader. A direct skip needs only the next round, so the scan can
  leave out a leader that is skipped already: `WaveLengths.SkipMissed`. `Agreement.BeyondReach`
  says that nothing else is left out.
- When the archive stops between its first upload and its first manifest, it cannot start again.
  `ArchiveRuns.ResumableIff` says exactly after which runs it can, and `StuckReachable` that this
  does happen.

## Model

| member | source | states |
|---|---|---|
| `Committees.NewCommittee` | consensus/config/src/committee.rs:41-59 | A committee exists exactly when some authority has stake and their number is below the limit, and then all authorities together are a quorum. |
| `Committees.ThresholdsComplementary` | consensus/config/src/committee.rs:48-51 | For every stake distribution the two thresholds add up to the total plus one. |
| `Committees.ThresholdsExact` | consensus/config/src/committee.rs:50-51 | A quorum is more than two thirds of the stake, validity at least one third. |
| `Committees.QuorumComplement` | consensus/config/src/committee.rs:50-51 | A set is a quorum exactly when the other authorities stay below validity. |
| `Committees.StakeOfUnion` | consensus/config/src/committee.rs:113-115 | Stake is additive over distinct authorities: union and intersection weigh as much as the two sets. |
| `Committees.QuorumsOverlap` | consensus/config/src/committee.rs:103-111 | Any two sets that reach quorum share at least the validity threshold of stake. |
| `Committees.HonestInBoth` | consensus/config/src/committee.rs:103-111 | Any two quorums share an honest authority when the others stay below the validity threshold. |
| `StakeAggregators.StakeAggregator.constructor` | consensus/core/src/stake_aggregator.rs:39-45 | Starts with no votes and no stake. |
| `StakeAggregators.StakeAggregator.Add` | consensus/core/src/stake_aggregator.rs:50-55 | The running total stays the stake of the distinct voters, and the answer is whether that stake reaches the threshold. |
| `StakeAggregators.StakeAggregator.Clear` | consensus/core/src/stake_aggregator.rs:57-60 | Forgets all votes and all stake. |
| `DagStates.DagState.AcceptBlock` | consensus/core/src/dag_state.rs:89-107 | Refuses exactly an own block whose slot is taken; otherwise adds the block and keeps the cached references and the highest round those of the accepted blocks. |
| `DagStates.StaysConsistent` | consensus/core/src/dag_state.rs:104-106 | The per-author references, the highest round and the own blocks stay consistent with the accepted blocks. |
| `DagStates.DagState.Range` | consensus/core/src/dag_state.rs:124-155 | A range of the reference order lists exactly the accepted blocks in it, each once, ascending. |
| `DagStates.DagState.GetUncommittedBlocksAtSlot` | consensus/core/src/dag_state.rs:124-134 | The range query equals filtering all blocks by slot, in reference order. |
| `DagStates.DagState.GetUncommittedBlocksAtRound` | consensus/core/src/dag_state.rs:136-155 | The range query equals filtering all blocks by round, in reference order. |
| `DagStates.DagState.AncestorsAtUncommittedRound` | consensus/core/src/dag_state.rs:157-203 | Lists exactly the strict ancestors of the block at the round, each once, in reference order. |
| `DagStates.Descend` | consensus/core/src/dag_state.rs:173-196 | The worklist loop ends with exactly the ancestors of the block at the target round. |
| `DagStates.StaysBelow` | consensus/core/src/dag_state.rs:173-186 | What is left is always below everything expanded before, so no reference is expanded twice. |
| `Finality.FindSupportedExact` | consensus/core/src/base_committer.rs:188-211 | The search finds a block of the slot exactly when the history has one, and what it finds lies in the slot and the history. |
| `Finality.SupportStable` | consensus/core/src/base_committer.rs:188-211 | What a block supports is the same in every view that has the block. |
| `Finality.CertificateStable` | consensus/core/src/base_committer.rs:226-263 | Whether a block is a certificate is the same in every view that has it. |
| `Finality.EvidenceGrows` | consensus/core/src/base_committer.rs:319-383 | Larger views keep enough blame and enough support. |
| `Finality.LinkedLeadersStable` | consensus/core/src/base_committer.rs:284-303 | An anchor is linked to the same certified blocks in every view that has it. |
| `Finality.UniqueCertified` | consensus/core/src/base_committer.rs:226-263 | Even if a leader equivocates, at most one of its blocks is certified anywhere. |
| `Finality.BlameIsFinal` | consensus/core/src/base_committer.rs:83-89 | Once a quorum blames a slot, no block anywhere certifies a leader of it. |
| `Finality.QuorumInHistory` | consensus/core/src/base_committer.rs:284-303 | Every block above a round has, in its history at that round, a block of an honest member of any given quorum. |
| `Finality.SupportIsFinal` | consensus/core/src/base_committer.rs:352-383 | Once a quorum certifies a leader, every block from the round after the certificates on has one of them in its history. |
| `Finality.DirectNeverPanics` | consensus/core/src/base_committer.rs:103-107 | Two blocks of a slot never both have enough support, so the panic is unreachable. |
| `Finality.AnchorNeverPanics` | consensus/core/src/base_committer.rs:305-308 | No anchor is linked to two certified blocks of a slot, so the panic is unreachable. |
| `Finality.DecisionPanicsIff` | consensus/core/src/base_committer.rs:103-107 | In any view, deciding panics exactly when two blocks of the slot qualify. |
| `Finality.AnchorAgreesWithDirect` | consensus/core/src/base_committer.rs:83-140 | A direct decision in any view and a decision from an anchor in any other view are the same. |
| `Finality.DirectStable` | consensus/core/src/base_committer.rs:83-115 | A direct decision is made again, unchanged, in every larger view. |
| `Anchors.AnchorExact` | consensus/core/src/base_committer.rs:117-140 | The anchor is the committed leader at least a wave later before which all others at these rounds are skipped, and it is found whenever there is one. |
| `Anchors.SlotExact` | consensus/core/src/base_committer.rs:117-140 | A slot not decided directly is decided exactly when it has an anchor: committed if the anchor is linked to a certified block of it, else skipped. |
| `Anchors.ScanExact` | consensus/core/src/universal_committer.rs:62-76 | Every slot of a scan has its direct decision, or what its anchor among the later slots says, or is undecided for want of one. |
| `Blames.EnoughBlameIff` | consensus/core/src/base_committer.rs:319-348 | A slot is blamed enough exactly when the authorities whose blocks of the voting round all list some block by the leader's authority stay below validity. |
| `Blames.OlderBlockPreventsSkip` | consensus/core/src/base_committer.rs:326-332 | A graph without faults where a leader without a block stays undecided and holds up the sequence. |
| `Liveness.LockstepCommits` | consensus/core/src/base_committer.rs:83-115 | When a quorum proposes in every round and lists all of the round below, every leader two rounds below the highest is committed directly. |
| `Liveness.SteadyProgress` | consensus/core/src/universal_committer.rs:38-92 | Then one call commits every pending leader past genesis, in order. |
| `Liveness.PendingReach` | consensus/core/src/universal_committer.rs:47-54 | Of the rounds after the last decided one, a call takes in exactly the elected slots two rounds below the highest. |
| `SupportOrder.OrderFreeIff` | consensus/core/src/base_committer.rs:183-211 | A block supports a leader block under every order of the ancestors if and only if its history holds no other block of the slot. |
| `SupportOrder.SupportKept` | consensus/core/src/base_committer.rs:183-187 | Then every block that includes a supporter, directly or indirectly, supports the same block. |
| `SupportOrder.SupportChanges` | consensus/core/src/base_committer.rs:183-211 | A graph within all assumptions, where every block continues its author's last one and an honest author's later block, which includes its earlier one, supports a different block of the slot. |
| `BaseCommitters.BaseCommitter.IsCertificate` | consensus/core/src/base_committer.rs:226-263 | For any correct cache, the early-exit loop answers whether the distinct voting authors among the ancestors are a quorum, and leaves the cache correct. |
| `BaseCommitters.BaseCommitter.CheckVote` | consensus/core/src/base_committer.rs:234-245 | A cached or freshly searched answer is right and is recorded. |
| `BaseCommitters.BaseCommitter.EnoughLeaderBlame` | consensus/core/src/base_committer.rs:319-348 | Answers whether the distinct authors of blame blocks at the voting round are a quorum. |
| `BaseCommitters.BaseCommitter.EnoughLeaderSupport` | consensus/core/src/base_committer.rs:352-383 | With the quick rejection by total stake, still answers whether the distinct authors of certificates at the decision round are a quorum. |
| `BaseCommitters.AuthorStakesBound` | consensus/core/src/base_committer.rs:358-370 | Counting authors repeatedly never underestimates their stake, so the quick rejection is sound. |
| `BaseCommitters.BaseCommitter.CountCertificates` | consensus/core/src/base_committer.rs:372-382 | Sharing one vote cache over all certificates does not change the count. |
| `BaseCommitters.BaseCommitter.TryDirectDecide` | consensus/core/src/base_committer.rs:83-115 | Returns the direct decision of the rule, the panic included. |
| `BaseCommitters.BaseCommitter.DecideLeaderFromAnchor` | consensus/core/src/base_committer.rs:268-316 | Returns the decision of the rule for the anchor, the panic included. |
| `BaseCommitters.BaseCommitter.AnyCertificate` | consensus/core/src/base_committer.rs:284-303 | Answers whether the anchor has a certificate for the leader in its history at the decision round. |
| `BaseCommitters.BaseCommitter.TryIndirectDecide` | consensus/core/src/base_committer.rs:117-140 | Finds the first committed anchor a wave later that no undecided leader precedes, and returns the rule's decision. |
| `LeaderSlots.CommitterOptions.WaveArithmetic` | consensus/core/src/base_committer.rs:142-181 | A committer leads exactly every wave-length-th round from its offset, and the decision round is always round plus wave length minus 1. |
| `LeaderSlots.Build` | consensus/core/src/universal_committer.rs:174-199 | Builds one committer per leader offset and pipeline stage, in that order. |
| `LeaderSlots.BuiltLeaders` | consensus/core/src/universal_committer.rs:174-199 | The built committers elect all scheduled leaders in offset order, in every round when pipelined, else in the first round of each wave. |
| `LeaderSlots.BuiltDistinct` | consensus/core/src/universal_committer.rs:174-199 | With a schedule injective in the offset, no slot is elected twice. |
| `LeaderSlots.LeadersFromElected` | consensus/core/src/universal_committer.rs:96-102 | The leaders of a round are exactly those its committers elect. |
| `LeaderSlots.SlotsBetweenElected` | consensus/core/src/universal_committer.rs:47-54 | The scanned slots are exactly the elected slots of the rounds. |
| `LeaderSlots.SlotsBetweenAscending` | consensus/core/src/universal_committer.rs:47-54 | They are listed by round. |
| `LeaderSlots.PendingExact` | consensus/core/src/universal_committer.rs:47-60 | The slots decided in one call are those after the last decided one in its round, then all elected slots up to two rounds below the highest. |
| `LeaderSlots.PendingSlotsGrow` | consensus/core/src/universal_committer.rs:47-60 | Seeing higher rounds only appends slots. |
| `UniversalCommitters.TryCommit` | consensus/core/src/universal_committer.rs:38-92 | The downward scan with its break returns the commit sequence of the rule: all pending slots decided from last to first, then the decided prefix past genesis. |
| `UniversalCommitters.ScanRound` | consensus/core/src/universal_committer.rs:47-78 | One round of the scan extends the decisions to its leaders, or has reached the last decided slot with the final result. |
| `UniversalCommitters.DecideSlot` | consensus/core/src/universal_committer.rs:62-76 | A direct decision or else an indirect one extends the decisions by the slot in front. |
| `Agreement.BeyondReach` | consensus/core/src/universal_committer.rs:43-47 | A slot above the scanned rounds is never committed directly, and skipped directly only in the round below the highest. |
| `Agreement.DecidedPrefixExact` | consensus/core/src/universal_committer.rs:80-91 | The output is a prefix of decided statuses, and the status after it is undecided. |
| `Agreement.DecisionsNeverPanic` | consensus/core/src/universal_committer.rs:47-78 | No slot of any view panics. |
| `Agreement.DecisionsKept` | consensus/core/src/universal_committer.rs:47-78 | Every slot decided in a view has the same status in every larger view, by induction from the last slot to the first. |
| `Agreement.Stability` | consensus/core/src/universal_committer.rs:38-92 | Growing a view extends its commit sequence and revises nothing. |
| `Agreement.Agreement` | consensus/core/src/universal_committer.rs:38-92 | For any two views, any number of leaders and any pipelining, one commit sequence is a prefix of the other. |
| `Runs.PendingAfter` | consensus/core/src/universal_committer.rs:56-60 | Starting again from a pending slot leaves exactly the slots that followed it. |
| `Runs.Continuation` | consensus/core/src/universal_committer.rs:38-92 | Calling again from the last decided slot returns exactly the remainder of the sequence. |
| `Runs.CallsAddUp` | consensus/core/src/universal_committer.rs:38-92 | Over any growing views, the concatenated outputs equal one call on the last view: nothing is repeated or skipped. |
| `Runs.RunAgreement` | consensus/core/src/universal_committer.rs:38-92 | The logs of any two validators, over whole runs, are prefixes of one another. |
| `WaveLengths.LateDecision` | consensus/core/src/base_committer.rs:83-115 | For every longer wave, a graph where the leader is skipped in one view and committed in a smaller one. |
| `WaveLengths.LongWavesDisagree` | consensus/core/src/universal_committer.rs:38-92 | For every wave length above 3, two views output conflicting sequences, although nobody equivocates and every block continues its author's last one. |
| `WaveLengths.SkipMissed` | consensus/core/src/universal_committer.rs:43-47 | A graph where the leader of the round below the highest is directly skipped, but a call decides nothing. |
| `WaveLengths.AgreementIff` | consensus/core/src/commit.rs:11-17 | Agreement holds at a wave length if and only if it is the default one. |
| `ThresholdClocks.ThresholdClock.constructor` | consensus/core/src/threshold_clock.rs:24-31 | Starts at the given round with nobody counted. |
| `ThresholdClocks.ThresholdClock.AddBlock` | consensus/core/src/threshold_clock.rs:47-74 | Ignores lower rounds, counts the current one and advances at a quorum, and jumps to higher ones. |
| `ThresholdClocks.ThresholdClock.AddBlocks` | consensus/core/src/threshold_clock.rs:39-45 | Adds all blocks and reports the new round exactly when the clock advanced. |
| `ThresholdClocks.TicksReflect` | consensus/core/src/threshold_clock.rs:39-74 | When nobody is a quorum alone, the state depends only on the set of blocks seen. |
| `ThresholdClocks.OrderIndependent` | consensus/core/src/threshold_clock.rs:39-74 | The round equals the closed form for every sequence if and only if no single authority is a quorum. |
| `ThresholdClocks.LoneQuorumMissed` | consensus/core/src/threshold_clock.rs:52-56 | One block by an authority that is a quorum alone leaves the clock a round behind the closed form. |
| `Transactions.Submit` | consensus/core/src/transactions_client.rs:115-127 | Queues the transaction exactly when it is within the size limit. |
| `Transactions.TransactionsConsumer.Next` | consensus/core/src/transactions_client.rs:48-74 | Returns the next batch and leaves what the specification leaves pending and queued. |
| `Transactions.PullUnique` | consensus/core/src/transactions_client.rs:48-74 | A pull is the only way to share out what waits such that a batch ends exactly when the next transaction would exceed the bytes, the count is reached, or nothing is left. |
| `Transactions.RunGreedy` | consensus/core/src/transactions_client.rs:48-74 | So does every proposal of every run. |
| `Transactions.DrainConserves` | consensus/core/src/transactions_client.rs:58-73 | Draining keeps order and loses nothing. |
| `Transactions.RunConserves` | consensus/core/src/transactions_client.rs:48-74 | Over every run, the batches, the pending transaction and the queue are exactly the accepted transactions in order. |
| `Transactions.RunWaiting` | consensus/core/src/transactions_client.rs:48-74 | Everything waiting was accepted, and with fitting limits and a count limit of 0 or 1 nothing is ever set aside. |
| `Transactions.RunBytes` | consensus/core/src/transactions_client.rs:48-74 | With fitting limits every batch of every run is within the byte limit. |
| `Transactions.RunCount` | consensus/core/src/transactions_client.rs:48-74 | Every batch of every run holds at most the count limit, or one. |
| `Transactions.OversizedRun` | consensus/core/src/transactions_client.rs:48-66 | A transaction larger than a batch is set aside and then delivered alone, over the limit. |
| `Transactions.OvercountedRun` | consensus/core/src/transactions_client.rs:48-72 | After one is set aside, a count limit of 0 or 1 lets a batch of two through. |
| `Transactions.BytesRespectedIff` | consensus/core/src/transactions_client.rs:48-74 | The byte limit is respected in every run if and only if the largest accepted transaction fits a batch. |
| `Transactions.CountRespectedIff` | consensus/core/src/transactions_client.rs:48-74 | The count limit is respected in every run if and only if that holds or the limit is at least 2. |
| `BlockManagers.SortByRound` | consensus/core/src/block_manager.rs:32 | A permutation of the blocks, ordered by round, in which blocks of the same round keep their order. |
| `BlockManagers.BlockManager.AddBlocks` | consensus/core/src/block_manager.rs:29-41 | Accepts exactly the new references, one block each, ordered by round, and remembers all of them. |
| `Nodes.TicksSound` | consensus/core/src/threshold_clock.rs:47-74 | The clock never runs ahead of a known quorum of the round below it, and never behind a known block. |
| `Nodes.CompressionCovers` | consensus/core/src/core.rs:227-250 | Every pending block left out of the references is in the history of a referenced one. |
| `Nodes.TopNotCompressed` | consensus/core/src/core.rs:227-250 | Blocks of the round just below the clock are always referenced. |
| `Nodes.ProposalValid` | consensus/core/src/core.rs:139-205 | A proposal is for a higher round than the last, references it, only known blocks of lower rounds, and a quorum of the round below. |
| `Nodes.ProposalLosesNothing` | consensus/core/src/core.rs:209-251 | After proposing, every known block is pending or in the history of the proposal. |
| `Nodes.ProposalOwn` | consensus/core/src/core.rs:139-205 | The proposal is the only own block of its round. |
| `Nodes.ProposalKeepsInv` | consensus/core/src/core.rs:139-205 | Proposing keeps the invariant of the validator. |
| `Nodes.AcceptingKeepsInv` | consensus/core/src/core.rs:86-125 | Accepting received blocks keeps the invariant of the validator. |
| `Compression.ProposalMinimal` | consensus/core/src/core.rs:227-248 | Besides the last proposal, a proposal references only pending blocks that no pending block below the clock references. |
| `Compression.RunMinimal` | consensus/core/src/core.rs:227-248 | So does every proposal of every run. |
| `Compression.ProposalIrredundant` | consensus/core/src/core.rs:227-248 | No reference but that to the last proposal is in the history of another. |
| `Compression.RunIrredundant` | consensus/core/src/core.rs:86-251 | So in every run that accepts no known block again. |
| `Compression.AcceptedAgain` | consensus/core/src/core.rs:86-125 | A known block accepted again can be referenced although the last proposal implies it. |
| `NodeRuns.RunKeepsInv` | consensus/core/src/core.rs:86-251 | In every run nothing accepted is lost: each block is pending or in the history of the last proposal. |
| `NodeRuns.RunProposals` | consensus/core/src/core.rs:139-205 | In every run the proposals have strictly increasing rounds, and each references its predecessor, lower rounds only and a parent quorum. |
| `NodeRuns.HonestNodeSuffices` | consensus/core/src/core.rs:139-251 | A node in a sound state provides what the commit rule assumes of its author's blocks. |
| `Consensus.ArisesGlobal` | consensus/core/src/core.rs:44-251 | If honest blocks come from runs of this code from genesis and the others reference parent quorums, all assumptions of the commit rule hold. |
| `Consensus.ConsensusAgreement` | consensus/core/src/core.rs:44-251 | Then the logs of any two validators, over whole runs, are prefixes of one another. |
| `ClockRuns.ClockExact` | consensus/core/src/threshold_clock.rs:39-74 | In every run of a validator from genesis the clock equals the closed form of all blocks it knows, its own included. |
| `Cores.LeaderListed` | consensus/core/src/core.rs:256-282 | A proposal that waited for the leader references a block of the round below by that round's leader. |
| `Cores.GenesisNode` | consensus/core/src/core.rs:44-82 | The genesis blocks alone satisfy the invariant, with the clock at round 1. |
| `Cores.Core.constructor` | consensus/core/src/core.rs:44-82 | Starts valid from one genesis block per authority, the own one being the last proposal. |
| `Cores.Core.AddBlocks` | consensus/core/src/core.rs:86-125 | Accepts exactly the new blocks, then proposes exactly when the clock is ahead of the last proposal and the leader is pending; the proposal lists that leader's block, known blocks are accepted again only if they are genesis blocks, and state and payload follow the specification. |
| `Cores.Core.ForceNewBlock` | consensus/core/src/core.rs:128-135 | Proposes exactly when the last proposal is below both the requested and the clock round. |
| `Cores.Core.TryNewBlock` | consensus/core/src/core.rs:139-205 | Proposes exactly when the clock has advanced and the leaders are there or not waited for; the new state follows the specification. |
| `Cores.Core.AncestorsToPropose` | consensus/core/src/core.rs:209-251 | Returns exactly the compressed references and drops the pending rounds below the clock. |
| `Manifests.AppendSegment` | crates/mgo-archival/src/lib.rs:192-208 | Adding the two files of the next segment keeps a manifest sound. |
| `Manifests.FilesWithin` | crates/mgo-archival/src/lib.rs:192-208 | Every listed file is non-empty and within the manifest's checkpoints and epochs. |
| `Manifests.PathsDistinct` | crates/mgo-archival/src/lib.rs:117-131 | No two files of a sound manifest share a path. |
| `CheckpointWriters.CheckpointWriter.constructor` | crates/mgo-archival/src/writer.rs:73-120 | Continues after the manifest with new files in a clean directory. |
| `CheckpointWriters.CheckpointWriter.Write` | crates/mgo-archival/src/writer.rs:132-185 | Fails exactly on a checkpoint out of sequence, an epoch off by more than one, or contents that do not match the summary; otherwise cuts and appends as specified. |
| `CheckpointWriters.CheckpointWriter.CutFiles` | crates/mgo-archival/src/writer.rs:222-237 | Finishes, lists and sends the open files, unless they are empty. |
| `CheckpointWriters.CheckpointWriter.ResetFiles` | crates/mgo-archival/src/writer.rs:291-302 | Opens new files where the last ones ended. |
| `CheckpointWriters.WriteOkIff` | crates/mgo-archival/src/writer.rs:132-162 | A write fails exactly on a checkpoint that is not the next, an epoch that is neither the open one nor the next, or contents that do not match. |
| `CheckpointWriters.DirectoryCleared` | crates/mgo-archival/src/writer.rs:85-88 | Starting and entering an epoch leave only the two new files in its directory, and other directories alone. |
| `FileSizes.FilesFilled` | crates/mgo-archival/src/writer.rs:164-174 | From any sound manifest, every file ends exactly before the first checkpoint of another epoch, after the commit duration, or beyond the size limit; so it holds one checkpoint or stays within the limit. |
| `CheckpointWriters.CutSound` | crates/mgo-archival/src/writer.rs:222-237 | A cut keeps the manifest sound and the files it lists staged with their content. |
| `CheckpointWriters.EpochSound` | crates/mgo-archival/src/writer.rs:132-160 | Changing the epoch cuts the open segment, clears only the new epoch's directory, and keeps staged files. |
| `CheckpointWriters.WriteSound` | crates/mgo-archival/src/writer.rs:132-185 | Writing the next checkpoint succeeds, keeps the writer's invariant, cuts at most one single-epoch segment and never replaces a staged file. |
| `ArchiveSafety.UploadSummaryKeeps` | crates/mgo-archival/src/writer.rs:446-458 | Uploading the summary file keeps the archive's invariant. |
| `ArchiveSafety.UploadContentKeeps` | crates/mgo-archival/src/writer.rs:460-468 | Uploading the content file keeps it. |
| `ArchiveSafety.PublishKeeps` | crates/mgo-archival/src/writer.rs:470-475 | Publishing happens only when both files are in the archive, and adds exactly their segment. |
| `ArchiveSafety.WriteConnectedKeeps` | crates/mgo-archival/src/writer.rs:398-433 | A write keeps the invariant, whatever is in flight. |
| `ArchiveSafety.WriteAloneKeeps` | crates/mgo-archival/src/writer.rs:398-433 | So does a write after the uploader stopped. |
| `ArchiveSafety.RestartKeeps` | crates/mgo-archival/src/writer.rs:347-396 | Restarting from the published manifest keeps the invariant, whatever was left in the staging directory. |
| `ArchiveSafety.StepKeeps` | crates/mgo-archival/src/writer.rs:347-497 | Every step keeps the invariant and the segments published so far. |
| `ArchiveRuns.CrashSafe` | crates/mgo-archival/src/writer.rs:347-497 | In every state of every run with crashes and restarts, the published manifest tiles its checkpoints with non-empty single-epoch files under distinct paths, all in the archive with their recorded content; earlier manifests stay as readable. |
| `ArchiveRuns.ResumableIff` | crates/mgo-archival/src/writer.rs:351-368 | After any run that ends with both processes down, the archive can go on if and only if a manifest was published or no upload was begun. |
| `ArchiveRuns.PublishedNeverStuck` | crates/mgo-archival/src/writer.rs:351-368 | Once a manifest was published, no later state of the run is stuck. |
| `ArchiveRuns.StuckReachable` | crates/mgo-archival/src/writer.rs:351-368 | For every chain a run leads to the state that cannot start again. |
| `ArchiveStaging.UploadedGone` | crates/mgo-archival/src/writer.rs:487-497 | In every run an uploaded file is in the archive and no longer staged, nor staged again before the next start. |
| `ArchiveReaders.SortSorted` | crates/mgo-archival/src/reader.rs:193-194 | Sorting the files orders them by start and keeps them all. |
| `ArchiveReaders.VerifySound` | crates/mgo-archival/src/reader.rs:172-214 | For any manifest, what passes verification is all of its files, paired by range and end to end from 0. |
| `ArchiveReaders.VerifyComplete` | crates/mgo-archival/src/reader.rs:172-214 | On a sound manifest no assertion fails, and the pairs come out one per segment, in order. |
| `ArchiveReaders.VerifyAccepts` | crates/mgo-archival/src/reader.rs:172-214 | Any manifest whose files, ordered by start, pair up end to end from 0 passes in that order. |
| `ArchiveReaders.AfterEpochExact` | crates/mgo-archival/src/lib.rs:170-191 | The least archived checkpoint of a later epoch, or the maximum if there is none; a panic when nothing is archived. |
| `ArchiveReaders.BinarySearch` | crates/mgo-archival/src/reader.rs:391-403 | Finds the file that starts at the key, or where it would be inserted. |
| `ArchiveReaders.SelectFiles` | crates/mgo-archival/src/reader.rs:391-403 | Selects from the last file that starts no later than the range up to the first that starts at its end or later; the first index never underflows on files that start from 0. |
| `ArchiveReaders.SelectionIsFilter` | crates/mgo-archival/src/reader.rs:391-408 | On verified files the selected indices are exactly the files that overlap the range. |
| `ArchiveReaders.FetchFiles` | crates/mgo-archival/src/reader.rs:405-473 | Reads the selected files in order, inserts what is in the range, and stops at the first missing or malformed file or checkpoint whose contents do not match its summary. |
| `ArchiveReaders.FetchOkIff` | crates/mgo-archival/src/reader.rs:405-473 | Reading succeeds exactly when all selected files are there, of their kind, and every checkpoint of the range matches its summary. |
| `ArchiveReaders.Read` | crates/mgo-archival/src/reader.rs:364-474 | Fails when the range starts past the archive; inserts only genuine checkpoints of the range whatever the manifest; on a trustworthy manifest returns exactly the checkpoints of the range up to the manifest's next one, in order. |
| `ArchiveReaders.ReadBack` | crates/mgo-archival/src/reader.rs:364-474 | In any run, a reader with the manifest of any earlier state reads back exactly the original checkpoints. |

## Left out

- Signatures, hashing and BCS encoding: references are unique identifiers, and file digests stand for the file's data.
- The weighted random leader schedule: an arbitrary function of round and offset, injective in the offset where distinct leaders matter.
- Missing and suspended blocks of the block manager, which the source does not implement, and block verification: received blocks are assumed to be well formed and to come with their history.
- Loading `DagState` from storage and the eviction of old blocks: the model's state starts empty and keeps every block accepted.
- Timestamps: the check in `ancestors_to_propose` that time does not run backwards is dropped, and whether the commit duration has passed is an arbitrary input of each write.
- Metrics, signals to other threads, the leader timeout, channel capacities and the asynchronous runtime.
- Overflow of rounds, stakes, sequence numbers and sizes: all are natural numbers.
- Compression, checksums, Blob encoding and the file system: a file is the sequence of values written to it, and one upload is one step. What a crash leaves in the staging directory is arbitrary at the next start.
- Remote failures: an upload whose local file exists succeeds.
- FetchFiles: does not model the verification of checkpoint summaries against earlier ones, nor failures of the store.
- The concurrency of the reader, and `read_summaries`, which selects files as `read` does.
- The number of transactions counted by `read`.
- The archive reader balancer, the full archive verification commands, and `sync_manifest`, which only overwrites the manifest.
- Submit: the channel is a sequence without capacity, so a client that waits for space is not modelled.
- BinarySearch: on files not ordered by start nothing is promised beyond the bounds of the index, as for the source's library function.
