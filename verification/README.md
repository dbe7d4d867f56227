# Ockham, verified

A Dafny model of the consensus node of Ockham: the Simplex state machine with its persisted record, block
sync and timeouts; the executor with its validator registry, slashing and system contract; the transaction
pool and the base-fee rule; the evidence pool; the state overlay; the receipts root and the block-hash walk.
`dafny verify dfyconfig.toml` checks every proof.

## How the model is built

Handlers are functions on node values (`Consensus`), so that whole runs, restarts and networks of nodes can
be quantified over. What the source updates in place is also modelled in place and proved equal to those
functions: `SimplexModel.SimplexState` over a shared `Database`, `ExecutorModel.Executor` over the
`StateManager` in that database, `TxPoolModel.TxPool`, `EvidencePoolModel.EvidencePool`, `StateOverlayModel.StateOverlay`, and
the loops of the receipts root and of the block-hash walk.

What the code takes from outside becomes a parameter. Digests are functions (`Env.hash` and friends);
collision-freedom and "no digest is zero" are hypotheses where a theorem needs them. A signature is the
multiset of (key, message) pairs it aggregates. The EVM is a function that returns account writes, status and
gas. The order in which a hash map is visited is an argument, and so are the transactions a proposal carries.

## The layers

- `Consensus` holds the handlers, `Frames` what each of them leaves alone, `Emissions` what each of them may
  emit and from what.
- `Validation`, `Building` and `Availability` say what a handler stores, proposes and counts, in terms of the
  block and the votes alone.
- `Recovery`, `Discipline`, `VoteTables`, `EvidenceFlow`, `Intents`, `Views`, `BlockSync`, `Ancestry`,
  `BlockHashWalk` and `RisingViews` are about every run of one node, with restarts anywhere and commits that may
  fail.
- `Quorums`, `Network`, `Agreement`, `Certificates`, `Finality`, `Conviction` and `SingleChain` are about every
  run of a network. A world is the nodes plus every vote and block in circulation. Any node may handle any deliverable message at any time;
  timeouts, restarts and failing commits are free. With faulty members, their votes count for everything and
  blocks may be anything. `SampleRun` exhibits a run within all their hypotheses.
- `Vm` holds the executor and `Effects` what a transaction and a payload do, by lookups. `Lifecycle`, `Rotation`,
  `Funds` and `Inactivity` are about every sequence of executed blocks; `DryRun`, `CommitSync` and `Ledgers` about
  the node's two uses of the executor, so that those theorems hold of a node's disk.

## What the code does not guarantee by itself

The theorems below hold of the code as it is; where a promise fails, the exact condition is proved.

- `try_propose` votes for the node's own block without recording it in `last_voted_view`, and the chained
  path overwrites that field without a comparison. A node can so vote twice in one view
  (`LaunchThenRivalVotesTwice`). Block votes climb strictly if and only if each voting step respects a guard the
  caller can check (`VotesClimbIffGuarded`); a step keeps to one block per view if and only if it does not vote
  where the node voted for another block (`OneBallotIff`), and the guard ensures that (`GuardedRunsQualify`).
- `on_timeout` ignores `last_voted_view`, so a node may vote for a block and for the dummy in one view
  (`BallotThenTimeout`). `OneHashIff` says exactly which steps do.
- `verify_qc` checks signatures but no quorum size, so one signature of any key makes a certificate that nodes
  vote to finalize (`OneSignerSuffices`). Votes sign the hash and not the view, so a certificate of one view, a
  dummy certificate above all, verifies for every other view (`RelabelledFinalizes`). Counting the members among
  the signers is exactly the check that is missing: a certificate passes it if and only if it is genuine in
  every network whose correct members sent the votes it shows (`CheckIsExact`). In runs of nodes that make it,
  agreement on finalize votes and finalizations holds with up to a third of the members faulty
  (`CheckedAgreement`). For a certificate that names a known block and its view the signatures of the code
  suffice (`RealCertificateSuffices`).
- Accepted evidence does not prove equivocation: view labels are unsigned, and kinds and dummies are not looked
  at, so it convicts exactly the authors that signed two different hashes at all (`ConvictableIff`).
- `on_proposal` stores a block and does not release the blocks that wait for it; `StepSticksIff` says exactly
  which steps leave blocks stuck. Syncing is confluent on such nodes too: a stuck block is processed once its
  parent is delivered again (`SyncIsLeastClosure`).
- `on_finalize_vote` counts votes per view and commits the hash of the vote that crosses the threshold
  (`LastVoteDecides`). That hash has a threshold behind it exactly when the other counted votes that name it
  are one short of the threshold (`CommittedHashBackedIff`); then it is the certified one
  (`ThresholdFinalization`).
- A commit that fails halfway can leave a record whose committee differs from the node's
  (`UnpaidCallDesyncs`). Record and node agree exactly when the block executes or its evidence and its
  certificate cost no member its seat (`HandleSyncedIff`), and over a run that is exactly when the node's disk
  stays what executing its committed blocks gives (`NodeFollowsIff`). The five positions always agree
  (`HandleAnchored`), and only claims about the committee after a restart need more.
- Loading a record resets the block gas limit to the default (`SyncedRestarts`).
- Stakes and balances wrap at 256 bits, and the genesis account starts with 2^256 - 1 next to its stake. Each
  accepted call that wraps loses exactly 2^256 (`Conservation`); the genesis validator can make one
  (`GenesisCallWraps`).
- The one-eighth bound on base-fee steps holds exactly for even gas limits (`BoundedIffEven`).
- The early exit of the block-hash walk is exact exactly when views along the ancestors never rise to a view
  not met before (`LookupIsScanIff`), and a store where they do is reachable (`LookupMissesAncestor`).
- The queue step writes nothing when it touches no member, so a due exit entry of a key already gone stays and
  keeps that key from withdrawing (`ExitEntryStaysIff`).

## Model

| member | source | states |
|---|---|---|
| Network.CertificateAgreement | src/consensus.rs:459-476 | in every run with at most a third (rounded down from n-1) of the members faulty, where no correct node votes for two blocks in one view, two certificates for one view formed by correct nodes, neither for the dummy, certify the same block; timeouts, restarts, failing commits and echoed blocks interleave freely |
| Network.OneBallotIff | src/consensus.rs:278-281 | a step keeps to one voted block per node and view if and only if it is not about to vote, by the guards of its branch, in a view where the node voted for another block |
| Intents.BallotsIntended | src/consensus.rs:459-476 | a step votes for exactly the block its guards announce: a valid proposal above last_voted_view, the launched block, or the next leader's block on a completed certificate |
| Intents.StepSticksIff | src/consensus.rs:439-487 | a step leaves a buffered block waiting for a parent that is there if and only if it stores, other than by a sync, a block that is waited for |
| Network.GuardedRunsQualify | src/consensus.rs:459-476 | every run whose voting steps respect the guard on last_voted_view and launches is such a run: the recorded field keeps nodes from voting twice |
| Network.RunInv | src/consensus.rs:491-562 | the network invariant: tables hold only sent votes of members, certificates are backed by a quorum, positions on disk are the node's, every correct author has at most one voted block per view |
| Network.InvStep | src/consensus.rs:491-562 | every allowed step of every node keeps that invariant |
| Network.CompletedBacked | src/consensus.rs:528-555 | the votes counted for a new certificate come from a threshold of distinct members, each faulty or having sent that very vote |
| Network.FinalizationQuorum | src/consensus.rs:767-776 | in every run each finalized view has finalize votes from a threshold of distinct members, although tables are lost at restarts |
| Quorums.QuorumsIntersect | src/consensus.rs:530-545 | for every committee size any two quorums share a member that is not faulty |
| Quorums.ThresholdOverlap | src/consensus.rs:530-530 | twice the threshold minus n exceeds a third of n-1, for all n |
| Availability.RemainingMembersCertify | src/consensus.rs:530-565 | whichever (n-1)/3 members are faulty and whatever they voted for, the votes of the others for one hash, in any order, certify it in a view without a certificate, and one vote fewer does not |
| Availability.RemainingMembersFinalize | src/consensus.rs:768-777 | likewise the finalize votes of the remaining members raise the finalized height to their view, and one vote fewer does not |
| Availability.VoteCertifiesIff | src/consensus.rs:528-569 | a consistent vote is filed over the author's earlier one; it brings a certificate with the listed signers, and a finalize vote for it, if and only if the view has none and the voters for the hash number n-(n-1)/3 |
| Availability.VoteFinalizesIff | src/consensus.rs:767-777 | a finalize vote is filed; it raises the height if and only if its view is above it and n-(n-1)/3 have voted in that view, and otherwise changes nothing else |
| Agreement.FinalizationAgreement | src/consensus.rs:767-806 | up to a third faulty, delivered blocks carry genuine certificates, correct nodes notarize one hash per view: a finalization whose hash a correct member's counted vote names is for the one hash that every certificate, justification and correct finalize vote of the view names, and nodes store the same block under it |
| Agreement.ThresholdFinalization | src/consensus.rs:772-789 | in such runs a finalization whose hash a threshold of the counted votes name is for that hash |
| Agreement.CrashFinalizationAgreement | src/consensus.rs:767-806 | with crashes only nothing is assumed of blocks: all nodes that finalize a view finalize one hash, so they commit the same block or all skip the dummy |
| Agreement.FinalizeVotesAgree | src/consensus.rs:283-289 | up to a third faulty, under the same hypotheses: every finalize vote of a correct node names a hash a quorum notarized, the unique hash of its view |
| Certificates.CheckIsExact | src/consensus.rs:823-831 | a certificate has a threshold of members among its signers, or is the genesis one, if and only if it is genuine in every network that attests it, whichever third is faulty |
| Certificates.FinalizeVoteSureIff | src/consensus.rs:479-484 | the finalize vote a node casts on a block is sure to be backed by a quorum if and only if the block's certificate passes that check |
| Certificates.CheckedRunsAreGenuine | src/consensus.rs:419-420 | every run whose delivered certificates pass the check delivers genuine certificates only |
| Certificates.CheckedAgreement | src/consensus.rs:767-806 | so in such runs, up to a third faulty and one notarized hash per correct node and view, correct finalize votes of a view name its one certified hash, and finalizations that a correct vote or a threshold counts for are for it |
| Certificates.RealCertificateSuffices | src/consensus.rs:823-831 | with the signatures the code makes, a verified certificate with a threshold of members that names a known block and that block's view is genuine |
| Agreement.CrashRunsAreGenuine | src/consensus.rs:687-738 | without faulty members every run delivers genuine certificates only |
| Finality.OneSignerSuffices | src/consensus.rs:823-831 | a certificate with one signer of any key verifies, and a node that re-executes a block carrying it votes to finalize the hash it names |
| Finality.RelabelledFinalizes | src/consensus.rs:670-680 | a verified certificate relabelled to any other view verifies there and draws a finalize vote for that view |
| Conviction.AnyTwoHashesConvict | src/vm.rs:322-343 | two votes of one author for different hashes, of whatever views and kinds, make evidence the executor slashes on |
| Conviction.SentPairsAcceptedIff | src/vm.rs:322-343 | of votes as sent, accepted evidence is exactly two of one author with one view label and different hashes |
| Conviction.ConvictableIff | src/vm.rs:322-343 | accepted evidence from an author's signatures exists if and only if the author signed two different hashes |
| Finality.CommittedHashBackedIff | src/consensus.rs:767-789 | the vote that crosses the threshold decides what is committed, and its hash has a threshold of the view's votes behind it if and only if the others naming it are one short |
| Finality.FirstCrossingIff | src/consensus.rs:772-774 | when the count is first reached, that is if and only if all the other votes name it |
| Finality.LastVoteDecides | src/consensus.rs:772-789 | at four members two votes for one hash and one for another commit the other |
| Agreement.ProposalsGenuine | src/consensus.rs:687-738 | in crash-fault runs every proposal comes from the leader of its view and carries a certificate of the view before that a quorum voted for |
| Agreement.RunGround | src/consensus.rs:833-840 | in runs with genuine certificates stored and buffered blocks were in circulation and sit under their hash, and the preferred block is genesis or backed by a quorum with no higher real certificate at the node |
| Agreement.HandleGround | src/consensus.rs:439-654 | every handler, the sync recursion included, keeps blocks sourced and the preferred block backed |
| Agreement.OneHashIff | src/consensus.rs:657-668 | a step keeps to one notarized hash per node and view if and only if it neither times out after a block vote nor votes for a block after a timeout |
| Agreement.BallotThenTimeout | src/consensus.rs:657-668 | every block vote cast on a proposal can be followed by a dummy vote in the same view |
| SingleChain.FinalizedBlocksFormOneChain | src/consensus.rs:767-806 | in caught-up crash runs the blocks finalized by any two nodes in any two views lie on one chain |
| SingleChain.NotarizedBlocksFormOneChain | src/consensus.rs:582-588 | when proposers hold all earlier certificates, every notarized block has every earlier notarized block as an ancestor, however many dummy views lie between |
| SingleChain.RunChain | src/consensus.rs:217-224 | in such runs each proposed block descends from the certified block of each earlier view and extends genesis or a block of an earlier view |
| SingleChain.ParentView | src/consensus.rs:833-840 | the parent chosen is the certified block of the last view that was not a dummy, or genesis |
| SingleChain.WalkExactOnChain | src/state.rs:343-389 | at every node of such a run the early-exit block-hash lookup equals the full scan |
| SampleRun.LoneValidatorFinalizes | src/consensus.rs:207-296 | the hypotheses above can be met together: from an empty disk a lone validator launches, certifies and finalizes its block within them |
| Discipline.VotesClimbIffGuarded | src/consensus.rs:459-476 | over every interleaving of handlers and restarts, block votes are cast at strictly increasing views if and only if each voting step respects the guard |
| Discipline.LaunchThenRivalVotesTwice | src/consensus.rs:278-281 | the family outside the guard: a node that proposes at launch and then receives a valid rival of its view votes for both |
| Discipline.HandleRules | src/consensus.rs:459-476 | a step casts at most one block vote, at the view its event fixes, on a proposal only above last_voted_view, and the persisted record already covers it unless cast at launch |
| Discipline.EchoRepeatsVote | src/consensus.rs:459-476 | a launched block echoed to its author only repeats the launch vote |
| Discipline.RunAnchored | src/consensus.rs:842-881 | in every run, with failing commits too, view, finalized height, preferred block and view, and last voted view on disk are the node's |
| Discipline.ChainedRules | src/consensus.rs:615-642 | the chained proposal persists last_voted_view at the proposed view before its vote exists |
| Discipline.RestartEquivalence | src/consensus.rs:92-122 | in every run with clean commits, starting again on the same storage rebuilds the same views, preferred block, last voted view and committee |
| Discipline.FinalizedIncreasing | src/consensus.rs:774-779 | finalized views, and so committed blocks, strictly increase across restarts |
| Recovery.HandleAnchored | src/consensus.rs:842-881 | every handler keeps the five positions on disk, whether or not a commit succeeds |
| Recovery.AnchoredRestarts | src/consensus.rs:92-122 | a restart from such a record restores the positions and takes its committee |
| CommitSync.HandleSyncedIff | src/consensus.rs:788-806 | with the modelled executor, the record equals the node's own fields after a handler if and only if no block is committed, or the block executes, or its evidence and its certificate cost no member its seat |
| CommitSync.UnpaidCallDesyncs | src/consensus.rs:793-794 | the failing input: evidence that removes a member together with a system call its sender cannot pay for |
| CommitSync.FailingBlockCommittee | src/vm.rs:60-75 | after a failing block the stored committee is the old one if and only if nobody was slashed out or timed out |
| Recovery.SyncedRestarts | src/consensus.rs:92-122 | what a restart restores and what it empties |
| Recovery.FreshSynced | src/consensus.rs:125-193 | a node on an empty or used disk starts in step with its record |
| Recovery.ExecutorKeepsPositions | src/vm.rs:51-253 | executing any block, successfully or not, never changes views, preferred block, finalized height or last voted view in the shared record |
| Recovery.ExecutorQualifies | src/vm.rs:51-253 | a node that commits with the modelled executor meets the hypothesis of the run theorems |
| Frames.PersistFrame | src/consensus.rs:842-881 | persisting makes the record agree with the node and never alters queues, stakes or scores |
| Frames.CertifyFrame | src/consensus.rs:557-645 | a new certificate changes only certificates, view, preferred block, and blocks and last voted view when it proposes; the view passes the certified one |
| Frames.StoreFrame | src/consensus.rs:305-434 | storing a block touches only blocks, preferred block, buffer and evidence, and moves the preferred block only to what the block's certificate names |
| Frames.FinalizeFrame | src/consensus.rs:767-821 | a finalize vote changes only its table, the finalized height and what a commit changes, and emits nothing |
| Frames.RespondFrame | src/consensus.rs:897-933 | syncing changes only blocks, view, preferred block, buffer and evidence, never a vote table or last_voted_view, and emits only requests |
| Views.ViewsOnlyAdvance | src/consensus.rs:454-457 | in every run a node is past every view it holds a certificate for, has not voted beyond its view, and never moves view, preferred view or finalized height backwards |
| Views.HandleViews | src/consensus.rs:570-575 | each handler and each restart keeps that |
| Views.VoteMoves | src/consensus.rs:559-575 | a vote that brings a certificate moves the node to the view after it and its preference to a real block certified at or above the preferred view; a vote that brings none moves neither |
| Views.ProposalMoves | src/consensus.rs:439-457 | a proposal moves the node to its view exactly when it is stored and the node is below that view |
| Views.SyncMoves | src/consensus.rs:911-915 | after syncing, the node is in the view it had or in that of a stored block, and not below the delivered one if that is stored |
| Emissions.HandleEmits | src/consensus.rs:207-296 | every vote and block a handler emits has its source: finalize votes name a certificate, dummy votes a timeout, block votes a block at hand, proposals the leader, the view before and the right parent |
| VoteTables.TablesStep | src/consensus.rs:502-562 | tables hold only verified votes of their kind under their own view and author, and a certificate is stored only once per view |
| VoteTables.CompletedSound | src/consensus.rs:530-555 | a certificate formed has at least the threshold of distinct signers, all of whom signed its hash, and passes verification |
| VoteTables.RunQcsSound | src/consensus.rs:823-831 | in every run each certificate on disk was there at the start or is sound for the committee at the time it was formed |
| VoteTables.QcsStay | src/consensus.rs:557-560 | certificates on disk are never dropped |
| VoteTables.EvidenceSound | src/consensus.rs:506-526 | evidence emitted names two distinct non-dummy hashes, passes the pool's and the executor's checks and is in the pool |
| EvidenceFlow.ContradictionReported | src/consensus.rs:504-526 | a verified notarize vote whose author has another real hash filed in that view always puts the pair in the pool, is not filed, and is broadcast with it if and only if the pool did not have it |
| EvidenceFlow.RunPool | src/consensus.rs:520-525 | in every run the pool holds each plausible pair once, and every step adds and removes exactly what its kind of step does |
| EvidenceFlow.HandlePool | src/evidence_pool.rs:19-60 | what each step does to the pool: stored blocks and a proposal on start take out the evidence they carry, contradictions and gossip put theirs in, a chained proposal leaves it, a restart empties it |
| EvidenceFlow.RespondDrains | src/consensus.rs:429-431 | syncing takes out exactly the evidence of the blocks newly stored, released ones included |
| BlockSync.SyncIsLeastClosure | src/consensus.rs:897-933 | after any deliveries to any node in step with its record, stuck blocks included, the stored hashes and the parents awoken are the least sets containing the initial store and closed under processing what the deliveries bring |
| BlockSync.DeliveryOrderIrrelevant | src/consensus.rs:897-933 | two delivery sequences with the same blocks leave the same store, whatever their order and repetitions and whatever was stuck before |
| BlockSync.RespondDrains | src/consensus.rs:917-930 | on return no buffered block waits for a block stored during the call |
| BlockSync.VerdictFixed | src/consensus.rs:342-421 | between finalizations the verdict on a block whose parent is stored does not depend on the node |
| BlockSync.RespondHandles | src/consensus.rs:897-933 | a delivered block ends up stored with nothing waiting for it, rejected, or buffered for its missing parent; no other block's standing is undone and no buffered block is lost |
| Consensus.Respond | src/consensus.rs:897-933 | the recursion ends because a released block's parent is stored, so the buffer only shrinks |
| Validation.StoredIff | src/consensus.rs:342-431 | an unknown block whose parent is at hand is stored if and only if its committee hash is the node's, re-execution from the parent's root gives both its roots, and its certificate has view 0 or a verifying aggregate; the certificate of a real block at or above the preferred view becomes the preference |
| Validation.RefusedWith | src/consensus.rs:342-425 | otherwise both handlers answer with the error of the first failing check, in source order, and change nothing; a proposal below the current view is refused as that first |
| Validation.MissingParentAskedFor | src/consensus.rs:318-340 | an unknown block without its parent waits last under that parent and exactly that parent is asked for; nothing else changes |
| Validation.SyncedSilently | src/consensus.rs:897-934 | syncing a block whose parent is at hand asks for nothing, however many waiting blocks it releases |
| Validation.UnsignedVoteRefused | src/consensus.rs:491-496 | a vote is refused, and leaves no trace, if and only if its signature is not the author's on its hash |
| Building.ProposesIff | src/consensus.rs:215-254 | a drafted block is proposed if and only if it executes on an overlay from its parent's root, and then with the roots and the gas that execution gives |
| Building.ProposalIsBuiltOnParent | src/consensus.rs:687-738 | a proposal extends the stored block its certificate leads to, or for a dummy the preferred one; its fee is the plain formula on that block, its evidence exactly what the pool holds, its payload the one offered, and it is built on its parent in the sense of the fee theorems |
| Building.ProposedChainIsLocal | src/consensus.rs:741-764 | every chain of proposals from genesis is a locally built chain: gas within the limit, each fee the plain formula on the block before, none below 7 |
| Ancestry.StoreInvariant | src/consensus.rs:318-340 | in every run the store is keyed by hash, closed under parents, and every block has a finite depth |
| Ancestry.HandleOk | src/consensus.rs:426-426 | every handler keeps that |
| Ancestry.WalkEnds | src/consensus.rs:318-340 | every walk to the parents of a stored block reaches a zero parent |
| BlockHashWalk.BlockHash | src/state.rs:343-389 | the loop returns the early-exit search over at most 256 ancestors of the preferred block |
| BlockHashWalk.LookupIsScanIff | src/state.rs:362-385 | the lookup equals the full scan for every view if and only if views never rise to one not met before |
| RisingViews.LookupMissesAncestor | src/state.rs:372-377 | with the modelled executor, a run of three synced blocks after which the lookup from the preferred block misses its own parent |
| BlockHashWalk.LookupExactWhenDescending | src/state.rs:372-377 | so it is exact when views strictly decrease along parents |
| SimplexModel.SimplexState.constructor | src/consensus.rs:82-205 | a stored record wins over the arguments; otherwise genesis block, certificate, record, stakes and account are written |
| SimplexModel.SimplexState.StartingStakes | src/consensus.rs:849-856 | the loop gives a stake of 5000 to exactly the addresses of the committee members |
| SimplexModel.SimplexState.PersistState | src/consensus.rs:842-881 | read, modify, write: the object's fields reach the record, the executor's stay |
| SimplexModel.SimplexState.UpdatePreferredChain | src/consensus.rs:833-840 | in place, equal to the preferred-block function |
| SimplexModel.SimplexState.CatchUp | src/consensus.rs:454-457 | in place, equal to the fast-forward function |
| SimplexModel.SimplexState.CreateBallot | src/consensus.rs:471-476 | a block vote is created only when the record on disk already covers its view |
| SimplexModel.SimplexState.CreateProposal | src/consensus.rs:687-738 | draft, dry run and roots, equal to the proposal function, which ProposesIff and ProposalIsBuiltOnParent determine |
| SimplexModel.SimplexState.TryPropose | src/consensus.rs:207-296 | new node state and actions are those of the launch function |
| SimplexModel.SimplexState.ValidateAndStoreBlock | src/consensus.rs:305-434 | result and new state are those of the validation function, each error included; StoredIff, RefusedWith and MissingParentAskedFor say what they are |
| SimplexModel.SimplexState.OnProposal | src/consensus.rs:439-488 | new node state and result are those of the proposal handler |
| SimplexModel.SimplexState.OnBlockResponse | src/consensus.rs:897-933 | the recursive method computes the sync function |
| SimplexModel.SimplexState.ReprocessOrphans | src/consensus.rs:917-930 | the loop over released blocks computes the fold of the sync function, errors skipped |
| SimplexModel.SimplexState.Tally | src/consensus.rs:532-545 | the counting loop returns the number of supporters, their aggregate and the signers in visiting order |
| SimplexModel.SimplexState.OnVote | src/consensus.rs:491-654 | new node state and result are those of the vote handler for the signers visited |
| SimplexModel.SimplexState.CountVote | src/consensus.rs:528-654 | filing a vote and forming the certificate it completes, at the count VoteCertifiesIff gives |
| SimplexModel.SimplexState.Certify | src/consensus.rs:557-645 | storing a certificate and its follow-ups |
| SimplexModel.SimplexState.ProposeNext | src/consensus.rs:577-644 | the chained proposal, with the record written before the vote is created |
| SimplexModel.SimplexState.OnFinalizeVote | src/consensus.rs:767-821 | counting per view, raising the height, skipping a dummy, committing a stored block, at the count VoteFinalizesIff gives |
| SimplexModel.SimplexState.Commit | src/consensus.rs:788-806 | the executor object runs the block on the node's own database and the committee is reloaded if the block succeeds; StepLedger says what is then on disk |
| SimplexModel.SimplexState.OnTimeout | src/consensus.rs:657-668 | a dummy vote for a view not yet left, nothing otherwise |
| Ancestry.RequestFillsGap | src/consensus.rs:884-894 | a node answers exactly when it stores the hash, what it sends hashes to what was asked, and an asker that can store it buffers nothing for that hash any more |
| Ancestry.ServedAsAsked | src/consensus.rs:884-894 | in every run from an empty disk a served block hashes to the requested hash |
| Lifecycle.RegistryInvariant | src/vm.rs:512-560 | over any sequence of blocks, failing ones included, committee and pending keys stay duplicate-free and disjoint, and every queue entry goes back to a call ten views before it is due |
| Lifecycle.MembershipExact | src/vm.rs:196-239 | exactly who is in the committee after a block: members neither slashed out nor timed out, plus due pending keys, minus keys due to exit when the block executes fully |
| Lifecycle.Joins | src/vm.rs:204-215 | a key joins at view w only through a stake call in a block at most w-10 |
| Lifecycle.ChargedIsLeader | src/vm.rs:419-426 | the member charged for a timed-out view is the one for which is_leader holds in that view under that committee |
| Rotation.CommitteeKeepsOrder | src/vm.rs:195-240 | a block moves no member: those it removes are taken out where they stood and due pending keys come last in queue order, so the rotation of leaders is determined |
| Rotation.PendingAfterSlashing | src/vm.rs:368-391 | a pending entry survives the slashing phases if and only if no evidence of the block leaves its key below 2000; exits are untouched |
| Lifecycle.Leaves | src/vm.rs:368-391 | a key leaves only by a slash under the minimum stake, by inactivity, or by an unstake call ten views earlier |
| Lifecycle.PromotionExact | src/vm.rs:196-239 | despite the save gate a due key leaves the queue for the committee, and a key not due stays queued |
| Lifecycle.QueuesExact | src/vm.rs:196-239 | the gate does not change who is in the committee after the queue step |
| Lifecycle.ExitEntryStaysIff | src/vm.rs:217-234 | an exit entry outlives the queue step if and only if it is not due or the step touches nobody, and while it stays its key cannot withdraw |
| Lifecycle.SlashExact | src/vm.rs:368-391 | slashing removes a member if and only if an accepted evidence leaves it under the minimum |
| Lifecycle.TimeoutExact | src/vm.rs:464-478 | the inactivity step removes a member if and only if it led the timed-out view and its score passes the threshold |
| Funds.Conservation | src/vm.rs:352-360 | over any chain of blocks, failing ones included, from any 256-bit balances and stakes: balances plus stakes plus burned plus 2^256 per accepted call that wraps stay constant |
| Ledgers.StepLedger | src/consensus.rs:788-806 | with the modelled executor, after a committing finalize vote record and ledger on disk are what executing the block leaves of the raised record and the old ledger, failing blocks included, and no other step touches the ledger |
| Ledgers.NodeFollowsIff | src/consensus.rs:788-806 | in a run, ledger, registry and committee of the node are at every point those of executing the blocks committed so far if and only if every commit is clean |
| Ledgers.CleanCommitIff | src/consensus.rs:793-794 | a commit is clean if and only if the block executes or neither its evidence nor its certificate costs a member its seat |
| Ledgers.UnpaidCallStrays | src/consensus.rs:793-794 | a block with such evidence and a system call its sender cannot pay leaves the node off that course |
| Ledgers.ExecutionMoved | src/vm.rs:51-253 | execution neither reads nor changes the node's positions in the record |
| Ledgers.NodeConserves | src/consensus.rs:788-806 | in every run, failing commits and restarts included, the funds on a node's disk are those at the start less what its commits burned and 2^256 per call that wrapped |
| Ledgers.NodeRegistryGood | src/consensus.rs:797-803 | the committee a node works with is the stored one, duplicate-free and disjoint from the pending keys, and every queue entry goes back to a call in a block it committed |
| Ledgers.NodeMembershipExact | src/consensus.rs:797-803 | exactly who is in the node's committee after a commit |
| Funds.ConservedIff | src/vm.rs:512-620 | so funds never grow, and are conserved up to what was burned if and only if no accepted call of the chain wraps |
| Funds.GenesisFits | src/consensus.rs:149-184 | a node started on an empty disk meets the hypothesis, with the genesis account at 2^256 - 1 and its stake on top |
| Funds.GenesisCallWraps | src/vm.rs:512-540 | the genesis validator staking its whole balance wraps and loses 2^256 |
| Funds.BlockConserves | src/vm.rs:443-454 | the same for one block, with the burn spelled out per evidence, timeout and call; EVM transactions are covered when the EVM conserves balances |
| Funds.CallConserves | src/vm.rs:512-620 | an accepted call keeps 256-bit widths and loses exactly 2^256 if it wraps |
| Funds.CallConservesIff | src/vm.rs:512-598 | an accepted call conserves funds if and only if neither the new stake nor the new balance wraps |
| Funds.CallEffect | src/vm.rs:512-620 | an accepted call moves only the sender's balance and stake, by these amounts |
| Funds.EngagedCall | src/vm.rs:561-598 | an accepted call lowers the stake of an active, pending or exiting key if and only if it is that key's own stake call and wraps |
| Funds.EngagedStakeHeld | src/vm.rs:561-598 | while a key is active, pending or exiting, the payload, EVM transactions included, and the queue step never lower its stake unless such a call wraps |
| Funds.EngagedBlock | src/vm.rs:561-598 | for a whole block: what slashing leaves an engaged key is not lowered further |
| Funds.EngagedChain | src/vm.rs:352-360 | over a chain through which the key stays engaged its stake is down by at most 1000 per accepted evidence against it and 10 per timeout charged to it, or what was left |
| Inactivity.ScoresCount | src/vm.rs:404-478 | every score is the zero-floored count of timeouts charged minus blocks authored since the last removal, at most 50 |
| Inactivity.FlooredIsWorstStretch | src/vm.rs:408-440 | the floored count is the largest total over any recent stretch |
| Inactivity.BlockScores | src/vm.rs:404-478 | nothing else in a block changes scores |
| Vm.WritesKeepRecord | src/vm.rs:174-193 | EVM writes never reach the consensus record |
| DryRun.DryRunSeesRegistryOnly | src/consensus.rs:364-391 | a dry run on an overlay leaves the record alone and depends on its registry fields only, not on where the node stands |
| DryRun.OwnProposalReexecutes | src/consensus.rs:226-256 | with the modelled executor a node's own proposal re-executes on the same state, and is stored if its certificate verifies |
| ExecutorModel.Executor.ProcessEquivocationSlashing | src/vm.rs:317-401 | the loop over evidence, equal to repeated slashing |
| ExecutorModel.Executor.ProcessLivenessSlashing | src/vm.rs:404-486 | reward, charge, penalty and removal in place, written only when changed |
| ExecutorModel.Executor.ProcessSystemContract | src/vm.rs:489-632 | stake, unstake, withdraw and the value deduction; errors leave the database as it was |
| ExecutorModel.Executor.ExecutePayload | src/vm.rs:69-193 | the payload loop with receipts and cumulative gas, stopping at the first error; EvmEffect, CallRegistry and PayloadStops say what each transaction does |
| Effects.EvmEffect | src/vm.rs:133-191 | an EVM transaction adds one receipt with its status, the gas so far plus its own, and its logs if it succeeded; with status 1 each written account reads as its last write, each written slot as its last value, the tree holds the written accounts and nothing else changed; with another status the database is unchanged |
| Effects.FailureExact | src/vm.rs:84-131 | exactly which transactions fail and with which error; a failing one changes nothing, and an accepted system call adds a receipt of status 1 and no gas |
| Effects.CallAccounts | src/vm.rs:607-620 | an accepted system call raises the sender's nonce by one, keeps its code and code hash, and touches no other account, slot or code |
| Effects.CallRegistry | src/vm.rs:507-605 | what each of the three calls does to stakes, pending and exiting entries, with the amounts and delays, and that it leaves the rest of the registry alone |
| Effects.PayloadInOrder | src/vm.rs:84-84 | transactions run one after the other in the order of the payload |
| Effects.PayloadReceipts | src/vm.rs:168-172 | a payload that runs leaves one receipt for each transaction, and the last one counts all the gas |
| Effects.PayloadStops | src/vm.rs:84-131 | a failing payload stops at its first failing transaction with the database those before it made |
| Effects.FirstOverLimit | src/vm.rs:69-80 | the first transaction above 16777216 or the block limit names the error, and there is none exactly if all are within both |
| Effects.BlockReports | src/vm.rs:241-244 | a block reports the tree root it leaves, the root of its receipts and the gas of the last one |
| ExecutorModel.Executor.CommitAll | src/vm.rs:174-193 | the write-back loop over accounts and slots |
| ExecutorModel.Executor.ProcessQueues | src/vm.rs:196-239 | promotion and exit with the save gate |
| ExecutorModel.Executor.ExecuteBlock | src/vm.rs:51-253 | a whole block in place; a failing block keeps what was written before the failure |
| ExecutorModel.RemoveKey | src/vm.rs:383-390 | position search and removal |
| ExecutorModel.AdmitReady | src/vm.rs:210-215 | the promotion loop, with its changed flag exact |
| ExecutorModel.DismissExited | src/vm.rs:224-229 | the exit loop, with its changed flag exact |
| BaseFee.ChainFees | src/consensus.rs:741-764 | along every locally built chain gas stays within the limit, each fee is within an eighth of its parent's and none drops below 7 |
| BaseFee.FrozenBelowEight | src/consensus.rs:741-764 | a fee below 8 never moves again |
| BaseFee.BuiltWithinLimit | src/consensus.rs:714-716 | a block built from the pool uses at most the block gas limit |
| BaseFee.PayloadGas | src/vm.rs:137-150 | cumulative gas is at most the sum of the gas limits |
| BaseFee.PlainFormula | src/consensus.rs:741-764 | within the limit nothing wraps and the rule is the plain formula |
| BaseFee.BoundedIffEven | src/consensus.rs:744-744 | the upper bound of an eighth holds for all fees and gas uses if and only if the limit is even |
| BaseFee.OddLimitOvershoots | src/consensus.rs:744-744 | the failing family: every odd limit has a fee that overshoots by one |
| BaseFee.MonotoneInFee | src/consensus.rs:741-764 | a higher parent fee never gives a lower child fee |
| BaseFee.MonotoneInGas | src/consensus.rs:741-764 | more gas used never gives a lower child fee |
| Selection.ComparatorIsLexicographic | src/tx_pool.rs:104-128 | the comparator is the lexicographic order on tip descending, key, nonce: a total preorder whose ties are equal keys |
| Selection.SelectionGreedy | src/tx_pool.rs:109-142 | the payload is in the comparator's order and is the greedy packing of the eligible transactions along it |
| Selection.PackGreedy | src/tx_pool.rs:128-140 | along that order a transaction is taken exactly when it fits with those taken before it and the block is not already full |
| Selection.TipIsLargest | src/tx_pool.rs:109-113 | the tip is the largest amount within the priority fee and within what the fee cap leaves over the base fee |
| Selection.SelectionDeterministic | src/tx_pool.rs:95-142 | the payload does not depend on the visiting order of the pool when keys are distinct |
| Selection.SelectionMaximal | src/tx_pool.rs:129-142 | an omitted eligible transaction with positive gas limit no longer fits |
| Selection.SortedUnique | src/tx_pool.rs:110-128 | any sorted arrangement of distinct keys is the same list, whichever algorithm sorts |
| Selection.CapRulesOutOverflow | src/tx_pool.rs:45-52 | the admission cap rules out 64-bit overflow of the gas sum for block limits up to 2^64 - 2^24 |
| Selection.Select | src/tx_pool.rs:95-142 | the payload's gas limits sum to at most the block limit, and every member is pooled and pays the base fee |
| TxPoolModel.Fill | src/tx_pool.rs:129-142 | the greedy fill with its break computes the greedy selection |
| TxPoolModel.TxPool.AddTransaction | src/tx_pool.rs:45-92 | admitted exactly when within the cap, signed, not behind the account nonce and new; map and queue grow together; errors change nothing and come in the order of the checks |
| TxPoolModel.TxPool.GetTransactionsForBlock | src/tx_pool.rs:95-142 | returns the selection for the visiting order |
| TxPoolModel.TxPool.RemoveTransactions | src/tx_pool.rs:146-161 | drops exactly the listed transactions from map and queue, keeping queue order |
| EvidencePoolModel.AddExact | src/evidence_pool.rs:19-43 | adding stores exactly the new plausible item and keeps lists duplicate-free |
| EvidencePoolModel.RemoveExact | src/evidence_pool.rs:51-59 | removing drops exactly the listed items |
| EvidencePoolModel.GetAllHolds | src/evidence_pool.rs:46-48 | the flat list holds exactly the pooled items for every visiting order |
| EvidencePoolModel.EvidencePool.AddEvidence | src/evidence_pool.rs:19-43 | in place, returning whether the item was accepted |
| EvidencePoolModel.EvidencePool.RemoveEvidence | src/evidence_pool.rs:51-59 | in place, item by item |
| Storage.OverlayRefinesPrivateCopy | src/storage.rs:531-645 | for any stack of overlays and any writes, table reads equal those of a private copy with the same writes, chain reads equal the base's, and the stores below are untouched |
| Storage.ReadsAreFlat | src/storage.rs:570-640 | reads through a stack of overlays are reads of the merged tables |
| Storage.ChainReadsAreBase | src/storage.rs:548-568 | blocks, certificates and the record always read as the base's |
| StateOverlayModel.StateOverlay.Save | src/storage.rs:531-645 | writes stay in this overlay; blocks, certificates and the record are dropped |
| StateOverlayModel.StateOverlay.ReadAccount | src/storage.rs:570-576 | own cache first, then the store below |
| StateOverlayModel.StateOverlay.ReadSlot | src/storage.rs:594-600 | own cache first, then the store below, absent slots zero |
| StateOverlayModel.StateOverlay.ReadCode | src/storage.rs:582-588 | own cache first, then the store below |
| StateOverlayModel.StateOverlay.ReadLeaf | src/storage.rs:634-640 | own cache first, then the store below |
| StateOverlayModel.StateOverlay.ReadBranch | src/storage.rs:614-620 | own cache first, then the store below |
| StateOverlayModel.StateOverlay.ReadBlock | src/storage.rs:548-550 | always the base's block |
| StateOverlayModel.StateOverlay.ReadQc | src/storage.rs:557-559 | always the base's certificate |
| StateOverlayModel.StateOverlay.ReadState | src/storage.rs:565-568 | always the base's record |
| Receipts.CalculateReceiptsRoot | src/types.rs:201-226 | the pad-and-pair loop computes the top-down tree root |
| Receipts.NextLevel | src/types.rs:211-222 | one round halves the level, an odd last node paired with itself |
| Receipts.RootBinding | src/types.rs:201-226 | with collision-free hashing, lists of equal length with equal roots are equal |
| Receipts.OddListRepeatsLast | src/types.rs:201-226 | an odd list longer than one has the root of itself with the last receipt repeated |
| Receipts.RootPairsUp | src/types.rs:201-226 | hashing the leaves in pairs, left before right and a last one with itself, keeps the root, and a single leaf is its own |

## Left out

- Liveness and network timing: runs are safety statements over any order of deliveries.
- Network, RPC, client, process start-up, timers, the redb database and serialization.
- BLS, SHA-256, Keccak and the VRF: replaced by free aggregation and abstract digests.
- EVM execution and access lists: an EVM transaction is any function returning account writes, status and gas, so a BLOCKHASH read that depends on the node's own preferred block is not captured in a dry run.
- The sparse Merkle tree: its root is an abstract function of the updates.
- Equality of overlay validation and committed execution: the overlay drops record writes, so the two can differ.
- Width of views and heights: unbounded naturals, so overflow at 2^64 is not modelled; the base fee, stakes, balances and gas sums are modelled with their widths.
- The ledger root at a restart: it stays what it was, while `main.rs` rebuilds the state manager from the preferred block's state root.
- Panics: an empty committee makes no one leader instead of dividing by zero, a proposal with gas target zero is dropped, a system call whose account vanished is an error, and proposing in view 0 does nothing instead of underflowing.
- Removal of included transactions from the pool inside the consensus handlers: the pool is modelled by itself and a proposal's payload is an input.
- The in-place sort of the standard library: any sorted arrangement is shown to be the same list.
- Locks and sharing between threads: each handler is one step.
- Log messages, `execute_ephemeral` for RPC calls, signing helpers of transactions and length queries.
- The in-memory storage under the overlay classes and the database object of the node are separate classes; the overlay in a dry run is the executor's database with its overlay flag set.
- Network.CertificateAgreement: assumes authenticated whole votes of members and a fixed committee, because votes sign only a hash and counted authors are not checked for membership.
- Agreement.FinalizationAgreement: assumes one notarized hash per correct node and view and genuine certificates in delivered blocks, because timeouts ignore earlier votes and certificates are not checked for size; Certificates.CheckedAgreement derives the latter from a check.
- Certificates.CheckedAgreement: takes whole votes in certificates as authenticated, because the code signs only the hash.
- BlockSync.SyncIsLeastClosure: a node in step with its record and with nothing buffered under the zero hash, which Intents.RunNeverAwaitsZero shows of every run; a failed commit changes what blocks are valid.
- SingleChain.NotarizedBlocksFormOneChain: crash faults, and proposers that hold the certificates of all earlier views and prefer none of their own view or later.
- Ledgers.NodeRegistryGood: runs with clean commits, because after another commit the node writes its own committee over the stored one and later blocks execute on that.
- Ledgers.NodeMembershipExact: runs with clean commits before the last one, for the same reason.
- Ledgers.NodeConserves: an EVM transaction in the payload must conserve balances, as in Funds.Conservation.
- Discipline.RestartEquivalence: runs with clean commits, because a failed commit can leave another committee on disk.
- Funds.Conservation: an EVM transaction in the payload must conserve balances; base fees and rewards of the EVM are outside it.
