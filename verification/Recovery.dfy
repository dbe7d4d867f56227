/** Restart equivalence: after every handler the record on disk is exactly what a restart needs to
    rebuild the node, although the executor writes the same record. */
module Recovery {
  import opened Types
  import opened Collections
  import opened Vm
  import opened Consensus
  import opened Frames

  /** What a restart gives back: the five positions, the committee and the disk; votes, buffers and
      the evidence pool start empty and the gas limit becomes the default. */
  lemma SyncedRestarts(env: Env, n: Node)
    requires Synced(n)
    ensures Restarted(env, n) ==
      n.(votes := map[], finalizeVotes := map[], orphans := map[], evidence := map[],
         blockGasLimit := DEFAULT_BLOCK_GAS_LIMIT)
    ensures Synced(Restarted(env, n))
  {
    assert n.disk.state.value.view == OwnFields(n, n.disk.state.value).view;
    assert n.disk.state.value.committee == OwnFields(n, n.disk.state.value).committee;
    assert n.disk.state.value.lastVotedView == OwnFields(n, n.disk.state.value).lastVotedView;
  }

  /** After a failed commit a restart may bring another committee; all else is as above. */
  lemma AnchoredRestarts(env: Env, n: Node)
    requires Anchored(n)
    ensures Restarted(env, n) ==
      n.(committee := n.disk.state.value.committee, votes := map[], finalizeVotes := map[], orphans := map[],
         evidence := map[], blockGasLimit := DEFAULT_BLOCK_GAS_LIMIT)
    ensures Anchored(Restarted(env, n)) && Synced(Restarted(env, n))
  {
    SyncedIffAnchored(Restarted(env, n));
  }

  /** A commit leaves the five positions in the record as they were. */
  ghost predicate KeepsPositions(env: Env) {
    forall s: ConsensusState, ledger, block ::
      var c := env.commit(Some(s), ledger, block);
      c.state.Some? && SamePositions(c.state.value, s)
  }

  predicate SamePositions(a: ConsensusState, b: ConsensusState) {
    && a.view == b.view && a.finalizedHeight == b.finalizedHeight && a.preferredBlock == b.preferredBlock
    && a.preferredView == b.preferredView && a.lastVotedView == b.lastVotedView
  }

  /** The executor of module Vm, as the node's commit function. */
  function CommitWith(m: Machine, state: Option<ConsensusState>, ledger: Ledger, block: Block): Committed {
    var out := ExecuteBlock(m, Db(state, ledger, false), block);
    Committed(out.db.state, out.db.ledger, out.result.Ok?)
  }

  predicate SameRecord(a: Db, b: Db) {
    a.state.Some? && b.state.Some? && SamePositions(a.state.value, b.state.value) && a.overlay == b.overlay
  }

  lemma {:induction false} SlashPositions(m: Machine, db: Db, evidence: seq<Evidence>)
    requires db.state.Some?
    ensures SameRecord(SlashAll(m, db, evidence), db)
    decreases |evidence|
  {
    if evidence != [] {
      SlashPositions(m, Slash(m, db, evidence[0]), evidence[1..]);
    }
  }

  lemma CallPositions(m: Machine, db: Db, tx: Transaction, view: View)
    requires db.state.Some? && SystemCall(m, db, tx, view).Ok?
    ensures SameRecord(SystemCall(m, db, tx, view).value, db)
  {
  }

  lemma {:induction false} PayloadPositions(m: Machine, p: Progress, block: Block, txs: seq<Transaction>)
    requires p.db.state.Some?
    ensures SameRecord(RunPayload(m, p, block, txs).db, p.db)
    decreases |txs|
  {
    hide SystemCall, CommitWrites;
    if txs != [] && p.error.None? {
      var out := m.evm(p.db.ledger, txs[0], block.baseFeePerGas);
      if out.EvmDone? {
        WritesKeepRecord(m, p.db, out.writes);
      }
      if SystemCall(m, p.db, txs[0], block.view).Ok? {
        CallPositions(m, p.db, txs[0], block.view);
      }
      PayloadPositions(m, RunTx(m, p, block, txs[0]), block, txs[1..]);
    }
  }

  lemma LivenessPositions(m: Machine, db: Db, block: Block)
    requires db.state.Some?
    ensures SameRecord(Liveness(m, db, block), db)
  {
  }

  lemma QueuesPositions(db: Db, view: View)
    requires db.state.Some?
    ensures SameRecord(Queues(db, view), db)
  {
  }

  /** The modelled executor never touches the node's positions, whatever block it commits and
      whether or not the commit succeeds. */
  lemma ExecutorKeepsPositions(m: Machine, s: ConsensusState, ledger: Ledger, block: Block)
    ensures var c := CommitWith(m, Some(s), ledger, block);
            c.state.Some? && SamePositions(c.state.value, s)
  {
    hide SlashAll, Liveness, RunPayload, Queues, GasLimitError;
    var db := Db(Some(s), ledger, false);
    SlashPositions(m, db, block.evidence);
    LivenessPositions(m, SlashAll(m, db, block.evidence), block);
    var start := Progress(AfterSlashing(m, db, block), [], 0, None);
    PayloadPositions(m, start, block, block.payload);
    QueuesPositions(RunPayload(m, start, block, block.payload).db, block.view);
  }

  /** So a node that commits with the modelled executor has the property every run theorem asks of
      its commit function. */
  lemma ExecutorQualifies(env: Env, m: Machine)
    ensures KeepsPositions(env.(commit := (s, ledger, block) => CommitWith(m, s, ledger, block)))
  {
    hide CommitWith;
    forall s: ConsensusState, ledger, block
      ensures var c := CommitWith(m, Some(s), ledger, block); c.state.Some? && SamePositions(c.state.value, s)
    {
      ExecutorKeepsPositions(m, s, ledger, block);
    }
  }

  // ---- The handlers ----

  /** The block a finalize vote commits, if it commits one. */
  ghost predicate Commits(n: Node, e: Event) {
    && e.VoteIn? && Finalizes(n, e.vote) && e.vote.blockHash != ZERO_HASH && e.vote.blockHash in n.disk.blocks
  }

  /** A commit that succeeds, or fails without touching the stored committee. */
  ghost predicate CleanCommit(env: Env, n: Node, e: Event) {
    Commits(n, e) ==>
      var n1 := Raise(env, n, e.vote);
      var c := env.commit(n1.disk.state, n1.disk.ledger, n1.disk.blocks[e.vote.blockHash]);
      c.ok || (c.state.Some? && c.state.value.committee == n.committee)
  }

  lemma FinalizeSynced(env: Env, n: Node, vote: Vote, e: Event)
    requires Synced(n) && KeepsPositions(env) && e.VoteIn? && e.vote == vote
    requires Verify(vote.author, vote.blockHash, vote.signature) && vote.voteType == Finalize
    ensures Synced(OnFinalizeVote(env, n, vote).node) <==> CleanCommit(env, n, e)
  {
    hide Raise, Finalizes, FinalizeVotes;
    if Finalizes(n, vote) {
      RaiseFrame(env, n, vote);
      var n1 := Raise(env, n, vote);
      if vote.blockHash != ZERO_HASH && vote.blockHash in n1.disk.blocks {
        assert n1.disk.state == Some(n1.disk.state.value);
        var c := env.commit(Some(n1.disk.state.value), n1.disk.ledger, n1.disk.blocks[vote.blockHash]);
        assert c.state.Some? && SamePositions(c.state.value, n1.disk.state.value);
      }
    }
  }

  lemma VoteSynced(env: Env, n: Node, e: Event)
    requires Enabled(n, e) && Synced(n) && KeepsPositions(env) && e.VoteIn?
    ensures Synced(Handle(env, n, e).node) <==> CleanCommit(env, n, e)
  {
    hide OnFinalizeVote, Certify, Completes, Conflicts, KeepsPositions;
    if Verify(e.vote.author, e.vote.blockHash, e.vote.signature) {
      if e.vote.voteType == Finalize {
        FinalizeSynced(env, n, e.vote, e);
      } else if Completes(n, e.vote) {
        var votes := FiledVotes(n, e.vote);
        assert forall a :: a in e.signers ==> a in Elements(e.signers);
        CertifyFrame(env, n.(votes := n.votes[e.vote.view := votes]), QcFrom(votes, e.vote, e.signers), e.offer);
      }
    }
  }

  lemma ProposalSynced(env: Env, n: Node, block: Block)
    requires Synced(n)
    ensures Synced(OnProposal(env, n, block).node)
  {
    hide ValidateAndStore, FastForward, Persist;
    StoreFrame(env, n, block);
    var c := ValidateAndStore(env, n, block);
    if c.Stored? {
      FastForwardFrame(env, c.node, block.view);
      PersistFrame(env, FastForward(env, c.node, block.view).(lastVotedView := block.view));
    }
  }

  /** Every handler keeps the record in step with the node; for a finalize vote that is so exactly
      when its commit succeeds or leaves the committee as it was. */
  lemma HandleSynced(env: Env, n: Node, e: Event)
    requires Enabled(n, e) && Synced(n) && KeepsPositions(env)
    ensures Synced(Handle(env, n, e).node) <==> CleanCommit(env, n, e)
  {
    hide OnProposal, OnVote, Respond, Propose, KeepsPositions;
    match e
    case Launch(offer) =>
    case Proposal(block) => ProposalSynced(env, n, block);
    case VoteIn(vote, signers, offer) => VoteSynced(env, n, e);
    case Timeout(view) =>
    case Response(block) => RespondFrame(env, n, block);
    case Request(hash, peer) =>
    case Gossip(evidence) =>
    case Restart => SyncedRestarts(env, n);
  }

  lemma FinalizeAnchored(env: Env, n: Node, vote: Vote)
    requires Anchored(n) && KeepsPositions(env)
    requires Verify(vote.author, vote.blockHash, vote.signature) && vote.voteType == Finalize
    ensures Anchored(OnFinalizeVote(env, n, vote).node)
  {
    hide Raise, Finalizes, FinalizeVotes;
    if Finalizes(n, vote) {
      RaiseFrame(env, n, vote);
      var n1 := Raise(env, n, vote);
      if vote.blockHash != ZERO_HASH && vote.blockHash in n1.disk.blocks {
        assert n1.disk.state == Some(n1.disk.state.value);
        var c := env.commit(Some(n1.disk.state.value), n1.disk.ledger, n1.disk.blocks[vote.blockHash]);
        assert c.state.Some? && SamePositions(c.state.value, n1.disk.state.value);
      }
    }
  }

  lemma VoteAnchored(env: Env, n: Node, e: Event)
    requires Enabled(n, e) && Anchored(n) && KeepsPositions(env) && e.VoteIn?
    ensures Anchored(Handle(env, n, e).node)
  {
    hide OnFinalizeVote, Certify, Completes, Conflicts, KeepsPositions;
    if Verify(e.vote.author, e.vote.blockHash, e.vote.signature) {
      if e.vote.voteType == Finalize {
        FinalizeAnchored(env, n, e.vote);
      } else if Completes(n, e.vote) {
        var votes := FiledVotes(n, e.vote);
        assert forall a :: a in e.signers ==> a in Elements(e.signers);
        CertifyFrame(env, n.(votes := n.votes[e.vote.view := votes]), QcFrom(votes, e.vote, e.signers), e.offer);
      }
    }
  }

  lemma ProposalAnchored(env: Env, n: Node, block: Block)
    requires Anchored(n)
    ensures Anchored(OnProposal(env, n, block).node)
  {
    hide ValidateAndStore, FastForward, Persist;
    StoreFrame(env, n, block);
    var c := ValidateAndStore(env, n, block);
    if c.Stored? {
      FastForwardFrame(env, c.node, block.view);
      PersistFrame(env, FastForward(env, c.node, block.view).(lastVotedView := block.view));
    }
  }

  /** Every handler keeps the five positions on disk, whether or not a commit succeeds. */
  lemma HandleAnchored(env: Env, n: Node, e: Event)
    requires Enabled(n, e) && Anchored(n) && KeepsPositions(env)
    ensures Anchored(Handle(env, n, e).node)
  {
    hide OnProposal, OnVote, Respond, Propose, KeepsPositions;
    match e
    case Proposal(block) => ProposalAnchored(env, n, block);
    case VoteIn(vote, signers, offer) => VoteAnchored(env, n, e);
    case Response(block) => RespondFrame(env, n, block);
    case Restart => AnchoredRestarts(env, n);
    case _ =>
  }

  lemma FreshSynced(env: Env, me: PublicKey, committee: seq<PublicKey>, disk: Disk, limit: nat)
    ensures Synced(Start(env, me, committee, disk, limit)) && Anchored(Start(env, me, committee, disk, limit))
  {
  }
}
