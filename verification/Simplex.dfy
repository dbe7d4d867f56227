/** The node object: fields updated in place by the handlers, over a storage object that outlives it.
    Each method is the corresponding function on node values. */
module SimplexModel {
  import opened Types
  import opened Collections
  import opened EvidencePoolModel
  import opened BaseFee
  import opened ExecutorModel
  import opened Consensus
  import opened CommitSync

  /** The shared database of a node: what survives a restart. Record and ledger sit in the state
      manager the executor works on. */
  class Database {
    var blocks: map<Hash, Block>
    var qcs: map<View, QuorumCertificate>
    const manager: StateManager

    constructor (ledger: Ledger)
      ensures Value() == Disk(map[], map[], None, ledger) && fresh(manager) && !manager.overlay
    {
      blocks, qcs := map[], map[];
      manager := new StateManager(None, ledger, false);
    }

    function Value(): Disk
      reads this, manager
    {
      Disk(blocks, qcs, manager.state, manager.ledger)
    }
  }

  /** The supporters of a hash in the order the votes are visited. */
  function Visited(votes: map<PublicKey, Vote>, order: seq<PublicKey>, hash: Hash): (signers: seq<PublicKey>)
    requires forall a :: a in order ==> a in votes
    ensures forall a :: a in signers <==> a in order && votes[a].blockHash == hash
    ensures Distinct(order) ==> Distinct(signers)
  {
    if order == [] then []
    else
      var rest := Visited(votes, order[..|order| - 1], hash);
      var last := order[|order| - 1];
      if votes[last].blockHash == hash then rest + [last] else rest
  }

  lemma VisitedEnumerates(votes: map<PublicKey, Vote>, order: seq<PublicKey>, hash: Hash)
    requires Enumerates(order, votes.Keys)
    ensures (forall a :: a in order ==> a in votes) && Enumerates(Visited(votes, order, hash), Supporters(votes, hash))
    ensures |Visited(votes, order, hash)| == |Supporters(votes, hash)|
  {
    assert forall a :: a in order <==> a in Elements(order);
    var signers := Visited(votes, order, hash);
    assert Elements(signers) == Supporters(votes, hash);
    DistinctSize(signers);
  }

  lemma {:induction false} AggregateAppend(votes: map<PublicKey, Vote>, signers: seq<PublicKey>, a: PublicKey)
    requires (forall s :: s in signers ==> s in votes) && a in votes
    ensures AggregateOf(votes, signers + [a]) == AggregateOf(votes, signers) + votes[a].signature
  {
    if signers == [] {
      assert signers + [a] == [a];
      assert AggregateOf(votes, [a]) == votes[a].signature + AggregateOf(votes, []);
    } else {
      assert (signers + [a])[1..] == signers[1..] + [a];
      AggregateAppend(votes, signers[1..], a);
    }
  }

  /** Part of a list of released blocks is done, and doing the rest completes the whole. */
  ghost predicate InProgress(env: Env, start: Node, list: seq<Block>, n: Node, rest: seq<Block>, actions: seq<Action>) {
    && Filed(start.orphans) && (forall b :: b in list ==> ParentReady(start, b))
    && Filed(n.orphans) && (forall b :: b in rest ==> ParentReady(n, b))
    && n.orphans.Keys <= start.orphans.Keys
    && var r := RespondAll(env, n, rest); RespondAll(env, start, list) == (r.0, actions + r.1)
  }

  lemma StartProgress(env: Env, start: Node, list: seq<Block>)
    requires Filed(start.orphans) && forall b :: b in list ==> ParentReady(start, b)
    ensures InProgress(env, start, list, start, list, [])
  {
    hide RespondAll;
    var r := RespondAll(env, start, list);
    assert [] + r.1 == r.1;
  }

  lemma StepProgress(env: Env, start: Node, list: seq<Block>, n: Node, rest: seq<Block>, actions: seq<Action>)
    requires InProgress(env, start, list, n, rest, actions) && rest != []
    ensures Filed(n.orphans) && n.orphans.Keys <= start.orphans.Keys
    ensures var o := Respond(env, n, rest[0]);
            InProgress(env, start, list, o.node, rest[1..], actions + Emitted(o))
  {
    hide Respond;
    var o := Respond(env, n, rest[0]);
    assert rest[0] in rest && forall b :: b in rest[1..] ==> b in rest;
    var r := RespondAll(env, o.node, rest[1..]);
    assert RespondAll(env, n, rest) == (r.0, Emitted(o) + r.1);
    assert actions + (Emitted(o) + r.1) == actions + Emitted(o) + r.1;
  }

  lemma EndProgress(env: Env, start: Node, list: seq<Block>, n: Node, actions: seq<Action>)
    requires InProgress(env, start, list, n, [], actions)
    ensures Filed(start.orphans) && (forall b :: b in list ==> ParentReady(start, b))
    ensures RespondAll(env, start, list) == (n, actions)
  {
    assert actions + [] == actions;
  }

  class SimplexState {
    const env: Env
    const me: PublicKey
    var committee: seq<PublicKey>
    var currentView: View
    var finalizedHeight: View
    var preferredBlock: Hash
    var preferredView: View
    var lastVotedView: View
    var blockGasLimit: nat
    const storage: Database
    var votesReceived: VoteTable
    var finalizeVotesReceived: VoteTable
    var orphans: map<Hash, seq<Block>>
    const evidencePool: EvidencePool
    const executor: Executor

    /** The executor works on the node's own database, and is the one the specification commits with. */
    ghost predicate Wired() {
      executor.db == storage.manager && !storage.manager.overlay && CommitsWith(env, executor.m)
    }

    function Snapshot(): Node
      reads this, storage, storage.manager, evidencePool
    {
      Node(me, committee, currentView, finalizedHeight, preferredBlock, preferredView, lastVotedView, blockGasLimit,
           storage.Value(), votesReceived, finalizeVotesReceived, orphans, evidencePool.evidences)
    }

    /** A stored record wins over the arguments; an empty database gets the genesis block. */
    constructor (env: Env, me: PublicKey, committee: seq<PublicKey>, storage: Database, executor: Executor, limit: nat)
      modifies storage, storage.manager
      ensures this.env == env && this.storage == storage && this.executor == executor && fresh(evidencePool)
      ensures Snapshot() == Start(env, me, committee, old(storage.Value()), limit)
    {
      this.env, this.me, this.storage, this.executor := env, me, storage, executor;
      votesReceived, finalizeVotesReceived, orphans := map[], map[], map[];
      var pool := new EvidencePool();
      evidencePool := pool;
      var record: ConsensusState;
      if storage.manager.state.Some? {
        record := storage.manager.state.value;
        blockGasLimit := DEFAULT_BLOCK_GAS_LIMIT;
      } else {
        var stakes := StartingStakes(env, committee);
        var genesis := GenesisBlock(env);
        record := ConsensusState(1, 0, env.hash(genesis), 0, 0, committee, [], [], stakes, map[]);
        blockGasLimit := limit;
        storage.blocks := storage.blocks[env.hash(genesis) := genesis];
        storage.qcs := storage.qcs[0 := GENESIS_QC];
        storage.manager.state := Some(record);
        storage.manager.ledger := storage.manager.ledger.(accounts := storage.manager.ledger.accounts[
          env.addressOf(env.genesisKey) := AccountInfo(0, TWO_256 - 1, env.emptyCodeHash, None)]);
      }
      this.committee, currentView, finalizedHeight := record.committee, record.view, record.finalizedHeight;
      preferredBlock, preferredView, lastVotedView := record.preferredBlock, record.preferredView, record.lastVotedView;
    }

    static method StartingStakes(env: Env, committee: seq<PublicKey>) returns (stakes: map<Address, nat>)
      ensures stakes == InitialStakes(env, committee)
      ensures forall a :: a in stakes ==> stakes[a] == 5000 && exists k :: k in committee && env.addressOf(k) == a
      ensures forall k :: k in committee ==> env.addressOf(k) in stakes
    {
      stakes := map[];
      for i := 0 to |committee|
        invariant stakes == InitialStakes(env, committee[..i])
      {
        assert committee[..i + 1][..i] == committee[..i];
        stakes := stakes[env.addressOf(committee[i]) := 5000];
      }
      assert committee[..|committee|] == committee;
    }

    /** Read, change the node's own fields, write back. */
    method PersistState()
      modifies storage, storage.manager
      ensures Snapshot() == Persist(env, old(Snapshot()))
      ensures storage.manager.state.Some? && storage.manager.state.value.lastVotedView == lastVotedView
    {
      var record: ConsensusState;
      if storage.manager.state.Some? {
        record := storage.manager.state.value;
      } else {
        var stakes := StartingStakes(env, committee);
        record := ConsensusState(currentView, finalizedHeight, preferredBlock, preferredView, lastVotedView,
                                 committee, [], [], stakes, map[]);
      }
      record := record.(view := currentView, finalizedHeight := finalizedHeight, preferredBlock := preferredBlock,
                        preferredView := preferredView, lastVotedView := lastVotedView, committee := committee);
      storage.manager.state := Some(record);
    }

    method UpdatePreferredChain(qc: QuorumCertificate)
      modifies this`preferredView, this`preferredBlock, storage, storage.manager
      ensures Snapshot() == UpdatePreferred(env, old(Snapshot()), qc)
    {
      if qc.blockHash != ZERO_HASH && qc.view >= preferredView {
        preferredView := qc.view;
        preferredBlock := qc.blockHash;
        PersistState();
      }
    }

    /** Catching up with the view of a stored block. */
    method CatchUp(view: View)
      modifies this`currentView, storage, storage.manager
      ensures Snapshot() == FastForward(env, old(Snapshot()), view)
    {
      if view >= currentView {
        currentView := view;
        PersistState();
      }
    }

    method CreateVote(view: View, hash: Hash, kind: VoteType) returns (vote: Vote)
      ensures vote == MakeVote(me, view, hash, kind)
    {
      vote := Vote(view, hash, kind, me, Sign(me, hash));
    }

    /** A vote for a block, made only once the record on disk covers its view. */
    method CreateBallot(view: View, hash: Hash) returns (vote: Vote)
      requires storage.manager.state.Some? && storage.manager.state.value.lastVotedView >= view
      ensures vote == MakeVote(me, view, hash, Notarize)
    {
      vote := CreateVote(view, hash, Notarize);
    }

    method FinalizeVoteFor(qc: QuorumCertificate) returns (actions: seq<Action>)
      ensures actions == FinalizeParent(Snapshot(), qc)
    {
      actions := [];
      if qc.view > 0 {
        var vote := CreateVote(qc.view, qc.blockHash, Finalize);
        actions := [BroadcastVote(vote)];
      }
    }

    // ---- Proposing ----

    method CreateProposal(view: View, qc: QuorumCertificate, parent: Hash, offer: Offer) returns (r: Option<Block>)
      requires parent == ParentFor(Snapshot(), qc)
      ensures r == Propose(env, Snapshot(), view, qc, offer)
    {
      if parent !in storage.blocks || !FeeDefined(blockGasLimit, storage.blocks[parent]) {
        return None;
      }
      var p := storage.blocks[parent];
      var fee := NextBaseFee(blockGasLimit, p.baseFeePerGas, p.gasUsed);
      var block := Block(me, view, parent, qc, ZERO_HASH, ZERO_HASH, offer.payload, false, fee, 0,
                         GetAll(evidencePool.evidences, offer.evidenceOrder), env.committeeHash(committee));
      var root := if parent == ZERO_HASH then ZERO_HASH else p.stateRoot;
      var run := env.dryRun(DiskRegistry(storage.manager.state), storage.manager.ledger, root, blockGasLimit, block);
      if run.None? {
        return None;
      }
      return Some(block.(stateRoot := run.value.stateRoot, receiptsRoot := run.value.receiptsRoot, gasUsed := run.value.gasUsed));
    }

    method TryPropose(offer: Offer) returns (r: Result<seq<Action>, ConsensusError>)
      modifies storage, storage.manager, evidencePool
      ensures Out(Snapshot(), r) == Consensus.TryPropose(env, old(Snapshot()), offer)
    {
      hide Propose, Remove;
      if currentView == 0 || !IsLeader(Snapshot(), currentView) || currentView - 1 !in storage.qcs {
        return Ok([]);
      }
      var qc := storage.qcs[currentView - 1];
      var parent := if qc.blockHash == ZERO_HASH then preferredBlock else qc.blockHash;
      var proposal := CreateProposal(currentView, qc, parent, offer);
      if proposal.None? {
        return Err(InvalidParent);
      }
      var block := proposal.value;
      storage.blocks := storage.blocks[env.hash(block) := block];
      evidencePool.RemoveEvidence(block.evidence);
      var vote := CreateVote(block.view, env.hash(block), Notarize);
      var finalize := FinalizeVoteFor(block.justify);
      r := Ok([BroadcastBlock(block), BroadcastVote(vote)] + finalize);
    }

    // ---- Blocks ----

    method ValidateAndStoreBlock(block: Block) returns (r: Result<(bool, seq<Action>), ConsensusError>)
      modifies this, storage, storage.manager, evidencePool
      ensures match ValidateAndStore(env, old(Snapshot()), block)
              case Rejected(e) => r == Err(e) && Snapshot() == old(Snapshot())
              case Orphaned(n) => r == Ok((false, [BroadcastRequest(block.parentHash)])) && Snapshot() == n
              case Stored(n) => r == Ok((true, [])) && Snapshot() == n
    {
      var hash := env.hash(block);
      if hash in storage.blocks {
        return Ok((true, []));
      }
      if block.parentHash != ZERO_HASH && block.parentHash !in storage.blocks {
        var list := if block.parentHash in orphans then orphans[block.parentHash] else [];
        orphans := orphans[block.parentHash := list + [block]];
        return Ok((false, [BroadcastRequest(block.parentHash)]));
      }
      if block.committeeHash != env.committeeHash(committee) {
        return Err(InvalidBlock);
      }
      var root := if block.parentHash == ZERO_HASH then ZERO_HASH else storage.blocks[block.parentHash].stateRoot;
      var run := env.dryRun(DiskRegistry(storage.manager.state), storage.manager.ledger, root, blockGasLimit, block.(gasUsed := 0));
      if run.None? {
        return Err(InvalidBlock);
      }
      if block.stateRoot != run.value.stateRoot {
        return Err(InvalidStateRoot);
      }
      if block.receiptsRoot != run.value.receiptsRoot {
        return Err(InvalidReceiptsRoot);
      }
      if !QcVerifies(block.justify) {
        return Err(InvalidQC);
      }
      UpdatePreferredChain(block.justify);
      storage.blocks := storage.blocks[hash := block];
      evidencePool.RemoveEvidence(block.evidence);
      return Ok((true, []));
    }

    method OnProposal(block: Block) returns (r: Result<seq<Action>, ConsensusError>)
      modifies this, storage, storage.manager, evidencePool
      ensures Out(Snapshot(), r) == Consensus.OnProposal(env, old(Snapshot()), block)
    {
      hide ValidateAndStore, FastForward;
      if block.view < currentView {
        return Err(InvalidView);
      }
      var check := ValidateAndStoreBlock(block);
      if check.Err? {
        return Err(check.error);
      }
      if !check.value.0 {
        return Ok(check.value.1);
      }
      CatchUp(block.view);
      if block.view <= lastVotedView {
        return Ok([]);
      }
      lastVotedView := block.view;
      PersistState();
      var vote := CreateBallot(block.view, env.hash(block));
      var finalize := FinalizeVoteFor(block.justify);
      return Ok([BroadcastVote(vote)] + finalize);
    }

    /** Stores a synced block, then every buffered block that waited for it. */
    method OnBlockResponse(block: Block) returns (r: Result<seq<Action>, ConsensusError>)
      requires Filed(orphans)
      modifies this, storage, storage.manager, evidencePool
      ensures Out(Snapshot(), r) == Respond(env, old(Snapshot()), block)
      decreases |orphans.Keys|, 0
    {
      hide ValidateAndStore, FastForward;
      ghost var keys := orphans.Keys;
      var check := ValidateAndStoreBlock(block);
      if check.Err? {
        return Err(check.error);
      }
      if !check.value.0 {
        return Ok(check.value.1);
      }
      CatchUp(block.view);
      var hash := env.hash(block);
      if hash !in orphans {
        return Ok([]);
      }
      var list := orphans[hash];
      orphans := orphans - {hash};
      SmallerSet(keys - {hash}, keys);
      var actions := ReprocessOrphans(list);
      return Ok(actions);
    }

    method ReprocessOrphans(list: seq<Block>) returns (actions: seq<Action>)
      requires Filed(orphans) && forall b :: b in list ==> ParentReady(Snapshot(), b)
      modifies this, storage, storage.manager, evidencePool
      ensures (Snapshot(), actions) == RespondAll(env, old(Snapshot()), list)
      decreases |orphans.Keys|, |list|
    {
      hide Respond, RespondAll, InProgress;
      ghost var start := Snapshot();
      actions := [];
      assert list[0..] == list;
      StartProgress(env, start, list);
      for i := 0 to |list|
        invariant InProgress(env, start, list, Snapshot(), list[i..], actions)
      {
        assert list[i..][0] == list[i] && list[i..][1..] == list[i + 1..];
        ghost var before := Snapshot();
        StepProgress(env, start, list, before, list[i..], actions);
        SubsetSize(orphans.Keys, start.orphans.Keys);
        var out := OnBlockResponse(list[i]);
        if out.Ok? {
          actions := actions + out.value;
        } else {
          assert actions + [] == actions;
        }
      }
      EndProgress(env, start, list, Snapshot(), actions);
    }

    // ---- Votes ----

    /** Counts the votes of a view for a hash, collecting signers and signatures. */
    method Tally(votes: map<PublicKey, Vote>, order: seq<PublicKey>, hash: Hash)
      returns (count: nat, signature: Signature, signers: seq<PublicKey>)
      requires Enumerates(order, votes.Keys)
      ensures (forall a :: a in order ==> a in votes) && signers == Visited(votes, order, hash)
      ensures count == |Supporters(votes, hash)| && signature == AggregateOf(votes, signers)
    {
      VisitedEnumerates(votes, order, hash);
      count, signature, signers := 0, multiset{}, [];
      for i := 0 to |order|
        invariant count == |signers| && signers == Visited(votes, order[..i], hash)
        invariant signature == AggregateOf(votes, signers)
      {
        assert order[..i + 1][..i] == order[..i];
        if votes[order[i]].blockHash == hash {
          AggregateAppend(votes, signers, order[i]);
          count, signature, signers := count + 1, signature + votes[order[i]].signature, signers + [order[i]];
        }
      }
      assert order[..|order|] == order;
    }

    method OnVote(vote: Vote, order: seq<PublicKey>, offer: Offer) returns (r: Result<seq<Action>, ConsensusError>)
      requires Wired() && Enumerates(order, FiledVotes(Snapshot(), vote).Keys)
      modifies this, storage, storage.manager, evidencePool
      ensures var votes := FiledVotes(old(Snapshot()), vote);
              && (forall a :: a in order ==> a in votes)
              && Enumerates(Visited(votes, order, vote.blockHash), Supporters(votes, vote.blockHash))
              && Out(Snapshot(), r) == Consensus.OnVote(env, old(Snapshot()), vote, Visited(votes, order, vote.blockHash), offer)
    {
      hide Consensus.OnFinalizeVote, Consensus.Certify, Visited, AggregateOf, Add, Accepts;
      VisitedEnumerates(FiledVotes(Snapshot(), vote), order, vote.blockHash);
      if !Verify(vote.author, vote.blockHash, vote.signature) {
        return Err(InvalidSignature);
      }
      if vote.voteType == Finalize {
        r := OnFinalizeVote(vote);
        return;
      }
      var known := if vote.view in votesReceived then votesReceived[vote.view] else map[];
      if vote.author in known && known[vote.author].blockHash != vote.blockHash
         && known[vote.author].blockHash != ZERO_HASH && vote.blockHash != ZERO_HASH {
        var evidence := Evidence(known[vote.author], vote);
        var added := evidencePool.AddEvidence(evidence);
        return Ok(if added then [BroadcastEvidence(evidence)] else []);
      }
      r := CountVote(vote, known[vote.author := vote], order, offer);
    }

    /** Files a vote and forms the certificate of its view when it completes a quorum. */
    method CountVote(vote: Vote, votes: map<PublicKey, Vote>, order: seq<PublicKey>, offer: Offer)
      returns (r: Result<seq<Action>, ConsensusError>)
      requires votes == FiledVotes(Snapshot(), vote) && Enumerates(order, votes.Keys)
      requires Verify(vote.author, vote.blockHash, vote.signature) && vote.voteType == Notarize && !Conflicts(Snapshot(), vote)
      modifies this, storage, storage.manager
      ensures (forall a :: a in order ==> a in votes)
              && Enumerates(Visited(votes, order, vote.blockHash), Supporters(votes, vote.blockHash))
              && Out(Snapshot(), r) == Consensus.OnVote(env, old(Snapshot()), vote, Visited(votes, order, vote.blockHash), offer)
    {
      hide Consensus.Certify, Visited, AggregateOf, Conflicts, Verify;
      VisitedEnumerates(votes, order, vote.blockHash);
      votesReceived := votesReceived[vote.view := votes];
      var count, signature, signers := Tally(votes, order, vote.blockHash);
      if count >= |committee| * 2 / 3 + 1 && vote.view !in storage.qcs {
        r := Certify(QuorumCertificate(vote.view, vote.blockHash, signature, signers), offer);
      } else {
        r := Ok([]);
      }
    }

    /** A new certificate: store it, vote to finalize its view, and propose if leading the next. */
    method Certify(qc: QuorumCertificate, offer: Offer) returns (r: Result<seq<Action>, ConsensusError>)
      modifies this, storage, storage.manager
      ensures Out(Snapshot(), r) == Consensus.Certify(env, old(Snapshot()), qc, offer)
    {
      storage.qcs := storage.qcs[qc.view := qc];
      UpdatePreferredChain(qc);
      var finalize := CreateVote(qc.view, qc.blockHash, Finalize);
      var actions := [BroadcastVote(finalize)];
      if qc.view + 1 > currentView {
        currentView := qc.view + 1;
        PersistState();
      }
      if IsLeader(Snapshot(), qc.view + 1) {
        var more := ProposeNext(qc, offer);
        actions := actions + more;
      }
      return Ok(actions);
    }

    method ProposeNext(qc: QuorumCertificate, offer: Offer) returns (actions: seq<Action>)
      modifies this, storage, storage.manager
      ensures (Snapshot(), actions) == ChainedProposal(env, old(Snapshot()), qc, offer)
    {
      hide Propose, Persist;
      var parent := if qc.blockHash == ZERO_HASH then preferredBlock else qc.blockHash;
      var proposal := CreateProposal(qc.view + 1, qc, parent, offer);
      if proposal.None? {
        return [];
      }
      var block := proposal.value;
      storage.blocks := storage.blocks[env.hash(block) := block];
      lastVotedView := block.view;
      PersistState();
      var vote := CreateBallot(block.view, env.hash(block));
      var finalize := FinalizeVoteFor(block.justify);
      return [BroadcastBlock(block), BroadcastVote(vote)] + finalize;
    }

    /** Counts finalize votes per view; at the threshold records the height, then commits the block. */
    method OnFinalizeVote(vote: Vote) returns (r: Result<seq<Action>, ConsensusError>)
      requires Wired()
      requires Verify(vote.author, vote.blockHash, vote.signature) && vote.voteType == Finalize
      modifies this, storage, storage.manager
      ensures Out(Snapshot(), r) == Consensus.OnFinalizeVote(env, old(Snapshot()), vote)
    {
      hide Persist, CommitBlock;
      var votes := if vote.view in finalizeVotesReceived then finalizeVotesReceived[vote.view] else map[];
      votes := votes[vote.author := vote];
      finalizeVotesReceived := finalizeVotesReceived[vote.view := votes];
      r := Ok([]);
      if |votes| >= |committee| * 2 / 3 + 1 && vote.view > finalizedHeight {
        finalizedHeight := vote.view;
        PersistState();
        if vote.blockHash != ZERO_HASH && vote.blockHash in storage.blocks {
          Commit(storage.blocks[vote.blockHash]);
        }
      }
    }

    /** Executes a finalized block against the real database and reloads the committee. */
    method Commit(block: Block)
      requires Wired()
      modifies this`committee, storage, storage.manager
      ensures Snapshot() == CommitBlock(env, old(Snapshot()), block)
    {
      var result := executor.ExecuteBlock(block);
      if result.Ok? && storage.manager.state.Some? {
        committee := storage.manager.state.value.committee;
      }
    }

    method OnTimeout(view: View) returns (r: Result<seq<Action>, ConsensusError>)
      ensures Out(Snapshot(), r) == Consensus.OnTimeout(Snapshot(), view)
    {
      if view < currentView {
        return Ok([]);
      }
      var vote := CreateVote(view, ZERO_HASH, Notarize);
      return Ok([BroadcastVote(vote)]);
    }

    /** Evidence received from a peer. */
    method OnEvidence(evidence: Evidence) returns (r: Result<seq<Action>, ConsensusError>)
      modifies evidencePool
      ensures Out(Snapshot(), r) == Consensus.OnEvidence(old(Snapshot()), evidence)
    {
      var added := evidencePool.AddEvidence(evidence);
      return Ok([]);
    }

    method OnBlockRequest(hash: Hash, peer: string) returns (r: Result<seq<Action>, ConsensusError>)
      ensures Out(Snapshot(), r) == Consensus.OnBlockRequest(Snapshot(), hash, peer)
    {
      if hash in storage.blocks {
        return Ok([SendBlock(storage.blocks[hash], peer)]);
      }
      return Ok([]);
    }
  }
}
