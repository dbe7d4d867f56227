/** What it takes for a block to be stored, which check refuses it, and what happens to one whose
    parent is missing. */
module Validation {
  import opened Types
  import opened Collections
  import EvidencePoolModel
  import Vm
  import opened Consensus
  import opened Frames

  /** Re-execution on the node's state, from the state root of the block's parent and with its claim
      on gas cleared, gives the committee hash and the two roots the block carries. */
  ghost predicate Reexecutes(env: Env, n: Node, block: Block) {
    && block.committeeHash == env.committeeHash(n.committee)
    && var r := Rerun(env, n, block);
       r.Some? && r.value.stateRoot == block.stateRoot && r.value.receiptsRoot == block.receiptsRoot
  }

  /** The dry run a validating node makes. */
  function Rerun(env: Env, n: Node, block: Block): Option<Vm.Roots> {
    var root := if block.parentHash != ZERO_HASH && block.parentHash in n.disk.blocks
                then n.disk.blocks[block.parentHash].stateRoot else ZERO_HASH;
    env.dryRun(DiskRegistry(n.disk.state), n.disk.ledger, root, n.blockGasLimit, block.(gasUsed := 0))
  }

  /** The certificate is the genesis one or carries the signatures of the keys it lists. */
  ghost predicate Certified(qc: QuorumCertificate) {
    qc.view == 0 || (qc.signers != [] && qc.signature == AllSigned(qc.signers, qc.blockHash))
  }

  ghost predicate AtHand(env: Env, n: Node, block: Block) {
    env.hash(block) !in n.disk.blocks && (block.parentHash == ZERO_HASH || block.parentHash in n.disk.blocks)
  }

  /** An unknown block whose parent is at hand is stored if and only if it re-executes and its
      certificate verifies; the blocks then gain it, and a certificate for a real block at or above the
      preferred view moves the preference. */
  lemma StoredIff(env: Env, n: Node, block: Block)
    requires AtHand(env, n, block)
    ensures var c := ValidateAndStore(env, n, block);
            && !c.Orphaned? && (c.Stored? <==> Reexecutes(env, n, block) && Certified(block.justify))
            && (c.Stored? ==>
                  && c.node.disk.blocks == n.disk.blocks[env.hash(block) := block]
                  && var qc := block.justify;
                     if qc.blockHash != ZERO_HASH && qc.view >= n.preferredView
                     then c.node.preferredView == qc.view && c.node.preferredBlock == qc.blockHash
                     else c.node.preferredView == n.preferredView && c.node.preferredBlock == n.preferredBlock)
  {
    hide Persist, EvidencePoolModel.Remove;
    var qc := block.justify;
    PersistFrame(env, n.(preferredView := qc.view, preferredBlock := qc.blockHash));
    StoreFrame(env, n, block);
  }

  /** The first check that fails, in the order they are made, names the error. */
  ghost function FirstFailure(env: Env, n: Node, block: Block): ConsensusError
    requires !(Reexecutes(env, n, block) && Certified(block.justify))
  {
    var r := Rerun(env, n, block);
    if block.committeeHash != env.committeeHash(n.committee) || r.None? then InvalidBlock
    else if r.value.stateRoot != block.stateRoot then InvalidStateRoot
    else if r.value.receiptsRoot != block.receiptsRoot then InvalidReceiptsRoot
    else InvalidQC
  }

  /** A refused block is answered with the error of the first check it fails, by either handler, and
      leaves the node as it was. */
  lemma RefusedWith(env: Env, n: Node, block: Block)
    requires AtHand(env, n, block) && !(Reexecutes(env, n, block) && Certified(block.justify)) && Filed(n.orphans)
    ensures Respond(env, n, block) == Out(n, Err(FirstFailure(env, n, block)))
    ensures OnProposal(env, n, block) == Out(n, Err(if block.view < n.currentView then InvalidView else FirstFailure(env, n, block)))
  {
    hide UpdatePreferred;
  }

  /** A block whose parent is missing waits under that parent, behind those that wait already, and the
      parent is asked for; a late proposal is refused before it gets there. */
  lemma MissingParentAskedFor(env: Env, n: Node, block: Block)
    requires env.hash(block) !in n.disk.blocks && block.parentHash != ZERO_HASH && block.parentHash !in n.disk.blocks && Filed(n.orphans)
    ensures var out := Respond(env, n, block);
            && Emitted(out) == [BroadcastRequest(block.parentHash)] && out.result.Ok?
            && out.node == n.(orphans := out.node.orphans)
            && out.node.orphans.Keys == n.orphans.Keys + {block.parentHash}
            && (forall h :: h in n.orphans && h != block.parentHash ==> out.node.orphans[h] == n.orphans[h])
            && out.node.orphans[block.parentHash] == (if block.parentHash in n.orphans then n.orphans[block.parentHash] else []) + [block]
    ensures OnProposal(env, n, block) == if block.view < n.currentView then Out(n, Err(InvalidView)) else Respond(env, n, block)
  {
  }

  /** Syncing asks for nothing else: a block that is stored, and the waiting ones it releases, draw no
      request. */
  lemma {:induction false} SyncedSilently(env: Env, n: Node, block: Block)
    requires Filed(n.orphans) && ParentReady(n, block)
    ensures Emitted(Respond(env, n, block)) == []
    decreases |n.orphans.Keys|, 0
  {
    hide ValidateAndStore, FastForward;
    var c := ValidateAndStore(env, n, block);
    if c.Stored? {
      var r, hash := Settled(env, n, block), env.hash(block);
      SettledFrame(env, n, block);
      if hash in r.orphans {
        SmallerSet(n.orphans.Keys - {hash}, n.orphans.Keys);
        AllSilently(env, Released(r, hash), r.orphans[hash]);
      }
    }
  }

  lemma {:induction false} AllSilently(env: Env, n: Node, blocks: seq<Block>)
    requires Filed(n.orphans) && forall b :: b in blocks ==> ParentReady(n, b)
    ensures RespondAll(env, n, blocks).1 == []
    decreases |n.orphans.Keys|, |blocks|
  {
    if blocks != [] {
      SyncedSilently(env, n, blocks[0]);
      var first := Respond(env, n, blocks[0]);
      SubsetSize(first.node.orphans.Keys, n.orphans.Keys);
      assert forall b :: b in blocks[1..] ==> ParentReady(n, b);
      AllSilently(env, first.node, blocks[1..]);
    }
  }

  /** A vote whose signature does not verify is refused and forgotten. */
  lemma UnsignedVoteRefused(env: Env, n: Node, vote: Vote, signers: seq<PublicKey>, offer: Offer)
    requires Enumerates(signers, Supporters(FiledVotes(n, vote), vote.blockHash))
    ensures OnVote(env, n, vote, signers, offer).result.Err? <==> vote.signature != Sign(vote.author, vote.blockHash)
    ensures vote.signature != Sign(vote.author, vote.blockHash) ==>
      OnVote(env, n, vote, signers, offer) == Out(n, Err(InvalidSignature))
  {
    hide NewQc, ChainedProposal, Raise, CommitBlock, Completes, Conflicts, Finalizes;
  }
}
