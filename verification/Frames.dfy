/** What each step of the handlers leaves alone, and that the record on disk stays in step with
    the node. */
module Frames {
  import opened Types
  import opened Collections
  import opened EvidencePoolModel
  import opened Consensus

  /** The record on disk agrees with the node on every field the node keeps in memory. */
  ghost predicate Synced(n: Node) {
    n.disk.state.Some? && OwnFields(n, n.disk.state.value) == n.disk.state.value
  }

  /** The record agrees with the node on its five positions. A failed commit may leave another
      committee in it. */
  ghost predicate Anchored(n: Node) {
    n.disk.state.Some? &&
    var s := n.disk.state.value;
    && s.view == n.currentView && s.finalizedHeight == n.finalizedHeight && s.preferredBlock == n.preferredBlock
    && s.preferredView == n.preferredView && s.lastVotedView == n.lastVotedView
  }

  lemma SyncedIffAnchored(n: Node)
    ensures Synced(n) <==> Anchored(n) && n.disk.state.value.committee == n.committee
  {
    if n.disk.state.Some? {
      var s, own := n.disk.state.value, OwnFields(n, n.disk.state.value);
      assert own.view == n.currentView && own.lastVotedView == n.lastVotedView && own.committee == n.committee;
    }
  }

  /** Queues, stakes and scores are as they were. */
  ghost predicate SameBooks(a: Option<ConsensusState>, b: Option<ConsensusState>) {
    a.Some? ==> b.Some? && b.value.pending == a.value.pending && b.value.exiting == a.value.exiting
                && b.value.stakes == a.value.stakes && b.value.scores == a.value.scores
  }

  /** Synchronised before implies synchronised after, anchored before implies anchored after, and the
      executor's fields are unchanged, but for the committee if that was not in step. */
  ghost predicate KeepsSync(a: Node, b: Node) {
    && (Synced(a) ==> Synced(b) && DiskRegistry(b.disk.state) == DiskRegistry(a.disk.state))
    && (Anchored(a) ==> Anchored(b))
    && SameBooks(a.disk.state, b.disk.state)
  }

  /** Persisting synchronises the record and leaves queues, stakes and scores alone. */
  lemma PersistFrame(env: Env, n: Node)
    ensures var r := Persist(env, n); r == n.(disk := n.disk.(state := r.disk.state)) && Synced(r) && Anchored(r)
    ensures n.disk.state.Some? ==>
      var before, after := n.disk.state.value, Persist(env, n).disk.state.value;
      && after.pending == before.pending && after.exiting == before.exiting
      && after.stakes == before.stakes && after.scores == before.scores
  {
  }

  /** Only the record, the positions and the committee matter to either predicate. */
  lemma KeepsSyncWith(a: Node, b: Node, c: Node)
    requires KeepsSync(a, b) && c.disk.state == b.disk.state && c.committee == b.committee
    requires c.currentView == b.currentView && c.finalizedHeight == b.finalizedHeight && c.lastVotedView == b.lastVotedView
    requires c.preferredBlock == b.preferredBlock && c.preferredView == b.preferredView
    ensures KeepsSync(a, c)
  {
  }

  lemma KeepsSyncSelf(a: Node)
    ensures KeepsSync(a, a)
  {
  }

  lemma PersistKeepsSync(env: Env, n: Node, a: Node)
    requires n.disk.state == a.disk.state && n.committee == a.committee
    ensures KeepsSync(a, Persist(env, n))
  {
    hide Persist;
    PersistFrame(env, n);
  }

  lemma PreferFrame(env: Env, n: Node, qc: QuorumCertificate)
    ensures var r := UpdatePreferred(env, n, qc);
            && r == n.(disk := n.disk.(state := r.disk.state), preferredView := r.preferredView, preferredBlock := r.preferredBlock)
            && r.preferredView >= n.preferredView && KeepsSync(n, r)
            && (r.preferredView != n.preferredView || r.preferredBlock != n.preferredBlock ==>
                qc.blockHash != ZERO_HASH && r.preferredView == qc.view && r.preferredBlock == qc.blockHash)
            && (qc.blockHash != ZERO_HASH ==> r.preferredView >= qc.view)
  {
    hide Persist;
    var n1 := n.(preferredView := qc.view, preferredBlock := qc.blockHash);
    PersistFrame(env, n1);
    PersistKeepsSync(env, n1, n);
  }

  lemma AdvanceFrame(env: Env, n: Node, view: View)
    ensures var r := AdvanceTo(env, n, view);
            r == n.(disk := n.disk.(state := r.disk.state), currentView := view) && KeepsSync(n, r)
  {
    hide Persist;
    var n1 := n.(currentView := view);
    PersistFrame(env, n1);
    PersistKeepsSync(env, n1, n);
  }

  lemma FastForwardFrame(env: Env, n: Node, view: View)
    ensures var r := FastForward(env, n, view);
            && r == n.(disk := n.disk.(state := r.disk.state), currentView := r.currentView)
            && r.currentView >= n.currentView && KeepsSync(n, r)
  {
    hide AdvanceTo;
    AdvanceFrame(env, n, view);
  }

  /** Storing a block changes blocks, the preferred block, the buffer and the evidence pool. */
  lemma StoreFrame(env: Env, n: Node, block: Block)
    ensures var c := ValidateAndStore(env, n, block);
            !c.Rejected? ==>
              && c.node == n.(disk := n.disk.(state := c.node.disk.state, blocks := c.node.disk.blocks),
                              preferredView := c.node.preferredView, preferredBlock := c.node.preferredBlock,
                              orphans := c.node.orphans, evidence := c.node.evidence)
              && c.node.preferredView >= n.preferredView && KeepsSync(n, c.node)
              && (c.node.preferredView != n.preferredView || c.node.preferredBlock != n.preferredBlock ==>
                  block.justify.blockHash != ZERO_HASH &&
                  c.node.preferredView == block.justify.view && c.node.preferredBlock == block.justify.blockHash)
              && c.node.disk.blocks == (if c.Stored? && env.hash(block) !in n.disk.blocks
                                        then n.disk.blocks[env.hash(block) := block] else n.disk.blocks)
  {
    hide UpdatePreferred, NodeVerdict, ParentReady, Remove, KeepsSync;
    PreferFrame(env, n, block.justify);
    KeepsSyncSelf(n);
    var c := ValidateAndStore(env, n, block);
    if c.Orphaned? {
      KeepsSyncWith(n, n, c.node);
    } else if c.Stored? && env.hash(block) !in n.disk.blocks {
      KeepsSyncWith(n, UpdatePreferred(env, n, block.justify), c.node);
    }
  }

  lemma NewQcFrame(env: Env, n: Node, qc: QuorumCertificate)
    ensures var r := NewQc(env, n, qc);
            && r == n.(disk := n.disk.(state := r.disk.state, qcs := n.disk.qcs[qc.view := qc]),
                       preferredView := r.preferredView, preferredBlock := r.preferredBlock, currentView := r.currentView)
            && r.currentView >= qc.view + 1 && r.currentView >= n.currentView
            && r.preferredView >= n.preferredView && KeepsSync(n, r)
            && (r.preferredView != n.preferredView || r.preferredBlock != n.preferredBlock ==>
                qc.blockHash != ZERO_HASH && r.preferredView == qc.view && r.preferredBlock == qc.blockHash)
            && (qc.blockHash != ZERO_HASH ==> r.preferredView >= qc.view)
  {
    hide UpdatePreferred, AdvanceTo;
    var n0 := n.(disk := n.disk.(qcs := n.disk.qcs[qc.view := qc]));
    assert KeepsSync(n, n0);
    PreferFrame(env, n0, qc);
    AdvanceFrame(env, UpdatePreferred(env, n0, qc), qc.view + 1);
  }

  lemma ChainedFrame(env: Env, n: Node, qc: QuorumCertificate, offer: Offer)
    ensures var r := ChainedProposal(env, n, qc, offer).0;
            && r == n.(disk := n.disk.(state := r.disk.state, blocks := r.disk.blocks), lastVotedView := r.lastVotedView)
            && KeepsSync(n, r)
            && var p := Propose(env, n, qc.view + 1, qc, offer);
               if p.Some? then r.lastVotedView == qc.view + 1 && Synced(r) && Anchored(r) && r.disk.blocks == n.disk.blocks[env.hash(p.value) := p.value]
               else r == n
  {
    hide Propose, Persist;
    var p := Propose(env, n, qc.view + 1, qc, offer);
    if p.Some? {
      var n1 := SaveBlock(env, n, p.value).(lastVotedView := p.value.view);
      PersistFrame(env, n1);
      PersistKeepsSync(env, n1, n);
    }
  }

  /** A new certificate changes the certificates, the views, the preferred block and, if a block is
      proposed, the blocks and lastVotedView. */
  lemma CertifyFrame(env: Env, n: Node, qc: QuorumCertificate, offer: Offer)
    ensures var r := Certify(env, n, qc, offer).node;
            && r == n.(disk := n.disk.(state := r.disk.state, blocks := r.disk.blocks, qcs := n.disk.qcs[qc.view := qc]),
                       preferredView := r.preferredView, preferredBlock := r.preferredBlock,
                       currentView := r.currentView, lastVotedView := r.lastVotedView)
            && KeepsSync(n, r) && r.currentView >= n.currentView && r.preferredView >= n.preferredView
            && r.currentView >= qc.view + 1 && (r.lastVotedView == n.lastVotedView || r.lastVotedView == qc.view + 1)
            && (r.preferredView != n.preferredView || r.preferredBlock != n.preferredBlock ==>
                qc.blockHash != ZERO_HASH && r.preferredView == qc.view && r.preferredBlock == qc.blockHash)
            && (qc.blockHash != ZERO_HASH ==> r.preferredView >= qc.view)
  {
    hide NewQc, ChainedProposal;
    NewQcFrame(env, n, qc);
    ChainedFrame(env, NewQc(env, n, qc), qc, offer);
  }

  lemma RaiseFrame(env: Env, n: Node, vote: Vote)
    ensures var r := Raise(env, n, vote);
            && r == n.(disk := n.disk.(state := r.disk.state), finalizedHeight := vote.view,
                       finalizeVotes := n.finalizeVotes[vote.view := FinalizeVotes(n, vote)])
            && Synced(r) && Anchored(r) && KeepsSync(n, r)
  {
    hide Persist, FinalizeVotes;
    var n1 := n.(finalizeVotes := n.finalizeVotes[vote.view := FinalizeVotes(n, vote)], finalizedHeight := vote.view);
    PersistFrame(env, n1);
    PersistKeepsSync(env, n1, n);
  }

  /** A finalize vote changes the finalize table, the finalized height, and what a commit changes. */
  lemma FinalizeFrame(env: Env, n: Node, vote: Vote)
    requires Verify(vote.author, vote.blockHash, vote.signature) && vote.voteType == Finalize
    ensures var r := OnFinalizeVote(env, n, vote).node;
            && r == n.(disk := n.disk.(state := r.disk.state, ledger := r.disk.ledger), committee := r.committee,
                       finalizedHeight := r.finalizedHeight, finalizeVotes := r.finalizeVotes)
            && r.finalizeVotes == n.finalizeVotes[vote.view := FinalizeVotes(n, vote)]
            && r.finalizedHeight == if Finalizes(n, vote) then vote.view else n.finalizedHeight
    ensures Emitted(OnFinalizeVote(env, n, vote)) == []
  {
    hide Raise, FinalizeVotes, Finalizes, KeepsSync, Synced, Anchored;
    RaiseFrame(env, n, vote);
  }

  // ---- Syncing ----

  /** What syncing blocks can change: blocks, views, the preferred block, the buffer and the
      evidence pool. */
  ghost predicate SyncOnly(a: Node, b: Node) {
    && b == a.(disk := a.disk.(state := b.disk.state, blocks := b.disk.blocks), currentView := b.currentView,
               preferredView := b.preferredView, preferredBlock := b.preferredBlock,
               orphans := b.orphans, evidence := b.evidence)
    && b.currentView >= a.currentView && b.preferredView >= a.preferredView && KeepsSync(a, b)
  }

  lemma SyncOnlyTrans(a: Node, b: Node, c: Node)
    requires SyncOnly(a, b) && SyncOnly(b, c)
    ensures SyncOnly(a, c)
  {
  }

  ghost predicate OnlyRequests(actions: seq<Action>) {
    forall a :: a in actions ==> a.BroadcastRequest?
  }

  /** The node once a block is stored and the view has caught up. */
  ghost function Settled(env: Env, n: Node, block: Block): Node
    requires ValidateAndStore(env, n, block).Stored?
  {
    FastForward(env, ValidateAndStore(env, n, block).node, block.view)
  }

  lemma SettledFrame(env: Env, n: Node, block: Block)
    requires ValidateAndStore(env, n, block).Stored?
    ensures var r := Settled(env, n, block);
            && SyncOnly(n, r) && r.orphans == n.orphans && r.currentView >= block.view
            && env.hash(block) in r.disk.blocks && Grows(n, r)
            && r.disk.blocks == (if env.hash(block) !in n.disk.blocks then n.disk.blocks[env.hash(block) := block] else n.disk.blocks)
            && (r.preferredView != n.preferredView || r.preferredBlock != n.preferredBlock ==>
                block.justify.blockHash != ZERO_HASH &&
                r.preferredView == block.justify.view && r.preferredBlock == block.justify.blockHash)
  {
    hide ValidateAndStore, FastForward;
    StoreFrame(env, n, block);
    FastForwardFrame(env, ValidateAndStore(env, n, block).node, block.view);
  }

  lemma {:induction false} RespondFrame(env: Env, n: Node, block: Block)
    requires Filed(n.orphans)
    ensures SyncOnly(n, Respond(env, n, block).node) && OnlyRequests(Emitted(Respond(env, n, block)))
    decreases |n.orphans.Keys|, 0
  {
    hide ValidateAndStore, FastForward, KeepsSync;
    KeepsSyncSelf(n);
    StoreFrame(env, n, block);
    var c := ValidateAndStore(env, n, block);
    if c.Stored? {
      SettledFrame(env, n, block);
      var r := Settled(env, n, block);
      var hash := env.hash(block);
      if hash in r.orphans {
        SmallerSet(n.orphans.Keys - {hash}, n.orphans.Keys);
        KeepsSyncWith(n, r, Released(r, hash));
        RespondAllFrame(env, Released(r, hash), r.orphans[hash]);
        SyncOnlyTrans(n, Released(r, hash), RespondAll(env, Released(r, hash), r.orphans[hash]).0);
      }
    }
  }

  lemma {:induction false} RespondAllFrame(env: Env, n: Node, blocks: seq<Block>)
    requires Filed(n.orphans) && forall b :: b in blocks ==> ParentReady(n, b)
    ensures SyncOnly(n, RespondAll(env, n, blocks).0) && OnlyRequests(RespondAll(env, n, blocks).1)
    decreases |n.orphans.Keys|, |blocks|
  {
    if blocks != [] {
      RespondFrame(env, n, blocks[0]);
      var first := Respond(env, n, blocks[0]);
      SubsetSize(first.node.orphans.Keys, n.orphans.Keys);
      assert forall b :: b in blocks[1..] ==> ParentReady(n, b);
      RespondAllFrame(env, first.node, blocks[1..]);
      SyncOnlyTrans(n, first.node, RespondAll(env, first.node, blocks[1..]).0);
    }
  }
}
