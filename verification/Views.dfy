/** How the views of a node move, over every interleaving of handlers and restarts. */
module Views {
  import opened Types
  import opened Collections
  import opened Consensus
  import opened Frames
  import opened Recovery
  import opened Discipline
  import opened VoteTables

  /** The node is past every view it holds a certificate for, and votes in no later view. */
  ghost predicate Ahead(n: Node) {
    (forall v :: v in n.disk.qcs ==> v < n.currentView) && n.lastVotedView <= n.currentView
  }

  /** No view, preferred view or finalized height is ever given up. */
  ghost predicate Forward(a: Node, b: Node) {
    a.currentView <= b.currentView && a.preferredView <= b.preferredView && a.finalizedHeight <= b.finalizedHeight
  }

  lemma ProposalViews(env: Env, n: Node, block: Block)
    requires Ahead(n)
    ensures Ahead(OnProposal(env, n, block).node) && Forward(n, OnProposal(env, n, block).node)
  {
    hide ValidateAndStore, FastForward, Persist;
    StoreFrame(env, n, block);
    var c := ValidateAndStore(env, n, block);
    if c.Stored? {
      SettledFrame(env, n, block);
      PersistFrame(env, Settled(env, n, block).(lastVotedView := block.view));
    }
  }

  lemma VoteViews(env: Env, n: Node, e: Event)
    requires Enabled(n, e) && e.VoteIn? && Ahead(n)
    ensures var out := Handle(env, n, e).node; Ahead(out) && Forward(n, out)
  {
    hide OnFinalizeVote, Certify, Completes, Conflicts, Finalizes, FinalizeVotes;
    var vote := e.vote;
    if Verify(vote.author, vote.blockHash, vote.signature) && vote.voteType == Finalize {
      FinalizeFrame(env, n, vote);
      RaisesHeight(n, vote);
    } else if Completes(n, vote) {
      CompletesVerified(n, vote);
      CertifyFrame(env, n.(votes := n.votes[vote.view := FiledVotes(n, vote)]), Completed(n, vote, e.signers), e.offer);
    }
  }

  lemma RaisesHeight(n: Node, vote: Vote)
    ensures Finalizes(n, vote) ==> vote.view > n.finalizedHeight
  {
  }

  lemma HandleViews(env: Env, n: Node, e: Event)
    requires Enabled(n, e) && Anchored(n) && Ahead(n)
    ensures var out := Handle(env, n, e).node; Ahead(out) && Forward(n, out)
  {
    hide OnProposal, OnVote, Respond, Propose, Restarted, Anchored;
    match e
    case Proposal(block) => ProposalViews(env, n, block);
    case VoteIn(_, _, _) => VoteViews(env, n, e);
    case Response(block) => RespondFrame(env, n, block);
    case Restart => AnchoredRestarts(env, n);
    case _ =>
  }

  /** In every run a node stays past the views it has certified and never moves backwards, whatever
      it receives and however often it restarts. */
  lemma {:induction false} ViewsOnlyAdvance(env: Env, n: Node, es: seq<Event>)
    requires KeepsPositions(env) && Anchored(n) && Ahead(n) && Runs(env, n, es)
    ensures Ahead(After(env, n, es)) && Forward(n, After(env, n, es))
  {
    hide Handle, Anchored, KeepsPositions, Ahead;
    if es != [] {
      var init, e := es[..|es| - 1], es[|es| - 1];
      ViewsOnlyAdvance(env, n, init);
      RunAnchored(env, n, init);
      HandleViews(env, After(env, n, init), e);
    }
  }

  // ---- Exactly where a step leads ----

  /** A vote that brings a certificate moves the node to the view after it, if it is not further
      already, and its preference to a real certified block at or above the preferred view. A vote
      that brings none moves neither. */
  lemma VoteMoves(env: Env, n: Node, vote: Vote, signers: seq<PublicKey>, offer: Offer)
    requires Enabled(n, VoteIn(vote, signers, offer))
    ensures var out := OnVote(env, n, vote, signers, offer).node;
            var certified := vote.view in out.disk.qcs && vote.view !in n.disk.qcs;
            var prefers := certified && vote.blockHash != ZERO_HASH && vote.view >= n.preferredView;
            && out.currentView == (if certified && vote.view >= n.currentView then vote.view + 1 else n.currentView)
            && out.preferredView == (if prefers then vote.view else n.preferredView)
            && out.preferredBlock == (if prefers then vote.blockHash else n.preferredBlock)
  {
    hide OnFinalizeVote, Certify, Completes, Conflicts;
    if Verify(vote.author, vote.blockHash, vote.signature) {
      if vote.voteType == Finalize {
        FinalizeFrame(env, n, vote);
      } else if Completes(n, vote) {
        CompletesVerified(n, vote);
        CertificateMoves(env, n.(votes := n.votes[vote.view := FiledVotes(n, vote)]), Completed(n, vote, signers), offer);
      }
    }
    if Completes(n, vote) {
      CompletesVerified(n, vote);
    }
  }

  lemma CertificateMoves(env: Env, n: Node, qc: QuorumCertificate, offer: Offer)
    ensures var out := Certify(env, n, qc, offer).node;
            var prefers := qc.blockHash != ZERO_HASH && qc.view >= n.preferredView;
            && qc.view in out.disk.qcs
            && out.currentView == (if qc.view >= n.currentView then qc.view + 1 else n.currentView)
            && out.preferredView == (if prefers then qc.view else n.preferredView)
            && out.preferredBlock == (if prefers then qc.blockHash else n.preferredBlock)
  {
    hide NewQc, ChainedProposal, KeepsSync;
    NewQcFrame(env, n, qc);
    NewQcMoves(env, n, qc);
    ChainedFrame(env, NewQc(env, n, qc), qc, offer);
  }

  lemma NewQcMoves(env: Env, n: Node, qc: QuorumCertificate)
    ensures var r := NewQc(env, n, qc);
            var prefers := qc.blockHash != ZERO_HASH && qc.view >= n.preferredView;
            && r.currentView == (if qc.view >= n.currentView then qc.view + 1 else n.currentView)
            && r.preferredView == (if prefers then qc.view else n.preferredView)
            && r.preferredBlock == (if prefers then qc.blockHash else n.preferredBlock)
  {
    hide UpdatePreferred, AdvanceTo, KeepsSync;
    var n0 := n.(disk := n.disk.(qcs := n.disk.qcs[qc.view := qc]));
    PreferFrame(env, n0, qc);
    PreferExact(env, n0, qc);
    AdvanceFrame(env, UpdatePreferred(env, n0, qc), qc.view + 1);
  }

  lemma PreferExact(env: Env, n: Node, qc: QuorumCertificate)
    ensures var r, prefers := UpdatePreferred(env, n, qc), qc.blockHash != ZERO_HASH && qc.view >= n.preferredView;
            && r.preferredView == (if prefers then qc.view else n.preferredView)
            && r.preferredBlock == (if prefers then qc.blockHash else n.preferredBlock)
  {
    hide Persist;
    PersistFrame(env, n.(preferredView := qc.view, preferredBlock := qc.blockHash));
  }

  /** A proposal moves the node to its view exactly when it is stored and the node is not there yet. */
  lemma ProposalMoves(env: Env, n: Node, block: Block)
    ensures var out := OnProposal(env, n, block).node;
            out.currentView == if block.view > n.currentView && env.hash(block) in out.disk.blocks then block.view else n.currentView
  {
    hide ValidateAndStore, Persist;
    StoreFrame(env, n, block);
    var c := ValidateAndStore(env, n, block);
    if c.Stored? {
      AdvanceFrame(env, c.node, block.view);
      PersistFrame(env, Settled(env, n, block).(lastVotedView := block.view));
    } else {
      UnstoredUnknown(env, n, block);
    }
  }

  lemma UnstoredUnknown(env: Env, n: Node, block: Block)
    ensures !ValidateAndStore(env, n, block).Stored? ==> env.hash(block) !in n.disk.blocks
  {
  }

  /** The view of a processed block, or the one the node had. */
  ghost predicate Reached(env: Env, a: Node, b: Node) {
    a.currentView == b.currentView || exists x :: env.hash(x) in b.disk.blocks && x.view == b.currentView
  }

  lemma {:induction false} SyncMoves(env: Env, n: Node, block: Block)
    requires Filed(n.orphans)
    ensures var out := Respond(env, n, block).node; Reached(env, n, out) && (env.hash(block) in out.disk.blocks ==> out.currentView >= block.view)
    decreases |n.orphans.Keys|, 0
  {
    hide ValidateAndStore, FastForward, Reached;
    StoreFrame(env, n, block);
    UnstoredUnknown(env, n, block);
    ReachedSelf(env, n, n);
    var c := ValidateAndStore(env, n, block);
    if c.Stored? {
      var r, hash := Settled(env, n, block), env.hash(block);
      SettledFrame(env, n, block);
      SettledReaches(env, n, block);
      if hash in r.orphans {
        SmallerSet(n.orphans.Keys - {hash}, n.orphans.Keys);
        AllMove(env, Released(r, hash), r.orphans[hash]);
        RespondAllFrame(env, Released(r, hash), r.orphans[hash]);
        var out := RespondAll(env, Released(r, hash), r.orphans[hash]).0;
        ReachedTwice(env, n, r, Released(r, hash), out);
      }
    } else if c.Orphaned? {
      ReachedSelf(env, n, c.node);
    }
  }

  lemma ReachedSelf(env: Env, a: Node, b: Node)
    requires a.currentView == b.currentView
    ensures Reached(env, a, b)
  {
  }

  lemma SettledReaches(env: Env, n: Node, block: Block)
    requires ValidateAndStore(env, n, block).Stored?
    ensures Reached(env, n, Settled(env, n, block))
  {
    hide ValidateAndStore, Persist;
    StoreFrame(env, n, block);
    AdvanceFrame(env, ValidateAndStore(env, n, block).node, block.view);
    assert env.hash(block) in Settled(env, n, block).disk.blocks;
  }

  lemma ReachedTwice(env: Env, a: Node, b: Node, mid: Node, c: Node)
    requires Reached(env, a, b) && Reached(env, mid, c) && mid.currentView == b.currentView && Grows(b, c)
    ensures Reached(env, a, c)
  {
  }

  lemma {:induction false} AllMove(env: Env, n: Node, blocks: seq<Block>)
    requires Filed(n.orphans) && forall b :: b in blocks ==> ParentReady(n, b)
    ensures Reached(env, n, RespondAll(env, n, blocks).0)
    decreases |n.orphans.Keys|, |blocks|
  {
    hide Reached;
    if blocks == [] {
      ReachedSelf(env, n, n);
    } else {
      SyncMoves(env, n, blocks[0]);
      var first := Respond(env, n, blocks[0]);
      SubsetSize(first.node.orphans.Keys, n.orphans.Keys);
      assert forall b :: b in blocks[1..] ==> ParentReady(n, b);
      AllMove(env, first.node, blocks[1..]);
      ReachedTwice(env, n, first.node, first.node, RespondAll(env, first.node, blocks[1..]).0);
    }
  }
}
