/** Where blocks and certificates come from when the certificates carried by blocks are genuine, and
    agreement on what is finalized. */
module Agreement {
  import opened Types
  import opened Collections
  import opened Consensus
  import opened Frames
  import opened Recovery
  import opened Discipline
  import opened VoteTables
  import opened Emissions
  import opened Quorums
  import opened Network
  import opened BlockSync

  ghost predicate Backed(s: Setup, sent: set<Vote>, view: View, hash: Hash) {
    view > 0 && Quorum(sent, s.committee, s.faulty, view, hash)
  }

  /** A certificate carried by a block: the genesis one or one backed by a quorum. */
  ghost predicate JustifyOk(s: Setup, sent: set<Vote>, qc: QuorumCertificate) {
    (qc.view == 0 && qc.blockHash == ZERO_HASH) || Backed(s, sent, qc.view, qc.blockHash)
  }

  ghost predicate AllJustified(s: Setup, sent: set<Vote>, blocks: set<Block>) {
    forall b :: b in blocks ==> JustifyOk(s, sent, b.justify)
  }

  lemma BackedGrows(s: Setup, sent: set<Vote>, more: set<Vote>, view: View, hash: Hash)
    requires sent <= more && Backed(s, sent, view, hash)
    ensures Backed(s, more, view, hash)
  {
    QuorumGrows(sent, more, s.committee, s.faulty, view, hash);
  }

  /** Stored and buffered blocks were broadcast (or are the genesis block), stored ones under their
      hash. */
  ghost predicate Sourced(s: Setup, blocks: set<Block>, n: Node) {
    && (forall h :: h in n.disk.blocks ==>
          (n.disk.blocks[h] in blocks || n.disk.blocks[h] == GenesisBlock(s.env)) && s.env.hash(n.disk.blocks[h]) == h)
    && (forall x :: Buffered(n, x) ==> x in blocks)
  }

  /** The preferred block is genesis or backed, and no real certificate of the node is higher. */
  ghost predicate Preferring(s: Setup, sent: set<Vote>, n: Node) {
    && (if n.preferredView == 0 then n.preferredBlock == s.env.hash(GenesisBlock(s.env))
        else n.preferredBlock != ZERO_HASH && Backed(s, sent, n.preferredView, n.preferredBlock))
    && forall v :: v in n.disk.qcs && n.disk.qcs[v].blockHash != ZERO_HASH ==> v <= n.preferredView
  }

  ghost predicate Grounded(s: Setup, sent: set<Vote>, blocks: set<Block>, n: Node) {
    Sourced(s, blocks, n) && Preferring(s, sent, n)
  }

  lemma PreferringGrows(s: Setup, sent: set<Vote>, more: set<Vote>, n: Node)
    requires Preferring(s, sent, n) && sent <= more
    ensures Preferring(s, more, n)
  {
    hide Backed;
    if n.preferredView > 0 {
      BackedGrows(s, sent, more, n.preferredView, n.preferredBlock);
    }
  }

  /** A preferred block taken over from a justified certificate stays backed. */
  lemma PreferringFrom(s: Setup, sent: set<Vote>, n: Node, out: Node, qc: QuorumCertificate)
    requires Preferring(s, sent, n) && JustifyOk(s, sent, qc) && out.disk.qcs == n.disk.qcs
    requires out.preferredView >= n.preferredView
    requires out.preferredView != n.preferredView || out.preferredBlock != n.preferredBlock ==>
      qc.blockHash != ZERO_HASH && out.preferredView == qc.view && out.preferredBlock == qc.blockHash
    ensures Preferring(s, sent, out)
  {
    hide Quorum;
  }

  // ---- Syncing and proposals ----

  lemma SettledGround(s: Setup, sent: set<Vote>, blocks: set<Block>, n: Node, block: Block)
    requires Grounded(s, sent, blocks, n) && AllJustified(s, sent, blocks) && block in blocks
    requires ValidateAndStore(s.env, n, block).Stored?
    ensures Grounded(s, sent, blocks, Settled(s.env, n, block))
  {
    hide ValidateAndStore, Settled, Preferring, JustifyOk;
    SettledFrame(s.env, n, block);
    PreferringFrom(s, sent, n, Settled(s.env, n, block), block.justify);
  }

  lemma BufferGround(s: Setup, sent: set<Vote>, blocks: set<Block>, n: Node, block: Block)
    requires Grounded(s, sent, blocks, n) && block in blocks && ValidateAndStore(s.env, n, block).Orphaned?
    ensures Grounded(s, sent, blocks, ValidateAndStore(s.env, n, block).node)
  {
    hide NodeVerdict, UpdatePreferred, Backed;
    var out := ValidateAndStore(s.env, n, block).node;
    forall x | Buffered(out, x) ensures x in blocks {
      assert x == block || Buffered(n, x);
    }
  }

  lemma {:induction false} RespondGround(s: Setup, sent: set<Vote>, blocks: set<Block>, n: Node, block: Block)
    requires Filed(n.orphans) && Grounded(s, sent, blocks, n) && AllJustified(s, sent, blocks) && block in blocks
    ensures Grounded(s, sent, blocks, Respond(s.env, n, block).node)
    decreases |n.orphans.Keys|, 0
  {
    hide ValidateAndStore, FastForward, Grounded, AllJustified;
    var c := ValidateAndStore(s.env, n, block);
    if c.Orphaned? {
      BufferGround(s, sent, blocks, n, block);
    } else if c.Stored? {
      SettledFrame(s.env, n, block);
      SettledGround(s, sent, blocks, n, block);
      var r, hash := Settled(s.env, n, block), s.env.hash(block);
      if hash in r.orphans {
        SmallerSet(n.orphans.Keys - {hash}, n.orphans.Keys);
        ReleaseGround(s, sent, blocks, r, hash);
        RespondAllGround(s, sent, blocks, Released(r, hash), r.orphans[hash]);
      }
    }
  }

  lemma ReleaseGround(s: Setup, sent: set<Vote>, blocks: set<Block>, n: Node, hash: Hash)
    requires Grounded(s, sent, blocks, n) && hash in n.orphans && Filed(n.orphans)
    ensures Grounded(s, sent, blocks, Released(n, hash))
    ensures forall x :: x in n.orphans[hash] ==> x in blocks
  {
    hide Backed;
    forall x | Buffered(Released(n, hash), x) ensures x in blocks {
      assert Buffered(n, x);
    }
    forall x | x in n.orphans[hash] ensures x in blocks {
      assert Buffered(n, x);
    }
  }

  lemma {:induction false} RespondAllGround(s: Setup, sent: set<Vote>, blocks: set<Block>, n: Node, list: seq<Block>)
    requires Filed(n.orphans) && forall b :: b in list ==> ParentReady(n, b)
    requires Grounded(s, sent, blocks, n) && AllJustified(s, sent, blocks)
    requires forall b :: b in list ==> b in blocks
    ensures Grounded(s, sent, blocks, RespondAll(s.env, n, list).0)
    decreases |n.orphans.Keys|, |list|
  {
    hide Grounded, AllJustified;
    if list != [] {
      RespondGround(s, sent, blocks, n, list[0]);
      var first := Respond(s.env, n, list[0]);
      SubsetSize(first.node.orphans.Keys, n.orphans.Keys);
      assert forall b :: b in list[1..] ==> ParentReady(n, b);
      RespondAllGround(s, sent, blocks, first.node, list[1..]);
    }
  }

  lemma ProposalGround(s: Setup, sent: set<Vote>, blocks: set<Block>, n: Node, block: Block)
    requires Grounded(s, sent, blocks, n) && AllJustified(s, sent, blocks) && block in blocks
    ensures Grounded(s, sent, blocks, OnProposal(s.env, n, block).node)
  {
    hide ValidateAndStore, FastForward, Persist, Backed, AllJustified;
    var c := ValidateAndStore(s.env, n, block);
    if c.Orphaned? {
      BufferGround(s, sent, blocks, n, block);
    } else if c.Stored? {
      SettledFrame(s.env, n, block);
      SettledGround(s, sent, blocks, n, block);
      var r := Settled(s.env, n, block);
      PersistFrame(s.env, r.(lastVotedView := block.view));
      GroundSame(s, sent, blocks, r, Persist(s.env, r.(lastVotedView := block.view)));
    }
  }

  /** Grounded looks only at blocks, buffer, certificates and the preferred block. */
  lemma GroundSame(s: Setup, sent: set<Vote>, blocks: set<Block>, n: Node, out: Node)
    requires Grounded(s, sent, blocks, n)
    requires out.disk.blocks == n.disk.blocks && out.disk.qcs == n.disk.qcs && out.orphans == n.orphans
    requires out.preferredView == n.preferredView && out.preferredBlock == n.preferredBlock
    ensures Grounded(s, sent, blocks, out)
  {
    hide Backed;
    forall x | Buffered(out, x) ensures x in blocks {
      assert Buffered(n, x);
    }
  }

  // ---- Votes ----

  lemma SavedGround(s: Setup, sent: set<Vote>, blocks: set<Block>, n: Node, block: Block, out: Node)
    requires Grounded(s, sent, blocks, n)
    requires out.disk.blocks == n.disk.blocks[s.env.hash(block) := block] && out.disk.qcs == n.disk.qcs && out.orphans == n.orphans
    requires out.preferredView == n.preferredView && out.preferredBlock == n.preferredBlock
    ensures Grounded(s, sent, blocks + {block}, out)
  {
    hide Backed;
    forall x | Buffered(out, x) ensures x in blocks {
      assert Buffered(n, x);
    }
  }

  lemma NewQcGround(s: Setup, sent: set<Vote>, blocks: set<Block>, n: Node, qc: QuorumCertificate)
    requires Grounded(s, sent, blocks, n) && Backed(s, sent, qc.view, qc.blockHash)
    ensures Grounded(s, sent, blocks, NewQc(s.env, n, qc))
  {
    hide NewQc, Quorum;
    NewQcFrame(s.env, n, qc);
    var out := NewQc(s.env, n, qc);
    forall x | Buffered(out, x) ensures x in blocks {
      assert Buffered(n, x);
    }
  }

  lemma ChainedGround(s: Setup, sent: set<Vote>, blocks: set<Block>, n: Node, qc: QuorumCertificate, offer: Offer)
    requires Grounded(s, sent, blocks, n)
    ensures var (out, actions) := ChainedProposal(s.env, n, qc, offer);
            Grounded(s, sent, blocks + BlocksIn(actions), out)
  {
    hide Propose, Persist, Grounded;
    ChainedFrame(s.env, n, qc, offer);
    var p := Propose(s.env, n, qc.view + 1, qc, offer);
    var (out, actions) := ChainedProposal(s.env, n, qc, offer);
    if p.Some? {
      SavedGround(s, sent, blocks, n, p.value, out);
      assert BroadcastBlock(p.value) in actions;
      GroundMoreBlocks(s, sent, blocks + {p.value}, blocks + BlocksIn(actions), out);
    } else {
      GroundMoreBlocks(s, sent, blocks, blocks + BlocksIn(actions), out);
    }
  }

  lemma GroundMoreBlocks(s: Setup, sent: set<Vote>, blocks: set<Block>, more: set<Block>, n: Node)
    requires Grounded(s, sent, blocks, n) && blocks <= more
    ensures Grounded(s, sent, more, n)
  {
    hide Backed;
  }

  lemma CertifyGround(s: Setup, sent: set<Vote>, blocks: set<Block>, n: Node, qc: QuorumCertificate, offer: Offer)
    requires Grounded(s, sent, blocks, n) && Backed(s, sent, qc.view, qc.blockHash)
    ensures var o := Certify(s.env, n, qc, offer);
            Grounded(s, sent, blocks + BlocksIn(Emitted(o)), o.node)
  {
    hide NewQc, ChainedProposal, Grounded, Backed;
    var n1, o := NewQc(s.env, n, qc), Certify(s.env, n, qc, offer);
    NewQcGround(s, sent, blocks, n, qc);
    if IsLeader(n1, qc.view + 1) {
      ChainedGround(s, sent, blocks, n1, qc, offer);
      var (n2, more) := ChainedProposal(s.env, n1, qc, offer);
      assert forall b :: b in BlocksIn(more) ==> BroadcastBlock(b) in Emitted(o) && b in BlocksIn(Emitted(o));
      GroundMoreBlocks(s, sent, blocks + BlocksIn(more), blocks + BlocksIn(Emitted(o)), n2);
    } else {
      GroundMoreBlocks(s, sent, blocks, blocks + BlocksIn(Emitted(o)), n1);
    }
  }

  lemma VoteGround(s: Setup, sent: set<Vote>, blocks: set<Block>, n: Node, e: Event)
    requires Enabled(n, e) && e.VoteIn? && Grounded(s, sent, blocks, n)
    requires Completes(n, e.vote) ==> Backed(s, sent, e.vote.view, e.vote.blockHash)
    ensures var o := Handle(s.env, n, e); Grounded(s, sent, blocks + BlocksIn(Emitted(o)), o.node)
  {
    hide OnFinalizeVote, Certify, Completes, Conflicts, Grounded, Backed;
    var vote, o := e.vote, Handle(s.env, n, e);
    if Verify(vote.author, vote.blockHash, vote.signature) && vote.voteType == Finalize {
      FinalizeFrame(s.env, n, vote);
      GroundSame(s, sent, blocks, n, o.node);
    } else if Completes(n, vote) {
      CompletesVerified(n, vote);
      var n1 := n.(votes := n.votes[vote.view := FiledVotes(n, vote)]);
      GroundSame(s, sent, blocks, n, n1);
      CertifyGround(s, sent, blocks, n1, Completed(n, vote, e.signers), e.offer);
      return;
    } else {
      GroundSame(s, sent, blocks, n, o.node);
    }
    GroundMoreBlocks(s, sent, blocks, blocks + BlocksIn(Emitted(o)), o.node);
  }

  lemma LaunchGround(s: Setup, sent: set<Vote>, blocks: set<Block>, n: Node, offer: Offer)
    requires Grounded(s, sent, blocks, n)
    ensures var o := TryPropose(s.env, n, offer); Grounded(s, sent, blocks + BlocksIn(Emitted(o)), o.node)
  {
    hide Propose, Grounded;
    var o := TryPropose(s.env, n, offer);
    if Emitted(o) != [] {
      var block := Propose(s.env, n, n.currentView, n.disk.qcs[n.currentView - 1], offer).value;
      SavedGround(s, sent, blocks, n, block, o.node);
      assert BroadcastBlock(block) in Emitted(o);
      GroundMoreBlocks(s, sent, blocks + {block}, blocks + BlocksIn(Emitted(o)), o.node);
    } else {
      GroundMoreBlocks(s, sent, blocks, blocks + BlocksIn(Emitted(o)), o.node);
    }
  }

  /** Every handler keeps blocks sourced and the preferred block backed. */
  lemma HandleGround(s: Setup, sent: set<Vote>, blocks: set<Block>, n: Node, e: Event)
    requires Enabled(n, e) && Anchored(n) && Grounded(s, sent, blocks, n) && AllJustified(s, sent, blocks)
    requires e.Proposal? || e.Response? ==> e.block in blocks
    requires e.VoteIn? && Completes(n, e.vote) ==> Backed(s, sent, e.vote.view, e.vote.blockHash)
    ensures var o := Handle(s.env, n, e); Grounded(s, sent, blocks + BlocksIn(Emitted(o)), o.node)
  {
    hide OnProposal, OnVote, Respond, TryPropose, Grounded, AllJustified, Backed, Completes, Restarted;
    var o := Handle(s.env, n, e);
    match e {
      case Launch(offer) =>
        LaunchGround(s, sent, blocks, n, offer);
        return;
      case VoteIn(_, _, _) =>
        VoteGround(s, sent, blocks, n, e);
        return;
      case Proposal(block) => ProposalGround(s, sent, blocks, n, block);
      case Response(block) => RespondGround(s, sent, blocks, n, block);
      case Gossip(evidence) => GroundSame(s, sent, blocks, n, o.node);
      case Restart => RestartGround(s, sent, blocks, n);
      case _ =>
    }
    GroundMoreBlocks(s, sent, blocks, blocks + BlocksIn(Emitted(o)), o.node);
  }

  lemma RestartGround(s: Setup, sent: set<Vote>, blocks: set<Block>, n: Node)
    requires Anchored(n) && Grounded(s, sent, blocks, n)
    ensures Grounded(s, sent, blocks, Restarted(s.env, n))
  {
    hide Restarted, Backed;
    AnchoredRestarts(s.env, n);
  }

  // ---- The network ----

  /** Everything in circulation has a source: blocks carry genuine certificates, finalize votes and
      the finalizations they trigger name certified hashes, and ballots name blocks in circulation.
      Without faulty members every block is a proposal of its leader. */
  ghost predicate Sound(s: Setup, w: World) {
    && AllJustified(s, w.sent, w.blocks)
    && (s.faulty == {} ==> forall b :: b in w.blocks ==> b.author == Leader(s, b.view) && b.view == b.justify.view + 1)
    && (forall x :: x in w.sent && x.voteType == Finalize ==> Backed(s, w.sent, x.view, x.blockHash))
    && (forall x :: x in w.sent && IsBallot(x) ==> Broadcast(s, w.blocks, x.view, x.blockHash))
    && (forall f :: f in w.finalized ==> f.support != {} && (Correct(s, f) ==> Backed(s, w.sent, f.view, f.hash)))
    && (forall v :: v in w.certified ==> Backed(s, w.sent, v, w.certified[v]))
  }

  /** Some counted vote for the finalized hash is a correct member's. */
  ghost predicate Correct(s: Setup, f: Finalization) {
    exists a :: a in f.support && a !in s.faulty
  }

  function Leader(s: Setup, view: View): PublicKey {
    if s.committee == [] then 0 else s.committee[view % |s.committee|]
  }

  ghost predicate Broadcast(s: Setup, blocks: set<Block>, view: View, hash: Hash) {
    exists b :: b in blocks && b.view == view && s.env.hash(b) == hash
  }

  ghost predicate GroundInv(s: Setup, w: World) {
    && Inv(s, w) && Sound(s, w)
    && forall p :: p in w.nodes ==> Grounded(s, w.sent, w.blocks, w.nodes[p]) && Registered(w, w.nodes[p])
  }

  /** Every certificate a node holds is for a view the network has certified. */
  ghost predicate Registered(w: World, n: Node) {
    forall v :: v in n.disk.qcs && v > 0 ==> v in w.certified
  }

  lemma JustifyGrows(s: Setup, sent: set<Vote>, more: set<Vote>, qc: QuorumCertificate)
    requires sent <= more && JustifyOk(s, sent, qc)
    ensures JustifyOk(s, more, qc)
  {
    hide Backed;
    if Backed(s, sent, qc.view, qc.blockHash) {
      BackedGrows(s, sent, more, qc.view, qc.blockHash);
    }
  }

  /** What the step completes is backed before the step. */
  lemma CompletesBacked(s: Setup, w: World, p: PublicKey, e: Event)
    requires GroundInv(s, w) && p in w.nodes && e.VoteIn? && Deliverable(s, w, e) && Completes(w.nodes[p], e.vote)
    ensures Backed(s, w.sent, e.vote.view, e.vote.blockHash)
  {
    hide Quorum, Anchored, Filed, TablesSound, Grounded, Sound, SentOk, OneBallot, Conflicts;
    assert NodeOk(s, w.sent, p, w.nodes[p]);
    CompletedBacked(s, w.sent, w.nodes[p], e.vote);
  }

  lemma HeldBacked(s: Setup, w: World, p: PublicKey, v: View)
    requires GroundInv(s, w) && p in w.nodes && v in w.nodes[p].disk.qcs
    ensures var qc := w.nodes[p].disk.qcs[v];
            qc.view == v && JustifyOk(s, w.sent, qc) && (v > 0 ==> Backed(s, w.sent, v, qc.blockHash))
  {
    hide Quorum, Anchored, Filed, TablesSound, Grounded, Sound, SentOk, OneBallot;
    assert NodeOk(s, w.sent, p, w.nodes[p]);
  }

  lemma NewBlocks(s: Setup, w: World, p: PublicKey, e: Event, b: Block)
    requires SetupOk(s) && GroundInv(s, w) && Allowed(s, w, p, e) && b in BlocksIn(Emitted(Handle(s.env, w.nodes[p], e)))
    ensures var o := Handle(s.env, w.nodes[p], e);
            && JustifyOk(s, w.sent, b.justify) && b.view == BallotView(w.nodes[p], e) == b.justify.view + 1
            && b.parentHash == ParentFor(o.node, b.justify) && b.author == Leader(s, b.view)
  {
    hide Handle, Backed, Equivocates, StepBallots, Grounded, Sound, SentOk, OneBallot, NodeOk, ParentFor, Completes;
    var n, o := w.nodes[p], Handle(s.env, w.nodes[p], e);
    forall v | v in n.disk.qcs ensures n.disk.qcs[v].view == v {
      HeldBacked(s, w, p, v);
    }
    HandleEmits(s.env, n, e);
    assert BroadcastBlock(b) in Emitted(o);
    assert ActionRule(s.env, n, e, o.node, Emitted(o), BroadcastBlock(b));
    MeOf(s, w, p);
    if e.Launch? {
      HeldBacked(s, w, p, b.view - 1);
    } else {
      CompletesBacked(s, w, p, e);
    }
  }

  lemma NewVotes(s: Setup, w: World, p: PublicKey, e: Event, x: Vote)
    requires SetupOk(s) && GroundInv(s, w) && Allowed(s, w, p, e) && x in VotesIn(Emitted(Handle(s.env, w.nodes[p], e)))
    ensures x.voteType == Finalize && (e.Proposal? ==> JustifyOk(s, w.sent, e.block.justify)) ==>
      Backed(s, w.sent, x.view, x.blockHash)
    ensures IsBallot(x) ==> Broadcast(s, Step(s, w, p, e).blocks, x.view, x.blockHash)
  {
    hide Handle, Equivocates, StepBallots, Grounded, SentOk, OneBallot, NodeOk, ParentFor, Completes, Quorum;
    var n, o := w.nodes[p], Handle(s.env, w.nodes[p], e);
    forall v | v in n.disk.qcs ensures n.disk.qcs[v].view == v {
      HeldBacked(s, w, p, v);
    }
    HandleEmits(s.env, n, e);
    VotesInMember(Emitted(o), x);
    assert ActionRule(s.env, n, e, o.node, Emitted(o), BroadcastVote(x));
    if x.voteType == Finalize {
      if e.Launch? {
        HeldBacked(s, w, p, x.view);
      } else if e.VoteIn? {
        CompletesBacked(s, w, p, e);
      }
    } else if IsBallot(x) {
      BallotBroadcast(s, w, e, Emitted(o), x);
    }
  }

  lemma BallotBroadcast(s: Setup, w: World, e: Event, actions: seq<Action>, x: Vote)
    requires BallotSource(s.env, e, actions, x)
    ensures Broadcast(s, w.blocks + Delivered(e) + BlocksIn(actions), x.view, x.blockHash)
  {
    if b :| BroadcastBlock(b) in actions && s.env.hash(b) == x.blockHash && b.view == x.view {
      assert b in BlocksIn(actions);
    } else {
      assert e.block in Delivered(e);
    }
  }

  /** A correct member's vote counted in a finalization was sent, and finalize votes are backed. */
  lemma FinalizedBacked(s: Setup, w: World, p: PublicKey, e: Event, f: Finalization)
    requires GroundInv(s, w) && p in w.nodes && e.VoteIn? && Deliverable(s, w, e) && Finalizes(w.nodes[p], e.vote)
    requires f == Finalization(p, e.vote.view, e.vote.blockHash, NamedBy(w.nodes[p], e.vote))
    ensures f.support != {} && (Correct(s, f) ==> Backed(s, w.sent, f.view, f.hash))
  {
    hide Backed, Grounded, AllJustified, Broadcast, Registered, SentOk, OneBallot, QcsBacked, Anchored, Filed, TablesSound, Authentic;
    assert NodeOk(s, w.sent, p, w.nodes[p]);
    assert e.vote.author in f.support;
    if a :| a in f.support && a !in s.faulty {
      NamedWasSent(s, w.sent, w.nodes[p], e.vote, a);
      VoteOf(a, f.view, f.hash);
    }
  }

  lemma VoteOf(a: PublicKey, view: View, hash: Hash)
    ensures var x := MakeVote(a, view, hash, Finalize); x.voteType == Finalize && x.view == view && x.blockHash == hash
  {
  }

  /** The certificate of the block delivered, if one is, is the genesis one or backed. */
  ghost predicate Genuine(s: Setup, w: World, e: Event) {
    forall b :: b in Delivered(e) ==> JustifyOk(s, w.sent, b.justify)
  }

  lemma SoundStep(s: Setup, w: World, p: PublicKey, e: Event)
    requires SetupOk(s) && GroundInv(s, w) && Allowed(s, w, p, e) && Genuine(s, w, e)
    ensures Sound(s, Step(s, w, p, e))
  {
    hide Handle, Equivocates, StepBallots, Grounded, Inv, Backed, Completes, Finalizes, JustifyOk, VotesIn, BlocksIn,
         Deliverable, Broadcast, Registered, Correct, NamedBy, Leader, SetupOk, Delivered, Genuine;
    GenuineDelivered(s, w, e);
    var w1 := Step(s, w, p, e);
    forall b | b in w1.blocks ensures JustifyOk(s, w1.sent, b.justify) {
      if b !in w.blocks && b !in Delivered(e) {
        NewBlocks(s, w, p, e, b);
      }
      JustifyGrows(s, w.sent, w1.sent, b.justify);
    }
    if s.faulty == {} {
      DeliveredKnown(s, w, e);
      forall b | b in w1.blocks ensures b.author == Leader(s, b.view) && b.view == b.justify.view + 1 {
        if b !in w.blocks {
          NewBlocks(s, w, p, e, b);
        }
      }
    }
    forall x | x in w1.sent && x.voteType == Finalize ensures Backed(s, w1.sent, x.view, x.blockHash) {
      if x !in w.sent {
        NewVotes(s, w, p, e, x);
      }
      BackedGrows(s, w.sent, w1.sent, x.view, x.blockHash);
    }
    forall x | x in w1.sent && IsBallot(x) ensures Broadcast(s, w1.blocks, x.view, x.blockHash) {
      if x !in w.sent {
        NewVotes(s, w, p, e, x);
      } else {
        BroadcastGrows(s, w.blocks, w1.blocks, x.view, x.blockHash);
      }
    }
    forall f | f in w1.finalized ensures f.support != {} && (Correct(s, f) ==> Backed(s, w1.sent, f.view, f.hash)) {
      if f !in w.finalized {
        FinalizedBacked(s, w, p, e, f);
      }
      if Correct(s, f) {
        BackedGrows(s, w.sent, w1.sent, f.view, f.hash);
      }
    }
    forall v | v in w1.certified ensures Backed(s, w1.sent, v, w1.certified[v]) {
      if v !in w.certified {
        CompletesBacked(s, w, p, e);
      }
      BackedGrows(s, w.sent, w1.sent, v, w1.certified[v]);
    }
  }

  lemma GenuineDelivered(s: Setup, w: World, e: Event)
    requires Genuine(s, w, e)
    ensures forall b :: b in Delivered(e) ==> JustifyOk(s, w.sent, b.justify)
    ensures e.Proposal? ==> JustifyOk(s, w.sent, e.block.justify)
  {
    assert e.Proposal? ==> e.block in Delivered(e);
  }

  lemma DeliveredKnown(s: Setup, w: World, e: Event)
    requires s.faulty == {} && Deliverable(s, w, e)
    ensures Delivered(e) <= w.blocks
  {
  }

  lemma BroadcastGrows(s: Setup, blocks: set<Block>, more: set<Block>, view: View, hash: Hash)
    requires Broadcast(s, blocks, view, hash) && blocks <= more
    ensures Broadcast(s, more, view, hash)
  {
  }

  lemma GroundGrows(s: Setup, sent: set<Vote>, more: set<Vote>, blocks: set<Block>, wider: set<Block>, n: Node)
    requires Grounded(s, sent, blocks, n) && sent <= more && blocks <= wider
    ensures Grounded(s, more, wider, n)
  {
    PreferringGrows(s, sent, more, n);
  }

  lemma NodeGroundStep(s: Setup, w: World, p: PublicKey, e: Event)
    requires SetupOk(s) && GroundInv(s, w) && Allowed(s, w, p, e) && Genuine(s, w, e)
    ensures var w1 := Step(s, w, p, e); Grounded(s, w1.sent, w1.blocks, w1.nodes[p]) && Registered(w1, w1.nodes[p])
  {
    hide Handle, Equivocates, StepBallots, Grounded, Backed, Completes, Finalizes, VotesIn, BlocksIn,
         SentOk, OneBallot, Completed, AllJustified, Authentic, QcsBacked;
    var n, w1 := w.nodes[p], Step(s, w, p, e);
    assert NodeOk(s, w.sent, p, n);
    if e.VoteIn? && Completes(n, e.vote) {
      CompletesBacked(s, w, p, e);
    }
    var blocks := w.blocks + Delivered(e);
    GroundMoreBlocks(s, w.sent, w.blocks, blocks, n);
    JustifiedWith(s, w, e);
    HandleGround(s, w.sent, blocks, n, e);
    GroundGrows(s, w.sent, w1.sent, w1.blocks, w1.blocks, w1.nodes[p]);
    TablesStep(s.env, n, e);
  }

  lemma JustifiedWith(s: Setup, w: World, e: Event)
    requires AllJustified(s, w.sent, w.blocks) && Genuine(s, w, e)
    ensures AllJustified(s, w.sent, w.blocks + Delivered(e))
  {
    hide JustifyOk;
  }

  lemma GroundInvStep(s: Setup, w: World, p: PublicKey, e: Event)
    requires SetupOk(s) && GroundInv(s, w) && Allowed(s, w, p, e) && Genuine(s, w, e)
    ensures GroundInv(s, Step(s, w, p, e))
  {
    hide Handle, Equivocates, StepBallots, Grounded, Completes, Finalizes, Sound, Inv, Deliverable, VotesIn, BlocksIn;
    var w1 := Step(s, w, p, e);
    InvStep(s, w, p, e);
    SoundStep(s, w, p, e);
    NodeGroundStep(s, w, p, e);
    forall q | q in w1.nodes ensures Grounded(s, w1.sent, w1.blocks, w1.nodes[q]) && Registered(w1, w1.nodes[q]) {
      if q != p {
        GroundGrows(s, w.sent, w1.sent, w.blocks, w1.blocks, w.nodes[q]);
      }
    }
  }

  lemma FreshGround(s: Setup, p: PublicKey, n: Node)
    requires FreshNode(s, p, n)
    ensures Grounded(s, {}, {}, n) && n.disk.qcs.Keys == {0}
  {
    var ledger, limit :| n == Start(s.env, p, s.committee, Disk(map[], map[], None, ledger), limit);
  }

  lemma InitialGround(s: Setup, w: World)
    requires InitialWorld(s, w)
    ensures GroundInv(s, w)
  {
    hide Grounded, FreshNode, Inv, Backed;
    InitialInv(s, w);
    forall p | p in w.nodes ensures Grounded(s, w.sent, w.blocks, w.nodes[p]) && Registered(w, w.nodes[p]) {
      FreshGround(s, p, w.nodes[p]);
    }
  }

  /** A run in which every block delivered carries a genuine certificate. */
  ghost predicate GenuineRun(s: Setup, w: World, run: seq<Move>, end: World)
    decreases |run|
  {
    if run == [] then end == w
    else
      var last := run[|run| - 1];
      exists mid :: GenuineRun(s, w, run[..|run| - 1], mid) && Allowed(s, mid, last.node, last.event)
                    && Genuine(s, mid, last.event) && end == Step(s, mid, last.node, last.event)
  }

  lemma {:induction false} RunGround(s: Setup, w: World, run: seq<Move>, end: World)
    requires SetupOk(s) && InitialWorld(s, w) && GenuineRun(s, w, run, end)
    ensures GroundInv(s, end)
    decreases |run|
  {
    hide Step, Handle, Equivocates, StepBallots, Deliverable, GroundInv, InitialWorld, SetupOk, Genuine;
    if run == [] {
      InitialGround(s, w);
    } else {
      var last := run[|run| - 1];
      var mid :| GenuineRun(s, w, run[..|run| - 1], mid) && Allowed(s, mid, last.node, last.event)
                 && Genuine(s, mid, last.event) && end == Step(s, mid, last.node, last.event);
      RunGround(s, w, run[..|run| - 1], mid);
      GroundInvStep(s, mid, last.node, last.event);
    }
  }

  lemma KnownIsGenuine(s: Setup, w: World, p: PublicKey, e: Event)
    requires s.faulty == {} && GroundInv(s, w) && Allowed(s, w, p, e)
    ensures Genuine(s, w, e)
  {
    hide Handle, Equivocates, JustifyOk, Inv, Grounded, Registered;
    DeliveredKnown(s, w, e);
  }

  /** Without faulty members every run is of this kind: nodes only propose on genuine certificates. */
  lemma {:induction false} CrashRunsAreGenuine(s: Setup, w: World, run: seq<Move>, end: World)
    requires SetupOk(s) && s.faulty == {} && InitialWorld(s, w) && Reaches(s, w, run, end)
    ensures GenuineRun(s, w, run, end) && GroundInv(s, end)
    decreases |run|
  {
    hide Step, Handle, Equivocates, StepBallots, Deliverable, GroundInv, InitialWorld, SetupOk, Genuine;
    if run != [] {
      var last := run[|run| - 1];
      var mid :| Reaches(s, w, run[..|run| - 1], mid) && Allowed(s, mid, last.node, last.event)
                 && end == Step(s, mid, last.node, last.event);
      CrashRunsAreGenuine(s, w, run[..|run| - 1], mid);
      KnownIsGenuine(s, mid, last.node, last.event);
    }
    RunGround(s, w, run, end);
  }

  /** In every run with crashes only, each proposal comes from the leader of its view and carries a
      certificate of the view before that a quorum really voted for. */
  lemma ProposalsGenuine(s: Setup, w: World, run: seq<Move>, end: World, b: Block)
    requires SetupOk(s) && s.faulty == {} && InitialWorld(s, w) && Reaches(s, w, run, end) && b in end.blocks
    ensures b.author == s.committee[b.view % |s.committee|] && b.view == b.justify.view + 1
    ensures if b.justify.view == 0 then b.justify.blockHash == ZERO_HASH
            else Quorum(end.sent, s.committee, s.faulty, b.justify.view, b.justify.blockHash)
  {
    hide Reaches, GenuineRun, InitialWorld, Inv, Grounded, Quorum, NonzeroHashes, KeepsPositions;
    CrashRunsAreGenuine(s, w, run, end);
  }

  /** The step casts a finalize vote on the word of a certificate no quorum stands behind. */
  ghost predicate VotesOnThinCertificate(s: Setup, w: World, p: PublicKey, e: Event)
    requires p in w.nodes && Enabled(w.nodes[p], e)
  {
    && e.Proposal? && e.block.justify.view > 0 && !Backed(s, w.sent, e.block.justify.view, e.block.justify.blockHash)
    && ValidateAndStore(s.env, w.nodes[p], e.block).Stored?
    && e.block.view >= w.nodes[p].currentView && e.block.view > w.nodes[p].lastVotedView
  }

  /** Exactly when a step of a sound world leaves every finalize vote of a correct node backed: when
      it does not vote on a block whose certificate is thin. */
  lemma FinalizeVotesBackedIff(s: Setup, w: World, p: PublicKey, e: Event)
    requires SetupOk(s) && GroundInv(s, w) && Allowed(s, w, p, e)
    ensures (forall x :: x in Step(s, w, p, e).sent && x.voteType == Finalize ==> Backed(s, w.sent, x.view, x.blockHash))
            <==> !VotesOnThinCertificate(s, w, p, e)
  {
    hide Handle, Equivocates, StepBallots, Inv, Backed, Completes, Finalizes, VotesIn, BlocksIn, Deliverable, Broadcast,
         Registered, Grounded, ValidateAndStore, AllJustified, SetupOk;
    var w1 := Step(s, w, p, e);
    if VotesOnThinCertificate(s, w, p, e) {
      MeIn(s, w, p);
      FinalizeVoteCast(s.env, w.nodes[p], e.block);
      var x := MakeVote(p, e.block.justify.view, e.block.justify.blockHash, Finalize);
      VotesInMember(Emitted(OnProposal(s.env, w.nodes[p], e.block)), x);
      HandlesProposal(s.env, w.nodes[p], e);
      assert x in w1.sent;
    } else {
      forall x | x in w1.sent && x.voteType == Finalize ensures Backed(s, w.sent, x.view, x.blockHash) {
        if x !in w.sent {
          NewFinalizeVote(s, w, p, e, x);
        }
      }
    }
  }

  lemma MeIn(s: Setup, w: World, p: PublicKey)
    requires Inv(s, w) && p in w.nodes
    ensures w.nodes[p].me == p
  {
    hide SentOk, OneBallot;
    assert NodeOk(s, w.sent, p, w.nodes[p]);
  }

  lemma HandlesProposal(env: Env, n: Node, e: Event)
    requires Enabled(n, e) && e.Proposal?
    ensures Handle(env, n, e) == OnProposal(env, n, e.block)
  {
  }

  /** A node that votes for a block also votes to finalize what the block's certificate names. */
  lemma FinalizeVoteCast(env: Env, n: Node, block: Block)
    requires ValidateAndStore(env, n, block).Stored? && block.view >= n.currentView && block.view > n.lastVotedView
    requires block.justify.view > 0
    ensures BroadcastVote(MakeVote(n.me, block.justify.view, block.justify.blockHash, Finalize)) in Emitted(OnProposal(env, n, block))
  {
    hide ValidateAndStore, Persist;
    StoreFrame(env, n, block);
    var n1 := ValidateAndStore(env, n, block).node;
    AdvanceFrame(env, n1, block.view);
    PersistFrame(env, AdvanceTo(env, n1, block.view).(lastVotedView := block.view));
    assert Emitted(OnProposal(env, n, block))[1] == CastVote(n, block.justify.view, block.justify.blockHash, Finalize);
  }

  lemma NewFinalizeVote(s: Setup, w: World, p: PublicKey, e: Event, x: Vote)
    requires SetupOk(s) && GroundInv(s, w) && Allowed(s, w, p, e) && !VotesOnThinCertificate(s, w, p, e)
    requires x in VotesIn(Emitted(Handle(s.env, w.nodes[p], e))) && x.voteType == Finalize
    ensures Backed(s, w.sent, x.view, x.blockHash)
  {
    hide Equivocates, StepBallots, Inv, Quorum, Completes, Deliverable, Broadcast, Registered, Grounded, ValidateAndStore,
         AllJustified, SetupOk, OnVote, TryPropose, Respond, FastForward, Persist;
    if e.Proposal? {
      VotesInMember(Emitted(Handle(s.env, w.nodes[p], e)), x);
      ProposalVotes(s.env, w.nodes[p], e.block, x);
    } else {
      NewVotes(s, w, p, e, x);
    }
  }

  lemma ProposalVotes(env: Env, n: Node, block: Block, x: Vote)
    requires BroadcastVote(x) in Emitted(OnProposal(env, n, block)) && x.voteType == Finalize
    ensures ValidateAndStore(env, n, block).Stored? && block.view >= n.currentView && block.view > n.lastVotedView
    ensures x.view == block.justify.view > 0 && x.blockHash == block.justify.blockHash
  {
    hide ValidateAndStore, FastForward, Persist;
    StoreFrame(env, n, block);
    var c := ValidateAndStore(env, n, block);
    if c.Stored? {
      FastForwardFrame(env, c.node, block.view);
    }
  }

  // ---- Agreement ----

  /** Each node notarizes one hash, a block or the dummy, per view. */
  ghost predicate OneHash(sent: set<Vote>) {
    forall x, y :: x in sent && y in sent && x.voteType == Notarize && y.voteType == Notarize && x.author == y.author && x.view == y.view ==>
      x.blockHash == y.blockHash
  }

  /** The step votes for the dummy in a view where the node voted for a block. */
  ghost predicate TimesOutAfterBallot(s: Setup, w: World, p: PublicKey, e: Event)
    requires p in w.nodes
  {
    && e.Timeout? && e.view >= w.nodes[p].currentView
    && exists hash :: hash != ZERO_HASH && MakeVote(p, e.view, hash, Notarize) in w.sent
  }

  /** The step votes for a block in a view where the node voted for the dummy. */
  ghost predicate BallotAfterTimeout(s: Setup, w: World, p: PublicKey, e: Event)
    requires p in w.nodes && Enabled(w.nodes[p], e)
  {
    StepBallots(s.env, w.nodes[p], e) != [] && MakeVote(p, BallotView(w.nodes[p], e), ZERO_HASH, Notarize) in w.sent
  }

  lemma TimeoutVotes(s: Setup, w: World, p: PublicKey, e: Event)
    requires Allowed(s, w, p, e) && NodeOk(s, w.sent, p, w.nodes[p]) && e.Timeout? && e.view >= w.nodes[p].currentView
    ensures MakeVote(p, e.view, ZERO_HASH, Notarize) in Step(s, w, p, e).sent
  {
    hide Equivocates, StepBallots, Filed, TablesSound, Authentic, QcsBacked, Anchored;
    var actions := Emitted(Handle(s.env, w.nodes[p], e));
    VotesInMember(actions, MakeVote(p, e.view, ZERO_HASH, Notarize));
    assert actions[0] in actions;
  }

  /** Where a vote for the dummy comes from. */
  lemma DummySent(s: Setup, w: World, p: PublicKey, e: Event, x: Vote)
    requires SetupOk(s) && Allowed(s, w, p, e) && NodeOk(s, w.sent, p, w.nodes[p])
    requires x in VotesIn(Emitted(Handle(s.env, w.nodes[p], e))) && x.voteType == Notarize && x.blockHash == ZERO_HASH
    ensures e.Timeout? && x.view == e.view >= w.nodes[p].currentView
  {
    hide Handle, Equivocates, Filed, TablesSound, Authentic, Anchored, Quorum, StepBallots, KeepsPositions, Deliverable;
    var n, o := w.nodes[p], Handle(s.env, w.nodes[p], e);
    HandleEmits(s.env, n, e);
    VotesInMember(Emitted(o), x);
    assert ActionRule(s.env, n, e, o.node, Emitted(o), BroadcastVote(x));
  }

  /** A vote for the dummy and a ballot of one node in one view, at least one of them new. */
  lemma NoClash(s: Setup, w: World, p: PublicKey, e: Event, x: Vote, y: Vote)
    requires SetupOk(s) && Allowed(s, w, p, e) && Inv(s, w) && OneHash(w.sent)
    requires !TimesOutAfterBallot(s, w, p, e) && !BallotAfterTimeout(s, w, p, e)
    requires var w1 := Step(s, w, p, e); x in w1.sent && y in w1.sent
    requires x.voteType == Notarize && y.voteType == Notarize && x.author == y.author && x.view == y.view && x.blockHash == ZERO_HASH
    ensures y.blockHash == ZERO_HASH
  {
    hide Handle, Equivocates, NodeOk, StepBallots, SetupOk, Deliverable, Completes, Finalizes, OneBallot, VotesIn;
    assert NodeOk(s, w.sent, p, w.nodes[p]);
    if y.blockHash != ZERO_HASH {
      StepVotes(s, w, p, e);
      if x !in w.sent {
        DummySent(s, w, p, e, x);
        if y !in w.sent {
          TimeoutCastsNoBallot(s, w, p, e);
        }
      }
    }
  }

  lemma TimeoutCastsNoBallot(s: Setup, w: World, p: PublicKey, e: Event)
    requires Allowed(s, w, p, e) && e.Timeout?
    ensures StepBallots(s.env, w.nodes[p], e) == []
  {
    hide Equivocates;
    var actions := Emitted(Handle(s.env, w.nodes[p], e));
    if Ballots(actions) != [] {
      BallotsSubset(actions, Ballots(actions)[0]);
    }
  }

  /** The code does not keep to one hash per view: a step does so exactly when it neither times out
      after a ballot nor casts a ballot after a timeout. */
  lemma OneHashIff(s: Setup, w: World, p: PublicKey, e: Event)
    requires SetupOk(s) && Allowed(s, w, p, e) && Inv(s, w) && OneHash(w.sent)
    ensures OneHash(Step(s, w, p, e).sent) <==> !TimesOutAfterBallot(s, w, p, e) && !BallotAfterTimeout(s, w, p, e)
  {
    hide Handle, Equivocates, Completes, Finalizes, Deliverable, NodeOk, StepBallots, Ballots;
    var w1 := Step(s, w, p, e);
    assert NodeOk(s, w.sent, p, w.nodes[p]);
    StepVotes(s, w, p, e);
    if TimesOutAfterBallot(s, w, p, e) {
      TimeoutVotes(s, w, p, e);
      assert MakeVote(p, e.view, ZERO_HASH, Notarize) in w1.sent;
    } else if BallotAfterTimeout(s, w, p, e) {
      BallotsSent(s, w, p, e, StepBallots(s.env, w.nodes[p], e)[0]);
    } else {
      InvStep(s, w, p, e);
      forall x, y | x in w1.sent && y in w1.sent && x.voteType == y.voteType == Notarize && x.author == y.author && x.view == y.view
        ensures x.blockHash == y.blockHash
      {
        if x.blockHash == ZERO_HASH {
          NoClash(s, w, p, e, x, y);
        } else if y.blockHash == ZERO_HASH {
          NoClash(s, w, p, e, y, x);
        }
      }
    }
  }

  /** A node that votes for any block it accepts also votes for the dummy when the view times out. */
  lemma BallotThenTimeout(env: Env, n: Node, block: Block)
    requires ValidateAndStore(env, n, block).Stored? && block.view >= n.currentView && block.view > n.lastVotedView
    ensures var o := OnProposal(env, n, block);
            && CastVote(n, block.view, env.hash(block), Notarize) in Emitted(o)
            && CastVote(n, block.view, ZERO_HASH, Notarize) in Emitted(OnTimeout(o.node, block.view))
  {
    hide ValidateAndStore, Persist;
    StoreFrame(env, n, block);
    var n1 := ValidateAndStore(env, n, block).node;
    AdvanceFrame(env, n1, block.view);
    PersistFrame(env, AdvanceTo(env, n1, block.view).(lastVotedView := block.view));
    assert Emitted(OnProposal(env, n, block))[0] == CastVote(n, block.view, env.hash(block), Notarize);
    assert Emitted(OnTimeout(OnProposal(env, n, block).node, block.view))[0] == CastVote(n, block.view, ZERO_HASH, Notarize);
  }

  /** The nodes that store a block under this hash store the same one. */
  ghost predicate OneBlock(w: World, hash: Hash) {
    forall q, r :: q in w.nodes && r in w.nodes && hash in w.nodes[q].disk.blocks && hash in w.nodes[r].disk.blocks ==>
      w.nodes[q].disk.blocks[hash] == w.nodes[r].disk.blocks[hash]
  }

  lemma BackedUnique(s: Setup, sent: set<Vote>, view: View, a: Hash, b: Hash)
    requires SetupOk(s) && OneHash(sent) && Backed(s, sent, view, a) && Backed(s, sent, view, b)
    ensures a == b
  {
    hide NonzeroHashes, KeepsPositions;
    var member := QuorumsIntersect(s.committee, s.faulty, Backers(sent, s.committee, s.faulty, view, a),
                                   Backers(sent, s.committee, s.faulty, view, b));
    assert MakeVote(member, view, a, Notarize) in sent && MakeVote(member, view, b, Notarize) in sent;
  }

  /** A certified block was proposed in the certified view. */
  lemma BackedBroadcast(s: Setup, w: World, view: View, hash: Hash)
    requires SetupOk(s) && GroundInv(s, w) && Backed(s, w.sent, view, hash) && hash != ZERO_HASH
    ensures Broadcast(s, w.blocks, view, hash)
  {
    hide Broadcast, AllJustified, Grounded, Inv, NonzeroHashes, KeepsPositions, Registered;
    var backers := Backers(w.sent, s.committee, s.faulty, view, hash);
    var a := QuorumsIntersect(s.committee, s.faulty, backers, backers);
    assert IsBallot(MakeVote(a, view, hash, Notarize));
  }

  /** Everything the correct nodes hold about a view names one hash: their certificates, those of
      the blocks in circulation, their finalize votes, and the finalizations one of those counts for. */
  ghost predicate Names(s: Setup, w: World, view: View, hash: Hash) {
    && (forall f :: f in w.finalized && f.view == view && Correct(s, f) ==> f.hash == hash)
    && (forall x :: x in w.sent && x.voteType == Finalize && x.view == view ==> x.blockHash == hash)
    && (forall b :: b in w.blocks && b.justify.view == view ==> b.justify.blockHash == hash)
    && (forall q :: q in w.nodes && view in w.nodes[q].disk.qcs ==> w.nodes[q].disk.qcs[view].blockHash == hash)
  }

  lemma BackedNames(s: Setup, w: World, view: View, hash: Hash)
    requires SetupOk(s) && GroundInv(s, w) && OneHash(w.sent) && Backed(s, w.sent, view, hash)
    ensures Names(s, w, view, hash)
  {
    hide SetupOk, Quorum, Inv, Grounded, Registered, OneHash;
    forall f | f in w.finalized && f.view == view && Correct(s, f) ensures f.hash == hash {
      BackedUnique(s, w.sent, view, f.hash, hash);
    }
    forall x | x in w.sent && x.voteType == Finalize && x.view == view ensures x.blockHash == hash {
      BackedUnique(s, w.sent, view, x.blockHash, hash);
    }
    forall b | b in w.blocks && b.justify.view == view ensures b.justify.blockHash == hash {
      BackedUnique(s, w.sent, view, b.justify.blockHash, hash);
    }
    forall q | q in w.nodes && view in w.nodes[q].disk.qcs ensures w.nodes[q].disk.qcs[view].blockHash == hash {
      HeldBacked(s, w, q, view);
      BackedUnique(s, w.sent, view, w.nodes[q].disk.qcs[view].blockHash, hash);
    }
  }

  /** With up to a third of the members faulty: if the blocks delivered carry genuine certificates
      and correct nodes notarize one hash per view, a finalize vote of a correct node names the one
      hash its view is certified for. */
  lemma FinalizeVotesAgree(s: Setup, w: World, run: seq<Move>, end: World, x: Vote)
    requires SetupOk(s) && InitialWorld(s, w) && GenuineRun(s, w, run, end) && OneHash(end.sent)
    requires x in end.sent && x.voteType == Finalize
    ensures x.view > 0 && Quorum(end.sent, s.committee, s.faulty, x.view, x.blockHash) && Names(s, end, x.view, x.blockHash)
  {
    hide GenuineRun, InitialWorld, SetupOk, Quorum, Inv, AllJustified, Registered, OneHash, Names, Grounded;
    RunGround(s, w, run, end);
    BackedNames(s, end, x.view, x.blockHash);
  }

  /** And a finalization whose hash a correct member's counted vote names is for that hash. */
  lemma FinalizationAgreement(s: Setup, w: World, run: seq<Move>, end: World, f: Finalization)
    requires SetupOk(s) && InitialWorld(s, w) && GenuineRun(s, w, run, end) && OneHash(end.sent)
    requires f in end.finalized && Correct(s, f)
    ensures Names(s, end, f.view, f.hash)
    ensures Injective(s.env.hash) ==> OneBlock(end, f.hash)
  {
    hide GenuineRun, InitialWorld, SetupOk, Backed, Inv, AllJustified, Registered, OneHash, Names, Preferring;
    RunGround(s, w, run, end);
    BackedNames(s, end, f.view, f.hash);
  }

  /** With crashes only nothing is assumed of blocks: all nodes that finalize a view finalize the
      same hash, so they commit the same block or all skip the view as a dummy. */
  lemma CrashFinalizationAgreement(s: Setup, w: World, run: seq<Move>, end: World, f: Finalization, g: Finalization)
    requires SetupOk(s) && s.faulty == {} && InitialWorld(s, w) && Reaches(s, w, run, end) && OneHash(end.sent)
    requires f in end.finalized && g in end.finalized && f.view == g.view
    ensures f.hash == g.hash && Names(s, end, f.view, f.hash)
    ensures Injective(s.env.hash) ==> OneBlock(end, f.hash)
  {
    hide Reaches, GenuineRun, InitialWorld, SetupOk, OneHash, Inv, AllJustified, Backed, Broadcast, Registered, Grounded;
    CrashRunsAreGenuine(s, w, run, end);
    assert Correct(s, f) && Correct(s, g);
    FinalizationAgreement(s, w, run, end, f);
  }

  /** A finalization whose hash a threshold of the counted votes name is for the certified hash,
      whoever the faulty members are. */
  lemma ThresholdFinalization(s: Setup, w: World, run: seq<Move>, end: World, f: Finalization)
    requires SetupOk(s) && InitialWorld(s, w) && GenuineRun(s, w, run, end) && OneHash(end.sent)
    requires f in end.finalized && |f.support| >= Threshold(s.committee)
    ensures Names(s, end, f.view, f.hash)
  {
    hide GenuineRun, InitialWorld, NonzeroHashes, KeepsPositions, OneHash, Names;
    if f.support <= s.faulty {
      SubsetSize(f.support, s.faulty);
      assert false;
    }
    FinalizationAgreement(s, w, run, end, f);
  }
}
