/** Which block a step puts into the store and which block it votes for, read off the guards of the
    handlers before the step. */
module Intents {
  import opened Types
  import opened Collections
  import opened Consensus
  import opened Frames
  import opened Recovery
  import opened Discipline
  import opened VoteTables
  import opened BlockSync

  /** The certificate a completed vote brings, and the node that has stored it. */
  ghost function Certified(env: Env, n: Node, vote: Vote, signers: seq<PublicKey>): Node
    requires Enumerates(signers, Supporters(FiledVotes(n, vote), vote.blockHash))
  {
    NewQc(env, n.(votes := n.votes[vote.view := FiledVotes(n, vote)]), Completed(n, vote, signers))
  }

  /** The block a step other than a sync stores: a received proposal that is not late and passes
      validation, the block of a launch, or the block of the next leader on a new certificate. */
  ghost function Adds(env: Env, n: Node, e: Event): Option<Block>
    requires Enabled(n, e)
  {
    match e
    case Launch(offer) =>
      if n.currentView > 0 && IsLeader(n, n.currentView) && n.currentView - 1 in n.disk.qcs
      then Propose(env, n, n.currentView, n.disk.qcs[n.currentView - 1], offer) else None
    case Proposal(block) =>
      if block.view >= n.currentView && ValidateAndStore(env, n, block).Stored? then Some(block) else None
    case VoteIn(vote, signers, offer) =>
      if Completes(n, vote) && IsLeader(Certified(env, n, vote, signers), vote.view + 1)
      then Propose(env, Certified(env, n, vote, signers), vote.view + 1, Completed(n, vote, signers), offer) else None
    case _ => None
  }

  /** The vote for a block the step is about to cast: for the block it adds, a received one only above
      lastVotedView. */
  ghost function Intended(env: Env, n: Node, e: Event): Option<Vote>
    requires Enabled(n, e)
  {
    match Adds(env, n, e)
    case None => None
    case Some(b) =>
      if e.Proposal? && b.view <= n.lastVotedView then None else Some(MakeVote(n.me, b.view, env.hash(b), Notarize))
  }

  function Listed(v: Option<Vote>): seq<Vote> {
    if v.Some? then [v.value] else []
  }

  lemma LaunchIntent(env: Env, n: Node, offer: Offer)
    requires NonzeroHashes(env) && Filed(n.orphans)
    ensures StepBallots(env, n, Launch(offer)) == Listed(Intended(env, n, Launch(offer)))
  {
    hide Propose, Ballots, NonzeroHashes;
    NoBallots([]);
    var p := Adds(env, n, Launch(offer));
    if p.Some? {
      var b := p.value;
      BlockOnly(b);
      ProposalBallots(env, n, b, b.justify, [BroadcastBlock(b)]);
      var vote := MakeVote(n.me, b.view, env.hash(b), Notarize);
      assert Emitted(TryPropose(env, n, offer)) == [BroadcastBlock(b)] + ([BroadcastVote(vote)] + FinalizeParent(n, b.justify));
    }
  }

  lemma BlockOnly(b: Block)
    ensures Ballots([BroadcastBlock(b)]) == []
  {
  }

  lemma ProposalIntent(env: Env, n: Node, block: Block)
    requires NonzeroHashes(env) && Filed(n.orphans)
    ensures StepBallots(env, n, Proposal(block)) == Listed(Intended(env, n, Proposal(block)))
  {
    hide ValidateAndStore, FastForward, Persist, Ballots, NonzeroHashes;
    StoreFrame(env, n, block);
    var o, c := OnProposal(env, n, block), ValidateAndStore(env, n, block);
    NoBallots([]);
    if block.view >= n.currentView && c.Stored? {
      var n2 := FastForward(env, c.node, block.view);
      FastForwardFrame(env, c.node, block.view);
      PersistFrame(env, n2.(lastVotedView := block.view));
      if block.view > n2.lastVotedView {
        ProposalBallots(env, o.node, block, block.justify, []);
        assert [] + Emitted(o) == Emitted(o);
      }
    } else {
      NoBallots(Emitted(o));
    }
  }

  lemma CertifyIntent(env: Env, n: Node, qc: QuorumCertificate, offer: Offer)
    requires NonzeroHashes(env)
    ensures var n1 := NewQc(env, n, qc);
            var p := if IsLeader(n1, qc.view + 1) then Propose(env, n1, qc.view + 1, qc, offer) else None;
            Ballots(Emitted(Certify(env, n, qc, offer)))
            == if p.Some? then [MakeVote(n.me, p.value.view, env.hash(p.value), Notarize)] else []
  {
    hide NewQc, Propose, Persist, Ballots, NonzeroHashes;
    NewQcFrame(env, n, qc);
    var n1 := NewQc(env, n, qc);
    var finalize := [CastVote(n, qc.view, qc.blockHash, Finalize)];
    NoBallots(finalize);
    var p := Propose(env, n1, qc.view + 1, qc, offer);
    if IsLeader(n1, qc.view + 1) {
      var more := ChainedProposal(env, n1, qc, offer).1;
      BallotsAppend(finalize, more);
      NoBallots([]);
      if p.Some? {
        BlockOnly(p.value);
        ProposalBallots(env, n1, p.value, p.value.justify, [BroadcastBlock(p.value)]);
        assert more == [BroadcastBlock(p.value)]
          + ([CastVote(n1, p.value.view, env.hash(p.value), Notarize)] + FinalizeParent(n1, p.value.justify));
      }
    }
  }

  lemma VoteIntent(env: Env, n: Node, e: Event)
    requires NonzeroHashes(env) && Enabled(n, e) && e.VoteIn?
    ensures StepBallots(env, n, e) == Listed(Intended(env, n, e))
  {
    hide OnFinalizeVote, Certify, Completes, Conflicts, Ballots, NonzeroHashes, NewQc, Propose;
    var vote, o := e.vote, Handle(env, n, e);
    if Completes(n, vote) {
      CompletesVerified(n, vote);
      CertifyIntent(env, n.(votes := n.votes[vote.view := FiledVotes(n, vote)]), Completed(n, vote, e.signers), e.offer);
    } else {
      if Verify(vote.author, vote.blockHash, vote.signature) && vote.voteType == Finalize {
        FinalizeFrame(env, n, vote);
      }
      NoBallots(Emitted(o));
    }
  }

  /** The step casts exactly the intended vote for a block, and no other. */
  lemma BallotsIntended(env: Env, n: Node, e: Event)
    requires NonzeroHashes(env) && Enabled(n, e)
    ensures StepBallots(env, n, e) == Listed(Intended(env, n, e))
  {
    hide OnProposal, OnVote, Respond, TryPropose, Ballots, NonzeroHashes, Restarted, Intended;
    match e
    case Launch(offer) => LaunchIntent(env, n, offer);
    case Proposal(block) => ProposalIntent(env, n, block);
    case VoteIn(vote, signers, offer) => VoteIntent(env, n, e);
    case Response(block) =>
      RespondFrame(env, n, block);
      NoBallots(Emitted(Handle(env, n, e)));
      NothingIntended(env, n, e);
    case _ =>
      NoBallots(Emitted(Handle(env, n, e)));
      NothingIntended(env, n, e);
  }

  lemma NothingIntended(env: Env, n: Node, e: Event)
    requires Enabled(n, e) && !e.Launch? && !e.Proposal? && !e.VoteIn?
    ensures Intended(env, n, e) == None
  {
  }

  // ---- What the buffer is left waiting for ----

  /** Blocks and waiting parents after a step that is no sync. */
  ghost predicate StoreAfter(env: Env, n: Node, e: Event, out: Node)
    requires Enabled(n, e)
  {
    && out.disk.blocks == (match Adds(env, n, e) case Some(b) => n.disk.blocks[env.hash(b) := b] case None => n.disk.blocks)
    && (out.orphans == n.orphans || out.orphans == map[]
        || (e.Proposal? && Adds(env, n, e) == None && out.orphans.Keys == n.orphans.Keys + {e.block.parentHash} && !ParentReady(n, e.block)))
    && (Adds(env, n, e).Some? ==> out.orphans == n.orphans)
  }

  lemma ProposalStores(env: Env, n: Node, block: Block)
    requires Filed(n.orphans) && (env.hash(block) in n.disk.blocks ==> n.disk.blocks[env.hash(block)] == block)
    ensures StoreAfter(env, n, Proposal(block), OnProposal(env, n, block).node)
  {
    hide NodeVerdict, UpdatePreferred, FastForward, Persist;
    StoreFrame(env, n, block);
    var c := ValidateAndStore(env, n, block);
    if block.view >= n.currentView && c.Stored? {
      FastForwardFrame(env, c.node, block.view);
      PersistFrame(env, FastForward(env, c.node, block.view).(lastVotedView := block.view));
      if env.hash(block) in n.disk.blocks {
        assert n.disk.blocks[env.hash(block) := block] == n.disk.blocks;
      }
    }
  }

  lemma CertifyStores(env: Env, n: Node, qc: QuorumCertificate, offer: Offer)
    ensures var n1, out := NewQc(env, n, qc), Certify(env, n, qc, offer).node;
            var p := if IsLeader(n1, qc.view + 1) then Propose(env, n1, qc.view + 1, qc, offer) else None;
            && out.disk.blocks == (if p.Some? then n.disk.blocks[env.hash(p.value) := p.value] else n.disk.blocks)
            && out.orphans == n.orphans
  {
    hide NewQc, ChainedProposal, Propose, KeepsSync, Synced, Anchored;
    NewQcFrame(env, n, qc);
    ChainedFrame(env, NewQc(env, n, qc), qc, offer);
  }

  lemma VoteStores(env: Env, n: Node, e: Event)
    requires Enabled(n, e) && e.VoteIn?
    ensures StoreAfter(env, n, e, Handle(env, n, e).node)
  {
    hide OnFinalizeVote, Completes, Conflicts, NewQc, Propose, Certify, IsLeader, KeepsSync, Finalizes, FinalizeVotes;
    var vote := e.vote;
    if Verify(vote.author, vote.blockHash, vote.signature) && vote.voteType == Finalize {
      FinalizeFrame(env, n, vote);
      NoCertificate(n, vote);
    } else if Completes(n, vote) {
      CompletesVerified(n, vote);
      CertifyStores(env, n.(votes := n.votes[vote.view := FiledVotes(n, vote)]), Completed(n, vote, e.signers), e.offer);
    }
  }

  lemma NoCertificate(n: Node, vote: Vote)
    requires vote.voteType == Finalize
    ensures !Completes(n, vote)
  {
  }

  lemma StepStores(env: Env, n: Node, e: Event)
    requires Enabled(n, e) && !e.Response? && n.disk.state.Some? && Injective(env.hash) && WellKeyed(env, n)
    ensures StoreAfter(env, n, e, Handle(env, n, e).node)
  {
    hide OnProposal, OnVote, TryPropose, Restarted, StoreAfter;
    match e
    case Launch(offer) => LaunchStores(env, n, offer);
    case Proposal(block) => ProposalStores(env, n, block);
    case VoteIn(_, _, _) => VoteStores(env, n, e);
    case _ => OtherStores(env, n, e);
  }

  lemma LaunchStores(env: Env, n: Node, offer: Offer)
    requires Filed(n.orphans)
    ensures StoreAfter(env, n, Launch(offer), TryPropose(env, n, offer).node)
  {
    hide Propose;
  }

  lemma OtherStores(env: Env, n: Node, e: Event)
    requires Enabled(n, e) && (e.Timeout? || e.Request? || e.Gossip? || e.Restart?) && n.disk.state.Some?
    ensures StoreAfter(env, n, e, Handle(env, n, e).node)
  {
  }

  /** Exactly which steps leave a buffered block waiting for a parent that is there: those that store,
      other than by a sync, a block that some buffered block waits for. Only a sync releases. */
  lemma StepSticksIff(env: Env, n: Node, e: Event)
    requires Enabled(n, e) && n.disk.state.Some? && Injective(env.hash) && WellKeyed(env, n)
    ensures Stuck(Handle(env, n, e).node) <= Stuck(n) <==>
      match Adds(env, n, e) case Some(b) => env.hash(b) !in n.orphans || env.hash(b) in Stuck(n) case None => true
  {
    hide Handle, Adds;
    if e.Response? {
      ResponseUnsticks(env, n, e);
    } else {
      StepStores(env, n, e);
      var out := Handle(env, n, e).node;
      if Adds(env, n, e).Some? {
        var hash := env.hash(Adds(env, n, e).value);
        if hash in n.orphans {
          assert hash in Stuck(out);
        }
      }
    }
  }

  lemma ResponseUnsticks(env: Env, n: Node, e: Event)
    requires Enabled(n, e) && e.Response?
    ensures Stuck(Handle(env, n, e).node) <= Stuck(n) && Adds(env, n, e) == None
  {
    hide Respond;
    RespondKeepsUnstuck(env, n, e.block);
  }

  /** In every run from an empty disk nothing waits for the zero hash. */
  lemma {:induction false} RunNeverAwaitsZero(env: Env, me: PublicKey, committee: seq<PublicKey>, ledger: Ledger, limit: nat, es: seq<Event>)
    requires Injective(env.hash) && KeepsPositions(env)
    requires Runs(env, Start(env, me, committee, Disk(map[], map[], None, ledger), limit), es)
    ensures var out := After(env, Start(env, me, committee, Disk(map[], map[], None, ledger), limit), es);
            ZERO_HASH !in out.orphans
  {
    hide Handle, KeepsPositions, Anchored;
    if es != [] {
      var n, init, e := Start(env, me, committee, Disk(map[], map[], None, ledger), limit), es[..|es| - 1], es[|es| - 1];
      RunNeverAwaitsZero(env, me, committee, ledger, limit, init);
      FreshSynced(env, me, committee, Disk(map[], map[], None, ledger), limit);
      RunAnchored(env, n, init);
      NeverAwaitsZero(env, After(env, n, init), e);
    }
  }

  lemma NeverAwaitsZero(env: Env, n: Node, e: Event)
    requires Enabled(n, e) && Anchored(n) && ZERO_HASH !in n.orphans
    ensures ZERO_HASH !in Handle(env, n, e).node.orphans
  {
    hide OnVote, Respond, Propose, NodeVerdict, UpdatePreferred, FastForward, Persist;
    match e
    case Proposal(block) =>
      StoreFrame(env, n, block);
      var c := ValidateAndStore(env, n, block);
      if c.Stored? {
        FastForwardFrame(env, c.node, block.view);
        PersistFrame(env, FastForward(env, c.node, block.view).(lastVotedView := block.view));
      }
    case VoteIn(_, _, _) => VoteStores(env, n, e);
    case Response(block) => RespondNeverAwaitsZero(env, n, block);
    case _ =>
  }
}
