/** Runs of one node, with crashes: restart equivalence over whole runs, finalized views, and the
    rule that a node votes for blocks at strictly increasing views. */
module Discipline {
  import opened Types
  import opened Collections
  import opened Consensus
  import opened Frames
  import opened Recovery

  ghost function After(env: Env, n: Node, es: seq<Event>): Node {
    if es == [] then n
    else
      var before := After(env, n, es[..|es| - 1]);
      if Enabled(before, es[|es| - 1]) then Handle(env, before, es[|es| - 1]).node else before
  }

  ghost predicate Runs(env: Env, n: Node, es: seq<Event>) {
    es == [] || (Runs(env, n, es[..|es| - 1]) && Enabled(After(env, n, es[..|es| - 1]), es[|es| - 1]))
  }

  ghost predicate CleanRun(env: Env, n: Node, es: seq<Event>) {
    es == [] || (CleanRun(env, n, es[..|es| - 1]) && CleanCommit(env, After(env, n, es[..|es| - 1]), es[|es| - 1]))
  }

  /** In every run whose commits are clean, a restart at any point rebuilds the node it stopped. */
  lemma {:induction false} RestartEquivalence(env: Env, n: Node, es: seq<Event>)
    requires KeepsPositions(env) && Synced(n) && Runs(env, n, es) && CleanRun(env, n, es)
    ensures var now := After(env, n, es);
            && Synced(now)
            && Restarted(env, now) == now.(votes := map[], finalizeVotes := map[], orphans := map[], evidence := map[],
                                           blockGasLimit := DEFAULT_BLOCK_GAS_LIMIT)
  {
    hide Handle, CleanCommit, Synced, KeepsPositions, Restarted;
    if es != [] {
      var before := After(env, n, es[..|es| - 1]);
      RestartEquivalence(env, n, es[..|es| - 1]);
      HandleSynced(env, before, es[|es| - 1]);
    }
    SyncedRestarts(env, After(env, n, es));
  }

  /** In every run, clean or not, the positions on disk are the node's. */
  lemma {:induction false} RunAnchored(env: Env, n: Node, es: seq<Event>)
    requires KeepsPositions(env) && Anchored(n) && Runs(env, n, es)
    ensures Anchored(After(env, n, es))
  {
    hide Handle, Anchored, KeepsPositions;
    if es != [] {
      RunAnchored(env, n, es[..|es| - 1]);
      HandleAnchored(env, After(env, n, es[..|es| - 1]), es[|es| - 1]);
    }
  }

  // ---- Finalized views ----

  ghost function Finalized(env: Env, n: Node, es: seq<Event>): seq<View> {
    if es == [] then []
    else
      var before, e := After(env, n, es[..|es| - 1]), es[|es| - 1];
      Finalized(env, n, es[..|es| - 1]) + if e.VoteIn? && Finalizes(before, e.vote) then [e.vote.view] else []
  }

  lemma VoteHeight(env: Env, n: Node, vote: Vote, signers: seq<PublicKey>, offer: Offer)
    requires Enabled(n, VoteIn(vote, signers, offer))
    ensures OnVote(env, n, vote, signers, offer).node.finalizedHeight
            == if Finalizes(n, vote) then vote.view else n.finalizedHeight
  {
    hide OnFinalizeVote, Certify, Completes, Conflicts;
    if Verify(vote.author, vote.blockHash, vote.signature) && vote.voteType == Finalize {
      FinalizeFrame(env, n, vote);
    } else if Completes(n, vote) {
      var votes := FiledVotes(n, vote);
      assert forall a :: a in signers ==> a in Elements(signers);
      CertifyFrame(env, n.(votes := n.votes[vote.view := votes]), QcFrom(votes, vote, signers), offer);
    }
  }

  lemma HeightStep(env: Env, n: Node, e: Event)
    requires Enabled(n, e) && Anchored(n)
    ensures Handle(env, n, e).node.finalizedHeight
            == if e.VoteIn? && Finalizes(n, e.vote) then e.vote.view else n.finalizedHeight
  {
    hide ValidateAndStore, FastForward, Persist, OnVote, Respond, Propose, Finalizes;
    match e
    case Proposal(block) =>
      StoreFrame(env, n, block);
      var c := ValidateAndStore(env, n, block);
      if c.Stored? {
        FastForwardFrame(env, c.node, block.view);
        PersistFrame(env, FastForward(env, c.node, block.view).(lastVotedView := block.view));
      }
    case VoteIn(vote, signers, offer) => VoteHeight(env, n, vote, signers, offer);
    case Response(block) => RespondFrame(env, n, block);
    case Restart => AnchoredRestarts(env, n);
    case _ =>
  }

  ghost predicate Ascending(low: View, views: seq<View>, high: View) {
    && low <= high
    && (forall i :: 0 <= i < |views| ==> low < views[i] <= high)
    && (forall i, j :: 0 <= i < j < |views| ==> views[i] < views[j])
  }

  /** Views are finalized, and their blocks committed, in strictly increasing order, restarts
      included. */
  lemma {:induction false} FinalizedIncreasing(env: Env, n: Node, es: seq<Event>)
    requires KeepsPositions(env) && Anchored(n) && Runs(env, n, es)
    ensures Ascending(n.finalizedHeight, Finalized(env, n, es), After(env, n, es).finalizedHeight)
  {
    hide Handle, Anchored, KeepsPositions;
    if es != [] {
      var init := es[..|es| - 1];
      FinalizedIncreasing(env, n, init);
      RunAnchored(env, n, init);
      HeightStep(env, After(env, n, init), es[|es| - 1]);
    }
  }

  // ---- Ballots ----

  /** A vote to notarize a real block. */
  predicate IsBallot(v: Vote) {
    v.voteType == Notarize && v.blockHash != ZERO_HASH
  }

  function Ballots(actions: seq<Action>): seq<Vote> {
    if actions == [] then []
    else (if actions[0].BroadcastVote? && IsBallot(actions[0].vote) then [actions[0].vote] else []) + Ballots(actions[1..])
  }

  lemma {:induction false} BallotsAppend(a: seq<Action>, b: seq<Action>)
    ensures Ballots(a + b) == Ballots(a) + Ballots(b)
  {
    if a == [] {
      assert a + b == b;
    } else {
      assert (a + b)[0] == a[0] && (a + b)[1..] == a[1..] + b;
      BallotsAppend(a[1..], b);
      var head := if a[0].BroadcastVote? && IsBallot(a[0].vote) then [a[0].vote] else [];
      assert Ballots(a) == head + Ballots(a[1..]);
    }
  }

  lemma {:induction false} NoBallots(actions: seq<Action>)
    requires forall a :: a in actions ==> !(a.BroadcastVote? && IsBallot(a.vote))
    ensures Ballots(actions) == []
  {
    if actions != [] {
      NoBallots(actions[1..]);
    }
  }

  ghost predicate NonzeroHashes(env: Env) {
    forall b :: env.hash(b) != ZERO_HASH
  }

  lemma ProposalBallots(env: Env, n: Node, block: Block, qc: QuorumCertificate, head: seq<Action>)
    requires NonzeroHashes(env) && Ballots(head) == []
    ensures var vote := MakeVote(n.me, block.view, env.hash(block), Notarize);
            Ballots(head + ([BroadcastVote(vote)] + FinalizeParent(n, qc))) == [vote]
  {
    var vote := MakeVote(n.me, block.view, env.hash(block), Notarize);
    BallotsAppend([BroadcastVote(vote)], FinalizeParent(n, qc));
    BallotsAppend(head, [BroadcastVote(vote)] + FinalizeParent(n, qc));
    NoBallots(FinalizeParent(n, qc));
    assert [BroadcastVote(vote)][1..] == [];
  }

  ghost function StepBallots(env: Env, n: Node, e: Event): seq<Vote>
    requires Enabled(n, e)
  {
    Ballots(Emitted(Handle(env, n, e)))
  }

  /** The view at which an event can make the node vote for a block. */
  function BallotView(n: Node, e: Event): View {
    match e
    case Launch(_) => n.currentView
    case Proposal(block) => block.view
    case VoteIn(vote, _, _) => vote.view + 1
    case _ => 0
  }

  /** A step casts at most one ballot, at the view its event determines, signed by the node. A
      proposal is voted for only above lastVotedView. The record on disk already covers every
      ballot except one cast at launch. */
  ghost predicate BallotRules(env: Env, n: Node, e: Event)
    requires Enabled(n, e)
  {
    var out := Handle(env, n, e).node;
    var cast := StepBallots(env, n, e);
    && |cast| <= 1
    && (forall v :: v in cast ==> v.view == BallotView(n, e) && v == MakeVote(n.me, v.view, v.blockHash, Notarize))
    && (cast != [] ==> e.Launch? || e.Proposal? || e.VoteIn?)
    && (cast != [] && e.Proposal? ==> cast[0].view > n.lastVotedView)
    && out.lastVotedView == (if cast != [] && !e.Launch? then cast[0].view else n.lastVotedView)
    && (cast != [] && !e.Launch? ==> out.disk.state.Some? && out.disk.state.value.lastVotedView == cast[0].view)
    && out.me == n.me
  }

  lemma LaunchRules(env: Env, n: Node, offer: Offer)
    requires NonzeroHashes(env) && Filed(n.orphans)
    ensures BallotRules(env, n, Launch(offer))
  {
    var o := TryPropose(env, n, offer);
    if Emitted(o) != [] {
      var block := Propose(env, n, n.currentView, n.disk.qcs[n.currentView - 1], offer).value;
      ProposalBallots(env, n, block, block.justify, [BroadcastBlock(block)]);
      assert Emitted(o) == [BroadcastBlock(block)]
        + ([CastVote(n, block.view, env.hash(block), Notarize)] + FinalizeParent(n, block.justify));
    }
  }

  lemma ProposalRules(env: Env, n: Node, block: Block)
    requires NonzeroHashes(env) && Filed(n.orphans)
    ensures BallotRules(env, n, Proposal(block))
  {
    hide ValidateAndStore, FastForward, Persist, Ballots;
    StoreFrame(env, n, block);
    var o := OnProposal(env, n, block);
    var c := ValidateAndStore(env, n, block);
    if block.view >= n.currentView && c.Stored? {
      var n2 := FastForward(env, c.node, block.view);
      FastForwardFrame(env, c.node, block.view);
      PersistFrame(env, n2.(lastVotedView := block.view));
      if block.view > n2.lastVotedView {
        NoBallots([]);
        ProposalBallots(env, o.node, block, block.justify, []);
        assert [] + Emitted(o) == Emitted(o);
      } else {
        NoBallots(Emitted(o));
      }
    } else {
      NoBallots(Emitted(o));
    }
  }

  /** The ballots cast, and what they leave in memory and on disk. */
  ghost predicate Recorded(n: Node, out: Node, cast: seq<Vote>, view: View) {
    && |cast| <= 1 && out.me == n.me
    && (forall v :: v in cast ==> v.view == view && v == MakeVote(n.me, v.view, v.blockHash, Notarize))
    && out.lastVotedView == (if cast != [] then view else n.lastVotedView)
    && (cast != [] ==> out.disk.state.Some? && out.disk.state.value.lastVotedView == view)
  }

  lemma ChainedRules(env: Env, n: Node, qc: QuorumCertificate, offer: Offer)
    requires NonzeroHashes(env)
    ensures var (out, actions) := ChainedProposal(env, n, qc, offer);
            Recorded(n, out, Ballots(actions), qc.view + 1)
  {
    hide Propose, Persist;
    var proposal := Propose(env, n, qc.view + 1, qc, offer);
    if proposal.Some? {
      var block := proposal.value;
      ProposalBallots(env, n, block, block.justify, [BroadcastBlock(block)]);
      PersistFrame(env, SaveBlock(env, n, block).(lastVotedView := block.view));
      assert ChainedProposal(env, n, qc, offer).1
        == [BroadcastBlock(block)] + ([CastVote(n, block.view, env.hash(block), Notarize)] + FinalizeParent(n, block.justify));
    }
  }

  lemma CertifyRules(env: Env, n: Node, qc: QuorumCertificate, offer: Offer)
    requires NonzeroHashes(env)
    ensures var o := Certify(env, n, qc, offer); Recorded(n, o.node, Ballots(Emitted(o)), qc.view + 1)
  {
    hide NewQc, ChainedProposal, Ballots;
    var n1 := NewQc(env, n, qc);
    NewQcFrame(env, n, qc);
    var finalize := [CastVote(n, qc.view, qc.blockHash, Finalize)];
    NoBallots(finalize);
    ChainedRules(env, n1, qc, offer);
    BallotsAppend(finalize, ChainedProposal(env, n1, qc, offer).1);
    assert [] + Ballots(ChainedProposal(env, n1, qc, offer).1) == Ballots(ChainedProposal(env, n1, qc, offer).1);
  }

  lemma VoteRules(env: Env, n: Node, vote: Vote, signers: seq<PublicKey>, offer: Offer)
    requires NonzeroHashes(env) && Enabled(n, VoteIn(vote, signers, offer))
    ensures BallotRules(env, n, VoteIn(vote, signers, offer))
  {
    hide OnFinalizeVote, Certify, Conflicts, Ballots, Finalizes;
    var o := OnVote(env, n, vote, signers, offer);
    if Completes(n, vote) {
      var votes := FiledVotes(n, vote);
      assert forall a :: a in signers ==> a in Elements(signers);
      CertifyRules(env, n.(votes := n.votes[vote.view := votes]), QcFrom(votes, vote, signers), offer);
    } else {
      if Verify(vote.author, vote.blockHash, vote.signature) && vote.voteType == Finalize {
        FinalizeFrame(env, n, vote);
      }
      NoBallots(Emitted(o));
    }
  }

  lemma HandleRules(env: Env, n: Node, e: Event)
    requires NonzeroHashes(env) && Enabled(n, e) && Anchored(n)
    ensures BallotRules(env, n, e)
  {
    hide OnProposal, OnVote, Respond, TryPropose, Ballots, NonzeroHashes, Restarted;
    match e
    case Launch(offer) => LaunchRules(env, n, offer);
    case Proposal(block) => ProposalRules(env, n, block);
    case VoteIn(vote, signers, offer) => VoteRules(env, n, vote, signers, offer);
    case Timeout(view) => NoBallots(Emitted(Handle(env, n, e)));
    case Response(block) =>
      RespondFrame(env, n, block);
      NoBallots(Emitted(Handle(env, n, e)));
    case Request(hash, peer) => NoBallots(Emitted(Handle(env, n, e)));
    case Gossip(evidence) => NoBallots(Emitted(Handle(env, n, e)));
    case Restart =>
      AnchoredRestarts(env, n);
      NoBallots(Emitted(Handle(env, n, e)));
  }

  // ---- Strictly increasing views ----

  ghost function RunBallots(env: Env, n: Node, es: seq<Event>): seq<Vote>
    requires Runs(env, n, es)
  {
    if es == [] then []
    else RunBallots(env, n, es[..|es| - 1]) + StepBallots(env, After(env, n, es[..|es| - 1]), es[|es| - 1])
  }

  /** The highest view voted for at launch, which lastVotedView does not record. */
  ghost function Launched(env: Env, n: Node, es: seq<Event>): View
    requires Runs(env, n, es)
  {
    if es == [] then 0
    else
      var before, e := After(env, n, es[..|es| - 1]), es[|es| - 1];
      var so := Launched(env, n, es[..|es| - 1]);
      if e.Launch? && StepBallots(env, before, e) != [] then Max(so, before.currentView) else so
  }

  function Max(a: nat, b: nat): nat {
    if a < b then b else a
  }

  /** What the caller must see to before a step that votes for a block: an own proposal only above
      every view voted for so far, and a received proposal not at or below a view voted for at
      launch. */
  predicate Guard(n: Node, launched: View, e: Event) {
    match e
    case Launch(_) => Max(n.lastVotedView, launched) < n.currentView
    case Proposal(block) => launched < block.view
    case VoteIn(vote, _, _) => Max(n.lastVotedView, launched) < vote.view + 1
    case _ => true
  }

  ghost predicate GuardedRun(env: Env, n: Node, es: seq<Event>)
    requires Runs(env, n, es)
  {
    es == [] ||
    (var init, e := es[..|es| - 1], es[|es| - 1];
     && GuardedRun(env, n, init)
     && (StepBallots(env, After(env, n, init), e) != [] ==> Guard(After(env, n, init), Launched(env, n, init), e)))
  }

  ghost predicate Climbs(start: View, votes: seq<Vote>) {
    && (forall i :: 0 <= i < |votes| ==> start < votes[i].view)
    && (forall i, j :: 0 <= i < j < |votes| ==> votes[i].view < votes[j].view)
  }

  function Highest(start: View, votes: seq<Vote>): View {
    if votes == [] then start else votes[|votes| - 1].view
  }

  lemma ClimbsAppend(start: View, votes: seq<Vote>, more: seq<Vote>)
    requires |more| <= 1
    ensures Climbs(start, votes + more) <==>
      Climbs(start, votes) && (more != [] ==> Highest(start, votes) < more[0].view)
  {
    var all := votes + more;
    if Climbs(start, all) {
      forall i | 0 <= i < |votes| ensures start < votes[i].view {
        assert all[i] == votes[i];
      }
      forall i, j | 0 <= i < j < |votes| ensures votes[i].view < votes[j].view {
        assert all[i] == votes[i] && all[j] == votes[j];
      }
      if more != [] {
        assert all[|votes|] == more[0];
        if votes != [] {
          assert all[|votes| - 1] == votes[|votes| - 1];
        }
      }
    }
  }

  lemma NothingClimbs(start: View)
    ensures Climbs(start, [])
  {
  }

  /** Over every interleaving of handlers and restarts, a node votes for blocks at strictly
      increasing views if and only if each of its voting steps respects the guard. */
  lemma {:induction false} VotesClimbIffGuarded(env: Env, n: Node, es: seq<Event>)
    requires NonzeroHashes(env) && KeepsPositions(env) && Anchored(n) && Runs(env, n, es)
    ensures Climbs(n.lastVotedView, RunBallots(env, n, es)) <==> GuardedRun(env, n, es)
    ensures GuardedRun(env, n, es) ==>
      Highest(n.lastVotedView, RunBallots(env, n, es)) == Max(After(env, n, es).lastVotedView, Launched(env, n, es))
    ensures n.lastVotedView <= After(env, n, es).lastVotedView || !GuardedRun(env, n, es)
  {
    hide Handle, StepBallots, Anchored, KeepsPositions, NonzeroHashes, Climbs;
    if es == [] {
      NothingClimbs(n.lastVotedView);
    } else {
      var init, e := es[..|es| - 1], es[|es| - 1];
      VotesClimbIffGuarded(env, n, init);
      RunAnchored(env, n, init);
      var before := After(env, n, init);
      HandleRules(env, before, e);
      ClimbsAppend(n.lastVotedView, RunBallots(env, n, init), StepBallots(env, before, e));
    }
  }

  lemma FreshProposalVoted(env: Env, n: Node, block: Block)
    requires block.view >= n.currentView && block.view > n.lastVotedView
    requires env.hash(block) !in n.disk.blocks && ParentReady(n, block) && NodeVerdict(env, n, block) == None
    ensures CastVote(n, block.view, env.hash(block), Notarize) in Emitted(OnProposal(env, n, block))
  {
    hide NodeVerdict, UpdatePreferred, FastForward, Persist;
    StoreFrame(env, n, block);
    var c := ValidateAndStore(env, n, block);
    FastForwardFrame(env, c.node, block.view);
    PersistFrame(env, FastForward(env, c.node, block.view).(lastVotedView := block.view));
  }

  /** Handling one's own launched block when a peer echoes it repeats the launch vote. */
  lemma EchoRepeatsVote(env: Env, n: Node, offer: Offer)
    requires n.lastVotedView < n.currentView && IsLeader(n, n.currentView) && n.currentView - 1 in n.disk.qcs
    requires Propose(env, n, n.currentView, n.disk.qcs[n.currentView - 1], offer).Some?
    ensures var own := Propose(env, n, n.currentView, n.disk.qcs[n.currentView - 1], offer).value;
            var n1 := TryPropose(env, n, offer).node;
            var vote := CastVote(n, n.currentView, env.hash(own), Notarize);
            vote in Emitted(TryPropose(env, n, offer)) && Ballots(Emitted(OnProposal(env, n1, own))) <= [vote.vote]
  {
    hide Propose, Persist, FastForward;
    var own := Propose(env, n, n.currentView, n.disk.qcs[n.currentView - 1], offer).value;
    var n1 := TryPropose(env, n, offer).node;
    assert Emitted(TryPropose(env, n, offer))[1] == CastVote(n, n.currentView, env.hash(own), Notarize);
    assert ValidateAndStore(env, n1, own) == Stored(n1);
    FastForwardFrame(env, n1, own.view);
    PersistFrame(env, FastForward(env, n1, own.view).(lastVotedView := own.view));
    EchoBallots(env, n1, own);
  }

  lemma EchoBallots(env: Env, n: Node, own: Block)
    requires ValidateAndStore(env, n, own) == Stored(n) && own.view >= n.currentView
    ensures Ballots(Emitted(OnProposal(env, n, own))) <= [MakeVote(n.me, own.view, env.hash(own), Notarize)]
  {
    hide ValidateAndStore, Persist, FastForward;
    var n2 := FastForward(env, n, own.view);
    FastForwardFrame(env, n, own.view);
    var n3 := Persist(env, n2.(lastVotedView := own.view));
    PersistFrame(env, n2.(lastVotedView := own.view));
    var vote, finalize := CastVote(n3, own.view, env.hash(own), Notarize), FinalizeParent(n3, own.justify);
    NoBallots(finalize);
    BallotsAppend([vote], finalize);
    assert [vote][1..] == [];
  }

  /** The family of runs outside the guard: a node that proposes at launch and is then handed a
      valid rival block of the same view votes for both. */
  lemma LaunchThenRivalVotesTwice(env: Env, n: Node, offer: Offer, rival: Block)
    requires NonzeroHashes(env) && Filed(n.orphans) && n.lastVotedView < n.currentView
    requires IsLeader(n, n.currentView) && n.currentView - 1 in n.disk.qcs
    requires Propose(env, n, n.currentView, n.disk.qcs[n.currentView - 1], offer).Some?
    requires var n1 := TryPropose(env, n, offer).node;
      && rival.view == n.currentView && env.hash(rival) !in n1.disk.blocks
      && ParentReady(n1, rival) && NodeVerdict(env, n1, rival) == None
    ensures var own := Propose(env, n, n.currentView, n.disk.qcs[n.currentView - 1], offer).value;
            var first, second := TryPropose(env, n, offer), OnProposal(env, TryPropose(env, n, offer).node, rival);
            && CastVote(n, n.currentView, env.hash(own), Notarize) in Emitted(first)
            && CastVote(n, n.currentView, env.hash(rival), Notarize) in Emitted(second)
            && env.hash(own) != env.hash(rival)
  {
    hide NodeVerdict, Propose, OnProposal;
    FreshProposalVoted(env, TryPropose(env, n, offer).node, rival);
  }
}
