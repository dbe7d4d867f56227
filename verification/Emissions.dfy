/** What a handler can emit, and from what. */
module Emissions {
  import opened Types
  import opened Consensus
  import opened Frames
  import opened VoteTables

  ghost function VotesIn(actions: seq<Action>): set<Vote> {
    set a | a in actions && a.BroadcastVote? :: a.vote
  }

  ghost function BlocksIn(actions: seq<Action>): set<Block> {
    set a | a in actions && a.BroadcastBlock? :: a.block
  }

  /** A finalize vote names the certificate of a received block, of a launch, or just formed. */
  ghost predicate FinalizeSource(n: Node, e: Event, v: Vote) {
    || (e.Proposal? && e.block.justify.view == v.view > 0 && e.block.justify.blockHash == v.blockHash)
    || (e.Launch? && v.view > 0 && v.view in n.disk.qcs && v.view + 1 == n.currentView
        && n.disk.qcs[v.view].view == v.view && n.disk.qcs[v.view].blockHash == v.blockHash)
    || (e.VoteIn? && Completes(n, e.vote) && v.view == e.vote.view && v.blockHash == e.vote.blockHash)
  }

  ghost predicate Leads(n: Node, b: Block) {
    |n.committee| > 0 && n.committee[b.view % |n.committee|] == b.author
  }

  /** A proposal is made by the leader of its view, is justified by the certificate of the view
      before and extends the block that certificate asks for. */
  ghost predicate BlockSource(n: Node, out: Node, e: Event, b: Block) {
    && b.parentHash == ParentFor(out, b.justify) && b.author == n.me && Leads(out, b)
    && ((e.Launch? && b.view == n.currentView > 0 && b.view - 1 in n.disk.qcs && b.justify == n.disk.qcs[b.view - 1])
        || (e.VoteIn? && Completes(n, e.vote) && b.view == e.vote.view + 1
            && b.justify.view == e.vote.view && b.justify.blockHash == e.vote.blockHash))
  }

  /** A ballot is for a block the same step proposes, or for the block it received. */
  ghost predicate BallotSource(env: Env, e: Event, actions: seq<Action>, v: Vote) {
    || (exists b :: BroadcastBlock(b) in actions && env.hash(b) == v.blockHash && b.view == v.view)
    || (e.Proposal? && env.hash(e.block) == v.blockHash && e.block.view == v.view)
  }

  /** A vote for the dummy comes from a timeout of a view not yet left. */
  ghost predicate DummySource(n: Node, e: Event, v: Vote) {
    e.Timeout? && n.currentView <= e.view == v.view && v.blockHash == ZERO_HASH
  }

  ghost predicate ActionRule(env: Env, n: Node, e: Event, out: Node, actions: seq<Action>, a: Action) {
    match a
    case BroadcastVote(v) =>
      && v == MakeVote(n.me, v.view, v.blockHash, v.voteType)
      && (v.voteType == Finalize ==> FinalizeSource(n, e, v))
      && (v.voteType == Notarize ==> DummySource(n, e, v) || BallotSource(env, e, actions, v))
    case BroadcastBlock(b) => BlockSource(n, out, e, b)
    case _ => true
  }

  ghost predicate EmissionRules(env: Env, n: Node, e: Event)
    requires Enabled(n, e)
  {
    var o := Handle(env, n, e);
    forall a :: a in Emitted(o) ==> ActionRule(env, n, e, o.node, Emitted(o), a)
  }

  lemma LaunchEmits(env: Env, n: Node, offer: Offer)
    requires Filed(n.orphans)
    requires forall v :: v in n.disk.qcs ==> n.disk.qcs[v].view == v
    ensures EmissionRules(env, n, Launch(offer))
  {
    hide Propose, ActionRule;
    var o, e := TryPropose(env, n, offer), Launch(offer);
    forall a | a in Emitted(o) ensures ActionRule(env, n, e, o.node, Emitted(o), a) {
      LaunchAction(env, n, offer, a);
    }
  }

  lemma LaunchAction(env: Env, n: Node, offer: Offer, a: Action)
    requires forall v :: v in n.disk.qcs ==> n.disk.qcs[v].view == v
    requires a in Emitted(TryPropose(env, n, offer))
    ensures var o := TryPropose(env, n, offer); ActionRule(env, n, Launch(offer), o.node, Emitted(o), a)
  {
    hide Propose;
    var block := Propose(env, n, n.currentView, n.disk.qcs[n.currentView - 1], offer).value;
    assert BroadcastBlock(block) in Emitted(TryPropose(env, n, offer));
  }

  lemma ProposalEmits(env: Env, n: Node, block: Block)
    requires Filed(n.orphans)
    ensures EmissionRules(env, n, Proposal(block))
  {
    hide ActionRule, OnProposal;
    var o, e := OnProposal(env, n, block), Proposal(block);
    forall a | a in Emitted(o) ensures ActionRule(env, n, e, o.node, Emitted(o), a) {
      ProposalAction(env, n, block, a);
    }
  }

  lemma ProposalAction(env: Env, n: Node, block: Block, a: Action)
    requires a in Emitted(OnProposal(env, n, block))
    ensures var o := OnProposal(env, n, block); ActionRule(env, n, Proposal(block), o.node, Emitted(o), a)
  {
    hide ValidateAndStore, FastForward, Persist;
    StoreFrame(env, n, block);
    var c := ValidateAndStore(env, n, block);
    if c.Stored? {
      var n2 := FastForward(env, c.node, block.view);
      FastForwardFrame(env, c.node, block.view);
      PersistFrame(env, n2.(lastVotedView := block.view));
    }
  }

  /** The emissions of a new certificate, in terms of the certificate. */
  ghost predicate CertifyRule(env: Env, n: Node, qc: QuorumCertificate, out: Node, actions: seq<Action>, a: Action) {
    match a
    case BroadcastVote(v) =>
      && v == MakeVote(n.me, v.view, v.blockHash, v.voteType)
      && (v.voteType == Finalize ==> v.view == qc.view && v.blockHash == qc.blockHash)
      && (v.voteType == Notarize ==>
            exists b :: BroadcastBlock(b) in actions && env.hash(b) == v.blockHash && b.view == v.view)
    case BroadcastBlock(b) =>
      && b.view == qc.view + 1 && b.justify == qc && b.parentHash == ParentFor(out, qc)
      && b.author == n.me && Leads(out, b)
    case _ => true
  }

  lemma ChainedAction(env: Env, n: Node, qc: QuorumCertificate, offer: Offer, a: Action)
    requires IsLeader(n, qc.view + 1) && a in ChainedProposal(env, n, qc, offer).1
    ensures var (out, actions) := ChainedProposal(env, n, qc, offer); CertifyRule(env, n, qc, out, actions, a)
  {
    hide Propose, Persist;
    ChainedFrame(env, n, qc, offer);
    var p := Propose(env, n, qc.view + 1, qc, offer);
    if p.Some? {
      assert BroadcastBlock(p.value) in ChainedProposal(env, n, qc, offer).1;
    }
  }

  lemma CertifyAction(env: Env, n: Node, qc: QuorumCertificate, offer: Offer, a: Action)
    requires a in Emitted(Certify(env, n, qc, offer))
    ensures var o := Certify(env, n, qc, offer); CertifyRule(env, n, qc, o.node, Emitted(o), a)
  {
    hide NewQc, ChainedProposal, ParentFor;
    NewQcFrame(env, n, qc);
    var n1 := NewQc(env, n, qc);
    var more := ChainedProposal(env, n1, qc, offer).1;
    if IsLeader(n1, qc.view + 1) && a in more {
      ChainedAction(env, n1, qc, offer, a);
      assert forall x :: x in more ==> x in Emitted(Certify(env, n, qc, offer));
    }
  }

  lemma VoteAction(env: Env, n: Node, vote: Vote, signers: seq<PublicKey>, offer: Offer, a: Action)
    requires Enabled(n, VoteIn(vote, signers, offer)) && a in Emitted(OnVote(env, n, vote, signers, offer))
    ensures var o := OnVote(env, n, vote, signers, offer);
            ActionRule(env, n, VoteIn(vote, signers, offer), o.node, Emitted(o), a)
  {
    hide OnFinalizeVote, Certify, Completes, Conflicts;
    if Verify(vote.author, vote.blockHash, vote.signature) && vote.voteType == Finalize {
      FinalizeFrame(env, n, vote);
      assert false;
    }
    if Completes(n, vote) {
      CompletesVerified(n, vote);
      CertifyAction(env, n.(votes := n.votes[vote.view := FiledVotes(n, vote)]), Completed(n, vote, signers), offer, a);
    }
  }

  lemma VoteEmits(env: Env, n: Node, vote: Vote, signers: seq<PublicKey>, offer: Offer)
    requires Enabled(n, VoteIn(vote, signers, offer))
    ensures EmissionRules(env, n, VoteIn(vote, signers, offer))
  {
    hide ActionRule, OnVote;
    var o, e := OnVote(env, n, vote, signers, offer), VoteIn(vote, signers, offer);
    forall a | a in Emitted(o) ensures ActionRule(env, n, e, o.node, Emitted(o), a) {
      VoteAction(env, n, vote, signers, offer, a);
    }
  }

  lemma OtherAction(env: Env, n: Node, e: Event, a: Action)
    requires Enabled(n, e) && (e.Timeout? || e.Response? || e.Request? || e.Gossip? || e.Restart?) && a in Emitted(Handle(env, n, e))
    ensures ActionRule(env, n, e, Handle(env, n, e).node, Emitted(Handle(env, n, e)), a)
  {
    hide Respond, Restarted;
    if e.Response? {
      RespondFrame(env, n, e.block);
    }
  }

  /** Everything a handler emits has a source. */
  lemma HandleEmits(env: Env, n: Node, e: Event)
    requires Enabled(n, e)
    requires forall v :: v in n.disk.qcs ==> n.disk.qcs[v].view == v
    ensures EmissionRules(env, n, e)
  {
    hide OnProposal, OnVote, Respond, TryPropose, Restarted, ActionRule;
    match e
    case Launch(offer) => LaunchEmits(env, n, offer);
    case Proposal(block) => ProposalEmits(env, n, block);
    case VoteIn(vote, signers, offer) => VoteEmits(env, n, vote, signers, offer);
    case _ =>
      var o := Handle(env, n, e);
      forall a | a in Emitted(o) ensures ActionRule(env, n, e, o.node, Emitted(o), a) {
        OtherAction(env, n, e, a);
      }
  }
}
