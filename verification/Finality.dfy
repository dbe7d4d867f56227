/** What a finalize vote and the finalize count leave open, and exactly when they do not. */
module Finality {
  import opened Types
  import opened Consensus
  import opened Frames
  import opened Network
  import opened Agreement
  import Validation

  // ---- Thin certificates ----

  function OneSigner(key: PublicKey, view: View, hash: Hash): QuorumCertificate {
    QuorumCertificate(view, hash, Sign(key, hash), [key])
  }

  /** A certificate needs one signer of any key, member or not: a node that re-executes a block
      carrying one votes to finalize the hash it names, real or not. */
  lemma OneSignerSuffices(env: Env, n: Node, block: Block, key: PublicKey, view: View, hash: Hash)
    requires block.justify == OneSigner(key, view, hash) && view > 0
    requires env.hash(block) !in n.disk.blocks && ParentReady(n, block) && Validation.Reexecutes(env, n, block)
    requires block.view >= n.currentView && block.view > n.lastVotedView
    ensures QcVerifies(block.justify)
    ensures BroadcastVote(MakeVote(n.me, view, hash, Finalize)) in Emitted(OnProposal(env, n, block))
  {
    assert AllSigned([key], hash) == Sign(key, hash) + AllSigned([], hash);
    hide UpdatePreferred, OnProposal;
    FinalizeVoteCast(env, n, block);
  }

  /** Votes sign the hash and not the view, so a certificate of one view verifies for every other: a
      node that re-executes a block carrying a relabelled one votes to finalize its hash there. The
      dummy certificate of a timed-out view is such a certificate for any view. */
  lemma RelabelledFinalizes(env: Env, n: Node, block: Block, qc: QuorumCertificate, view: View)
    requires qc.view > 0 && QcVerifies(qc) && block.justify == qc.(view := view) && view > 0
    requires env.hash(block) !in n.disk.blocks && ParentReady(n, block) && Validation.Reexecutes(env, n, block)
    requires block.view >= n.currentView && block.view > n.lastVotedView
    ensures QcVerifies(block.justify)
    ensures BroadcastVote(MakeVote(n.me, view, qc.blockHash, Finalize)) in Emitted(OnProposal(env, n, block))
  {
    hide UpdatePreferred, OnProposal, VerifyAggregate;
    FinalizeVoteCast(env, n, block);
  }

  // ---- Counting per view ----

  /** The vote that crosses the threshold decides what is committed. Its hash has a threshold of the
      view's finalize votes behind it exactly when the others that name it are one short of that. */
  lemma CommittedHashBackedIff(env: Env, n: Node, vote: Vote)
    requires Finalizes(n, vote) && vote.blockHash != ZERO_HASH && vote.blockHash in n.disk.blocks
    ensures OnFinalizeVote(env, n, vote).node == CommitBlock(env, Raise(env, n, vote), n.disk.blocks[vote.blockHash])
    ensures var others := VotesAt(n.finalizeVotes, vote.view) - {vote.author};
            |NamedBy(n, vote)| >= Threshold(n.committee) <==> |Supporters(others, vote.blockHash)| >= Threshold(n.committee) - 1
  {
    hide Persist, CommitBlock;
    RaiseFrame(env, n, vote);
    OthersAndOwn(n, vote);
  }

  lemma OthersAndOwn(n: Node, vote: Vote)
    ensures var others := VotesAt(n.finalizeVotes, vote.view) - {vote.author};
            && NamedBy(n, vote) == Supporters(others, vote.blockHash) + {vote.author}
            && |NamedBy(n, vote)| == |Supporters(others, vote.blockHash)| + 1
  {
    var others := VotesAt(n.finalizeVotes, vote.view) - {vote.author};
    assert NamedBy(n, vote) == Supporters(others, vote.blockHash) + {vote.author};
    assert vote.author !in Supporters(others, vote.blockHash);
  }

  /** When the count is reached for the first time, that is when all the others name it. */
  lemma FirstCrossingIff(n: Node, vote: Vote)
    requires |VotesAt(n.finalizeVotes, vote.view) - {vote.author}| == Threshold(n.committee) - 1
    ensures var others := VotesAt(n.finalizeVotes, vote.view) - {vote.author};
            |NamedBy(n, vote)| >= Threshold(n.committee)
            <==> forall a :: a in others ==> others[a].blockHash == vote.blockHash
  {
    var others := VotesAt(n.finalizeVotes, vote.view) - {vote.author};
    var named := Supporters(others, vote.blockHash);
    OthersAndOwn(n, vote);
    assert |others| == |others.Keys|;
    if forall a :: a in others ==> others[a].blockHash == vote.blockHash {
      assert named == others.Keys;
    }
    if |named| >= |others.Keys| {
      SameWhenAsLarge(named, others.Keys);
    }
  }

  lemma SameWhenAsLarge<T>(a: set<T>, b: set<T>)
    requires a <= b && |a| >= |b|
    ensures a == b
  {
    if a < b {
      SmallerSet(a, b);
    }
  }

  /** At four members: two votes for one hash, then one for another stored hash, commit the latter. */
  lemma LastVoteDecides(env: Env, n: Node, view: View, first: Hash, second: Hash)
    requires n.committee == [1, 2, 3, 4] && n.finalizedHeight < view && first != second && second != ZERO_HASH && second in n.disk.blocks
    requires VotesAt(n.finalizeVotes, view)
          == map[1 := MakeVote(1, view, first, Finalize), 2 := MakeVote(2, view, first, Finalize)]
    ensures var vote := MakeVote(3, view, second, Finalize);
            && Finalizes(n, vote) && |NamedBy(n, vote)| == 1 < Threshold(n.committee)
            && OnFinalizeVote(env, n, vote).node == CommitBlock(env, Raise(env, n, vote), n.disk.blocks[second])
  {
    hide OnFinalizeVote, Raise, CommitBlock;
    var vote := MakeVote(3, view, second, Finalize);
    var votes: map<PublicKey, Vote> := FinalizeVotes(n, vote);
    assert votes.Keys == {1, 2, 3};
    assert |votes| == |votes.Keys| == 3;
    assert NamedBy(n, vote) == {3};
    CommittedHashBackedIff(env, n, vote);
  }
}
