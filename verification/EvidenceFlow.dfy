/** What enters and leaves a node's evidence pool, step by step. */
module EvidenceFlow {
  import opened Types
  import opened Collections
  import opened EvidencePoolModel
  import opened Consensus
  import opened Frames
  import opened Recovery
  import opened Discipline
  import opened VoteTables

  /** The author of a verified notarize vote has voted for another real block in that view. */
  ghost predicate Contradicts(n: Node, vote: Vote) {
    && vote.voteType == Notarize && vote.signature == Sign(vote.author, vote.blockHash) && vote.blockHash != ZERO_HASH
    && vote.view in n.votes && vote.author in n.votes[vote.view]
    && n.votes[vote.view][vote.author].blockHash != ZERO_HASH
    && n.votes[vote.view][vote.author].blockHash != vote.blockHash
  }

  /** The two votes of the author, the filed one first. */
  ghost function Pair(n: Node, vote: Vote): Evidence
    requires Contradicts(n, vote)
  {
    Evidence(n.votes[vote.view][vote.author], vote)
  }

  /** Such a vote always puts the pair in the pool, is told to everyone if the pool did not have it,
      and is not filed. */
  lemma ContradictionReported(env: Env, n: Node, vote: Vote, signers: seq<PublicKey>, offer: Offer)
    requires Enumerates(signers, Supporters(FiledVotes(n, vote), vote.blockHash))
    requires WellFormed(n.evidence) && TablesSound(n) && Contradicts(n, vote)
    ensures var out, pair := OnVote(env, n, vote, signers, offer), Pair(n, vote);
            && out.node == n.(evidence := out.node.evidence) && WellFormed(out.node.evidence)
            && (forall x :: Holds(out.node.evidence, x) <==> Holds(n.evidence, x) || x == pair)
            && Emitted(out) == if Holds(n.evidence, pair) then [] else [BroadcastEvidence(pair)]
  {
    var pair := Pair(n, vote);
    assert Plausible(pair);
    forall x ensures Holds(Add(n.evidence, pair), x) <==> Holds(n.evidence, x) || x == pair {
      AddExact(n.evidence, pair, x);
    }
    AddExact(n.evidence, pair, pair);
  }

  /** Whether a node reports a pair of votes depends on nothing else. */
  lemma OnlyContradictionsReported(env: Env, n: Node, vote: Vote, signers: seq<PublicKey>, offer: Offer)
    requires Enumerates(signers, Supporters(FiledVotes(n, vote), vote.blockHash)) && !Contradicts(n, vote)
    ensures OnVote(env, n, vote, signers, offer).node.evidence == n.evidence
  {
    hide Certify, OnFinalizeVote, Supporters;
    if Verify(vote.author, vote.blockHash, vote.signature) {
      if vote.voteType == Finalize {
        FinalizeFrame(env, n, vote);
      } else if Completes(n, vote) {
        CertifyFrame(env, n.(votes := n.votes[vote.view := FiledVotes(n, vote)]), Completed(n, vote, signers), offer);
      }
    }
  }

  // ---- Blocks take evidence out ----

  /** A block the node did not have carries the evidence. */
  ghost predicate NewlyCarried(a: Node, b: Node, x: Evidence) {
    exists h :: h in b.disk.blocks && h !in a.disk.blocks && x in b.disk.blocks[h].evidence
  }

  /** Blocks are only added, and exactly the evidence they carry leaves the pool. */
  ghost predicate Drained(a: Node, b: Node) {
    && (forall h :: h in a.disk.blocks ==> h in b.disk.blocks && b.disk.blocks[h] == a.disk.blocks[h])
    && WellFormed(b.evidence)
    && forall x :: Holds(b.evidence, x) <==> Holds(a.evidence, x) && !NewlyCarried(a, b, x)
  }

  lemma DrainedSelf(a: Node, b: Node)
    requires WellFormed(a.evidence) && b.disk.blocks == a.disk.blocks && b.evidence == a.evidence
    ensures Drained(a, b)
  {
  }

  lemma DrainedTwice(a: Node, b: Node, c: Node)
    requires Drained(a, b) && Drained(b, c)
    ensures Drained(a, c)
  {
    forall x ensures NewlyCarried(a, c, x) <==> NewlyCarried(a, b, x) || NewlyCarried(b, c, x) {
      if NewlyCarried(a, b, x) {
        var h :| h in b.disk.blocks && h !in a.disk.blocks && x in b.disk.blocks[h].evidence;
        assert h in c.disk.blocks && c.disk.blocks[h] == b.disk.blocks[h];
      }
      if NewlyCarried(b, c, x) {
        var h :| h in c.disk.blocks && h !in b.disk.blocks && x in c.disk.blocks[h].evidence;
        assert h !in a.disk.blocks;
      }
    }
  }

  lemma DrainedWith(a: Node, b: Node, c: Node)
    requires Drained(a, b) && c.disk.blocks == b.disk.blocks && c.evidence == b.evidence
    ensures Drained(a, c)
  {
    forall x ensures NewlyCarried(a, c, x) <==> NewlyCarried(a, b, x) {
    }
  }

  lemma StoringDrains(a: Node, b: Node, hash: Hash, block: Block)
    requires WellFormed(a.evidence) && hash !in a.disk.blocks
    requires b.disk.blocks == a.disk.blocks[hash := block] && b.evidence == Remove(a.evidence, block.evidence)
    ensures Drained(a, b)
  {
    forall x ensures Holds(b.evidence, x) <==> Holds(a.evidence, x) && !NewlyCarried(a, b, x) {
      RemoveExact(a.evidence, block.evidence, x);
      assert hash in b.disk.blocks && b.disk.blocks[hash] == block;
      assert NewlyCarried(a, b, x) <==> x in block.evidence;
    }
    RemoveExact(a.evidence, block.evidence, Evidence(MakeVote(0, 0, 0, Notarize), MakeVote(0, 0, 0, Notarize)));
  }

  lemma ValidationDrains(env: Env, n: Node, block: Block)
    requires WellFormed(n.evidence)
    ensures var c := ValidateAndStore(env, n, block); !c.Rejected? ==> Drained(n, c.node)
  {
    hide UpdatePreferred, NodeVerdict, ParentReady, Drained, Remove;
    PreferFrame(env, n, block.justify);
    var c := ValidateAndStore(env, n, block);
    if c.Stored? && env.hash(block) !in n.disk.blocks {
      StoringDrains(n, c.node, env.hash(block), block);
    } else if !c.Rejected? {
      DrainedSelf(n, c.node);
    }
  }

  lemma SettlingDrains(env: Env, n: Node, block: Block)
    requires WellFormed(n.evidence) && ValidateAndStore(env, n, block).Stored?
    ensures Drained(n, Settled(env, n, block))
  {
    hide ValidateAndStore, FastForward, Drained;
    ValidationDrains(env, n, block);
    var n1 := ValidateAndStore(env, n, block).node;
    FastForwardFrame(env, n1, block.view);
    DrainedWith(n, n1, Settled(env, n, block));
  }

  lemma {:induction false} RespondDrains(env: Env, n: Node, block: Block)
    requires Filed(n.orphans) && WellFormed(n.evidence)
    ensures Drained(n, Respond(env, n, block).node)
    decreases |n.orphans.Keys|, 0
  {
    hide ValidateAndStore, FastForward, Drained;
    ValidationDrains(env, n, block);
    DrainedSelf(n, n);
    var c := ValidateAndStore(env, n, block);
    if c.Stored? {
      SettledFrame(env, n, block);
      SettlingDrains(env, n, block);
      var r, hash := Settled(env, n, block), env.hash(block);
      if hash in r.orphans {
        SmallerSet(n.orphans.Keys - {hash}, n.orphans.Keys);
        DrainedWith(n, r, Released(r, hash));
        DrainedFits(n, Released(r, hash));
        RespondAllDrains(env, Released(r, hash), r.orphans[hash]);
        DrainedTwice(n, Released(r, hash), RespondAll(env, Released(r, hash), r.orphans[hash]).0);
      }
    }
  }

  lemma DrainedFits(a: Node, b: Node)
    requires Drained(a, b)
    ensures WellFormed(b.evidence)
  {
  }

  lemma {:induction false} RespondAllDrains(env: Env, n: Node, blocks: seq<Block>)
    requires Filed(n.orphans) && WellFormed(n.evidence) && forall b :: b in blocks ==> ParentReady(n, b)
    ensures Drained(n, RespondAll(env, n, blocks).0)
    decreases |n.orphans.Keys|, |blocks|
  {
    hide Drained, WellFormed;
    if blocks == [] {
      DrainedSelf(n, n);
    } else {
      RespondDrains(env, n, blocks[0]);
      var first := Respond(env, n, blocks[0]);
      SubsetSize(first.node.orphans.Keys, n.orphans.Keys);
      assert forall b :: b in blocks[1..] ==> ParentReady(n, b);
      DrainedFits(n, first.node);
      RespondAllDrains(env, first.node, blocks[1..]);
      DrainedTwice(n, first.node, RespondAll(env, first.node, blocks[1..]).0);
    }
  }

  lemma ProposalDrains(env: Env, n: Node, block: Block)
    requires WellFormed(n.evidence)
    ensures Drained(n, OnProposal(env, n, block).node)
  {
    hide ValidateAndStore, FastForward, Persist, Drained;
    ValidationDrains(env, n, block);
    DrainedSelf(n, n);
    var c := ValidateAndStore(env, n, block);
    if block.view >= n.currentView && c.Stored? {
      SettlingDrains(env, n, block);
      var n1 := Settled(env, n, block);
      PersistFrame(env, n1.(lastVotedView := block.view));
      DrainedWith(n, n1, OnProposal(env, n, block).node);
    }
  }

  /** A proposal made on start takes the evidence it carries out of the pool; one chained to a new
      certificate leaves it in. */
  lemma LaunchDrains(env: Env, n: Node, offer: Offer)
    requires WellFormed(n.evidence)
    ensures WellFormed(TryPropose(env, n, offer).node.evidence)
    ensures forall x :: Holds(TryPropose(env, n, offer).node.evidence, x) <==>
      Holds(n.evidence, x) && !(exists b :: BroadcastBlock(b) in Emitted(TryPropose(env, n, offer)) && x in b.evidence)
  {
    hide Propose, WellFormed, Remove, Holds, FinalizeParent;
    var out := TryPropose(env, n, offer);
    if out.node.evidence != n.evidence || Emitted(out) != [] {
      var block := Propose(env, n, n.currentView, n.disk.qcs[n.currentView - 1], offer).value;
      NoBlocksIn(n, block.justify);
      assert Emitted(out)[0] == BroadcastBlock(block);
      assert forall b :: BroadcastBlock(b) in Emitted(out) <==> b == block;
      forall x ensures Holds(out.node.evidence, x) <==> Holds(n.evidence, x) && x !in block.evidence {
        RemoveExact(n.evidence, block.evidence, x);
      }
      RemoveExact(n.evidence, block.evidence, Evidence(MakeVote(0, 0, 0, Notarize), MakeVote(0, 0, 0, Notarize)));
    }
  }

  lemma NoBlocksIn(n: Node, qc: QuorumCertificate)
    ensures forall a :: a in FinalizeParent(n, qc) ==> !a.BroadcastBlock?
  {
  }

  // ---- Every step ----

  /** The pool after a step. */
  ghost predicate PoolStep(env: Env, n: Node, e: Event, out: Out) {
    WellFormed(out.node.evidence) &&
    match e
    case Launch(offer) => forall x :: Holds(out.node.evidence, x) <==>
                            Holds(n.evidence, x) && !(exists b :: BroadcastBlock(b) in Emitted(out) && x in b.evidence)
    case Proposal(block) => Drained(n, out.node)
    case Response(block) => Drained(n, out.node)
    case VoteIn(vote, signers, offer) => forall x :: Holds(out.node.evidence, x) <==>
                                           Holds(n.evidence, x) || (Contradicts(n, vote) && x == Pair(n, vote))
    case Gossip(evidence) => forall x :: Holds(out.node.evidence, x) <==>
                               Holds(n.evidence, x) || (x == evidence && Plausible(x))
    case Restart => forall x :: !Holds(out.node.evidence, x)
    case _ => out.node.evidence == n.evidence
  }

  lemma HandlePool(env: Env, n: Node, e: Event)
    requires Enabled(n, e) && WellFormed(n.evidence) && TablesSound(n) && Anchored(n)
    ensures PoolStep(env, n, e, Handle(env, n, e))
  {
    hide OnProposal, OnVote, Respond, Propose, TryPropose, Drained, WellFormed, Holds, Contradicts, TablesSound, Anchored;
    match e
    case Launch(offer) => LaunchDrains(env, n, offer);
    case Proposal(block) =>
      ProposalDrains(env, n, block);
      DrainedFits(n, OnProposal(env, n, block).node);
    case Response(block) =>
      RespondDrains(env, n, block);
      DrainedFits(n, Respond(env, n, block).node);
    case VoteIn(vote, signers, offer) =>
      if Contradicts(n, vote) {
        ContradictionReported(env, n, vote, signers, offer);
      } else {
        OnlyContradictionsReported(env, n, vote, signers, offer);
      }
    case Gossip(evidence) =>
      forall x ensures Holds(Add(n.evidence, evidence), x) <==> Holds(n.evidence, x) || (x == evidence && Plausible(evidence)) {
        AddExact(n.evidence, evidence, x);
      }
      AddExact(n.evidence, evidence, evidence);
    case Restart =>
      AnchoredRestarts(env, n);
      NothingHeld();
    case _ =>
  }

  lemma NothingHeld()
    ensures WellFormed(map[]) && forall x :: !Holds(map[], x)
  {
  }

  /** In every run from an empty pool: the pool holds each plausible pair once, and the last step did
      to it exactly what that step does. */
  lemma {:induction false} RunPool(env: Env, n: Node, es: seq<Event>)
    requires KeepsPositions(env) && Anchored(n) && TablesSound(n) && WellFormed(n.evidence) && Runs(env, n, es)
    ensures var now := After(env, n, es); Anchored(now) && TablesSound(now) && WellFormed(now.evidence)
    ensures es != [] ==>
      var before, e := After(env, n, es[..|es| - 1]), es[|es| - 1];
      PoolStep(env, before, e, Handle(env, before, e))
  {
    hide Handle, Anchored, TablesSound, WellFormed, KeepsPositions;
    if es != [] {
      var before, e := After(env, n, es[..|es| - 1]), es[|es| - 1];
      RunPool(env, n, es[..|es| - 1]);
      HandleAnchored(env, before, e);
      TablesStep(env, before, e);
      HandlePool(env, before, e);
    }
  }
}
