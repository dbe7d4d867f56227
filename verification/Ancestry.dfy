/** The block store in every run: keyed by hash, closed under parents and free of cycles. */
module Ancestry {
  import opened Types
  import opened Collections
  import opened Consensus
  import opened Frames
  import opened Recovery
  import opened Discipline
  import opened BlockSync

  type BlockMap = map<Hash, Block>

  /** Each block's number of steps to a block without parent. */
  ghost predicate Depths(blocks: BlockMap, depth: map<Hash, nat>) {
    && depth.Keys == blocks.Keys
    && forall h :: h in blocks ==> DepthAt(blocks, depth, h, blocks[h].parentHash)
  }

  ghost predicate Rooted(blocks: BlockMap) {
    exists depth :: Depths(blocks, depth)
  }

  /** One block's entry is right: zero depth without parent, else one more than its parent. */
  ghost predicate DepthAt(blocks: BlockMap, depth: map<Hash, nat>, h: Hash, parent: Hash)
    requires h in depth && depth.Keys == blocks.Keys
  {
    if parent == ZERO_HASH then depth[h] == 0 else parent in blocks && depth[h] == depth[parent] + 1
  }

  lemma InsertRooted(blocks: BlockMap, hash: Hash, block: Block)
    requires Rooted(blocks) && hash !in blocks
    requires block.parentHash == ZERO_HASH || block.parentHash in blocks
    ensures Rooted(blocks[hash := block])
  {
    var depth :| Depths(blocks, depth);
    var parent := block.parentHash;
    var d := if parent == ZERO_HASH then 0 else depth[parent] + 1;
    InsertDepths(blocks, depth, hash, block, d);
    assert Depths(blocks[hash := block], depth[hash := d]);
  }

  lemma InsertDepths(blocks: BlockMap, depth: map<Hash, nat>, hash: Hash, block: Block, d: nat)
    requires Depths(blocks, depth) && hash !in blocks
    requires if block.parentHash == ZERO_HASH then d == 0
             else block.parentHash in blocks && d == depth[block.parentHash] + 1
    ensures Depths(blocks[hash := block], depth[hash := d])
  {
    var depth1 := depth[hash := d];
    assert forall h :: h in blocks ==> blocks[h].parentHash != hash || hash == ZERO_HASH;
    assert forall h :: h in blocks ==> depth1[h] == depth[h];
  }

  ghost predicate StoreOk(env: Env, n: Node) {
    WellKeyed(env, n) && Rooted(n.disk.blocks)
  }

  lemma SaveOk(env: Env, n: Node, block: Block)
    requires Injective(env.hash) && StoreOk(env, n)
    requires block.parentHash == ZERO_HASH || block.parentHash in n.disk.blocks
    ensures StoreOk(env, SaveBlock(env, n, block))
  {
    hide Rooted;
    if env.hash(block) in n.disk.blocks {
      assert n.disk.blocks[env.hash(block)] == block;
      assert n.disk.blocks[env.hash(block) := block] == n.disk.blocks;
    } else {
      InsertRooted(n.disk.blocks, env.hash(block), block);
    }
  }

  lemma SettledOk(env: Env, n: Node, block: Block)
    requires Injective(env.hash) && StoreOk(env, n) && ValidateAndStore(env, n, block).Stored?
    ensures StoreOk(env, Settled(env, n, block))
  {
    hide Rooted, NodeVerdict, UpdatePreferred, FastForward;
    SettledFrame(env, n, block);
    if env.hash(block) !in n.disk.blocks {
      SaveOk(env, n, block);
    }
  }

  lemma {:induction false} RespondOk(env: Env, n: Node, block: Block)
    requires Injective(env.hash) && Filed(n.orphans) && StoreOk(env, n)
    ensures StoreOk(env, Respond(env, n, block).node)
    decreases |n.orphans.Keys|, 0
  {
    hide ValidateAndStore, FastForward, Rooted;
    StoreFrame(env, n, block);
    if ValidateAndStore(env, n, block).Stored? {
      SettledFrame(env, n, block);
      SettledOk(env, n, block);
      var r, hash := Settled(env, n, block), env.hash(block);
      if hash in r.orphans {
        SmallerSet(n.orphans.Keys - {hash}, n.orphans.Keys);
        RespondAllOk(env, Released(r, hash), r.orphans[hash]);
      }
    }
  }

  lemma {:induction false} RespondAllOk(env: Env, n: Node, blocks: seq<Block>)
    requires Injective(env.hash) && Filed(n.orphans) && forall b :: b in blocks ==> ParentReady(n, b)
    requires StoreOk(env, n)
    ensures StoreOk(env, RespondAll(env, n, blocks).0)
    decreases |n.orphans.Keys|, |blocks|
  {
    hide Rooted;
    if blocks != [] {
      RespondOk(env, n, blocks[0]);
      var first := Respond(env, n, blocks[0]);
      SubsetSize(first.node.orphans.Keys, n.orphans.Keys);
      assert forall b :: b in blocks[1..] ==> ParentReady(n, b);
      RespondAllOk(env, first.node, blocks[1..]);
    }
  }

  lemma ProposalOk(env: Env, n: Node, block: Block)
    requires Injective(env.hash) && StoreOk(env, n)
    ensures StoreOk(env, OnProposal(env, n, block).node)
  {
    hide ValidateAndStore, FastForward, Persist, Rooted;
    StoreFrame(env, n, block);
    var c := ValidateAndStore(env, n, block);
    if c.Stored? {
      SettledFrame(env, n, block);
      SettledOk(env, n, block);
      PersistFrame(env, Settled(env, n, block).(lastVotedView := block.view));
    }
  }

  lemma VoteOk(env: Env, n: Node, vote: Vote, signers: seq<PublicKey>, offer: Offer)
    requires Injective(env.hash) && Enabled(n, VoteIn(vote, signers, offer)) && StoreOk(env, n)
    ensures StoreOk(env, OnVote(env, n, vote, signers, offer).node)
  {
    hide OnFinalizeVote, Completes, Conflicts, Rooted, NewQc, ChainedProposal, Propose;
    if Verify(vote.author, vote.blockHash, vote.signature) && vote.voteType == Finalize {
      FinalizeFrame(env, n, vote);
    } else if Completes(n, vote) {
      assert forall a :: a in signers ==> a in Elements(signers);
      var qc := QcFrom(FiledVotes(n, vote), vote, signers);
      var n0 := n.(votes := n.votes[vote.view := FiledVotes(n, vote)]);
      NewQcFrame(env, n0, qc);
      var n1 := NewQc(env, n0, qc);
      assert StoreOk(env, n1);
      ChainedOk(env, n1, qc, offer);
    }
  }

  lemma ChainedOk(env: Env, n: Node, qc: QuorumCertificate, offer: Offer)
    requires Injective(env.hash) && StoreOk(env, n)
    ensures StoreOk(env, ChainedProposal(env, n, qc, offer).0)
  {
    hide Rooted, ChainedProposal, Propose;
    ChainedFrame(env, n, qc, offer);
    var p := Propose(env, n, qc.view + 1, qc, offer);
    if p.Some? {
      SaveOk(env, n, p.value);
    }
  }

  /** Every handler keeps the store keyed, parent-closed and acyclic. */
  lemma HandleOk(env: Env, n: Node, e: Event)
    requires Injective(env.hash) && Enabled(n, e) && Anchored(n) && StoreOk(env, n)
    ensures StoreOk(env, Handle(env, n, e).node)
  {
    hide OnProposal, OnVote, Respond, Propose, Rooted;
    match e
    case Launch(offer) =>
      if n.currentView > 0 && n.currentView - 1 in n.disk.qcs {
        var p := Propose(env, n, n.currentView, n.disk.qcs[n.currentView - 1], offer);
        if p.Some? {
          SaveOk(env, n, p.value);
        }
      }
    case Proposal(block) => ProposalOk(env, n, block);
    case VoteIn(vote, signers, offer) => VoteOk(env, n, vote, signers, offer);
    case Response(block) => RespondOk(env, n, block);
    case Restart => AnchoredRestarts(env, n);
    case _ =>
  }

  /** In every run from an empty disk the store is keyed by hash, closed under parents, and every
      block has a finite depth. */
  lemma {:induction false} StoreInvariant(env: Env, me: PublicKey, committee: seq<PublicKey>, ledger: Ledger, limit: nat,
                                          es: seq<Event>)
    requires Injective(env.hash) && KeepsPositions(env)
    requires var n := Start(env, me, committee, Disk(map[], map[], None, ledger), limit);
             Runs(env, n, es)
    ensures StoreOk(env, After(env, Start(env, me, committee, Disk(map[], map[], None, ledger), limit), es))
  {
    hide Handle, KeepsPositions, Rooted, Anchored;
    var n := Start(env, me, committee, Disk(map[], map[], None, ledger), limit);
    FreshSynced(env, me, committee, Disk(map[], map[], None, ledger), limit);
    if es == [] {
      GenesisOk(env, n);
    } else {
      var init := es[..|es| - 1];
      StoreInvariant(env, me, committee, ledger, limit, init);
      RunAnchored(env, n, init);
      HandleOk(env, After(env, n, init), es[|es| - 1]);
    }
  }

  lemma GenesisOk(env: Env, n: Node)
    requires n.disk.blocks == map[env.hash(GenesisBlock(env)) := GenesisBlock(env)]
    ensures StoreOk(env, n)
  {
    assert Depths(n.disk.blocks, map[env.hash(GenesisBlock(env)) := 0]);
  }

  // ---- Serving blocks ----

  /** A node serves a block exactly when it stores one under the hash asked for, and what it serves
      hashes to what was asked. A node that can store the answer has then filled the gap: nothing it
      buffers waits for that hash any more. */
  lemma RequestFillsGap(env: Env, server: Node, hash: Hash, peer: string, asker: Node)
    requires StoreOk(env, server) && Filed(asker.orphans)
    ensures Emitted(OnBlockRequest(server, hash, peer)) == [] <==> hash !in server.disk.blocks
    ensures hash in server.disk.blocks ==>
              var b := server.disk.blocks[hash];
              && Emitted(OnBlockRequest(server, hash, peer)) == [SendBlock(b, peer)] && env.hash(b) == hash
              && (ValidateAndStore(env, asker, b).Stored? ==>
                  var out := Respond(env, asker, b).node; hash in out.disk.blocks && hash !in out.orphans)
  {
    hide Rooted, NodeVerdict, UpdatePreferred, FastForward;
    if hash in server.disk.blocks {
      var b := server.disk.blocks[hash];
      RespondDrains(env, asker, b);
      if ValidateAndStore(env, asker, b).Stored? {
        StoredStays(env, asker, b);
      }
    }
  }

  lemma StoredStays(env: Env, n: Node, block: Block)
    requires Filed(n.orphans) && ValidateAndStore(env, n, block).Stored?
    ensures env.hash(block) in Respond(env, n, block).node.disk.blocks
  {
    hide NodeVerdict, UpdatePreferred, FastForward;
    var r, hash := Settled(env, n, block), env.hash(block);
    if hash in r.orphans {
      SmallerSet(n.orphans.Keys - {hash}, n.orphans.Keys);
      assert Grows(Released(r, hash), RespondAll(env, Released(r, hash), r.orphans[hash]).0);
    }
  }

  /** So in every run from an empty disk what a node serves is what was asked for. */
  lemma ServedAsAsked(env: Env, me: PublicKey, committee: seq<PublicKey>, ledger: Ledger, limit: nat, es: seq<Event>,
                      hash: Hash, peer: string, b: Block)
    requires Injective(env.hash) && KeepsPositions(env)
    requires var n := Start(env, me, committee, Disk(map[], map[], None, ledger), limit);
             Runs(env, n, es) && SendBlock(b, peer) in Emitted(OnBlockRequest(After(env, n, es), hash, peer))
    ensures env.hash(b) == hash
  {
    hide Start, After, Runs, KeepsPositions, Rooted;
    StoreInvariant(env, me, committee, ledger, limit, es);
  }

  // ---- Walks ----

  /** The hash reached from `hash` after `k` steps to the parent. */
  function ParentAfter(blocks: BlockMap, hash: Hash, k: nat): Hash {
    if k == 0 then hash
    else
      var below := ParentAfter(blocks, hash, k - 1);
      if below in blocks then blocks[below].parentHash else ZERO_HASH
  }

  lemma {:induction false} WalkDescends(blocks: BlockMap, depth: map<Hash, nat>, hash: Hash, k: nat)
    requires Depths(blocks, depth) && hash in blocks && k <= depth[hash]
    ensures ParentAfter(blocks, hash, k) in blocks && depth[ParentAfter(blocks, hash, k)] == depth[hash] - k
  {
    if k > 0 {
      WalkDescends(blocks, depth, hash, k - 1);
    }
  }

  /** The walk from `hash` stays in the store for `d` steps and then reaches the zero hash. */
  ghost predicate EndsAfter(blocks: BlockMap, hash: Hash, d: nat) {
    && ParentAfter(blocks, hash, d + 1) == ZERO_HASH
    && forall k: nat :: k <= d ==> ParentAfter(blocks, hash, k) in blocks
  }

  /** Every walk to the parents of a stored block ends. */
  lemma WalkEnds(blocks: BlockMap, hash: Hash)
    requires Rooted(blocks) && hash in blocks
    ensures exists d: nat :: EndsAfter(blocks, hash, d)
  {
    var depth :| Depths(blocks, depth);
    var d := depth[hash];
    forall k: nat | k <= d ensures ParentAfter(blocks, hash, k) in blocks {
      WalkDescends(blocks, depth, hash, k);
    }
    WalkDescends(blocks, depth, hash, d);
    assert EndsAfter(blocks, hash, d);
  }
}
