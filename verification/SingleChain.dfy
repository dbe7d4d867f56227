/** One chain across timeouts: when proposers are caught up, every proposed block descends from every
    block certified before it. */
module SingleChain {
  import opened Types
  import opened Consensus
  import opened Recovery
  import opened Discipline
  import opened Emissions
  import opened Quorums
  import opened Network
  import opened Agreement
  import opened BlockHashWalk

  /** The block's parent chain within `blocks` meets the hash in at most `k` further links. */
  ghost predicate Reach(env: Env, blocks: set<Block>, b: Block, hash: Hash, k: nat)
    decreases k
  {
    || b.parentHash == hash
    || (k > 0 && exists p :: p in blocks && env.hash(p) == b.parentHash && Reach(env, blocks, p, hash, k - 1))
  }

  ghost predicate Descends(env: Env, blocks: set<Block>, b: Block, hash: Hash) {
    exists k: nat :: Reach(env, blocks, b, hash, k)
  }

  lemma {:induction false} ReachGrows(env: Env, blocks: set<Block>, more: set<Block>, b: Block, hash: Hash, k: nat)
    requires Reach(env, blocks, b, hash, k) && blocks <= more
    ensures Reach(env, more, b, hash, k)
    decreases k
  {
    if b.parentHash != hash {
      var p :| p in blocks && env.hash(p) == b.parentHash && Reach(env, blocks, p, hash, k - 1);
      ReachGrows(env, blocks, more, p, hash, k - 1);
    }
  }

  lemma DescendsGrows(env: Env, blocks: set<Block>, more: set<Block>, b: Block, hash: Hash)
    requires Descends(env, blocks, b, hash) && blocks <= more
    ensures Descends(env, more, b, hash)
  {
    var k: nat :| Reach(env, blocks, b, hash, k);
    ReachGrows(env, blocks, more, b, hash, k);
  }

  lemma DescendsThrough(env: Env, blocks: set<Block>, b: Block, p: Block, hash: Hash)
    requires p in blocks && env.hash(p) == b.parentHash && Descends(env, blocks, p, hash)
    ensures Descends(env, blocks, b, hash)
  {
    var k: nat :| Reach(env, blocks, p, hash, k);
    assert Reach(env, blocks, b, hash, k + 1);
  }

  /** Whoever proposes in this step holds the certificates of all earlier views and prefers none of
      its own view or later. */
  ghost predicate CaughtUp(s: Setup, w: World, p: PublicKey, e: Event)
    requires p in w.nodes && Enabled(w.nodes[p], e)
  {
    var o := Handle(s.env, w.nodes[p], e);
    forall b :: b in BlocksIn(Emitted(o)) ==>
      o.node.preferredView < b.view && forall v :: 0 <= v < b.view ==> v in o.node.disk.qcs
  }

  ghost predicate CaughtUpRun(s: Setup, w: World, run: seq<Move>, end: World)
    decreases |run|
  {
    if run == [] then end == w
    else
      var last := run[|run| - 1];
      exists mid :: CaughtUpRun(s, w, run[..|run| - 1], mid) && Allowed(s, mid, last.node, last.event)
                    && CaughtUp(s, mid, last.node, last.event) && end == Step(s, mid, last.node, last.event)
  }

  /** A block of view w descends from the certified block of each view below w; dummies have none. */
  ghost predicate OnChain(s: Setup, w: World, b: Block) {
    forall v :: 0 < v < b.view ==>
      v in w.certified && (w.certified[v] != ZERO_HASH ==> Descends(s.env, w.blocks, b, w.certified[v]))
  }

  /** The block extends genesis or a broadcast block of an earlier view. */
  ghost predicate Extends(s: Setup, blocks: set<Block>, b: Block) {
    || b.parentHash == s.env.hash(GenesisBlock(s.env))
    || exists p :: p in blocks && s.env.hash(p) == b.parentHash && p.view < b.view
  }

  ghost predicate ChainInv(s: Setup, w: World) {
    forall b :: b in w.blocks ==> OnChain(s, w, b) && Extends(s, w.blocks, b)
  }

  /** A node's certificate is the network's. */
  lemma HeldIsCertified(s: Setup, w: World, p: PublicKey, v: View)
    requires SetupOk(s) && GroundInv(s, w) && OneHash(w.sent) && p in w.nodes && v in w.nodes[p].disk.qcs && v > 0
    ensures v in w.certified && w.nodes[p].disk.qcs[v].blockHash == w.certified[v]
  {
    hide SetupOk, Backed, Inv, AllJustified, Grounded, OneHash;
    HeldBacked(s, w, p, v);
    BackedUnique(s, w.sent, v, w.nodes[p].disk.qcs[v].blockHash, w.certified[v]);
  }

  lemma PreferredIsCertified(s: Setup, w: World, p: PublicKey)
    requires SetupOk(s) && GroundInv(s, w) && OneHash(w.sent) && p in w.nodes
    requires w.nodes[p].preferredView > 0 && w.nodes[p].preferredView in w.nodes[p].disk.qcs
    ensures var n := w.nodes[p];
            n.preferredView in w.certified && w.certified[n.preferredView] == n.preferredBlock != ZERO_HASH
  {
    hide SetupOk, Backed, Inv, AllJustified, Sourced, OneHash;
    var n := w.nodes[p];
    HeldIsCertified(s, w, p, n.preferredView);
    BackedUnique(s, w.sent, n.preferredView, n.preferredBlock, w.certified[n.preferredView]);
  }

  /** The view whose certified block a new proposal extends, 0 if it extends genesis; every view
      between the two ended in a dummy. */
  lemma ParentView(s: Setup, w: World, p: PublicKey, b: Block) returns (u: View)
    requires SetupOk(s) && GroundInv(s, w) && OneHash(w.sent) && p in w.nodes
    requires b.justify.view + 1 == b.view && b.parentHash == ParentFor(w.nodes[p], b.justify) && JustifyOk(s, w.sent, b.justify)
    requires w.nodes[p].preferredView < b.view && forall v :: 0 <= v < b.view ==> v in w.nodes[p].disk.qcs
    ensures u < b.view && (u > 0 ==> u in w.certified && w.certified[u] == b.parentHash != ZERO_HASH)
    ensures u == 0 ==> b.parentHash == s.env.hash(GenesisBlock(s.env))
    ensures forall v :: u < v < b.view ==> v in w.certified && w.certified[v] == ZERO_HASH
  {
    hide SetupOk, Inv, AllJustified, OneHash, Quorum, Sourced, Registered;
    var n := w.nodes[p];
    if b.justify.blockHash != ZERO_HASH {
      u := b.justify.view;
      HeldIsCertified(s, w, p, u);
      BackedUnique(s, w.sent, u, b.justify.blockHash, w.certified[u]);
    } else {
      u := n.preferredView;
      if u > 0 {
        PreferredIsCertified(s, w, p);
      }
      forall v | u < v < b.view ensures v in w.certified && w.certified[v] == ZERO_HASH {
        HeldIsCertified(s, w, p, v);
        assert Preferring(s, w.sent, n);
      }
    }
  }

  /** A proposal made by a caught-up node is on the chain. */
  lemma NewOnChain(s: Setup, w: World, p: PublicKey, e: Event, b: Block)
    requires SetupOk(s) && s.faulty == {} && GroundInv(s, w) && ChainInv(s, w) && Allowed(s, w, p, e) && CaughtUp(s, w, p, e)
    requires var w1 := Step(s, w, p, e);
             OneHash(w1.sent) && GroundInv(s, w1) && b in w1.blocks && b !in w.blocks
    ensures OnChain(s, Step(s, w, p, e), b) && Extends(s, Step(s, w, p, e).blocks, b)
  {
    hide Handle, Equivocates, StepBallots, Completes, Finalizes, VotesIn, BlocksIn, SetupOk, GroundInv, OneHash,
         Deliverable, Descends, Broadcast, Backed, JustifyOk, ParentFor;
    var w1 := Step(s, w, p, e);
    DeliveredKnown(s, w, e);
    NewBlocks(s, w, p, e, b);
    JustifyGrows(s, w.sent, w1.sent, b.justify);
    var u := ParentView(s, w1, p, b);
    if u > 0 {
      CertifiedBacked(s, w1, u);
      BackedBroadcast(s, w1, u, b.parentHash);
      var parent := Proposed(s, w1, u, b.parentHash);
      if parent !in w.blocks {
        NewBlocks(s, w, p, e, parent);
      }
      assert OnChain(s, w, parent);
      Extend(s, w, w1, parent, b);
    }
  }

  lemma CertifiedBacked(s: Setup, w: World, v: View)
    requires GroundInv(s, w) && v in w.certified
    ensures Backed(s, w.sent, v, w.certified[v])
  {
    hide Backed, Inv, AllJustified, Grounded;
  }

  lemma Proposed(s: Setup, w: World, view: View, hash: Hash) returns (b: Block)
    requires Broadcast(s, w.blocks, view, hash)
    ensures b in w.blocks && b.view == view && s.env.hash(b) == hash
  {
    b :| b in w.blocks && b.view == view && s.env.hash(b) == hash;
  }

  /** A block inherits its ancestors from its parent. */
  lemma Extend(s: Setup, w: World, w1: World, parent: Block, b: Block)
    requires OnChain(s, w, parent) && parent in w1.blocks && w.blocks <= w1.blocks && parent.view < b.view
    requires b.parentHash == s.env.hash(parent)
    requires forall v :: v in w.certified ==> v in w1.certified && w1.certified[v] == w.certified[v]
    requires parent.view in w1.certified && w1.certified[parent.view] == b.parentHash
    requires forall v :: parent.view < v < b.view ==> v in w1.certified && w1.certified[v] == ZERO_HASH
    ensures OnChain(s, w1, b)
  {
    hide Descends;
    forall v | 0 < v < b.view
      ensures v in w1.certified && (w1.certified[v] != ZERO_HASH ==> Descends(s.env, w1.blocks, b, w1.certified[v]))
    {
      if v < parent.view && w1.certified[v] != ZERO_HASH {
        DescendsGrows(s.env, w.blocks, w1.blocks, parent, w1.certified[v]);
        DescendsThrough(s.env, w1.blocks, b, parent, w1.certified[v]);
      } else if v == parent.view {
        DescendsDirectly(s.env, w1.blocks, b);
      }
    }
  }

  lemma DescendsDirectly(env: Env, blocks: set<Block>, b: Block)
    ensures Descends(env, blocks, b, b.parentHash)
  {
    assert Reach(env, blocks, b, b.parentHash, 0);
  }

  lemma OldOnChain(s: Setup, w: World, w1: World, b: Block)
    requires OnChain(s, w, b) && w.blocks <= w1.blocks
    requires forall v :: v in w.certified ==> v in w1.certified && w1.certified[v] == w.certified[v]
    ensures OnChain(s, w1, b)
  {
    hide Descends;
    forall v | 0 < v < b.view && w1.certified[v] != ZERO_HASH ensures Descends(s.env, w1.blocks, b, w1.certified[v]) {
      DescendsGrows(s.env, w.blocks, w1.blocks, b, w1.certified[v]);
    }
  }

  lemma ExtendsGrows(s: Setup, blocks: set<Block>, more: set<Block>, b: Block)
    requires Extends(s, blocks, b) && blocks <= more
    ensures Extends(s, more, b)
  {
  }

  lemma ChainStep(s: Setup, w: World, p: PublicKey, e: Event)
    requires SetupOk(s) && s.faulty == {} && GroundInv(s, w) && ChainInv(s, w) && Allowed(s, w, p, e) && CaughtUp(s, w, p, e)
    requires OneHash(Step(s, w, p, e).sent)
    ensures ChainInv(s, Step(s, w, p, e))
  {
    hide Handle, Equivocates, StepBallots, Completes, Finalizes, VotesIn, BlocksIn, SetupOk, GroundInv, OneHash,
         Deliverable, OnChain, CaughtUp, Extends;
    var w1 := Step(s, w, p, e);
    KnownIsGenuine(s, w, p, e);
    GroundInvStep(s, w, p, e);
    forall b | b in w1.blocks ensures OnChain(s, w1, b) && Extends(s, w1.blocks, b) {
      if b in w.blocks {
        OldOnChain(s, w, w1, b);
        ExtendsGrows(s, w.blocks, w1.blocks, b);
      } else {
        NewOnChain(s, w, p, e, b);
      }
    }
  }

  lemma SentGrows(s: Setup, w: World, p: PublicKey, e: Event)
    requires Allowed(s, w, p, e) && OneHash(Step(s, w, p, e).sent)
    ensures OneHash(w.sent)
  {
    hide Handle, Equivocates, StepBallots, Completes, Finalizes, VotesIn, BlocksIn, Deliverable;
  }

  lemma {:induction false} RunChain(s: Setup, w: World, run: seq<Move>, end: World)
    requires SetupOk(s) && s.faulty == {} && InitialWorld(s, w) && CaughtUpRun(s, w, run, end) && OneHash(end.sent)
    ensures GroundInv(s, end) && ChainInv(s, end)
    decreases |run|
  {
    hide Step, Handle, Equivocates, StepBallots, Deliverable, GroundInv, SetupOk, OneHash, CaughtUp;
    if run == [] {
      InitialGround(s, w);
    } else {
      var last := run[|run| - 1];
      var mid :| CaughtUpRun(s, w, run[..|run| - 1], mid) && Allowed(s, mid, last.node, last.event)
                 && CaughtUp(s, mid, last.node, last.event) && end == Step(s, mid, last.node, last.event);
      SentGrows(s, mid, last.node, last.event);
      RunChain(s, w, run[..|run| - 1], mid);
      KnownIsGenuine(s, mid, last.node, last.event);
      GroundInvStep(s, mid, last.node, last.event);
      ChainStep(s, mid, last.node, last.event);
    }
  }

  /** In such a run every block notarized by a quorum has every earlier notarized block as an
      ancestor, however many dummy views lie between. */
  lemma NotarizedBlocksFormOneChain(s: Setup, w: World, run: seq<Move>, end: World,
                                    early: View, ancestor: Hash, late: View, hash: Hash)
    requires SetupOk(s) && s.faulty == {} && InitialWorld(s, w) && CaughtUpRun(s, w, run, end) && OneHash(end.sent)
    requires 0 < early < late && ancestor != ZERO_HASH && hash != ZERO_HASH
    requires Quorum(end.sent, s.committee, s.faulty, early, ancestor) && Quorum(end.sent, s.committee, s.faulty, late, hash)
    ensures exists b :: b in end.blocks && b.view == late && s.env.hash(b) == hash
    ensures forall b :: b in end.blocks && b.view == late && s.env.hash(b) == hash ==>
              Descends(s.env, end.blocks, b, ancestor)
  {
    hide CaughtUpRun, InitialWorld, SetupOk, Quorum, GroundInv, OneHash, Descends;
    RunChain(s, w, run, end);
    BackedBroadcast(s, end, late, hash);
    forall b | b in end.blocks && b.view == late && s.env.hash(b) == hash
      ensures Descends(s.env, end.blocks, b, ancestor)
    {
      assert OnChain(s, end, b);
      CertifiedBacked(s, end, early);
      BackedUnique(s, end.sent, early, ancestor, end.certified[early]);
    }
  }

  lemma StoredViewsDescend(s: Setup, w: World, q: PublicKey)
    requires SetupOk(s) && s.faulty == {} && GroundInv(s, w) && ChainInv(s, w) && Injective(s.env.hash) && q in w.nodes
    ensures ViewsDescend(w.nodes[q].disk.blocks)
  {
    hide Inv, AllJustified, Preferring, KeepsPositions, OnChain, Registered, Quorum;
    var blocks := w.nodes[q].disk.blocks;
    forall h | h in blocks && blocks[h].parentHash in blocks ensures blocks[blocks[h].parentHash].view < blocks[h].view {
      var b := blocks[h];
      var parent := blocks[b.parentHash];
      assert s.env.hash(parent) == b.parentHash != ZERO_HASH;
      assert b in w.blocks && Extends(s, w.blocks, b);
    }
  }

  /** On such a chain the early exit of the block-hash walk loses nothing: at every node, looking up
      any view from any stored block finds what a full scan of the ancestors would. */
  lemma WalkExactOnChain(s: Setup, w: World, run: seq<Move>, end: World, q: PublicKey, hash: Hash, view: View)
    requires SetupOk(s) && s.faulty == {} && InitialWorld(s, w) && CaughtUpRun(s, w, run, end) && OneHash(end.sent)
    requires Injective(s.env.hash) && q in end.nodes
    ensures var line := Lineage(end.nodes[q].disk.blocks, hash, MAX_ANCESTORS); Search(line, view) == Scan(line, view)
  {
    hide CaughtUpRun, InitialWorld, SetupOk, GroundInv, ChainInv, OneHash, Lineage, Search, Scan;
    RunChain(s, w, run, end);
    StoredViewsDescend(s, end, q);
    LookupExactWhenDescending(end.nodes[q].disk.blocks, hash, view);
  }

  /** Safety of the chain: blocks that any two nodes finalize, in whatever views, lie on one chain. */
  lemma FinalizedBlocksFormOneChain(s: Setup, w: World, run: seq<Move>, end: World, f: Finalization, g: Finalization)
    requires SetupOk(s) && s.faulty == {} && InitialWorld(s, w) && CaughtUpRun(s, w, run, end) && OneHash(end.sent)
    requires f in end.finalized && g in end.finalized && f.view <= g.view && f.hash != ZERO_HASH && g.hash != ZERO_HASH
    ensures f.view == g.view ==> f.hash == g.hash
    ensures exists b :: b in end.blocks && b.view == g.view && s.env.hash(b) == g.hash
    ensures forall b :: b in end.blocks && b.view == g.view && s.env.hash(b) == g.hash ==>
              s.env.hash(b) == f.hash || Descends(s.env, end.blocks, b, f.hash)
  {
    hide CaughtUpRun, InitialWorld, SetupOk, Quorum, GroundInv, OneHash, Descends;
    RunChain(s, w, run, end);
    FinalizedIsBacked(s, end, f);
    FinalizedIsBacked(s, end, g);
    BackedBroadcast(s, end, g.view, g.hash);
    if f.view == g.view {
      BackedUnique(s, end.sent, f.view, f.hash, g.hash);
    } else {
      NotarizedBlocksFormOneChain(s, w, run, end, f.view, f.hash, g.view, g.hash);
    }
  }

  lemma FinalizedIsBacked(s: Setup, w: World, f: Finalization)
    requires s.faulty == {} && GroundInv(s, w) && f in w.finalized
    ensures Backed(s, w.sent, f.view, f.hash)
  {
    hide Backed, Inv, AllJustified, Grounded, Registered;
    var a :| a in f.support;
    assert Correct(s, f);
  }
}
