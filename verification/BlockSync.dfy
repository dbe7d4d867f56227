/** Block synchronisation: the cascade through the orphan buffer drains it, and the blocks stored
    after any deliveries are exactly the least set that the deliveries justify. */
module BlockSync {
  import opened Types
  import opened Collections
  import opened Consensus
  import opened Frames

  /** Every stored block sits under its own hash. */
  ghost predicate WellKeyed(env: Env, n: Node) {
    forall h :: h in n.disk.blocks ==> env.hash(n.disk.blocks[h]) == h
  }

  /** Parents that buffered blocks wait for although nothing is missing. */
  ghost function Stuck(n: Node): set<Hash> {
    set h | h in n.orphans && (h == ZERO_HASH || h in n.disk.blocks)
  }

  ghost predicate Buffered(n: Node, block: Block) {
    block.parentHash in n.orphans && block in n.orphans[block.parentHash]
  }

  // ---- Draining ----

  lemma ReleaseUnsticks(n: Node, r: Node, hash: Hash)
    requires r.orphans == n.orphans && forall h :: h in r.disk.blocks ==> h in n.disk.blocks || h == hash
    ensures Stuck(Released(r, hash)) <= Stuck(n)
    ensures hash !in r.orphans ==> Stuck(r) <= Stuck(n)
  {
  }

  lemma BufferUnstuck(n: Node, block: Block)
    requires !ParentReady(n, block)
    ensures Stuck(Buffer(n, block)) <= Stuck(n)
  {
  }

  lemma {:induction false} RespondKeepsUnstuck(env: Env, n: Node, block: Block)
    requires Filed(n.orphans)
    ensures Stuck(Respond(env, n, block).node) <= Stuck(n)
    decreases |n.orphans.Keys|, 0
  {
    hide NodeVerdict, UpdatePreferred, FastForward, Stuck;
    var c := ValidateAndStore(env, n, block);
    if c.Orphaned? {
      BufferUnstuck(n, block);
    } else if c.Stored? {
      SettledFrame(env, n, block);
      var r, hash := Settled(env, n, block), env.hash(block);
      ReleaseUnsticks(n, r, hash);
      if hash in r.orphans {
        SmallerSet(n.orphans.Keys - {hash}, n.orphans.Keys);
        RespondAllDrains(env, Released(r, hash), r.orphans[hash]);
      }
    }
  }

  lemma RespondReleases(env: Env, n: Node, block: Block)
    requires Filed(n.orphans) && ValidateAndStore(env, n, block).Stored?
    ensures env.hash(block) !in Respond(env, n, block).node.orphans
  {
    hide ValidateAndStore, FastForward;
  }

  /** The cascade drains: on return no buffered block waits for the delivered block or for any
      block stored during the call, and no new wait is without cause. */
  lemma RespondDrains(env: Env, n: Node, block: Block)
    requires Filed(n.orphans)
    ensures var out := Respond(env, n, block).node;
            && Stuck(out) <= Stuck(n)
            && (forall h :: h in out.disk.blocks && h !in n.disk.blocks && h != ZERO_HASH ==> h !in out.orphans)
            && (ValidateAndStore(env, n, block).Stored? ==> env.hash(block) !in out.orphans)
  {
    hide ValidateAndStore, Respond;
    RespondKeepsUnstuck(env, n, block);
    if ValidateAndStore(env, n, block).Stored? {
      RespondReleases(env, n, block);
    }
    var out := Respond(env, n, block).node;
    forall h | h in out.disk.blocks && h !in n.disk.blocks && h != ZERO_HASH ensures h !in out.orphans {
      assert h !in Stuck(n);
    }
  }

  lemma {:induction false} RespondAllDrains(env: Env, n: Node, blocks: seq<Block>)
    requires Filed(n.orphans) && forall b :: b in blocks ==> ParentReady(n, b)
    ensures Stuck(RespondAll(env, n, blocks).0) <= Stuck(n)
    ensures RespondAll(env, n, blocks).0.orphans.Keys <= n.orphans.Keys
    decreases |n.orphans.Keys|, |blocks|
  {
    if blocks != [] {
      RespondKeepsUnstuck(env, n, blocks[0]);
      var first := Respond(env, n, blocks[0]);
      SubsetSize(first.node.orphans.Keys, n.orphans.Keys);
      assert forall b :: b in blocks[1..] ==> ParentReady(n, b);
      RespondAllDrains(env, first.node, blocks[1..]);
    }
  }

  // ---- Acceptable blocks ----

  /** What the verdict on a block depends on besides the block: unchanged by syncing. */
  datatype Context = Context(committee: seq<PublicKey>, registry: Option<Registry>, ledger: Ledger, limit: nat)

  ghost function ContextOf(n: Node): Context {
    Context(n.committee, DiskRegistry(n.disk.state), n.disk.ledger, n.blockGasLimit)
  }

  ghost predicate AcceptableOn(env: Env, c: Context, root: Hash, block: Block) {
    Verdict(env, c.committee, c.registry, c.ledger, root, c.limit, block) == None
  }

  ghost predicate Acceptable(env: Env, c: Context, block: Block) {
    if block.parentHash == ZERO_HASH then AcceptableOn(env, c, ZERO_HASH, block)
    else exists p :: env.hash(p) == block.parentHash && AcceptableOn(env, c, p.stateRoot, block)
  }

  /** Acceptability is a fixed property of the block: the parent is known by its hash. */
  lemma VerdictFixed(env: Env, n: Node, block: Block)
    requires Injective(env.hash) && WellKeyed(env, n) && ParentReady(n, block)
    ensures NodeVerdict(env, n, block) == None <==> Acceptable(env, ContextOf(n), block)
  {
    hide Verdict;
    if block.parentHash != ZERO_HASH {
      var p := n.disk.blocks[block.parentHash];
      assert env.hash(p) == block.parentHash;
      if Acceptable(env, ContextOf(n), block) {
        var q :| env.hash(q) == block.parentHash && AcceptableOn(env, ContextOf(n), q.stateRoot, block);
        assert q == p;
      }
    }
  }

  /** A block that needs nothing more: stored with nothing waiting for it, waiting itself for a missing
      parent, or refused. */
  ghost predicate Handled(env: Env, n: Node, c: Context, block: Block) {
    || (env.hash(block) in n.disk.blocks && env.hash(block) !in n.orphans)
    || (!ParentReady(n, block) && Buffered(n, block))
    || (ParentReady(n, block) && !Acceptable(env, c, block) && env.hash(block) !in n.disk.blocks)
  }

  ghost predicate SyncReady(env: Env, n: Node, c: Context) {
    && Injective(env.hash) && Filed(n.orphans) && WellKeyed(env, n) && Synced(n) && ContextOf(n) == c
    && ZERO_HASH !in n.orphans
  }

  function MapAt(orphans: map<Hash, seq<Block>>, hash: Hash): seq<Block> {
    if hash in orphans then orphans[hash] else []
  }

  /** Storing a block and opening the list that waits for it. */
  lemma OpenReady(env: Env, n: Node, c: Context, block: Block)
    requires SyncReady(env, n, c) && ValidateAndStore(env, n, block).Stored?
    ensures var r, list := Released(Settled(env, n, block), env.hash(block)), MapAt(n.orphans, env.hash(block));
            && SyncReady(env, r, c) && Handled(env, r, c, block)
            && (forall x :: Handled(env, n, c, x) ==> Handled(env, r, c, x) || x in list)
            && (forall x :: Buffered(n, x) ==> Buffered(r, x) || x in list)
            && (forall x :: x in list ==> ParentReady(r, x))
  {
    hide ValidateAndStore, Acceptable, Settled, Handled;
    SettledFrame(env, n, block);
    var hash := env.hash(block);
    var r := Released(Settled(env, n, block), hash);
    if hash !in n.disk.blocks {
      NewIsAcceptable(env, n, c, block);
    }
    StoredAwake(env, r, c, block);
    forall x | Handled(env, n, c, x) ensures Handled(env, r, c, x) || x in MapAt(n.orphans, hash) {
      OpenHandles(env, n, c, r, block, x);
    }
  }

  lemma StoredAwake(env: Env, n: Node, c: Context, block: Block)
    requires env.hash(block) in n.disk.blocks && env.hash(block) !in n.orphans
    ensures Handled(env, n, c, block)
  {
  }

  lemma OpenHandles(env: Env, n: Node, c: Context, r: Node, block: Block, x: Block)
    requires Injective(env.hash) && (env.hash(block) in n.disk.blocks || Acceptable(env, c, block))
    requires r.orphans == n.orphans - {env.hash(block)}
    requires forall h :: h in r.disk.blocks <==> h in n.disk.blocks || h == env.hash(block)
    requires Handled(env, n, c, x)
    ensures Handled(env, r, c, x) || x in MapAt(n.orphans, env.hash(block))
  {
    hide Acceptable;
    assert env.hash(x) == env.hash(block) ==> x == block;
  }

  /** A block that is newly stored was acceptable. */
  lemma NewIsAcceptable(env: Env, n: Node, c: Context, block: Block)
    requires SyncReady(env, n, c) && ValidateAndStore(env, n, block).Stored? && env.hash(block) !in n.disk.blocks
    ensures ParentReady(n, block) && Acceptable(env, c, block)
  {
    hide Acceptable, NodeVerdict, UpdatePreferred;
    VerdictFixed(env, n, block);
  }

  lemma BufferReady(env: Env, n: Node, c: Context, block: Block)
    requires SyncReady(env, n, c) && ValidateAndStore(env, n, block).Orphaned?
    ensures SyncReady(env, Buffer(n, block), c) && Handled(env, Buffer(n, block), c, block)
    ensures forall x :: Handled(env, n, c, x) ==> Handled(env, Buffer(n, block), c, x)
    ensures forall x :: Buffered(n, x) ==> Buffered(Buffer(n, block), x)
  {
    hide Acceptable, NodeVerdict, UpdatePreferred;
  }

  /** Syncing a block takes care of it, undoes nobody else's handling, and loses no buffered block. */
  lemma {:induction false} RespondHandles(env: Env, n: Node, c: Context, block: Block)
    requires SyncReady(env, n, c)
    ensures var out := Respond(env, n, block).node;
            && SyncReady(env, out, c) && Handled(env, out, c, block)
            && (forall x :: Handled(env, n, c, x) ==> Handled(env, out, c, x))
            && (forall x :: Buffered(n, x) ==> Buffered(out, x) || Handled(env, out, c, x))
    decreases |n.orphans.Keys|, 0
  {
    hide Acceptable, NodeVerdict, FastForward, UpdatePreferred, Handled, SyncReady, Buffered;
    FiledOf(env, n, c);
    var check, hash := ValidateAndStore(env, n, block), env.hash(block);
    match check
    case Rejected(e) => RejectedHandled(env, n, c, block);
    case Orphaned(n1) => BufferReady(env, n, c, block);
    case Stored(n1) =>
      SettledFrame(env, n, block);
      var r := Settled(env, n, block);
      OpenReady(env, n, c, block);
      if hash in r.orphans {
        SmallerSet(n.orphans.Keys - {hash}, n.orphans.Keys);
        FiledOf(env, Released(r, hash), c);
        RespondAllHandles(env, Released(r, hash), c, r.orphans[hash]);
      } else {
        assert r.orphans - {hash} == r.orphans;
        assert Released(r, hash) == r;
      }
  }

  lemma RejectedHandled(env: Env, n: Node, c: Context, block: Block)
    requires SyncReady(env, n, c) && ValidateAndStore(env, n, block).Rejected?
    ensures Handled(env, n, c, block)
  {
    hide Acceptable, NodeVerdict, UpdatePreferred;
    VerdictFixed(env, n, block);
  }

  lemma {:induction false} RespondAllHandles(env: Env, n: Node, c: Context, blocks: seq<Block>)
    requires SyncReady(env, n, c) && Filed(n.orphans) && forall b :: b in blocks ==> ParentReady(n, b)
    ensures var out := RespondAll(env, n, blocks).0;
            && SyncReady(env, out, c)
            && (forall x :: Handled(env, n, c, x) || x in blocks ==> Handled(env, out, c, x))
            && (forall x :: Buffered(n, x) ==> Buffered(out, x) || Handled(env, out, c, x))
    decreases |n.orphans.Keys|, |blocks|
  {
    hide Handled, Buffered;
    if blocks != [] {
      RespondHandles(env, n, c, blocks[0]);
      var first := Respond(env, n, blocks[0]);
      SubsetSize(first.node.orphans.Keys, n.orphans.Keys);
      assert forall b :: b in blocks[1..] ==> ParentReady(n, b);
      RespondAllHandles(env, first.node, c, blocks[1..]);
      assert forall x :: x in blocks ==> x == blocks[0] || x in blocks[1..];
    }
  }

  lemma FiledOf(env: Env, n: Node, c: Context)
    requires SyncReady(env, n, c)
    ensures Filed(n.orphans)
  {
  }

  // ---- Nothing unjustified is stored ----

  /** A block that the deliveries bring to be processed: delivered itself, or buffered under a parent
      that gets stored, or under a stuck parent that is awoken. */
  ghost predicate Live(start: Node, delivered: seq<Block>, hashes: set<Hash>, awake: set<Hash>, x: Block) {
    || x in delivered
    || (Buffered(start, x) && (x.parentHash in awake || (x.parentHash in hashes && x.parentHash !in Stuck(start))))
  }

  /** Sets of stored hashes and of awoken parents that are closed: a live acceptable block with a
      stored or zero parent is stored, and a live block that is stored already awakes what is stuck
      behind it. */
  ghost predicate Closed(env: Env, c: Context, start: Node, delivered: seq<Block>, hashes: set<Hash>, awake: set<Hash>) {
    && start.disk.blocks.Keys <= hashes
    && (forall x :: Live(start, delivered, hashes, awake, x) && Acceptable(env, c, x) && (x.parentHash == ZERO_HASH || x.parentHash in hashes) ==>
          env.hash(x) in hashes)
    && (forall x :: Live(start, delivered, hashes, awake, x) && env.hash(x) in Stuck(start) ==> env.hash(x) in awake)
  }

  ghost predicate Within(n: Node, start: Node, delivered: seq<Block>, hashes: set<Hash>, awake: set<Hash>) {
    && n.disk.blocks.Keys <= hashes
    && (forall h :: h in Stuck(start) && h !in n.orphans ==> h in awake)
    && (forall x :: Buffered(n, x) ==> x in delivered || Buffered(start, x))
  }

  lemma StoreWithin(env: Env, n: Node, c: Context, start: Node, delivered: seq<Block>, hashes: set<Hash>, awake: set<Hash>, block: Block)
    requires SyncReady(env, n, c) && Closed(env, c, start, delivered, hashes, awake) && Within(n, start, delivered, hashes, awake)
    requires Live(start, delivered, hashes, awake, block)
    ensures var check := ValidateAndStore(env, n, block);
            && (check.Orphaned? ==> Within(check.node, start, delivered, hashes, awake))
            && (check.Stored? ==>
                var r := Released(Settled(env, n, block), env.hash(block));
                && Within(r, start, delivered, hashes, awake)
                && forall x :: x in MapAt(n.orphans, env.hash(block)) ==> Live(start, delivered, hashes, awake, x))
  {
    hide Acceptable, NodeVerdict, UpdatePreferred, FastForward, Stuck;
    var check, hash := ValidateAndStore(env, n, block), env.hash(block);
    if check.Stored? {
      SettledFrame(env, n, block);
      if hash !in n.disk.blocks {
        NewIsAcceptable(env, n, c, block);
      }
      var r := Released(Settled(env, n, block), hash);
      forall x | Buffered(r, x) ensures x in delivered || Buffered(start, x) {
        assert Buffered(n, x);
      }
      forall x | x in MapAt(n.orphans, hash) ensures Live(start, delivered, hashes, awake, x) {
        assert Buffered(n, x) && x.parentHash == hash;
      }
    } else if check.Orphaned? {
      forall x | Buffered(check.node, x) ensures x in delivered || Buffered(start, x) {
        assert x == block || Buffered(n, x);
      }
    }
  }

  lemma {:induction false} RespondWithin(env: Env, n: Node, c: Context, start: Node, delivered: seq<Block>,
                                         hashes: set<Hash>, awake: set<Hash>, block: Block)
    requires SyncReady(env, n, c) && Closed(env, c, start, delivered, hashes, awake) && Within(n, start, delivered, hashes, awake)
    requires Live(start, delivered, hashes, awake, block)
    ensures Within(Respond(env, n, block).node, start, delivered, hashes, awake)
    decreases |n.orphans.Keys|, 0
  {
    hide Acceptable, NodeVerdict, FastForward, UpdatePreferred, Closed, SyncReady, Live, Within;
    FiledOf(env, n, c);
    StoreWithin(env, n, c, start, delivered, hashes, awake, block);
    var check, hash := ValidateAndStore(env, n, block), env.hash(block);
    if check.Stored? {
      SettledFrame(env, n, block);
      OpenReady(env, n, c, block);
      var r := Settled(env, n, block);
      if hash in r.orphans {
        SmallerSet(n.orphans.Keys - {hash}, n.orphans.Keys);
        FiledOf(env, Released(r, hash), c);
        RespondAllWithin(env, Released(r, hash), c, start, delivered, hashes, awake, r.orphans[hash]);
      } else {
        assert r.orphans - {hash} == r.orphans;
        assert Released(r, hash) == r;
      }
    }
  }

  lemma {:induction false} RespondAllWithin(env: Env, n: Node, c: Context, start: Node, delivered: seq<Block>,
                                            hashes: set<Hash>, awake: set<Hash>, blocks: seq<Block>)
    requires SyncReady(env, n, c) && Filed(n.orphans) && forall b :: b in blocks ==> ParentReady(n, b)
    requires Closed(env, c, start, delivered, hashes, awake) && Within(n, start, delivered, hashes, awake)
    requires forall b :: b in blocks ==> Live(start, delivered, hashes, awake, b)
    ensures Within(RespondAll(env, n, blocks).0, start, delivered, hashes, awake)
    decreases |n.orphans.Keys|, |blocks|
  {
    hide Closed, Within, Live, Handled, Buffered;
    if blocks != [] {
      RespondWithin(env, n, c, start, delivered, hashes, awake, blocks[0]);
      RespondHandles(env, n, c, blocks[0]);
      var first := Respond(env, n, blocks[0]);
      SubsetSize(first.node.orphans.Keys, n.orphans.Keys);
      assert forall b :: b in blocks[1..] ==> ParentReady(n, b);
      RespondAllWithin(env, first.node, c, start, delivered, hashes, awake, blocks[1..]);
    }
  }

  // ---- Confluence ----

  ghost function Deliver(env: Env, n: Node, blocks: seq<Block>): (r: Node)
    requires Filed(n.orphans)
    ensures Filed(r.orphans) && Grows(n, r)
  {
    if blocks == [] then n
    else Respond(env, Deliver(env, n, blocks[..|blocks| - 1]), blocks[|blocks| - 1]).node
  }

  lemma {:induction false} DeliverHandles(env: Env, n: Node, c: Context, blocks: seq<Block>)
    requires SyncReady(env, n, c) && Filed(n.orphans)
    ensures var out := Deliver(env, n, blocks);
            && SyncReady(env, out, c)
            && (forall x :: x in blocks || Handled(env, n, c, x) ==> Handled(env, out, c, x))
            && (forall x :: Buffered(n, x) ==> Buffered(out, x) || Handled(env, out, c, x))
  {
    hide Handled, Buffered, SyncReady;
    if blocks != [] {
      var init, last := blocks[..|blocks| - 1], blocks[|blocks| - 1];
      DeliverHandles(env, n, c, init);
      RespondHandles(env, Deliver(env, n, init), c, last);
      assert forall x :: x in blocks ==> x == last || x in init;
    }
  }

  /** A delivered block that was stored before has awoken what waited for it. */
  lemma {:induction false} DeliverAwakes(env: Env, n: Node, blocks: seq<Block>)
    requires Filed(n.orphans)
    ensures Stuck(Deliver(env, n, blocks)) <= Stuck(n)
    ensures forall x :: x in blocks && env.hash(x) in n.disk.blocks ==> env.hash(x) !in Deliver(env, n, blocks).orphans
  {
    hide Respond, ValidateAndStore;
    if blocks != [] {
      var init, last := blocks[..|blocks| - 1], blocks[|blocks| - 1];
      var mid, out := Deliver(env, n, init), Deliver(env, n, blocks);
      DeliverAwakes(env, n, init);
      RespondKeepsUnstuck(env, mid, last);
      forall x | x in blocks && env.hash(x) in n.disk.blocks ensures env.hash(x) !in out.orphans {
        assert env.hash(x) in mid.disk.blocks && env.hash(x) in out.disk.blocks;
        if x == last {
          KnownIsStored(env, mid, last);
          RespondReleases(env, mid, last);
        } else {
          assert x in init;
          assert env.hash(x) !in Stuck(mid);
        }
      }
    }
  }

  lemma KnownIsStored(env: Env, n: Node, block: Block)
    requires env.hash(block) in n.disk.blocks
    ensures ValidateAndStore(env, n, block).Stored?
  {
  }

  lemma {:induction false} DeliverWithin(env: Env, n: Node, c: Context, blocks: seq<Block>, all: seq<Block>, hashes: set<Hash>, awake: set<Hash>)
    requires SyncReady(env, n, c) && Filed(n.orphans) && Closed(env, c, n, all, hashes, awake)
    requires forall x :: x in blocks ==> x in all
    ensures Within(Deliver(env, n, blocks), n, all, hashes, awake)
  {
    hide Handled, Acceptable, SyncReady;
    if blocks != [] {
      var init := blocks[..|blocks| - 1];
      DeliverWithin(env, n, c, init, all, hashes, awake);
      DeliverHandles(env, n, c, init);
      RespondWithin(env, Deliver(env, n, init), c, n, all, hashes, awake, blocks[|blocks| - 1]);
    }
  }

  /** The stuck parents that the deliveries awoke. */
  ghost function Awoken(n: Node, out: Node): set<Hash> {
    set h | h in Stuck(n) && h !in out.orphans
  }

  lemma LiveIsHandled(env: Env, n: Node, c: Context, blocks: seq<Block>, x: Block)
    requires SyncReady(env, n, c) && Filed(n.orphans)
    requires var out := Deliver(env, n, blocks); Live(n, blocks, out.disk.blocks.Keys, Awoken(n, out), x)
    ensures Handled(env, Deliver(env, n, blocks), c, x)
  {
    hide Acceptable, Deliver;
    DeliverHandles(env, n, c, blocks);
    if x !in blocks && x.parentHash !in Stuck(n) {
      assert Handled(env, n, c, x);
    }
  }

  /** After any deliveries to any node, the stored hashes and the awoken parents are the least sets
      that contain the initial store and are closed under processing what the deliveries bring. */
  lemma SyncIsLeastClosure(env: Env, n: Node, blocks: seq<Block>)
    requires Injective(env.hash) && Filed(n.orphans) && WellKeyed(env, n) && Synced(n) && ZERO_HASH !in n.orphans
    ensures var out := Deliver(env, n, blocks);
            Closed(env, ContextOf(n), n, blocks, out.disk.blocks.Keys, Awoken(n, out))
    ensures forall hashes, awake :: Closed(env, ContextOf(n), n, blocks, hashes, awake) ==>
              var out := Deliver(env, n, blocks); out.disk.blocks.Keys <= hashes && Awoken(n, out) <= awake
  {
    hide Acceptable;
    var c, out := ContextOf(n), Deliver(env, n, blocks);
    OutIsClosed(env, n, blocks);
    forall hashes, awake | Closed(env, c, n, blocks, hashes, awake) ensures out.disk.blocks.Keys <= hashes && Awoken(n, out) <= awake {
      DeliverWithin(env, n, c, blocks, blocks, hashes, awake);
    }
  }

  lemma OutIsClosed(env: Env, n: Node, blocks: seq<Block>)
    requires SyncReady(env, n, ContextOf(n)) && Filed(n.orphans)
    ensures var out := Deliver(env, n, blocks);
            Closed(env, ContextOf(n), n, blocks, out.disk.blocks.Keys, Awoken(n, out))
  {
    hide Acceptable, Deliver;
    var c, out := ContextOf(n), Deliver(env, n, blocks);
    DeliverAwakes(env, n, blocks);
    forall x | Live(n, blocks, out.disk.blocks.Keys, Awoken(n, out), x)
      ensures Handled(env, out, c, x)
    {
      LiveIsHandled(env, n, c, blocks, x);
    }
  }

  /** No block is ever buffered under the zero hash. */
  lemma RespondNeverAwaitsZero(env: Env, n: Node, block: Block)
    requires Filed(n.orphans) && ZERO_HASH !in n.orphans
    ensures ZERO_HASH !in Respond(env, n, block).node.orphans
  {
    hide NodeVerdict, UpdatePreferred, FastForward;
    if ValidateAndStore(env, n, block).Stored? {
      var r, hash := Settled(env, n, block), env.hash(block);
      if hash in r.orphans {
        SmallerSet(n.orphans.Keys - {hash}, n.orphans.Keys);
        assert RespondAll(env, Released(r, hash), r.orphans[hash]).0.orphans.Keys <= Released(r, hash).orphans.Keys;
      }
    }
  }

  /** So the store depends only on which blocks were delivered, not on their order or number. */
  lemma DeliveryOrderIrrelevant(env: Env, n: Node, a: seq<Block>, b: seq<Block>)
    requires Injective(env.hash) && Filed(n.orphans) && WellKeyed(env, n) && Synced(n) && ZERO_HASH !in n.orphans
    requires forall x :: x in a <==> x in b
    ensures Deliver(env, n, a).disk.blocks == Deliver(env, n, b).disk.blocks
    ensures Awoken(n, Deliver(env, n, a)) == Awoken(n, Deliver(env, n, b))
  {
    hide Acceptable, Handled, Deliver, Stuck;
    var c, na, nb := ContextOf(n), Deliver(env, n, a), Deliver(env, n, b);
    SyncIsLeastClosure(env, n, a);
    SyncIsLeastClosure(env, n, b);
    SameDeliveries(env, c, n, a, b, nb.disk.blocks.Keys, Awoken(n, nb));
    SameDeliveries(env, c, n, b, a, na.disk.blocks.Keys, Awoken(n, na));
    DeliverHandles(env, n, c, a);
    DeliverHandles(env, n, c, b);
    SameKeysSameBlocks(env, na, nb);
  }

  lemma SameDeliveries(env: Env, c: Context, n: Node, a: seq<Block>, b: seq<Block>, hashes: set<Hash>, awake: set<Hash>)
    requires Closed(env, c, n, b, hashes, awake) && forall x :: x in a <==> x in b
    ensures Closed(env, c, n, a, hashes, awake)
  {
    hide Acceptable, Stuck, Buffered;
    assert forall x :: Live(n, a, hashes, awake, x) <==> Live(n, b, hashes, awake, x);
  }

  lemma SameKeysSameBlocks(env: Env, a: Node, b: Node)
    requires Injective(env.hash) && WellKeyed(env, a) && WellKeyed(env, b) && a.disk.blocks.Keys == b.disk.blocks.Keys
    ensures a.disk.blocks == b.disk.blocks
  {
    forall h | h in a.disk.blocks ensures h in b.disk.blocks && a.disk.blocks[h] == b.disk.blocks[h] {
      assert h in b.disk.blocks.Keys;
    }
  }
}
