/** The early exit of the block-hash walk can miss: validation never compares a block's view with its
    parent's, so a store in which views rise towards the ancestors is reachable. */
module RisingViews {
  import opened Types
  import opened Vm
  import opened Consensus
  import opened Frames
  import opened Discipline
  import opened DryRun
  import opened BlockHashWalk
  import opened Finality

  /** The modelled executor's dry run of an empty block gives back the parent's root. */
  lemma EmptyRoots(m: Machine, registry: Option<Registry>, ledger: Ledger, root: Hash, limit: nat, block: Block)
    requires block.payload == [] && block.evidence == []
    ensures DryRunWith(m, registry, ledger, root, limit, block) == Some(Roots(root, ZERO_HASH, 0))
  {
  }

  /** An empty block on a parent, whatever the view. */
  function Empty(env: Env, committee: seq<PublicKey>, view: View, parent: Hash, justify: QuorumCertificate): Block {
    Block(0, view, parent, justify, ZERO_HASH, ZERO_HASH, [], false, 0, 0, [], env.committeeHash(committee))
  }

  lemma EmptyStored(env: Env, m: Machine, n: Node, view: View, parent: Hash, justify: QuorumCertificate)
    requires DryRunsWith(env, m) && n.orphans == map[] && QcVerifies(justify)
    requires parent in n.disk.blocks && n.disk.blocks[parent].stateRoot == ZERO_HASH
    requires env.hash(Empty(env, n.committee, view, parent, justify)) !in n.disk.blocks
    ensures var b := Empty(env, n.committee, view, parent, justify);
            var out := Respond(env, n, b).node;
            && out.disk.blocks == n.disk.blocks[env.hash(b) := b] && out.committee == n.committee && out.orphans == map[]
            && (justify.blockHash == ZERO_HASH ==> out.preferredBlock == n.preferredBlock && out.preferredView == n.preferredView)
            && (justify.blockHash != ZERO_HASH && justify.view >= n.preferredView ==> out.preferredBlock == justify.blockHash)
  {
    var b := Empty(env, n.committee, view, parent, justify);
    EmptyRoots(m, DiskRegistry(n.disk.state), n.disk.ledger, ParentRoot(n, parent), n.blockGasLimit, b.(gasUsed := 0));
    hide DryRunWith;
    assert NodeVerdict(env, n, b) == None;
    hide NodeVerdict, Persist, FastForward;
    StoreFrame(env, n, b);
    PersistFrame(env, n.(preferredView := justify.view, preferredBlock := justify.blockHash));
    FastForwardFrame(env, ValidateAndStore(env, n, b).node, view);
  }

  /** Three synced blocks on a fresh node: the middle one has a smaller view than its parent and a
      one-signer certificate makes it the preferred block. */
  lemma LookupMissesAncestor(env: Env, m: Machine, me: PublicKey, committee: seq<PublicKey>, ledger: Ledger, limit: nat)
    returns (es: seq<Event>, ancestor: Hash)
    requires DryRunsWith(env, m) && Injective(env.hash) && NonzeroHashes(env)
    ensures var n := Start(env, me, committee, Disk(map[], map[], None, ledger), limit);
            && Runs(env, n, es)
            && var out := After(env, n, es);
               && ancestor != ZERO_HASH && ancestor in out.disk.blocks && out.disk.blocks[ancestor].view == 5
               && out.preferredBlock in out.disk.blocks && out.disk.blocks[out.preferredBlock].parentHash == ancestor
               && Search(Lineage(out.disk.blocks, out.preferredBlock, MAX_ANCESTORS), 5) == ZERO_HASH
               && Scan(Lineage(out.disk.blocks, out.preferredBlock, MAX_ANCESTORS), 5) == ancestor
  {
    var n := Start(env, me, committee, Disk(map[], map[], None, ledger), limit);
    var genesis := env.hash(GenesisBlock(env));
    var a := Empty(env, committee, 5, genesis, GENESIS_QC);
    var b := Empty(env, committee, 3, env.hash(a), GENESIS_QC);
    var c := Empty(env, committee, 6, env.hash(b), OneSigner(1, 3, env.hash(b)));
    AllDistinct(env, a, b, c);
    EmptyStored(env, m, n, 5, genesis, GENESIS_QC);
    var n1 := Respond(env, n, a).node;
    EmptyStored(env, m, n1, 3, env.hash(a), GENESIS_QC);
    var n2 := Respond(env, n1, b).node;
    assert AllSigned([1], env.hash(b)) == Sign(1, env.hash(b)) + AllSigned([], env.hash(b));
    EmptyStored(env, m, n2, 6, env.hash(b), OneSigner(1, 3, env.hash(b)));
    hide Start, Respond, Empty, DryRunsWith;
    es := [Response(a), Response(b), Response(c)];
    ancestor := env.hash(a);
    ThreeSteps(env, n, a, b, c);
    Misses(After(env, n, es).disk.blocks, env.hash(b), ancestor);
  }

  lemma AllDistinct(env: Env, a: Block, b: Block, c: Block)
    requires Injective(env.hash) && a.view == 5 && b.view == 3 && c.view == 6
    ensures env.hash(a) != env.hash(b) && env.hash(a) != env.hash(c) && env.hash(b) != env.hash(c)
    ensures env.hash(GenesisBlock(env)) != env.hash(a) && env.hash(GenesisBlock(env)) != env.hash(b)
    ensures env.hash(GenesisBlock(env)) != env.hash(c)
  {
  }

  lemma ThreeSteps(env: Env, n: Node, a: Block, b: Block, c: Block)
    requires Filed(n.orphans)
    ensures var es := [Response(a), Response(b), Response(c)];
            var n1 := Respond(env, n, a).node;
            Runs(env, n, es) && After(env, n, es) == Respond(env, Respond(env, n1, b).node, c).node
  {
    hide Respond, Runs, After;
    assert [] + [Response(a)] == [Response(a)] && [Response(a)] + [Response(b)] == [Response(a), Response(b)];
    assert [Response(a), Response(b)] + [Response(c)] == [Response(a), Response(b), Response(c)];
    NoEvents(env, n);
    OneMore(env, n, [], a);
    OneMore(env, n, [Response(a)], b);
    OneMore(env, n, [Response(a), Response(b)], c);
  }

  lemma NoEvents(env: Env, n: Node)
    ensures Runs(env, n, []) && After(env, n, []) == n
  {
  }

  lemma OneMore(env: Env, n: Node, es: seq<Event>, block: Block)
    requires Runs(env, n, es) && Filed(After(env, n, es).orphans)
    ensures Runs(env, n, es + [Response(block)])
    ensures After(env, n, es + [Response(block)]) == Respond(env, After(env, n, es), block).node
  {
    hide Respond;
    var more := es + [Response(block)];
    assert more[..|more| - 1] == es && more[|more| - 1] == Response(block);
  }

  /** The walk stops at the smaller view, one step before the ancestor it looks for. */
  lemma Misses(blocks: map<Hash, Block>, hash: Hash, ancestor: Hash)
    requires hash in blocks && hash != ZERO_HASH && blocks[hash].view == 3 && blocks[hash].parentHash == ancestor
    requires ancestor in blocks && ancestor != ZERO_HASH && blocks[ancestor].view == 5
    ensures var line := Lineage(blocks, hash, MAX_ANCESTORS);
            Search(line, 5) == ZERO_HASH && Scan(line, 5) == ancestor
  {
    var line, rest := Lineage(blocks, hash, MAX_ANCESTORS), Lineage(blocks, ancestor, MAX_ANCESTORS - 1);
    assert line == [Link(hash, 3)] + rest && line[1..] == rest;
    assert rest[0] == Link(ancestor, 5);
  }
}
