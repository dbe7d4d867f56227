/** What a node proposes: on which parent, at which fee, with which contents, and that a chain of its
    own proposals is one the fee theorems are about. */
module Building {
  import opened Types
  import opened Collections
  import opened EvidencePoolModel
  import opened BaseFee
  import opened Selection
  import opened Vm
  import opened Consensus
  import opened DryRun

  /** A certificate for a dummy is extended through the preferred block. */
  function ExtendedBlock(n: Node, qc: QuorumCertificate): Hash {
    if qc.blockHash != ZERO_HASH then qc.blockHash else n.preferredBlock
  }

  /** The block before execution: built by this node in the view, on the block its certificate leads
      to, at the fee that follows from that block, with the offered payload and no roots yet. */
  ghost predicate Unexecuted(env: Env, n: Node, view: View, qc: QuorumCertificate, offer: Offer, b: Block) {
    && b.author == n.me && b.view == view && b.justify == qc && !b.isDummy
    && b.parentHash == ExtendedBlock(n, qc) && b.parentHash in n.disk.blocks
    && b.payload == offer.payload && b.committeeHash == env.committeeHash(n.committee)
    && b.evidence == GetAll(n.evidence, offer.evidenceOrder)
    && b.stateRoot == ZERO_HASH && b.receiptsRoot == ZERO_HASH && b.gasUsed == 0
    && var parent := n.disk.blocks[b.parentHash];
       && (n.blockGasLimit / 2 > 0 || parent.gasUsed == n.blockGasLimit / 2)
       && b.baseFeePerGas == NextBaseFee(n.blockGasLimit, parent.baseFeePerGas, parent.gasUsed)
  }

  /** The database of a dry run from the parent's root. */
  function TrialDb(n: Node, parent: Hash): Db
    requires parent in n.disk.blocks
  {
    Db(AsRecord(DiskRegistry(n.disk.state)),
       n.disk.ledger.(root := if parent == ZERO_HASH then ZERO_HASH else n.disk.blocks[parent].stateRoot), true)
  }

  /** A node proposes exactly when the block it extends is stored, the fee is defined and the block
      executes on top of it; then the proposal is that block with the roots and the gas it came to. */
  lemma ProposesIff(env: Env, m: Machine, n: Node, view: View, qc: QuorumCertificate, offer: Offer, b: Block)
    requires DryRunsWith(env, m) && Unexecuted(env, n, view, qc, offer, b)
    ensures var out := ExecuteBlock(m.(blockGasLimit := n.blockGasLimit), TrialDb(n, b.parentHash), b).result;
            Propose(env, n, view, qc, offer) ==
              if out.Ok? then Some(b.(stateRoot := out.value.stateRoot, receiptsRoot := out.value.receiptsRoot, gasUsed := out.value.gasUsed))
              else None
  {
    hide ExecuteBlock, NextBaseFee;
    var parent := n.disk.blocks[b.parentHash];
    assert b == Draft(env, n, view, qc, b.parentHash, b.baseFeePerGas, offer);
  }

  lemma ProposalIsDrafted(env: Env, n: Node, view: View, qc: QuorumCertificate, offer: Offer)
    ensures Propose(env, n, view, qc, offer).Some? ==> exists b :: Unexecuted(env, n, view, qc, offer, b)
  {
    if Propose(env, n, view, qc, offer).Some? {
      var parent := n.disk.blocks[ParentFor(n, qc)];
      var b := Draft(env, n, view, qc, ParentFor(n, qc), NextFee(n, parent), offer);
      assert Unexecuted(env, n, view, qc, offer, b);
    }
  }

  /** What a successful proposal is: built on the stored block its certificate leads to, with the
      offered payload, the node's committee, exactly the evidence the pool holds, the fee of the
      plain formula, and the gas its execution takes. */
  lemma ProposalIsBuiltOnParent(env: Env, m: Machine, n: Node, view: View, qc: QuorumCertificate, offer: Offer, pool: seq<Transaction>)
    requires DryRunsWith(env, m) && m.blockGasLimit == n.blockGasLimit && Propose(env, n, view, qc, offer).Some?
    requires WellFormed(n.evidence) && Elements(offer.evidenceOrder) == n.evidence.Keys
    requires offer.payload == Select(pool, n.blockGasLimit, Propose(env, n, view, qc, offer).value.baseFeePerGas)
    ensures var block := Propose(env, n, view, qc, offer).value;
            && block.parentHash == ExtendedBlock(n, qc) && block.parentHash in n.disk.blocks && !block.isDummy
            && block.committeeHash == env.committeeHash(n.committee) && block.payload == offer.payload
            && (forall e :: e in block.evidence <==> Holds(n.evidence, e))
            && var parent := n.disk.blocks[block.parentHash];
               && BuiltOn(m, parent, block)
               && (EvenLimit(n.blockGasLimit) && parent.gasUsed <= n.blockGasLimit && NoOverflow(n.blockGasLimit, parent.baseFeePerGas) ==>
                     block.baseFeePerGas == PlainFee(n.blockGasLimit, parent.baseFeePerGas, parent.gasUsed))
  {
    hide ExecuteBlock, NextBaseFee, Select, NoOverflow, PlainFee;
    ProposalIsDrafted(env, n, view, qc, offer);
    var b :| Unexecuted(env, n, view, qc, offer, b);
    ProposesIff(env, m, n, view, qc, offer, b);
    var block := Propose(env, n, view, qc, offer).value;
    var limit, parent := n.blockGasLimit, n.disk.blocks[b.parentHash];
    assert m == m.(blockGasLimit := limit);
    RootsUnread(m, TrialDb(n, b.parentHash), b, block);
    assert ExecutesTo(m, TrialDb(n, b.parentHash), block);
    forall e ensures e in block.evidence <==> Holds(n.evidence, e) {
      GetAllHolds(n.evidence, offer.evidenceOrder, e);
    }
    if EvenLimit(limit) && parent.gasUsed <= limit && NoOverflow(limit, parent.baseFeePerGas) {
      PlainFormula(limit, parent.baseFeePerGas, parent.gasUsed);
    }
  }

  // ---- Chains of own proposals ----

  /** One proposal: the node as it was, what it was asked for, and the pool it selected from. */
  datatype Turn = Turn(node: Node, view: View, qc: QuorumCertificate, offer: Offer, pool: seq<Transaction>)

  /** The turn produces the block, on the given parent. */
  ghost predicate Produces(env: Env, m: Machine, t: Turn, parent: Block, block: Block) {
    && t.node.blockGasLimit == m.blockGasLimit
    && WellFormed(t.node.evidence) && Elements(t.offer.evidenceOrder) == t.node.evidence.Keys
    && Propose(env, t.node, t.view, t.qc, t.offer) == Some(block)
    && t.offer.payload == Select(t.pool, t.node.blockGasLimit, block.baseFeePerGas)
    && t.node.disk.blocks[block.parentHash] == parent
  }

  /** Each block after genesis is the proposal of a node of this program on the block before it. */
  ghost predicate ProposedChain(env: Env, m: Machine, turns: seq<Turn>, chain: seq<Block>) {
    && |chain| == |turns| + 1 && chain[0] == GenesisBlock(env)
    && forall i :: 0 < i < |chain| ==> Produces(env, m, turns[i - 1], chain[i - 1], chain[i])
  }

  lemma ProducedIsBuilt(env: Env, m: Machine, t: Turn, parent: Block, block: Block)
    requires DryRunsWith(env, m) && Produces(env, m, t, parent, block)
    ensures BuiltOn(m, parent, block)
  {
    hide ExecuteBlock, NextBaseFee, Select, Propose;
    ProposalIsBuiltOnParent(env, m, t.node, t.view, t.qc, t.offer, t.pool);
  }

  ghost predicate Priced(limit: nat, parent: Block, child: Block) {
    && limit >= 2 && child.gasUsed <= limit && child.baseFeePerGas >= 7
    && child.baseFeePerGas == PlainFee(limit, parent.baseFeePerGas, parent.gasUsed)
  }

  /** A chain of proposals from genesis, by any nodes with this gas limit, is a chain of the fee
      theorems: gas stays within the limit, every fee is the plain formula on the block before, and none is
      below 7. */
  lemma ProposedChainIsLocal(env: Env, m: Machine, turns: seq<Turn>, chain: seq<Block>)
    requires DryRunsWith(env, m) && ProposedChain(env, m, turns, chain)
    requires forall i :: 0 <= i < |chain| ==> NoOverflow(m.blockGasLimit, chain[i].baseFeePerGas)
    ensures LocalChain(m, chain)
    ensures GasWithinLimit(m) && EvenLimit(m.blockGasLimit) ==>
      forall i :: 0 < i < |chain| ==> Priced(m.blockGasLimit, chain[i - 1], chain[i])
  {
    hide NoOverflow, Produces, BuiltOn, PlainFee, NextBaseFee;
    forall i | 0 < i < |chain| ensures BuiltOn(m, chain[i - 1], chain[i]) {
      ProducedIsBuilt(env, m, turns[i - 1], chain[i - 1], chain[i]);
    }
    if GasWithinLimit(m) && EvenLimit(m.blockGasLimit) {
      forall i | 0 < i < |chain| ensures Priced(m.blockGasLimit, chain[i - 1], chain[i]) {
        ChainFees(m, chain, i);
        ChainFees(m, chain, i - 1);
        BuiltFee(m, chain[i - 1], chain[i]);
      }
    }
  }

  lemma BuiltFee(m: Machine, parent: Block, child: Block)
    requires BuiltOn(m, parent, child) && EvenLimit(m.blockGasLimit)
    requires parent.gasUsed <= m.blockGasLimit && NoOverflow(m.blockGasLimit, parent.baseFeePerGas)
    ensures child.baseFeePerGas == PlainFee(m.blockGasLimit, parent.baseFeePerGas, parent.gasUsed)
  {
    hide NextBaseFee, PlainFee, Select, ExecutesTo;
    PlainFormula(m.blockGasLimit, parent.baseFeePerGas, parent.gasUsed);
  }
}
