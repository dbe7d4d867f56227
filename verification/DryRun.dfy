/** The executor on an overlay, as the node uses it to build and to validate blocks. */
module DryRun {
  import opened Types
  import opened Vm
  import opened Consensus
  import opened Validation

  /** A record with these registry fields; the positions do not matter. */
  function RecordOf(r: Registry): ConsensusState {
    ConsensusState(0, 0, ZERO_HASH, 0, 0, r.committee, r.pending, r.exiting, r.stakes, r.scores)
  }

  /** The dry run of module Vm's executor: the parent's root, an overlay, the given gas limit. */
  function DryRunWith(m: Machine, registry: Option<Registry>, ledger: Ledger, root: Hash, limit: nat, block: Block): Option<Roots> {
    var state := if registry.Some? then Some(RecordOf(registry.value)) else None;
    var out := ExecuteBlock(m.(blockGasLimit := limit), Db(state, ledger.(root := root), true), block);
    if out.result.Ok? then Some(out.result.value) else None
  }

  /** Two overlays with the same ledger whose records differ at most in their positions. */
  ghost predicate Alike(a: Db, b: Db) {
    a.overlay && b.overlay && a.ledger == b.ledger && DiskRegistry(a.state) == DiskRegistry(b.state)
  }

  lemma RegistryFields(a: ConsensusState, b: ConsensusState)
    requires RegistryOf(a) == RegistryOf(b)
    ensures a.committee == b.committee && a.pending == b.pending && a.exiting == b.exiting && a.stakes == b.stakes && a.scores == b.scores
  {
    assert RegistryOf(a).committee == RegistryOf(b).committee && RegistryOf(a).stakes == RegistryOf(b).stakes;
  }

  lemma {:induction false} OverlaySlash(m: Machine, db: Db, evidence: seq<Evidence>)
    requires db.overlay
    ensures SlashAll(m, db, evidence) == db
    decreases |evidence|
  {
    if evidence != [] {
      OverlaySlash(m, db, evidence[1..]);
    }
  }

  lemma AlikeDispatch(m: Machine, a: Db, b: Db, tx: Transaction, view: View)
    requires Alike(a, b)
    ensures var ra, rb := Dispatch(m, a, tx, view), Dispatch(m, b, tx, view);
            Alike(ra, rb) && ra.state == a.state && rb.state == b.state
  {
    hide Wrap256, Basic, Credited;
    if a.state.Some? {
      RegistryFields(a.state.value, b.state.value);
    }
  }

  lemma AlikeCalls(m: Machine, a: Db, b: Db, tx: Transaction, view: View)
    requires Alike(a, b)
    ensures var ra, rb := SystemCall(m, a, tx, view), SystemCall(m, b, tx, view);
            && (ra.Ok? <==> rb.Ok?) && (ra.Err? && rb.Err? ==> ra.error == rb.error)
            && (ra.Ok? ==> Alike(ra.value, rb.value) && ra.value.state == a.state && rb.value.state == b.state)
  {
    hide Dispatch, Wrap256, Basic, DiskRegistry;
    AlikeDispatch(m, a, b, tx, view);
  }

  ghost predicate AlikeProgress(p: Progress, q: Progress) {
    Alike(p.db, q.db) && p.receipts == q.receipts && p.gasUsed == q.gasUsed && p.error == q.error
  }

  lemma AlikeWrites(m: Machine, a: Db, b: Db, writes: seq<AccountWrite>)
    requires Alike(a, b)
    ensures Alike(CommitWrites(m, a, writes), CommitWrites(m, b, writes))
    decreases |writes|
  {
    if writes != [] {
      var a1, b1 := CommitAccount(m, a, writes[0].address, writes[0].info), CommitAccount(m, b, writes[0].address, writes[0].info);
      AlikeWrites(m, a1.(ledger := CommitSlots(a1.ledger, writes[0].address, writes[0].slots)),
                  b1.(ledger := CommitSlots(b1.ledger, writes[0].address, writes[0].slots)), writes[1..]);
    }
  }

  lemma {:induction false} AlikePayloads(m: Machine, p: Progress, q: Progress, block: Block, txs: seq<Transaction>)
    requires AlikeProgress(p, q)
    ensures AlikeProgress(RunPayload(m, p, block, txs), RunPayload(m, q, block, txs))
    ensures RunPayload(m, p, block, txs).db.state == p.db.state
    decreases |txs|
  {
    hide SystemCall, CommitWrites, Alike;
    if txs != [] && p.error.None? {
      AlikeLedgers(p.db, q.db);
      AlikeCalls(m, p.db, q.db, txs[0], block.view);
      var out := m.evm(p.db.ledger, txs[0], block.baseFeePerGas);
      if out.EvmDone? {
        AlikeWrites(m, p.db, q.db, out.writes);
        WritesKeepRecord(m, p.db, out.writes);
      }
      AlikePayloads(m, RunTx(m, p, block, txs[0]), RunTx(m, q, block, txs[0]), block, txs[1..]);
    }
  }

  lemma AlikeLedgers(a: Db, b: Db)
    requires Alike(a, b)
    ensures a.ledger == b.ledger
  {
  }

  /** On an overlay execution leaves the record alone, and its result depends on the record's
      registry only. */
  lemma OverlayExecution(m: Machine, a: Db, b: Db, block: Block)
    requires Alike(a, b)
    ensures ExecuteBlock(m, a, block).db.state == a.state
    ensures ExecuteBlock(m, a, block).result == ExecuteBlock(m, b, block).result
  {
    hide RunPayload, GasLimitError;
    OverlaySlash(m, a, block.evidence);
    OverlaySlash(m, b, block.evidence);
    hide SlashAll;
    AlikePayloads(m, Progress(a, [], 0, None), Progress(b, [], 0, None), block, block.payload);
  }

  /** So the dry run a node makes, whatever the positions in its record, is the one its registry
      determines: a node may stand anywhere and still reach the same verdict. */
  lemma DryRunSeesRegistryOnly(m: Machine, state: Option<ConsensusState>, ledger: Ledger, root: Hash, limit: nat, block: Block)
    ensures var out := ExecuteBlock(m.(blockGasLimit := limit), Db(state, ledger.(root := root), true), block);
            DryRunWith(m, DiskRegistry(state), ledger, root, limit, block) == if out.result.Ok? then Some(out.result.value) else None
    ensures ExecuteBlock(m.(blockGasLimit := limit), Db(state, ledger.(root := root), true), block).db.state == state
  {
    hide ExecuteBlock;
    var registry := DiskRegistry(state);
    var record := if registry.Some? then Some(RecordOf(registry.value)) else None;
    OverlayExecution(m.(blockGasLimit := limit), Db(state, ledger.(root := root), true), Db(record, ledger.(root := root), true), block);
  }

  /** A node whose dry runs are the modelled executor's. */
  ghost predicate DryRunsWith(env: Env, m: Machine) {
    forall r, ledger, root, limit, block :: env.dryRun(r, ledger, root, limit, block) == DryRunWith(m, r, ledger, root, limit, block)
  }

  /** What such a node proposes is what it accepts: re-executing its own block on the same state gives
      the roots the block carries, so with a verifying certificate the block is stored. */
  lemma OwnProposalReexecutes(env: Env, m: Machine, n: Node, view: View, qc: QuorumCertificate, offer: Offer)
    requires DryRunsWith(env, m) && Propose(env, n, view, qc, offer).Some?
    ensures var block := Propose(env, n, view, qc, offer).value;
            Reexecutes(env, n, block) && (Certified(qc) ==> ValidateAndStore(env, n, block).Stored?)
  {
    hide ExecuteBlock;
    var block := Propose(env, n, view, qc, offer).value;
    var parent := ParentFor(n, qc);
    var p := n.disk.blocks[parent];
    var draft := Draft(env, n, view, qc, parent, NextFee(n, p), offer);
    RootsUnread(m.(blockGasLimit := n.blockGasLimit),
                Db(AsRecord(DiskRegistry(n.disk.state)), n.disk.ledger.(root := ParentRoot(n, parent)), true), draft, block.(gasUsed := 0));
    if env.hash(block) !in n.disk.blocks {
      StoredIff(env, n, block);
    }
  }

  function AsRecord(registry: Option<Registry>): Option<ConsensusState> {
    if registry.Some? then Some(RecordOf(registry.value)) else None
  }

  function NextFee(n: Node, parent: Block): nat
    requires FeeDefined(n.blockGasLimit, parent)
  {
    BaseFee.NextBaseFee(n.blockGasLimit, parent.baseFeePerGas, parent.gasUsed)
  }

  /** Execution does not read the roots and the gas a block claims. */
  lemma RootsUnread(m: Machine, db: Db, a: Block, b: Block)
    requires b == a.(stateRoot := b.stateRoot, receiptsRoot := b.receiptsRoot, gasUsed := b.gasUsed)
    ensures ExecuteBlock(m, db, a).result == ExecuteBlock(m, db, b).result
  {
    hide SlashAll, GasLimitError, Queues;
    PayloadRootsUnread(m, Progress(AfterSlashing(m, db, a), [], 0, None), a, b, a.payload);
  }

  lemma {:induction false} PayloadRootsUnread(m: Machine, p: Progress, a: Block, b: Block, txs: seq<Transaction>)
    requires b == a.(stateRoot := b.stateRoot, receiptsRoot := b.receiptsRoot, gasUsed := b.gasUsed)
    ensures RunPayload(m, p, a, txs) == RunPayload(m, p, b, txs)
    decreases |txs|
  {
    if txs != [] && p.error.None? {
      assert RunTx(m, p, a, txs[0]) == RunTx(m, p, b, txs[0]);
      PayloadRootsUnread(m, RunTx(m, p, a, txs[0]), a, b, txs[1..]);
    }
  }
}
