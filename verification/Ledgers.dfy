/** What the blocks a node commits make of its disk: in step with the executor's own account of
    them, exactly as long as no failing block costs a member its seat. */
module Ledgers {
  import opened Types
  import opened Collections
  import opened Vm
  import opened Consensus
  import opened Frames
  import opened Recovery
  import opened CommitSync
  import Lifecycle
  import DryRun
  import Discipline
  import Funds

  // ---- Execution does not see the node's positions ----

  /** The record moved to the positions of another. */
  function Moved(db: Db, to: ConsensusState): Db {
    if db.state.None? then db
    else db.(state := Some(db.state.value.(
      view := to.view, finalizedHeight := to.finalizedHeight, preferredBlock := to.preferredBlock,
      preferredView := to.preferredView, lastVotedView := to.lastVotedView)))
  }

  lemma {:induction false} SlashMoved(m: Machine, db: Db, evidence: seq<Evidence>, to: ConsensusState)
    ensures SlashAll(m, Moved(db, to), evidence) == Moved(SlashAll(m, db, evidence), to)
    decreases |evidence|
  {
    hide Deduct, RemovePending, RemoveFirst, AcceptedEvidence;
    if evidence != [] {
      assert Slash(m, Moved(db, to), evidence[0]) == Moved(Slash(m, db, evidence[0]), to);
      SlashMoved(m, Slash(m, db, evidence[0]), evidence[1..], to);
    }
  }

  lemma LivenessMoved(m: Machine, db: Db, block: Block, to: ConsensusState)
    ensures Liveness(m, Moved(db, to), block) == Moved(Liveness(m, db, block), to)
  {
    hide Deduct, RemoveFirst;
  }

  lemma DispatchMoved(m: Machine, db: Db, tx: Transaction, view: View, to: ConsensusState)
    ensures Dispatch(m, Moved(db, to), tx, view) == Moved(Dispatch(m, db, tx, view), to)
  {
    hide Wrap256, Basic, Credited, HasKey, Selector;
  }

  lemma CallMoved(m: Machine, db: Db, tx: Transaction, view: View, to: ConsensusState)
    ensures var a, b := SystemCall(m, Moved(db, to), tx, view), SystemCall(m, db, tx, view);
            a == if b.Ok? then Ok(Moved(b.value, to)) else b
  {
    hide Dispatch, Wrap256, Basic, Paid;
    DispatchMoved(m, db, tx, view, to);
  }

  lemma {:induction false} WritesMoved(m: Machine, db: Db, writes: seq<AccountWrite>, to: ConsensusState)
    ensures CommitWrites(m, Moved(db, to), writes) == Moved(CommitWrites(m, db, writes), to)
    decreases |writes|
  {
    if writes != [] {
      var db1 := CommitAccount(m, db, writes[0].address, writes[0].info);
      WritesMoved(m, db1.(ledger := CommitSlots(db1.ledger, writes[0].address, writes[0].slots)), writes[1..], to);
    }
  }

  lemma {:induction false} PayloadMoved(m: Machine, p: Progress, block: Block, txs: seq<Transaction>, to: ConsensusState)
    ensures RunPayload(m, p.(db := Moved(p.db, to)), block, txs)
         == RunPayload(m, p, block, txs).(db := Moved(RunPayload(m, p, block, txs).db, to))
    decreases |txs|
  {
    hide SystemCall, CommitWrites;
    if txs != [] && p.error.None? {
      var q := p.(db := Moved(p.db, to));
      CallMoved(m, p.db, txs[0], block.view, to);
      var out := m.evm(p.db.ledger, txs[0], block.baseFeePerGas);
      if out.EvmDone? {
        WritesMoved(m, p.db, out.writes, to);
      }
      var p1 := RunTx(m, p, block, txs[0]);
      assert RunTx(m, q, block, txs[0]) == p1.(db := Moved(p1.db, to));
      PayloadMoved(m, p1, block, txs[1..], to);
    }
  }

  lemma QueuesMoved(db: Db, view: View, to: ConsensusState)
    ensures Queues(Moved(db, to), view) == Moved(Queues(db, view), to)
  {
    hide Admit, Dismiss, Due, NotDue;
  }

  /** A block does the same to a record wherever the node stands. */
  lemma ExecutionMoved(m: Machine, db: Db, block: Block, to: ConsensusState)
    ensures var a, b := ExecuteBlock(m, Moved(db, to), block), ExecuteBlock(m, db, block);
            a.result == b.result && a.db == Moved(b.db, to)
  {
    hide SlashAll, Liveness, RunPayload, Queues, GasLimitError, Moved;
    SlashMoved(m, db, block.evidence, to);
    LivenessMoved(m, SlashAll(m, db, block.evidence), block, to);
    var start := Progress(AfterSlashing(m, db, block), [], 0, None);
    PayloadMoved(m, start, block, block.payload, to);
    QueuesMoved(RunPayload(m, start, block, block.payload).db, block.view, to);
    MovedLedger(Queues(RunPayload(m, start, block, block.payload).db, block.view), to);
  }

  lemma MovedLedger(db: Db, to: ConsensusState)
    ensures Moved(db, to).ledger == db.ledger
  {
  }

  // ---- One step ----

  /** The database on a node's disk. */
  function DiskDb(n: Node): Db {
    Db(n.disk.state, n.disk.ledger, false)
  }

  /** After a finalize vote that commits a block, record and ledger on disk are what executing it
      leaves of the raised record and the old ledger, also when the block fails; the node takes the
      new committee if it succeeds. No other step touches the ledger. */
  lemma StepLedger(env: Env, m: Machine, n: Node, e: Event)
    requires CommitsWith(env, m) && Enabled(n, e) && n.disk.state.Some?
    ensures var out := Handle(env, n, e).node;
            if Commits(n, e) then
              var done := ExecuteBlock(m, CommitDb(env, n, e.vote), n.disk.blocks[e.vote.blockHash]);
              && DiskDb(out) == done.db
              && out.committee == if done.result.Ok? then Lifecycle.Committee(done.db) else n.committee
            else out.disk.ledger == n.disk.ledger
  {
    hide Handle, ExecuteBlock, Raise;
    if Commits(n, e) {
      CommittingStep(env, m, n, e);
    } else {
      OtherStep(env, n, e);
    }
  }

  lemma CommittingStep(env: Env, m: Machine, n: Node, e: Event)
    requires CommitsWith(env, m) && Enabled(n, e) && Commits(n, e)
    ensures var out := Handle(env, n, e).node;
            var done := ExecuteBlock(m, CommitDb(env, n, e.vote), n.disk.blocks[e.vote.blockHash]);
            && DiskDb(out) == done.db
            && out.committee == if done.result.Ok? then Lifecycle.Committee(done.db) else n.committee
  {
    hide ExecuteBlock, Raise, FinalizeVotes;
    RaiseFrame(env, n, e.vote);
    var n1, block := Raise(env, n, e.vote), n.disk.blocks[e.vote.blockHash];
    assert env.commit(n1.disk.state, n1.disk.ledger, block) == CommitWith(m, n1.disk.state, n1.disk.ledger, block);
    ExecutorKeepsPositions(m, n1.disk.state.value, n1.disk.ledger, block);
    NotOverlay(m, CommitDb(env, n, e.vote), block);
  }

  lemma NotOverlay(m: Machine, db: Db, block: Block)
    requires !db.overlay && db.state.Some?
    ensures !ExecuteBlock(m, db, block).db.overlay
  {
    hide SlashAll, Liveness, RunPayload, Queues, GasLimitError;
    SlashPositions(m, db, block.evidence);
    LivenessPositions(m, SlashAll(m, db, block.evidence), block);
    var start := Progress(AfterSlashing(m, db, block), [], 0, None);
    PayloadPositions(m, start, block, block.payload);
    QueuesPositions(RunPayload(m, start, block, block.payload).db, block.view);
  }

  lemma OtherVote(env: Env, n: Node, e: Event)
    requires Enabled(n, e) && e.VoteIn? && !Commits(n, e)
    ensures var out := Handle(env, n, e).node; out.disk.ledger == n.disk.ledger && KeepsSync(n, out)
  {
    hide Raise, Certify, Threshold, FinalizeVotes, Finalizes, KeepsSync;
    KeepsSyncSelf(n);
    var out := Handle(env, n, e).node;
    if Verify(e.vote.author, e.vote.blockHash, e.vote.signature) && e.vote.voteType == Finalize {
      RaiseFrame(env, n, e.vote);
      if !Finalizes(n, e.vote) {
        KeepsSyncWith(n, n, out);
      }
    } else if Completes(n, e.vote) {
      var votes := FiledVotes(n, e.vote);
      assert forall a :: a in e.signers ==> a in Elements(e.signers);
      var n1 := n.(votes := n.votes[e.vote.view := votes]);
      CertifyFrame(env, n1, QcFrom(votes, e.vote, e.signers), e.offer);
      FiledKeepsSync(n, n1, out);
    } else {
      KeepsSyncWith(n, n, out);
    }
  }

  lemma FiledKeepsSync(n: Node, n1: Node, out: Node)
    requires n1 == n.(votes := n1.votes)
    ensures KeepsSync(n1, out) ==> KeepsSync(n, out)
  {
  }

  lemma ProposalStep(env: Env, n: Node, block: Block)
    ensures var out := OnProposal(env, n, block).node; out.disk.ledger == n.disk.ledger && KeepsSync(n, out)
  {
    hide ValidateAndStore, FastForward, Persist, Synced, Anchored;
    KeepsSyncSelf(n);
    StoreFrame(env, n, block);
    if ValidateAndStore(env, n, block).Stored? {
      SettledFrame(env, n, block);
      var n1 := Settled(env, n, block);
      var n2 := n1.(lastVotedView := block.view);
      PersistFrame(env, n2);
      PersistKeepsSync(env, n2, n1);
    }
  }

  lemma OtherStep(env: Env, n: Node, e: Event)
    requires Enabled(n, e) && n.disk.state.Some? && !Commits(n, e)
    ensures var out := Handle(env, n, e).node;
            && out.disk.ledger == n.disk.ledger && SameBooks(n.disk.state, out.disk.state)
            && (Synced(n) ==> DiskRegistry(out.disk.state) == DiskRegistry(n.disk.state))
  {
    hide OnVote, OnProposal, Respond, Propose, Commits, Synced;
    match e
    case Proposal(block) => ProposalStep(env, n, block);
    case VoteIn(vote, signers, offer) => OtherVote(env, n, e);
    case Response(block) => RespondFrame(env, n, block);
    case Restart =>
    case _ =>
  }

  // ---- Runs ----

  /** The blocks a run commits, in order. */
  ghost function CommittedBlocks(env: Env, n: Node, es: seq<Event>): seq<Block> {
    if es == [] then []
    else
      var before, e := Discipline.After(env, n, es[..|es| - 1]), es[|es| - 1];
      CommittedBlocks(env, n, es[..|es| - 1]) + if Commits(before, e) then [before.disk.blocks[e.vote.blockHash]] else []
  }

  /** Disk and committee of the node are those of a database. */
  ghost predicate Carries(n: Node, db: Db) {
    && n.disk.ledger == db.ledger && n.disk.state.Some? && !db.overlay
    && DiskRegistry(n.disk.state) == DiskRegistry(db.state) && n.committee == Lifecycle.Committee(db)
  }

  /** At every point of the run the node carries what executing the blocks committed so far gives. */
  ghost predicate Follows(env: Env, m: Machine, n: Node, es: seq<Event>) {
    && (es == [] || Follows(env, m, n, es[..|es| - 1]))
    && Carries(Discipline.After(env, n, es), Lifecycle.After(m, DiskDb(n), CommittedBlocks(env, n, es)))
  }

  lemma Executes(env: Env, m: Machine, n: Node, e: Event, db: Db)
    requires CommitsWith(env, m) && Enabled(n, e) && Commits(n, e) && Synced(n) && Carries(n, db)
    ensures var done, own := ExecuteBlock(m, CommitDb(env, n, e.vote), n.disk.blocks[e.vote.blockHash]),
                             ExecuteBlock(m, db, n.disk.blocks[e.vote.blockHash]);
            done.result == own.result && done.db.ledger == own.db.ledger && !own.db.overlay
            && done.db.state.Some? && DiskRegistry(done.db.state) == DiskRegistry(own.db.state)
  {
    hide ExecuteBlock, Raise;
    RaiseFrame(env, n, e.vote);
    var raised, block := CommitDb(env, n, e.vote), n.disk.blocks[e.vote.blockHash];
    assert DiskRegistry(raised.state) == DiskRegistry(db.state);
    MovedTo(db, raised);
    ExecutionMoved(m, db, block, raised.state.value);
    NotOverlay(m, raised, block);
    ExecutorKeepsPositions(m, raised.state.value, raised.ledger, block);
    MovedRegistry(ExecuteBlock(m, db, block).db, raised.state.value);
  }

  /** Two databases that differ in positions only are one database moved. */
  lemma MovedTo(a: Db, b: Db)
    requires a.state.Some? && b.state.Some? && DiskRegistry(a.state) == DiskRegistry(b.state) && a.ledger == b.ledger && a.overlay == b.overlay
    ensures b == Moved(a, b.state.value)
  {
    DryRun.RegistryFields(a.state.value, b.state.value);
  }

  lemma MovedRegistry(db: Db, to: ConsensusState)
    ensures var r := Moved(db, to); DiskRegistry(r.state) == DiskRegistry(db.state) && r.ledger == db.ledger && r.overlay == db.overlay
  {
  }

  /** One step of a node that carries a database: it carries the next one exactly if the commit is
      clean. */
  lemma FollowStep(env: Env, m: Machine, n: Node, e: Event, db: Db)
    requires CommitsWith(env, m) && Enabled(n, e) && Synced(n) && Carries(n, db)
    ensures var next := if Commits(n, e) then ExecuteBlock(m, db, n.disk.blocks[e.vote.blockHash]).db else db;
            Carries(Handle(env, n, e).node, next) <==> CleanCommit(env, n, e)
  {
    hide Handle, ExecuteBlock, Raise, Commits, CleanCommit, CommitsWith;
    ExecutorPositions(env, m);
    HandleSynced(env, n, e);
    HandleAnchoredToo(env, n, e);
    SyncedIffAnchored(Handle(env, n, e).node);
    if Commits(n, e) {
      CommittingStep(env, m, n, e);
      Executes(env, m, n, e, db);
    } else {
      OtherStep(env, n, e);
      NoCommitIsClean(env, n, e);
    }
  }

  lemma NoCommitIsClean(env: Env, n: Node, e: Event)
    ensures !Commits(n, e) ==> CleanCommit(env, n, e)
  {
  }

  lemma HandleAnchoredToo(env: Env, n: Node, e: Event)
    requires Enabled(n, e) && Synced(n) && KeepsPositions(env)
    ensures Anchored(Handle(env, n, e).node)
  {
    SyncedIffAnchored(n);
    HandleAnchored(env, n, e);
  }

  /** Over every run: ledger, registry and committee of the node are at every point those of executing
      the blocks it committed, if and only if no commit fails after costing a member its seat. */
  lemma {:induction false} NodeFollowsIff(env: Env, m: Machine, n: Node, es: seq<Event>)
    requires CommitsWith(env, m) && Synced(n) && Discipline.Runs(env, n, es)
    ensures Follows(env, m, n, es) <==> Discipline.CleanRun(env, n, es)
  {
    hide Handle, ExecuteBlock, Commits, CleanCommit, CommitsWith, Carries;
    ExecutorPositions(env, m);
    if es == [] {
      CarriesOwn(n);
    } else {
      var init, e := es[..|es| - 1], es[|es| - 1];
      NodeFollowsIff(env, m, n, init);
      if Discipline.CleanRun(env, n, init) {
        Discipline.RestartEquivalence(env, n, init);
        FollowStep(env, m, Discipline.After(env, n, init), e, Lifecycle.After(m, DiskDb(n), CommittedBlocks(env, n, init)));
        AfterOneMore(env, m, n, es);
      }
    }
  }

  lemma CarriesOwn(n: Node)
    requires Synced(n)
    ensures Carries(n, DiskDb(n))
  {
    SyncedIffAnchored(n);
  }

  lemma AfterOneMore(env: Env, m: Machine, n: Node, es: seq<Event>)
    requires es != []
    ensures var before, e := Discipline.After(env, n, es[..|es| - 1]), es[|es| - 1];
            var db := Lifecycle.After(m, DiskDb(n), CommittedBlocks(env, n, es[..|es| - 1]));
            Lifecycle.After(m, DiskDb(n), CommittedBlocks(env, n, es))
            == if Commits(before, e) then ExecuteBlock(m, db, before.disk.blocks[e.vote.blockHash]).db else db
  {
    hide ExecuteBlock, Commits;
    var init := CommittedBlocks(env, n, es[..|es| - 1]);
    var all := CommittedBlocks(env, n, es);
    var before, e := Discipline.After(env, n, es[..|es| - 1]), es[|es| - 1];
    if Commits(before, e) {
      assert all[..|all| - 1] == init;
    } else {
      assert all == init;
    }
  }

  /** What a clean commit is, in terms of the block it commits. */
  lemma CleanCommitIff(env: Env, m: Machine, n: Node, e: Event)
    requires CommitsWith(env, m) && Enabled(n, e) && Synced(n)
    ensures CleanCommit(env, n, e) <==>
      (Commits(n, e) ==>
         var db, block := CommitDb(env, n, e.vote), n.disk.blocks[e.vote.blockHash];
         ExecuteBlock(m, db, block).result.Ok? || NobodyRemoved(m, db, block))
  {
    hide Handle, ExecuteBlock, NobodyRemoved, Raise, Finalizes, CleanCommit;
    ExecutorPositions(env, m);
    HandleSynced(env, n, e);
    HandleSyncedIff(env, m, n, e);
  }

  /** The input that falls out of step: evidence that costs a member its seat, and then a system call
      its sender cannot pay for. */
  lemma UnpaidCallStrays(env: Env, m: Machine, n: Node, e: Event, key: PublicKey, tx: Transaction, view: View, a: Hash, b: Hash)
    requires CommitsWith(env, m) && Enabled(n, e) && Synced(n) && key in n.committee && Commits(n, e)
    requires var block := n.disk.blocks[e.vote.blockHash];
             block.evidence == [DoubleVote(key, view, a, b)] && block.payload == [tx]
    requires a != b && m.addressOf(key) in n.disk.state.value.stakes
    requires n.disk.state.value.stakes[m.addressOf(key)] < 2000 + 1000
    requires tx.to == Some(SYSTEM_CONTRACT) && tx.gasLimit <= MAX_TX_GAS_LIMIT && tx.gasLimit <= m.blockGasLimit
    requires var sender := m.addressOf(tx.publicKey);
             sender in n.disk.ledger.accounts && n.disk.ledger.accounts[sender].balance < tx.value
    ensures Discipline.Runs(env, n, [e]) && !Follows(env, m, n, [e])
  {
    hide Handle, Commits, CleanCommit, CommitsWith, Follows;
    assert [e][..0] == [];
    ExecutorPositions(env, m);
    UnpaidCallDesyncs(env, m, n, e, key, tx, view, a, b);
    HandleSynced(env, n, e);
    NodeFollowsIff(env, m, n, [e]);
  }

  // ---- What it brings ----

  /** What the commits of a run burn, each on the record and the ledger it was given. */
  ghost function NodeBurn(env: Env, m: Machine, n: Node, es: seq<Event>): nat {
    if es == [] then 0
    else
      var before, e := Discipline.After(env, n, es[..|es| - 1]), es[|es| - 1];
      NodeBurn(env, m, n, es[..|es| - 1])
      + if Commits(before, e) then Funds.BlockBurn(m, CommitDb(env, before, e.vote), before.disk.blocks[e.vote.blockHash]) else 0
  }

  /** How many of their accepted calls wrap around. */
  ghost function NodeWraps(env: Env, m: Machine, n: Node, es: seq<Event>): nat {
    if es == [] then 0
    else
      var before, e := Discipline.After(env, n, es[..|es| - 1]), es[|es| - 1];
      NodeWraps(env, m, n, es[..|es| - 1])
      + if Commits(before, e) then Funds.BlockWraps(m, CommitDb(env, before, e.vote), before.disk.blocks[e.vote.blockHash]) else 0
  }

  lemma SameFunds(a: Db, b: Db)
    requires Funds.Fits(a) && SameBooks(a.state, b.state) && a.ledger == b.ledger && !b.overlay
    ensures a.state.Some? && Funds.Fits(b) && Funds.Total(a) == Funds.Total(b)
  {
    assert forall x :: StakeOf(b.state.value, x) == StakeOf(a.state.value, x);
  }

  lemma FundsStep(env: Env, m: Machine, n: Node, e: Event)
    requires CommitsWith(env, m) && Enabled(n, e) && Funds.Fits(DiskDb(n))
    requires Commits(n, e) ==> Funds.Covered(m, n.disk.blocks[e.vote.blockHash].payload)
    ensures var out := DiskDb(Handle(env, n, e).node);
            && Funds.Fits(out) && Funds.Fits(DiskDb(n)) && DiskDb(n).state.Some? && out.state.Some?
            && Funds.Total(DiskDb(n)) == Funds.Total(out)
               + (if Commits(n, e) then
                    var db, block := CommitDb(env, n, e.vote), n.disk.blocks[e.vote.blockHash];
                    Funds.BlockBurn(m, db, block) + TWO_256 * Funds.BlockWraps(m, db, block)
                  else 0)
  {
    hide Handle, ExecuteBlock, Raise, Finalizes, CommitsWith, Funds.Fits, Funds.Total, Funds.BlockBurn, Funds.BlockWraps, Funds.Covered;
    Funds.FitsHasState(DiskDb(n));
    if Commits(n, e) {
      CommittingStep(env, m, n, e);
      RaiseFrame(env, n, e.vote);
      var db, block := CommitDb(env, n, e.vote), n.disk.blocks[e.vote.blockHash];
      SameFunds(DiskDb(n), db);
      Funds.BlockConserves(m, db, block);
      Funds.FitsHasState(ExecuteBlock(m, db, block).db);
    } else {
      OtherStep(env, n, e);
      SameFunds(DiskDb(n), DiskDb(Handle(env, n, e).node));
    }
  }

  /** In every run, clean or not, restarts included: what is missing on the node's disk since the start
      is what its commits burned, plus 2^256 for each call that wrapped around. */
  lemma {:induction false} NodeConserves(env: Env, m: Machine, n: Node, es: seq<Event>)
    requires CommitsWith(env, m) && Discipline.Runs(env, n, es) && Funds.Fits(DiskDb(n))
    requires forall b :: b in CommittedBlocks(env, n, es) ==> Funds.Covered(m, b.payload)
    ensures var now := DiskDb(Discipline.After(env, n, es));
            && Funds.Fits(now) && DiskDb(n).state.Some? && now.state.Some?
            && Funds.Total(now) + NodeBurn(env, m, n, es) + TWO_256 * NodeWraps(env, m, n, es) == Funds.Total(DiskDb(n))
  {
    hide Handle, Commits, CommitsWith, Funds.Covered, Funds.Fits, Funds.Total, Funds.BlockBurn, Funds.BlockWraps, DiskDb;
    Funds.FitsHasState(DiskDb(n));
    if es != [] {
      var init, e := es[..|es| - 1], es[|es| - 1];
      var before := Discipline.After(env, n, init);
      assert forall b :: b in CommittedBlocks(env, n, init) ==> b in CommittedBlocks(env, n, es);
      NodeConserves(env, m, n, init);
      CommittedLast(env, n, es);
      FundsStep(env, m, before, e);
    }
  }

  lemma CommittedLast(env: Env, n: Node, es: seq<Event>)
    requires es != []
    ensures var before, e := Discipline.After(env, n, es[..|es| - 1]), es[|es| - 1];
            Commits(before, e) ==> before.disk.blocks[e.vote.blockHash] in CommittedBlocks(env, n, es)
  {
    hide Finalizes;
  }

  /** The committee a node works with: duplicate-free, disjoint from the pending keys, and every
      queue entry on its disk traced to a call in a block it committed. */
  lemma NodeRegistryGood(env: Env, m: Machine, n: Node, es: seq<Event>)
    requires CommitsWith(env, m) && Synced(n) && Discipline.Runs(env, n, es) && Discipline.CleanRun(env, n, es)
    requires Lifecycle.Good([], DiskDb(n))
    ensures var now := Discipline.After(env, n, es);
            Lifecycle.Good(CommittedBlocks(env, n, es), DiskDb(now)) && now.committee == Lifecycle.Committee(DiskDb(now)) && Distinct(now.committee)
  {
    hide Carries, Lifecycle.Traced;
    NodeFollowsIff(env, m, n, es);
    var now, blocks := Discipline.After(env, n, es), CommittedBlocks(env, n, es);
    Lifecycle.RegistryInvariant(m, DiskDb(n), blocks);
    SameGood(now, Lifecycle.After(m, DiskDb(n), blocks), blocks);
  }

  lemma SameGood(n: Node, db: Db, history: seq<Block>)
    requires Carries(n, db) && Lifecycle.Good(history, db)
    ensures Lifecycle.Good(history, DiskDb(n)) && n.committee == Lifecycle.Committee(DiskDb(n))
  {
    DryRun.RegistryFields(n.disk.state.value, db.state.value);
  }

  /** Exactly who is in the node's committee after a commit that succeeds: the members its evidence
      and certificate spare and the pending keys that are due, but for the keys due to exit. */
  lemma NodeMembershipExact(env: Env, m: Machine, n: Node, es: seq<Event>, e: Event, key: PublicKey)
    requires CommitsWith(env, m) && Synced(n) && Discipline.Runs(env, n, es) && Discipline.CleanRun(env, n, es)
    requires Lifecycle.Good([], DiskDb(n))
    requires var now := Discipline.After(env, n, es); Enabled(now, e) && Commits(now, e)
    ensures var now, d := Discipline.After(env, n, es), Lifecycle.After(m, DiskDb(n), CommittedBlocks(env, n, es));
            var last := now.disk.blocks[e.vote.blockHash];
            var s := AfterPayload(m, d, last).db.state;
            var spared := key in now.committee && !Lifecycle.SlashedOut(m, d, last.evidence, key)
                          && !Lifecycle.TimedOut(SlashAll(m, d, last.evidence), last, key);
            s.Some? && (key in Handle(env, now, e).node.committee <==>
              if ExecuteBlock(m, d, last).result.Ok?
              then (spared || HasKey(Due(s.value.pending, last.view), key)) && !HasKey(Due(s.value.exiting, last.view), key)
              else key in now.committee)
  {
    hide Handle, ExecuteBlock, AfterPayload, SlashAll, Lifecycle.SlashedOut, Lifecycle.TimedOut, Finalizes, CommitsWith, Lifecycle.Good, Due, HasKey;
    var now, d := Discipline.After(env, n, es), Lifecycle.After(m, DiskDb(n), CommittedBlocks(env, n, es));
    NodeFollowsIff(env, m, n, es);
    ExecutorPositions(env, m);
    Discipline.RestartEquivalence(env, n, es);
    Lifecycle.MembershipExact(m, DiskDb(n), CommittedBlocks(env, n, es), now.disk.blocks[e.vote.blockHash], key);
    CommittingStep(env, m, now, e);
    Executes(env, m, now, e, d);
  }
}
