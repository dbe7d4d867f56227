/** When a commit by the modelled executor leaves the record out of step with the node. */
module CommitSync {
  import opened Types
  import opened Collections
  import opened Vm
  import opened Lifecycle
  import opened Consensus
  import opened Frames
  import opened Recovery

  /** The node commits with the executor of module Vm. */
  ghost predicate CommitsWith(env: Env, m: Machine) {
    forall s, ledger, block :: env.commit(s, ledger, block) == CommitWith(m, s, ledger, block)
  }

  lemma ExecutorPositions(env: Env, m: Machine)
    requires CommitsWith(env, m)
    ensures KeepsPositions(env)
  {
    hide CommitWith;
    forall s: ConsensusState, ledger, block
      ensures var c := env.commit(Some(s), ledger, block); c.state.Some? && SamePositions(c.state.value, s)
    {
      ExecutorKeepsPositions(m, s, ledger, block);
    }
  }

  // ---- The committee after a failing block ----

  lemma CallCommittee(m: Machine, db: Db, tx: Transaction, view: View)
    requires !db.overlay && db.state.Some?
    ensures var r := SystemCall(m, db, tx, view);
            r.Ok? ==> !r.value.overlay && r.value.state.Some? && Committee(r.value) == Committee(db)
  {
  }

  lemma {:induction false} PayloadCommittee(m: Machine, p: Progress, block: Block, txs: seq<Transaction>)
    requires !p.db.overlay && p.db.state.Some?
    ensures var after := RunPayload(m, p, block, txs).db;
            !after.overlay && after.state.Some? && Committee(after) == Committee(p.db)
    decreases |txs|
  {
    hide SystemCall, CommitWrites;
    if txs != [] && p.error.None? {
      var out := m.evm(p.db.ledger, txs[0], block.baseFeePerGas);
      if out.EvmDone? {
        WritesKeepRecord(m, p.db, out.writes);
      }
      CallCommittee(m, p.db, txs[0], block.view);
      PayloadCommittee(m, RunTx(m, p, block, txs[0]), block, txs[1..]);
    }
  }

  /** The block's evidence and its certificate cost no member its seat. */
  ghost predicate NobodyRemoved(m: Machine, db: Db, block: Block) {
    forall k :: k in Committee(db) ==>
      !SlashedOut(m, db, block.evidence, k) && !TimedOut(SlashAll(m, db, block.evidence), block, k)
  }

  ghost predicate Kept(before: Db, after: Db) {
    && !after.overlay && after.state.Some?
    && (Committee(after) == Committee(before) || |Committee(after)| < |Committee(before)|)
  }

  lemma SlashKept(m: Machine, db: Db, e: Evidence)
    requires !db.overlay && db.state.Some?
    ensures var after, author := Slash(m, db, e), e.voteA.author;
            && Kept(db, after)
            && (Committee(after) == Committee(db) <==> !(author in Committee(db) && DropsBelow(m, db, e, author)))
  {
    RemoveShorter(db.state.value.committee, e.voteA.author);
    RemoveEffective(db.state.value.committee, e.voteA.author);
  }

  lemma {:induction false} RemoveEffective(keys: seq<PublicKey>, key: PublicKey)
    ensures RemoveFirst(keys, key) == keys <==> key !in keys
  {
    if keys != [] && keys[0] != key {
      RemoveEffective(keys[1..], key);
    }
  }

  lemma {:induction false} SlashAllKept(m: Machine, db: Db, evidence: seq<Evidence>)
    requires !db.overlay && db.state.Some?
    ensures Kept(db, SlashAll(m, db, evidence))
    decreases |evidence|
  {
    if evidence != [] {
      SlashKept(m, db, evidence[0]);
      SlashAllKept(m, Slash(m, db, evidence[0]), evidence[1..]);
    }
  }

  lemma SlashedOutTail(m: Machine, db: Db, evidence: seq<Evidence>, key: PublicKey)
    requires evidence != []
    ensures SlashedOut(m, db, evidence, key) <==>
      DropsBelow(m, db, evidence[0], key) || SlashedOut(m, Slash(m, db, evidence[0]), evidence[1..], key)
  {
    hide DropsBelow;
    var d, rest := Slash(m, db, evidence[0]), evidence[1..];
    assert evidence[..0] == [] && SlashAll(m, db, evidence[..0]) == db;
    if k :| 0 <= k < |rest| && DropsBelow(m, SlashAll(m, d, rest[..k]), rest[k], key) {
      SlashOneMore(m, db, evidence, k);
      assert evidence[k + 1] == rest[k];
    }
    if k :| 0 < k < |evidence| && DropsBelow(m, SlashAll(m, db, evidence[..k]), evidence[k], key) {
      SlashOneMore(m, db, evidence, k - 1);
      assert evidence[k] == rest[k - 1];
    }
  }

  /** Slashing leaves the committee as it is exactly when no member is slashed out. */
  lemma {:induction false} SlashKeepsIff(m: Machine, db: Db, evidence: seq<Evidence>)
    requires !db.overlay && db.state.Some?
    ensures Committee(SlashAll(m, db, evidence)) == Committee(db)
            <==> forall k :: k in Committee(db) ==> !SlashedOut(m, db, evidence, k)
    decreases |evidence|
  {
    hide SlashedOut, DropsBelow, Slash;
    if evidence == [] {
      NoneSlashed(m, db);
    } else {
      var d, author := Slash(m, db, evidence[0]), evidence[0].voteA.author;
      SlashKept(m, db, evidence[0]);
      forall k
        ensures SlashedOut(m, db, evidence, k) <==>
          DropsBelow(m, db, evidence[0], k) || SlashedOut(m, d, evidence[1..], k)
        ensures DropsBelow(m, db, evidence[0], k) ==> k == author
      {
        SlashedOutTail(m, db, evidence, k);
        DropsAuthor(m, db, evidence[0], k);
      }
      if Committee(d) == Committee(db) {
        SlashKeepsIff(m, d, evidence[1..]);
      } else {
        SlashAllKept(m, d, evidence[1..]);
        assert SlashedOut(m, db, evidence, author);
      }
    }
  }

  lemma DropsAuthor(m: Machine, db: Db, e: Evidence, key: PublicKey)
    ensures DropsBelow(m, db, e, key) ==> key == e.voteA.author
  {
  }

  lemma NoneSlashed(m: Machine, db: Db)
    ensures forall k :: !SlashedOut(m, db, [], k)
  {
  }

  lemma LivenessKept(m: Machine, db: Db, block: Block)
    requires !db.overlay && db.state.Some?
    ensures var after := Liveness(m, db, block);
            && Kept(db, after)
            && (Committee(after) == Committee(db) <==> forall k :: k in Committee(db) ==> !TimedOut(db, block, k))
  {
    var s := RewardAuthor(db.state.value, block.author);
    if TimeoutCharged(s, block.justify) {
      var leader := FailedLeader(s, block.justify);
      RemoveShorter(s.committee, leader);
      RemoveEffective(s.committee, leader);
      assert leader in Committee(db);
    }
  }

  lemma SlashingCommittee(m: Machine, db: Db, block: Block)
    requires !db.overlay && db.state.Some?
    ensures var after := AfterSlashing(m, db, block);
            !after.overlay && after.state.Some? && (Committee(after) == Committee(db) <==> NobodyRemoved(m, db, block))
  {
    hide SlashAll, Liveness, SlashedOut, TimedOut;
    SlashAllKept(m, db, block.evidence);
    SlashKeepsIff(m, db, block.evidence);
    LivenessKept(m, SlashAll(m, db, block.evidence), block);
  }

  /** After a failing block the stored committee is the old one exactly when nobody was removed. */
  lemma FailingBlockCommittee(m: Machine, db: Db, block: Block)
    requires !db.overlay && db.state.Some? && ExecuteBlock(m, db, block).result.Err?
    ensures var after := ExecuteBlock(m, db, block).db;
            after.state.Some? && (Committee(after) == Committee(db) <==> NobodyRemoved(m, db, block))
  {
    hide SlashAll, Liveness, RunPayload, Queues, GasLimitError, NobodyRemoved;
    SlashingCommittee(m, db, block);
    PayloadCommittee(m, Progress(AfterSlashing(m, db, block), [], 0, None), block, block.payload);
  }

  // ---- The node ----

  /** What a finalize vote that commits hands to the executor. */
  ghost function CommitDb(env: Env, n: Node, vote: Vote): Db {
    Db(Raise(env, n, vote).disk.state, n.disk.ledger, false)
  }

  /** Exactly when a handler leaves the record in step with the node: always, except that a finalize
      vote that commits a block needs the block to execute, or to fail without its evidence or its
      certificate having cost a member its seat. */
  lemma HandleSyncedIff(env: Env, m: Machine, n: Node, e: Event)
    requires CommitsWith(env, m) && Enabled(n, e) && Synced(n)
    ensures Synced(Handle(env, n, e).node) <==>
      (Commits(n, e) ==>
         var block := n.disk.blocks[e.vote.blockHash];
         ExecuteBlock(m, CommitDb(env, n, e.vote), block).result.Ok? || NobodyRemoved(m, CommitDb(env, n, e.vote), block))
  {
    hide Handle, ExecuteBlock, NobodyRemoved, Raise, Finalizes;
    ExecutorPositions(env, m);
    HandleSynced(env, n, e);
    if Commits(n, e) {
      RaiseFrame(env, n, e.vote);
      var n1 := Raise(env, n, e.vote);
      SyncedIffAnchored(n1);
      var db, block := CommitDb(env, n, e.vote), n.disk.blocks[e.vote.blockHash];
      assert Committee(db) == n.committee;
      if ExecuteBlock(m, db, block).result.Err? {
        FailingBlockCommittee(m, db, block);
      }
    }
  }

  // ---- An input ----

  /** Two votes of a member in one view for different blocks. */
  function DoubleVote(key: PublicKey, view: View, a: Hash, b: Hash): Evidence {
    Evidence(MakeVote(key, view, a, Notarize), MakeVote(key, view, b, Notarize))
  }

  /** A finalized block with evidence that costs a member its seat and a system call its sender
      cannot pay for leaves the node with one committee and its record with another. */
  lemma UnpaidCallDesyncs(env: Env, m: Machine, n: Node, e: Event, key: PublicKey, tx: Transaction, view: View, a: Hash, b: Hash)
    requires CommitsWith(env, m) && Enabled(n, e) && Synced(n) && key in n.committee && Commits(n, e)
    requires var block := n.disk.blocks[e.vote.blockHash];
             block.evidence == [DoubleVote(key, view, a, b)] && block.payload == [tx]
    requires a != b && m.addressOf(key) in n.disk.state.value.stakes
    requires n.disk.state.value.stakes[m.addressOf(key)] < 2000 + 1000
    requires tx.to == Some(SYSTEM_CONTRACT) && tx.gasLimit <= MAX_TX_GAS_LIMIT && tx.gasLimit <= m.blockGasLimit
    requires var sender := m.addressOf(tx.publicKey);
             sender in n.disk.ledger.accounts && n.disk.ledger.accounts[sender].balance < tx.value
    ensures !Synced(Handle(env, n, e).node)
  {
    hide Handle, Raise, Finalizes;
    HandleSyncedIff(env, m, n, e);
    RaiseFrame(env, n, e.vote);
    var db, block := CommitDb(env, n, e.vote), n.disk.blocks[e.vote.blockHash];
    RegistryKept(n, Raise(env, n, e.vote));
    assert SlashAll(m, db, block.evidence[..0]) == db;
    assert DropsBelow(m, db, block.evidence[0], key);
    assert SlashedOut(m, db, block.evidence, key);
    SyncedIffAnchored(Raise(env, n, e.vote));
    assert key in Committee(db);
    UnpaidCallFails(m, db, block, tx);
  }

  lemma RegistryKept(n: Node, n1: Node)
    requires Synced(n) && KeepsSync(n, n1)
    ensures n1.disk.state.Some? && n1.disk.state.value.stakes == n.disk.state.value.stakes
  {
    assert DiskRegistry(n1.disk.state) == DiskRegistry(n.disk.state);
  }

  lemma {:induction false} SlashLedger(m: Machine, db: Db, evidence: seq<Evidence>)
    ensures SlashAll(m, db, evidence).ledger == db.ledger
    decreases |evidence|
  {
    if evidence != [] {
      SlashLedger(m, Slash(m, db, evidence[0]), evidence[1..]);
    }
  }

  lemma UnpaidCallFails(m: Machine, db: Db, block: Block, tx: Transaction)
    requires block.payload == [tx] && tx.to == Some(SYSTEM_CONTRACT)
    requires tx.gasLimit <= MAX_TX_GAS_LIMIT && tx.gasLimit <= m.blockGasLimit
    requires var sender := m.addressOf(tx.publicKey);
             sender in db.ledger.accounts && db.ledger.accounts[sender].balance < tx.value
    ensures ExecuteBlock(m, db, block).result.Err?
  {
    hide SlashAll;
    SlashLedger(m, db, block.evidence);
    var start := Progress(AfterSlashing(m, db, block), [], 0, None);
    assert start.db.ledger == db.ledger;
    assert SystemCall(m, start.db, tx, block.view).Err?;
    assert RunTx(m, start, block, tx).error.Some?;
    assert RunPayload(m, start, block, [tx]) == RunPayload(m, RunTx(m, start, block, tx), block, [tx][1..]);
  }
}
