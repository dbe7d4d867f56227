/** Conservation of funds over any chain of blocks: balances plus stakes plus what was burned plus
    what 256-bit wrap-around lost is constant, each part known exactly. */
module Funds {
  import opened Types
  import opened Collections
  import opened Vm
  import Lifecycle
  import Consensus

  ghost function Balances(ledger: Ledger): map<Address, nat> {
    map a | a in ledger.accounts :: ledger.accounts[a].balance
  }

  function BalanceOf(ledger: Ledger, address: Address): nat {
    if address in ledger.accounts then ledger.accounts[address].balance else 0
  }

  /** All balances and all stakes. */
  ghost function Total(db: Db): nat
    requires db.state.Some?
  {
    Sum(Balances(db.ledger)) + Sum(db.state.value.stakes)
  }

  ghost predicate BalancesFit(ledger: Ledger) {
    forall a :: BalanceOf(ledger, a) < TWO_256
  }

  /** A committed record, with every balance and every stake a 256-bit number. */
  ghost predicate Fits(db: Db) {
    && !db.overlay && db.state.Some? && BalancesFit(db.ledger)
    && forall a :: StakeOf(db.state.value, a) < TWO_256
  }

  function Least(a: nat, b: nat): nat {
    if a < b then a else b
  }

  // ---- What each step burns ----

  function SlashBurn(m: Machine, db: Db, e: Evidence): nat {
    if Slashes(m, db, e) then Least(db.state.value.stakes[m.addressOf(e.voteA.author)], 1000) else 0
  }

  function SlashAllBurn(m: Machine, db: Db, evidence: seq<Evidence>): nat
    decreases |evidence|
  {
    if evidence == [] then 0
    else SlashBurn(m, db, evidence[0]) + SlashAllBurn(m, Slash(m, db, evidence[0]), evidence[1..])
  }

  function TimeoutBurn(m: Machine, db: Db, block: Block): nat {
    if db.state.None? || !TimeoutCharged(db.state.value, block.justify) then 0
    else Least(StakeOf(db.state.value, m.addressOf(FailedLeader(db.state.value, block.justify))), 10)
  }

  function CallBurn(m: Machine, db: Db, tx: Transaction, view: View): nat {
    if SystemCall(m, db, tx, view).Err? || IsStakeCall(tx) then 0 else tx.value
  }

  /** The transaction is a call of the system contract by a sender that can exist. */
  predicate Calls(m: Machine, tx: Transaction) {
    m.addressOf(tx.publicKey) != ZERO_ADDRESS && tx.to == Some(SYSTEM_CONTRACT)
  }

  function PayloadBurn(m: Machine, p: Progress, block: Block, txs: seq<Transaction>): nat
    decreases |txs|
  {
    if txs == [] || p.error.Some? then 0
    else
      (if !Calls(m, txs[0]) then 0 else CallBurn(m, p.db, txs[0], block.view))
      + PayloadBurn(m, RunTx(m, p, block, txs[0]), block, txs[1..])
  }

  function BlockBurn(m: Machine, db: Db, block: Block): nat {
    var d := SlashAll(m, db, block.evidence);
    SlashAllBurn(m, db, block.evidence) + TimeoutBurn(m, d, block)
    + if GasLimitError(m, block.payload).Some? then 0
      else PayloadBurn(m, Progress(Liveness(m, d, block), [], 0, None), block, block.payload)
  }

  ghost function ChainBurn(m: Machine, db: Db, blocks: seq<Block>): nat {
    if blocks == [] then 0
    else
      var before := blocks[..|blocks| - 1];
      ChainBurn(m, db, before) + BlockBurn(m, Lifecycle.After(m, db, before), blocks[|blocks| - 1])
  }

  // ---- Slashing ----

  lemma SlashConserves(m: Machine, db: Db, e: Evidence)
    requires Fits(db)
    ensures Fits(Slash(m, db, e)) && Total(Slash(m, db, e)) + SlashBurn(m, db, e) == Total(db)
  {
    if Slashes(m, db, e) {
      var address := m.addressOf(e.voteA.author);
      var left := Deduct(db.state.value.stakes[address], SLASH_AMOUNT);
      SumUpdate(db.state.value.stakes, address, left);
      var s1 := Slash(m, db, e).state.value;
      assert s1.stakes == db.state.value.stakes[address := left];
      forall a ensures StakeOf(s1, a) < TWO_256 {
        assert StakeOf(db.state.value, a) < TWO_256;
      }
    }
  }

  lemma {:induction false} SlashAllConserves(m: Machine, db: Db, evidence: seq<Evidence>)
    requires Fits(db)
    ensures Fits(SlashAll(m, db, evidence))
    ensures Total(SlashAll(m, db, evidence)) + SlashAllBurn(m, db, evidence) == Total(db)
    decreases |evidence|
  {
    if evidence != [] {
      SlashConserves(m, db, evidence[0]);
      SlashAllConserves(m, Slash(m, db, evidence[0]), evidence[1..]);
    }
  }

  lemma TimeoutConserves(m: Machine, db: Db, block: Block)
    requires Fits(db)
    ensures Fits(Liveness(m, db, block))
    ensures Total(Liveness(m, db, block)) + TimeoutBurn(m, db, block) == Total(db)
  {
    var s, s1 := db.state.value, Liveness(m, db, block).state.value;
    if TimeoutCharged(s, block.justify) {
      var address := m.addressOf(FailedLeader(s, block.justify));
      if address in s.stakes {
        var left := Deduct(s.stakes[address], LIVENESS_PENALTY);
        SumUpdate(s.stakes, address, left);
        assert s1.stakes == s.stakes[address := left];
      } else {
        assert s1.stakes == s.stakes;
      }
    } else {
      assert s1.stakes == s.stakes;
    }
    forall a ensures StakeOf(s1, a) < TWO_256 {
      assert StakeOf(s, a) < TWO_256;
    }
  }

  // ---- System calls ----

  predicate Withdraws(m: Machine, db: Db, tx: Transaction) {
    db.state.Some? && Selector(tx) == WITHDRAW_SELECTOR && CanWithdraw(m, db.state.value, tx.publicKey)
  }

  /** The stake and the balance an accepted call leaves the sender, before wrap-around. */
  function StakeAfter(m: Machine, db: Db, tx: Transaction): nat
    requires db.state.Some?
  {
    var stake := StakeOf(db.state.value, m.addressOf(tx.publicKey));
    if IsStakeCall(tx) then stake + tx.value else if Withdraws(m, db, tx) then 0 else stake
  }

  function BalanceAfter(m: Machine, db: Db, tx: Transaction): int
    requires db.state.Some?
  {
    var sender := m.addressOf(tx.publicKey);
    BalanceOf(db.ledger, sender) - tx.value
    + if Withdraws(m, db, tx) then StakeOf(db.state.value, sender) else 0
  }

  lemma WrapTwice(a: int, b: int)
    ensures Wrap256(Wrap256(a) + b) == Wrap256(a + b)
  {
    assert Wrap256(a) == a - TWO_256 * (a / TWO_256);
    assert a + b == TWO_256 * (a / TWO_256) + (Wrap256(a) + b);
    ModShift(Wrap256(a) + b, a / TWO_256);
  }

  lemma ModShift(x: int, k: int)
    ensures (TWO_256 * k + x) % TWO_256 == x % TWO_256
  {
    var q := x / TWO_256;
    assert TWO_256 * k + x == TWO_256 * (k + q) + x % TWO_256;
  }

  lemma BasicBalance(ledger: Ledger, address: Address)
    ensures var info := Basic(ledger, address);
            (info.Some? <==> address in ledger.accounts) && (info.Some? ==> info.value.balance == BalanceOf(ledger, address))
  {
  }

  lemma DispatchEffect(m: Machine, db: Db, tx: Transaction, view: View)
    requires !db.overlay && db.state.Some? && tx.to == Some(SYSTEM_CONTRACT) && m.addressOf(tx.publicKey) in db.ledger.accounts
    ensures var after := Dispatch(m, db, tx, view);
            var sender := m.addressOf(tx.publicKey);
            var s := db.state.value;
            && !after.overlay && after.state.Some?
            && Balances(after.ledger) == (if Withdraws(m, db, tx)
                 then Balances(db.ledger)[sender := Wrap256(BalanceOf(db.ledger, sender) + StakeOf(s, sender))]
                 else Balances(db.ledger))
            && after.state.value.stakes == (if IsStakeCall(tx) || Withdraws(m, db, tx)
                 then s.stakes[sender := Wrap256(StakeAfter(m, db, tx))] else s.stakes)
  {
    hide Wrap256, Basic;
    BasicBalance(db.ledger, m.addressOf(tx.publicKey));
    WrapZero();
  }

  lemma WrapZero()
    ensures Wrap256(0) == 0
  {
  }

  /** An accepted call moves the sender's own balance and stake and touches nobody else's. */
  lemma CallEffect(m: Machine, db: Db, tx: Transaction, view: View)
    requires !db.overlay && db.state.Some? && tx.to == Some(SYSTEM_CONTRACT)
    requires SystemCall(m, db, tx, view).Ok?
    ensures var after := SystemCall(m, db, tx, view).value;
            var sender := m.addressOf(tx.publicKey);
            && !after.overlay && after.state.Some?
            && Balances(after.ledger) == Balances(db.ledger)[sender := Wrap256(BalanceAfter(m, db, tx))]
            && (after.state.value.stakes == db.state.value.stakes[sender := Wrap256(StakeAfter(m, db, tx))]
                || (after.state.value.stakes == db.state.value.stakes
                    && StakeAfter(m, db, tx) == StakeOf(db.state.value, sender)))
            && (IsStakeCall(tx) || Withdraws(m, db, tx) ==>
                after.state.value.stakes == db.state.value.stakes[sender := Wrap256(StakeAfter(m, db, tx))])
            && sender in Balances(db.ledger) && tx.value <= BalanceOf(db.ledger, sender)
  {
    hide Wrap256, Basic, Dispatch;
    var sender := m.addressOf(tx.publicKey);
    BasicBalance(db.ledger, sender);
    BasicBalance(Dispatch(m, db, tx, view).ledger, sender);
    DispatchEffect(m, db, tx, view);
    var mid := Dispatch(m, db, tx, view).ledger;
    assert sender in Balances(db.ledger) && Balances(db.ledger)[sender] == BalanceOf(db.ledger, sender);
    assert sender in Balances(mid) && Balances(mid)[sender] == BalanceOf(mid, sender);
    if Withdraws(m, db, tx) {
      WrapTwice(BalanceOf(db.ledger, sender) + StakeOf(db.state.value, sender), -(tx.value as int));
    }
    var paid := Wrap256(BalanceOf(mid, sender) - tx.value);
    assert paid == Wrap256(BalanceAfter(m, db, tx));
    assert Balances(SystemCall(m, db, tx, view).value.ledger) == Balances(mid)[sender := paid];
    assert Balances(mid)[sender := paid] == Balances(db.ledger)[sender := paid];
  }

  /** The accepted call adds past 2^256, in the sender's stake or in its balance. */
  predicate CallWraps(m: Machine, db: Db, tx: Transaction, view: View) {
    && db.state.Some? && SystemCall(m, db, tx, view).Ok?
    && (StakeAfter(m, db, tx) >= TWO_256 || BalanceAfter(m, db, tx) >= TWO_256)
  }

  /** An accepted call keeps balances and stakes within 256 bits and loses exactly 2^256 if it wraps
      around, and nothing otherwise. */
  lemma CallConserves(m: Machine, db: Db, tx: Transaction, view: View)
    requires Fits(db) && tx.to == Some(SYSTEM_CONTRACT) && SystemCall(m, db, tx, view).Ok?
    ensures var after := SystemCall(m, db, tx, view).value;
            && Fits(after)
            && Total(after) + CallBurn(m, db, tx, view) + (if CallWraps(m, db, tx, view) then TWO_256 else 0) == Total(db)
  {
    hide Wrap256, Dispatch;
    var after := SystemCall(m, db, tx, view).value;
    var sender := m.addressOf(tx.publicKey);
    CallEffect(m, db, tx, view);
    assert BalanceOf(db.ledger, sender) < TWO_256 && StakeOf(db.state.value, sender) < TWO_256;
    SumUpdate(Balances(db.ledger), sender, Wrap256(BalanceAfter(m, db, tx)));
    SumUpdate(db.state.value.stakes, sender, Wrap256(StakeAfter(m, db, tx)));
    assert Balances(db.ledger)[sender] == BalanceOf(db.ledger, sender);
    WrapOnce(StakeAfter(m, db, tx));
    WrapOnce(BalanceAfter(m, db, tx));
    CallFits(m, db, tx, after);
  }

  lemma WrapOnce(x: nat)
    ensures Wrap256(x) < TWO_256
    ensures x < TWO_256 ==> Wrap256(x) == x
    ensures TWO_256 <= x < 2 * TWO_256 ==> Wrap256(x) == x - TWO_256
  {
  }

  lemma CallFits(m: Machine, db: Db, tx: Transaction, after: Db)
    requires Fits(db) && !after.overlay && after.state.Some?
    requires var sender := m.addressOf(tx.publicKey);
      && Balances(after.ledger) == Balances(db.ledger)[sender := Wrap256(BalanceAfter(m, db, tx))]
      && (after.state.value.stakes == db.state.value.stakes[sender := Wrap256(StakeAfter(m, db, tx))]
          || after.state.value.stakes == db.state.value.stakes)
    ensures Fits(after)
  {
    hide Wrap256;
    WrapOnce(StakeAfter(m, db, tx));
    WrapBounded(BalanceAfter(m, db, tx));
    forall a ensures BalanceOf(after.ledger, a) < TWO_256 && StakeOf(after.state.value, a) < TWO_256 {
      assert BalanceOf(db.ledger, a) < TWO_256 && StakeOf(db.state.value, a) < TWO_256;
      assert a in Balances(after.ledger) ==> Balances(after.ledger)[a] == BalanceOf(after.ledger, a);
      assert a in Balances(db.ledger) ==> Balances(db.ledger)[a] == BalanceOf(db.ledger, a);
      assert a in Balances(after.ledger) <==> a in after.ledger.accounts;
    }
  }

  lemma WrapBounded(x: int)
    ensures Wrap256(x) < TWO_256
  {
  }

  /** So a call conserves funds if and only if it does not wrap. */
  lemma CallConservesIff(m: Machine, db: Db, tx: Transaction, view: View)
    requires Fits(db) && tx.to == Some(SYSTEM_CONTRACT) && SystemCall(m, db, tx, view).Ok?
    ensures var after := SystemCall(m, db, tx, view).value;
            && after.state.Some?
            && (Total(after) + CallBurn(m, db, tx, view) == Total(db)
                <==> StakeAfter(m, db, tx) < TWO_256 && BalanceAfter(m, db, tx) < TWO_256)
  {
    hide SystemCall, Total;
    CallConserves(m, db, tx, view);
  }

  // ---- Payloads, blocks and chains ----

  /** A successful EVM transaction moves balances without creating or destroying any. */
  ghost predicate EvmConserves(m: Machine) {
    forall db: Db, tx, fee ::
      var out := m.evm(db.ledger, tx, fee);
      out.EvmDone? && out.status == 1 && BalancesFit(db.ledger) ==>
        var after := CommitWrites(m, db, out.writes).ledger;
        BalancesFit(after) && Sum(Balances(after)) == Sum(Balances(db.ledger))
  }

  /** System calls only, or an EVM that conserves. */
  ghost predicate Covered(m: Machine, txs: seq<Transaction>) {
    EvmConserves(m) || forall tx :: tx in txs ==> tx.to == Some(SYSTEM_CONTRACT)
  }

  /** How many accepted calls wrap around. */
  function PayloadWraps(m: Machine, p: Progress, block: Block, txs: seq<Transaction>): nat
    decreases |txs|
  {
    if txs == [] || p.error.Some? then 0
    else
      (if Calls(m, txs[0]) && CallWraps(m, p.db, txs[0], block.view) then 1 else 0)
      + PayloadWraps(m, RunTx(m, p, block, txs[0]), block, txs[1..])
  }

  function BlockWraps(m: Machine, db: Db, block: Block): nat {
    if GasLimitError(m, block.payload).Some? then 0
    else PayloadWraps(m, Progress(AfterSlashing(m, db, block), [], 0, None), block, block.payload)
  }

  ghost function ChainWraps(m: Machine, db: Db, blocks: seq<Block>): nat {
    if blocks == [] then 0
    else
      var before := blocks[..|blocks| - 1];
      ChainWraps(m, db, before) + BlockWraps(m, Lifecycle.After(m, db, before), blocks[|blocks| - 1])
  }

  lemma TxConserves(m: Machine, p: Progress, block: Block, tx: Transaction)
    requires Fits(p.db) && Covered(m, [tx])
    ensures var after := RunTx(m, p, block, tx).db;
            && Fits(after)
            && Total(after) + (if Calls(m, tx) then CallBurn(m, p.db, tx, block.view) else 0)
               + (if Calls(m, tx) && CallWraps(m, p.db, tx, block.view) then TWO_256 else 0) == Total(p.db)
  {
    hide SystemCall, CommitWrites, StakeAfter, BalanceAfter;
    if Calls(m, tx) {
      if SystemCall(m, p.db, tx, block.view).Ok? {
        CallConserves(m, p.db, tx, block.view);
      }
    } else if tx.to != Some(SYSTEM_CONTRACT) {
      assert tx in [tx];
      var out := m.evm(p.db.ledger, tx, block.baseFeePerGas);
      if out.EvmDone? {
        WritesKeepRecord(m, p.db, out.writes);
      }
    }
  }

  lemma {:induction false} PayloadConserves(m: Machine, p: Progress, block: Block, txs: seq<Transaction>)
    requires Fits(p.db) && Covered(m, txs)
    ensures Fits(RunPayload(m, p, block, txs).db)
    ensures Total(RunPayload(m, p, block, txs).db) + PayloadBurn(m, p, block, txs)
            + TWO_256 * PayloadWraps(m, p, block, txs) == Total(p.db)
    decreases |txs|
  {
    hide RunTx, CallWraps, CallBurn, EvmConserves, Calls, Fits;
    if txs != [] && p.error.None? {
      assert forall tx :: tx in [txs[0]] || tx in txs[1..] ==> tx in txs;
      TxConserves(m, p, block, txs[0]);
      FitsHasState(RunTx(m, p, block, txs[0]).db);
      PayloadConserves(m, RunTx(m, p, block, txs[0]), block, txs[1..]);
    }
  }

  lemma FitsHasState(db: Db)
    requires Fits(db)
    ensures db.state.Some?
  {
  }

  lemma BlockConserves(m: Machine, db: Db, block: Block)
    requires Fits(db) && Covered(m, block.payload)
    ensures Fits(ExecuteBlock(m, db, block).db)
    ensures Total(ExecuteBlock(m, db, block).db) + BlockBurn(m, db, block) + TWO_256 * BlockWraps(m, db, block) == Total(db)
  {
    hide SlashAll, Liveness, RunPayload, SlashAllBurn, TimeoutBurn, PayloadBurn, PayloadWraps, Covered, Fits, Queues, GasLimitError, Total;
    FitsHasState(db);
    SlashAllConserves(m, db, block.evidence);
    TimeoutConserves(m, SlashAll(m, db, block.evidence), block);
    PayloadConserves(m, Progress(AfterSlashing(m, db, block), [], 0, None), block, block.payload);
    QueuesConserve(AfterPayload(m, db, block).db, block.view);
  }

  lemma QueuesConserve(db: Db, view: View)
    requires Fits(db)
    ensures Fits(Queues(db, view)) && Total(Queues(db, view)) == Total(db)
  {
    var s, s1 := db.state.value, Queues(db, view).state.value;
    assert s1.stakes == s.stakes;
    forall a ensures StakeOf(s1, a) < TWO_256 {
      assert StakeOf(s, a) < TWO_256;
    }
  }

  /** Over any chain of blocks, failing ones included: what is missing is exactly what was burned,
      plus 2^256 for each accepted call that wrapped around. */
  lemma {:induction false} Conservation(m: Machine, db: Db, blocks: seq<Block>)
    requires Fits(db) && forall b :: b in blocks ==> Covered(m, b.payload)
    ensures Fits(Lifecycle.After(m, db, blocks))
    ensures Total(Lifecycle.After(m, db, blocks)) + ChainBurn(m, db, blocks) + TWO_256 * ChainWraps(m, db, blocks) == Total(db)
  {
    hide ExecuteBlock, BlockBurn, BlockWraps, Covered, Fits;
    if blocks != [] {
      var before := blocks[..|blocks| - 1];
      Conservation(m, db, before);
      FitsHasState(Lifecycle.After(m, db, before));
      BlockConserves(m, Lifecycle.After(m, db, before), blocks[|blocks| - 1]);
    }
  }

  /** So funds only ever shrink, and are conserved up to what was burned if and only if no accepted
      call of the chain wraps. */
  lemma ConservedIff(m: Machine, db: Db, blocks: seq<Block>)
    requires Fits(db) && forall b :: b in blocks ==> Covered(m, b.payload)
    ensures Fits(Lifecycle.After(m, db, blocks))
    ensures Total(Lifecycle.After(m, db, blocks)) + ChainBurn(m, db, blocks) <= Total(db)
    ensures Total(Lifecycle.After(m, db, blocks)) + ChainBurn(m, db, blocks) == Total(db) <==> ChainWraps(m, db, blocks) == 0
  {
    hide Covered, Fits, Total;
    Conservation(m, db, blocks);
    FitsHasState(Lifecycle.After(m, db, blocks));
  }

  // ---- The chain the program starts ----

  ghost function GenesisDb(env: Consensus.Env, me: PublicKey, committee: seq<PublicKey>, ledger: Ledger, limit: nat): Db {
    var n := Consensus.Start(env, me, committee, Consensus.Disk(map[], map[], None, ledger), limit);
    Db(n.disk.state, n.disk.ledger, false)
  }

  /** A node started on an empty disk meets the hypothesis, although its genesis account holds
      2^256 - 1 and may hold a stake on top. */
  lemma GenesisFits(env: Consensus.Env, me: PublicKey, committee: seq<PublicKey>, ledger: Ledger, limit: nat)
    requires BalancesFit(ledger)
    ensures Fits(GenesisDb(env, me, committee, ledger, limit))
    ensures var db := GenesisDb(env, me, committee, ledger, limit);
            var genesis := env.addressOf(env.genesisKey);
            && BalanceOf(db.ledger, genesis) == TWO_256 - 1
            && (env.genesisKey in committee ==> StakeOf(db.state.value, genesis) == 5000)
  {
    var db := GenesisDb(env, me, committee, ledger, limit);
    forall a ensures BalanceOf(db.ledger, a) < TWO_256 {
      assert BalanceOf(ledger, a) < TWO_256;
    }
  }

  /** And the loss is real there: the genesis validator staking its whole balance wraps. */
  lemma GenesisCallWraps(env: Consensus.Env, m: Machine, me: PublicKey, committee: seq<PublicKey>, ledger: Ledger, limit: nat,
                         tx: Transaction, view: View)
    requires BalancesFit(ledger) && env.genesisKey in committee && m.addressOf(env.genesisKey) == env.addressOf(env.genesisKey)
    requires tx.publicKey == env.genesisKey && IsStakeCall(tx) && tx.value == TWO_256 - 1
    ensures var db := GenesisDb(env, me, committee, ledger, limit);
            && SystemCall(m, db, tx, view).Ok? && CallWraps(m, db, tx, view)
            && var after := SystemCall(m, db, tx, view).value;
               after.state.Some? && db.state.Some? && Total(after) + TWO_256 == Total(db)
  {
    var db := GenesisDb(env, me, committee, ledger, limit);
    GenesisFits(env, me, committee, ledger, limit);
    hide GenesisDb, Dispatch, Total;
    BasicBalance(db.ledger, m.addressOf(tx.publicKey));
    CallConserves(m, db, tx, view);
  }

  // ---- Stakes of engaged keys ----

  predicate Engaged(s: ConsensusState, key: PublicKey) {
    key in s.committee || HasKey(s.pending, key) || HasKey(s.exiting, key)
  }

  /** The accepted call is a stake call of this key whose sum passes 2^256. */
  predicate StakeWraps(m: Machine, db: Db, tx: Transaction, view: View, key: PublicKey) {
    && db.state.Some? && tx.publicKey == key && IsStakeCall(tx) && SystemCall(m, db, tx, view).Ok?
    && StakeAfter(m, db, tx) >= TWO_256
  }

  /** An accepted call lowers the stake of an engaged key exactly when it is that key's own stake
      call and wraps. */
  lemma EngagedCall(m: Machine, db: Db, tx: Transaction, view: View, key: PublicKey)
    requires Injective(m.addressOf) && !db.overlay && db.state.Some? && Engaged(db.state.value, key)
    requires tx.to == Some(SYSTEM_CONTRACT) && SystemCall(m, db, tx, view).Ok?
    ensures var after := SystemCall(m, db, tx, view).value;
            && !after.overlay && after.state.Some? && Engaged(after.state.value, key)
            && (!StakeWraps(m, db, tx, view, key) ==>
                StakeOf(after.state.value, m.addressOf(key)) >= StakeOf(db.state.value, m.addressOf(key)))
            && (StakeWraps(m, db, tx, view, key) && Fits(db) ==>
                StakeOf(after.state.value, m.addressOf(key)) < StakeOf(db.state.value, m.addressOf(key)))
  {
    hide Wrap256;
    CallEffect(m, db, tx, view);
    EngagedKept(m, db, tx, view, key);
    var sender, address := m.addressOf(tx.publicKey), m.addressOf(key);
    WrapOnce(StakeAfter(m, db, tx));
    if StakeWraps(m, db, tx, view, key) && Fits(db) {
      assert BalanceOf(db.ledger, sender) < TWO_256 && StakeOf(db.state.value, sender) < TWO_256;
    }
  }

  lemma EngagedKept(m: Machine, db: Db, tx: Transaction, view: View, key: PublicKey)
    requires !db.overlay && db.state.Some? && Engaged(db.state.value, key) && SystemCall(m, db, tx, view).Ok?
    ensures var after := SystemCall(m, db, tx, view).value; after.state.Some? && Engaged(after.state.value, key)
  {
    var s := SystemCall(m, db, tx, view).value.state.value;
    assert s.committee == db.state.value.committee;
    assert forall p :: p in db.state.value.pending ==> p in s.pending;
    assert forall p :: p in db.state.value.exiting ==> p in s.exiting;
  }

  /** Some stake call of the key in the payload wraps. */
  predicate PayloadStakeWraps(m: Machine, p: Progress, block: Block, txs: seq<Transaction>, key: PublicKey)
    decreases |txs|
  {
    txs != [] && p.error.None?
    && ((Calls(m, txs[0]) && StakeWraps(m, p.db, txs[0], block.view, key))
        || PayloadStakeWraps(m, RunTx(m, p, block, txs[0]), block, txs[1..], key))
  }

  lemma EngagedTx(m: Machine, p: Progress, block: Block, tx: Transaction, key: PublicKey)
    requires Injective(m.addressOf) && !p.db.overlay && p.db.state.Some? && Engaged(p.db.state.value, key)
    requires !(Calls(m, tx) && StakeWraps(m, p.db, tx, block.view, key))
    ensures var after := RunTx(m, p, block, tx).db;
            && !after.overlay && after.state.Some? && Engaged(after.state.value, key)
            && StakeOf(after.state.value, m.addressOf(key)) >= StakeOf(p.db.state.value, m.addressOf(key))
  {
    hide SystemCall, CommitWrites, StakeWraps, Engaged;
    if Calls(m, tx) {
      if SystemCall(m, p.db, tx, block.view).Ok? {
        EngagedCall(m, p.db, tx, block.view, key);
      }
    } else {
      var out := m.evm(p.db.ledger, tx, block.baseFeePerGas);
      if out.EvmDone? {
        WritesKeepRecord(m, p.db, out.writes);
      }
    }
  }

  /** While a key is active, pending or exiting, only slashing lowers its stake: the payload and
      the queue step of a block never do unless a stake call of its own wraps. EVM transactions are
      free to do anything. */
  lemma {:induction false} EngagedStakeHeld(m: Machine, p: Progress, block: Block, txs: seq<Transaction>, key: PublicKey)
    requires Injective(m.addressOf) && !p.db.overlay && p.db.state.Some? && Engaged(p.db.state.value, key)
    requires !PayloadStakeWraps(m, p, block, txs, key)
    ensures var after := RunPayload(m, p, block, txs).db;
            && !after.overlay && after.state.Some?
            && StakeOf(after.state.value, m.addressOf(key)) >= StakeOf(p.db.state.value, m.addressOf(key))
            && !Queues(after, block.view).overlay && Queues(after, block.view).state.Some?
            && Queues(after, block.view).state.value.stakes == after.state.value.stakes
    decreases |txs|
  {
    hide RunTx, StakeWraps, Calls, Engaged, StakeOf;
    if txs != [] && p.error.None? {
      EngagedTx(m, p, block, txs[0], key);
      EngagedStakeHeld(m, RunTx(m, p, block, txs[0]), block, txs[1..], key);
    }
  }

  /** For a whole block: what slashing leaves an engaged key is not lowered any further. */
  lemma EngagedBlock(m: Machine, db: Db, block: Block, key: PublicKey)
    requires Injective(m.addressOf) && HeldThrough(m, db, block, key)
    ensures var after := ExecuteBlock(m, db, block).db;
            && !after.overlay && after.state.Some?
            && StakeOf(after.state.value, m.addressOf(key)) >= StakeOf(AfterSlashing(m, db, block).state.value, m.addressOf(key))
  {
    hide SlashAll, Liveness, RunPayload, GasLimitError, Queues, Engaged, PayloadStakeWraps;
    EngagedStakeHeld(m, Progress(AfterSlashing(m, db, block), [], 0, None), block, block.payload, key);
  }

  /** The key is engaged once slashing is done, and none of its stake calls in the block wraps. */
  ghost predicate HeldThrough(m: Machine, db: Db, block: Block, key: PublicKey) {
    var slashed := AfterSlashing(m, db, block);
    && !slashed.overlay && slashed.state.Some? && Engaged(slashed.state.value, key)
    && !PayloadStakeWraps(m, Progress(slashed, [], 0, None), block, block.payload, key)
  }

  function StakeIn(db: Db, address: Address): nat {
    if db.state.Some? then StakeOf(db.state.value, address) else 0
  }

  /** What evidence takes from an address: up to 1000 for each accepted item against it. */
  function EvidenceLoss(m: Machine, db: Db, evidence: seq<Evidence>, address: Address): nat
    decreases |evidence|
  {
    if evidence == [] then 0
    else
      (if Slashes(m, db, evidence[0]) && m.addressOf(evidence[0].voteA.author) == address then Least(StakeIn(db, address), 1000) else 0)
      + EvidenceLoss(m, Slash(m, db, evidence[0]), evidence[1..], address)
  }

  /** What the certificate of a block takes from an address: up to 10 if its timeout is charged to it. */
  function TimeoutLoss(m: Machine, db: Db, block: Block, address: Address): nat {
    if db.state.Some? && TimeoutCharged(db.state.value, block.justify) && m.addressOf(FailedLeader(db.state.value, block.justify)) == address
    then Least(StakeIn(db, address), 10) else 0
  }

  lemma {:induction false} EvidenceLossExact(m: Machine, db: Db, evidence: seq<Evidence>, address: Address)
    requires !db.overlay && db.state.Some?
    ensures var after := SlashAll(m, db, evidence);
            !after.overlay && after.state.Some? && StakeIn(after, address) + EvidenceLoss(m, db, evidence, address) == StakeIn(db, address)
    decreases |evidence|
  {
    if evidence != [] {
      EvidenceLossExact(m, Slash(m, db, evidence[0]), evidence[1..], address);
    }
  }

  lemma TimeoutLossExact(m: Machine, db: Db, block: Block, address: Address)
    requires !db.overlay && db.state.Some?
    ensures StakeIn(Liveness(m, db, block), address) + TimeoutLoss(m, db, block, address) == StakeIn(db, address)
  {
  }

  /** What the slashing phases of a chain took from a key. */
  ghost function ChainSlashed(m: Machine, db: Db, blocks: seq<Block>, key: PublicKey): nat
  {
    if blocks == [] then 0
    else
      var before, last := blocks[..|blocks| - 1], blocks[|blocks| - 1];
      var d := Lifecycle.After(m, db, before);
      ChainSlashed(m, db, before, key) + EvidenceLoss(m, d, last.evidence, m.addressOf(key))
      + TimeoutLoss(m, SlashAll(m, d, last.evidence), last, m.addressOf(key))
  }

  /** Over a chain through which the key stays engaged: its stake is down by at most what the
      slashing phases took: up to 1000 per accepted evidence against it, up to 10 per timeout charged. */
  lemma {:induction false} EngagedChain(m: Machine, db: Db, blocks: seq<Block>, key: PublicKey)
    requires Injective(m.addressOf) && !db.overlay && db.state.Some?
    requires forall i :: 0 <= i < |blocks| ==> HeldThrough(m, Lifecycle.After(m, db, blocks[..i]), blocks[i], key)
    ensures var after := Lifecycle.After(m, db, blocks);
            && !after.overlay && after.state.Some?
            && StakeIn(after, m.addressOf(key)) + ChainSlashed(m, db, blocks, key) >= StakeIn(db, m.addressOf(key))
  {
    hide ExecuteBlock, HeldThrough, SlashAll, Liveness, StakeOf, EvidenceLoss, TimeoutLoss;
    if blocks != [] {
      var k := |blocks| - 1;
      var before := blocks[..k];
      forall i | 0 <= i < k ensures HeldThrough(m, Lifecycle.After(m, db, before[..i]), before[i], key) {
        assert before[..i] == blocks[..i] && before[i] == blocks[i];
      }
      EngagedChain(m, db, before, key);
      assert HeldThrough(m, Lifecycle.After(m, db, blocks[..k]), blocks[k], key);
      EngagedBlock(m, Lifecycle.After(m, db, before), blocks[k], key);
      SlashedHasState(m, Lifecycle.After(m, db, before), blocks[k], key);
      EvidenceLossExact(m, Lifecycle.After(m, db, before), blocks[k].evidence, m.addressOf(key));
      TimeoutLossExact(m, SlashAll(m, Lifecycle.After(m, db, before), blocks[k].evidence), blocks[k], m.addressOf(key));
    }
  }

  lemma SlashedHasState(m: Machine, db: Db, block: Block, key: PublicKey)
    requires HeldThrough(m, db, block, key)
    ensures AfterSlashing(m, db, block).state.Some?
  {
  }
}
