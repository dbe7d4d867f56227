/** What executing a block does to the database: evidence slashing, leader penalties, the payload,
    and the validator queues, as functions on a database value. */
module Vm {
  import opened Types
  import opened Collections
  import Receipts

  const MIN_STAKE: nat := 2000
  const SLASH_AMOUNT: nat := 1000
  const LIVENESS_PENALTY: nat := 10
  const MAX_INACTIVITY: nat := 50
  const QUEUE_DELAY: nat := 10

  const STAKE_SELECTOR: seq<Byte> := [0x3a, 0x4b, 0x66, 0xf1]
  const UNSTAKE_SELECTOR: seq<Byte> := [0x2e, 0x17, 0xde, 0x78]
  const WITHDRAW_SELECTOR: seq<Byte> := [0x3c, 0xcf, 0xd6, 0x0b]

  datatype ExecutionError =
    | TxGasLimitTooHigh | BlockGasLimitExceeded | InvalidSender
    | MissingSender | InsufficientBalance | EvmFailure

  datatype AccountWrite = AccountWrite(address: Address, info: AccountInfo, slots: seq<(nat, nat)>)

  datatype EvmOutcome =
    | EvmError
    | EvmDone(status: nat, gasUsed: nat, writes: seq<AccountWrite>, logs: seq<Log>)

  /** What the executor is built on: address derivation, the EVM, the account tree and digests. */
  datatype Machine = Machine(
    addressOf: PublicKey -> Address,
    evm: (Ledger, Transaction, nat) -> EvmOutcome,
    treeUpdate: (Hash, Address, AccountInfo) -> Hash,
    receiptHash: Receipt -> Hash,
    pairHash: Receipts.PairHash,
    blockGasLimit: nat)

  /** The database an executor works on. An overlay ignores writes of the consensus record. */
  datatype Db = Db(state: Option<ConsensusState>, ledger: Ledger, overlay: bool)

  function SaveState(db: Db, state: ConsensusState): Db {
    if db.overlay then db else db.(state := Some(state))
  }

  function CommitAccount(m: Machine, db: Db, address: Address, info: AccountInfo): Db {
    db.(ledger := db.ledger.(accounts := db.ledger.accounts[address := info],
                             root := m.treeUpdate(db.ledger.root, address, info)))
  }

  /** An account as the EVM sees it: its code is looked up when it is not cached. */
  function Basic(ledger: Ledger, address: Address): Option<AccountInfo> {
    if address !in ledger.accounts then None
    else
      var info := ledger.accounts[address];
      if info.code.Some? || info.codeHash == ZERO_HASH then Some(info)
      else if info.codeHash in ledger.code then Some(info.(code := Some(ledger.code[info.codeHash])))
      else Some(info)
  }

  function Deduct(stake: nat, amount: nat): (r: nat)
    ensures r + (if stake < amount then stake else amount) == stake
  {
    if stake < amount then 0 else stake - amount
  }

  // ---- Equivocation slashing ----

  predicate AcceptedEvidence(e: Evidence) {
    && e.voteA.author == e.voteB.author
    && e.voteA.view == e.voteB.view
    && e.voteA.blockHash != e.voteB.blockHash
    && Verify(e.voteA.author, e.voteA.blockHash, e.voteA.signature)
    && Verify(e.voteB.author, e.voteB.blockHash, e.voteB.signature)
  }

  function RemovePending(pending: seq<(PublicKey, View)>, key: PublicKey): (r: seq<(PublicKey, View)>)
    ensures forall p :: p in r ==> p in pending
    ensures forall p :: p in pending && p.0 != key ==> p in r
  {
    if pending == [] then []
    else if pending[0].0 == key then pending[1..]
    else [pending[0]] + RemovePending(pending[1..], key)
  }

  /** Takes the fixed amount from the offender; below the minimum the offender leaves the pending
      queue and the committee. */
  function SlashRecord(m: Machine, s: ConsensusState, offender: PublicKey): ConsensusState
    requires m.addressOf(offender) in s.stakes
  {
    var address := m.addressOf(offender);
    var left := Deduct(s.stakes[address], SLASH_AMOUNT);
    var s1 := s.(stakes := s.stakes[address := left]);
    if left < MIN_STAKE then
      s1.(pending := RemovePending(s1.pending, offender), committee := RemoveFirst(s1.committee, offender))
    else s1
  }

  predicate Slashes(m: Machine, db: Db, e: Evidence) {
    AcceptedEvidence(e) && db.state.Some? && m.addressOf(e.voteA.author) in db.state.value.stakes
  }

  function Slash(m: Machine, db: Db, e: Evidence): Db {
    if Slashes(m, db, e) then SaveState(db, SlashRecord(m, db.state.value, e.voteA.author)) else db
  }

  function SlashAll(m: Machine, db: Db, evidence: seq<Evidence>): Db
    decreases |evidence|
  {
    if evidence == [] then db else SlashAll(m, Slash(m, db, evidence[0]), evidence[1..])
  }

  // ---- Leader inactivity ----

  predicate TimeoutCharged(s: ConsensusState, qc: QuorumCertificate) {
    qc.blockHash == ZERO_HASH && qc.view > 0 && |s.committee| > 0
  }

  function FailedLeader(s: ConsensusState, qc: QuorumCertificate): (key: PublicKey)
    requires TimeoutCharged(s, qc)
    ensures key in s.committee
  {
    s.committee[qc.view % |s.committee|]
  }

  function RewardAuthor(s: ConsensusState, author: PublicKey): ConsensusState {
    if author in s.scores && s.scores[author] > 0
    then s.(scores := s.scores[author := s.scores[author] - 1])
    else s
  }

  function Charge(m: Machine, s: ConsensusState, leader: PublicKey): ConsensusState {
    var score := (if leader in s.scores then s.scores[leader] else 0) + 1;
    var s1 := s.(scores := s.scores[leader := score]);
    var address := m.addressOf(leader);
    var s2 :=
      if address in s1.stakes
      then s1.(stakes := s1.stakes[address := Deduct(s1.stakes[address], LIVENESS_PENALTY)])
      else s1;
    if score > MAX_INACTIVITY && leader in s2.committee
    then s2.(committee := RemoveFirst(s2.committee, leader), scores := s2.scores - {leader})
    else s2
  }

  function LivenessRecord(m: Machine, s: ConsensusState, block: Block): ConsensusState {
    var s1 := RewardAuthor(s, block.author);
    if TimeoutCharged(s1, block.justify) then Charge(m, s1, FailedLeader(s1, block.justify)) else s1
  }

  /** The record is written back exactly when it differs, so the write gate is not visible here. */
  function Liveness(m: Machine, db: Db, block: Block): Db {
    if db.state.None? then db else SaveState(db, LivenessRecord(m, db.state.value, block))
  }

  // ---- System contract ----

  predicate HasKey(queue: seq<(PublicKey, View)>, key: PublicKey) {
    exists p :: p in queue && p.0 == key
  }

  function Selector(tx: Transaction): seq<Byte> {
    if |tx.data| >= 4 then tx.data[..4] else []
  }

  predicate IsStakeCall(tx: Transaction) {
    tx.to == Some(SYSTEM_CONTRACT) && Selector(tx) == STAKE_SELECTOR && tx.value >= MIN_STAKE
  }

  predicate IsUnstakeCall(tx: Transaction) {
    tx.to == Some(SYSTEM_CONTRACT) && Selector(tx) == UNSTAKE_SELECTOR
  }

  function StakeOf(s: ConsensusState, address: Address): nat {
    if address in s.stakes then s.stakes[address] else 0
  }

  function StakeRecord(m: Machine, s: ConsensusState, tx: Transaction, view: View): ConsensusState {
    var address := m.addressOf(tx.publicKey);
    var s1 := s.(stakes := s.stakes[address := Wrap256(StakeOf(s, address) + tx.value)]);
    if tx.publicKey in s1.committee || HasKey(s1.pending, tx.publicKey) then s1
    else s1.(pending := s1.pending + [(tx.publicKey, view + QUEUE_DELAY)])
  }

  function UnstakeRecord(s: ConsensusState, tx: Transaction, view: View): ConsensusState {
    if tx.publicKey in s.committee
    then s.(exiting := s.exiting + [(tx.publicKey, view + QUEUE_DELAY)])
    else s
  }

  predicate CanWithdraw(m: Machine, s: ConsensusState, key: PublicKey) {
    && key !in s.committee && !HasKey(s.pending, key) && !HasKey(s.exiting, key)
    && StakeOf(s, m.addressOf(key)) > 0
  }

  function Credited(account: Option<AccountInfo>, amount: nat): AccountInfo {
    var info := if account.Some? then account.value else AccountInfo(0, 0, ZERO_HASH, None);
    info.(balance := Wrap256(info.balance + amount))
  }

  function Withdraw(m: Machine, db: Db, s: ConsensusState, key: PublicKey): Db {
    var address := m.addressOf(key);
    if CanWithdraw(m, s, key) then
      var db1 := SaveState(db, s.(stakes := s.stakes[address := 0]));
      CommitAccount(m, db1, address, Credited(Basic(db1.ledger, address), StakeOf(s, address)))
    else db
  }

  /** The selected function, without the deduction of the call's value. */
  function Dispatch(m: Machine, db: Db, tx: Transaction, view: View): Db {
    if db.state.None? then db
    else if Selector(tx) == STAKE_SELECTOR then
      if tx.value < MIN_STAKE then db
      else SaveState(db, StakeRecord(m, db.state.value, tx, view))
    else if Selector(tx) == UNSTAKE_SELECTOR then SaveState(db, UnstakeRecord(db.state.value, tx, view))
    else if Selector(tx) == WITHDRAW_SELECTOR then Withdraw(m, db, db.state.value, tx.publicKey)
    else db
  }

  function Paid(account: Option<AccountInfo>, value: nat): AccountInfo {
    var info := if account.Some? then account.value else AccountInfo(0, 0, ZERO_HASH, None);
    info.(nonce := info.nonce + 1, balance := Wrap256(info.balance - value))
  }

  function SystemCall(m: Machine, db: Db, tx: Transaction, view: View): Result<Db, ExecutionError> {
    var sender := m.addressOf(tx.publicKey);
    var account := Basic(db.ledger, sender);
    if account.None? then Err(MissingSender)
    else if account.value.balance < tx.value then Err(InsufficientBalance)
    else
      var db1 := Dispatch(m, db, tx, view);
      Ok(CommitAccount(m, db1, sender, Paid(Basic(db1.ledger, sender), tx.value)))
  }

  // ---- The payload ----

  datatype Progress = Progress(db: Db, receipts: seq<Receipt>, gasUsed: nat, error: Option<ExecutionError>)

  function CommitSlots(ledger: Ledger, address: Address, slots: seq<(nat, nat)>): Ledger
    decreases |slots|
  {
    if slots == [] then ledger
    else CommitSlots(ledger.(slots := ledger.slots[(address, slots[0].0) := slots[0].1]), address, slots[1..])
  }

  function CommitWrites(m: Machine, db: Db, writes: seq<AccountWrite>): Db
    decreases |writes|
  {
    if writes == [] then db
    else
      var db1 := CommitAccount(m, db, writes[0].address, writes[0].info);
      var db2 := db1.(ledger := CommitSlots(db1.ledger, writes[0].address, writes[0].slots));
      CommitWrites(m, db2, writes[1..])
  }

  /** EVM writes never reach the consensus record. */
  lemma {:induction false} WritesKeepRecord(m: Machine, db: Db, writes: seq<AccountWrite>)
    ensures CommitWrites(m, db, writes).state == db.state
    ensures CommitWrites(m, db, writes).overlay == db.overlay
    decreases |writes|
  {
    if writes != [] {
      var db1 := CommitAccount(m, db, writes[0].address, writes[0].info);
      WritesKeepRecord(m, db1.(ledger := CommitSlots(db1.ledger, writes[0].address, writes[0].slots)), writes[1..]);
    }
  }

  function RunTx(m: Machine, p: Progress, block: Block, tx: Transaction): Progress {
    if m.addressOf(tx.publicKey) == ZERO_ADDRESS then p.(error := Some(InvalidSender))
    else if tx.to == Some(SYSTEM_CONTRACT) then
      match SystemCall(m, p.db, tx, block.view)
      case Err(e) => p.(error := Some(e))
      case Ok(db1) => p.(db := db1, receipts := p.receipts + [Receipt(1, p.gasUsed, [])])
    else
      match m.evm(p.db.ledger, tx, block.baseFeePerGas)
      case EvmError => p.(error := Some(EvmFailure))
      case EvmDone(status, gas, writes, logs) =>
        var ok := status == 1;
        Progress(if ok then CommitWrites(m, p.db, writes) else p.db,
                 p.receipts + [Receipt(status, p.gasUsed + gas, if ok then logs else [])],
                 p.gasUsed + gas, None)
  }

  function RunPayload(m: Machine, p: Progress, block: Block, txs: seq<Transaction>): Progress
    decreases |txs|
  {
    if txs == [] || p.error.Some? then p else RunPayload(m, RunTx(m, p, block, txs[0]), block, txs[1..])
  }

  /** The first transaction with a gas limit above one of the two caps decides the error. */
  function GasLimitError(m: Machine, txs: seq<Transaction>): Option<ExecutionError> {
    if txs == [] then None
    else if txs[0].gasLimit > MAX_TX_GAS_LIMIT then Some(TxGasLimitTooHigh)
    else if txs[0].gasLimit > m.blockGasLimit then Some(BlockGasLimitExceeded)
    else GasLimitError(m, txs[1..])
  }

  // ---- Queues at the end of a block ----

  function Due(queue: seq<(PublicKey, View)>, view: View): (r: seq<(PublicKey, View)>)
    ensures forall p :: p in r <==> p in queue && p.1 <= view
  {
    if queue == [] then []
    else (if queue[0].1 <= view then [queue[0]] else []) + Due(queue[1..], view)
  }

  function NotDue(queue: seq<(PublicKey, View)>, view: View): (r: seq<(PublicKey, View)>)
    ensures forall p :: p in r <==> p in queue && p.1 > view
  {
    if queue == [] then []
    else (if queue[0].1 <= view then [] else [queue[0]]) + NotDue(queue[1..], view)
  }

  function Admit(committee: seq<PublicKey>, ready: seq<(PublicKey, View)>): (r: seq<PublicKey>)
    ensures forall k :: k in r <==> k in committee || HasKey(ready, k)
    decreases |ready|
  {
    if ready == [] then committee
    else
      var key := ready[0].0;
      assert forall k :: HasKey(ready, k) <==> k == key || HasKey(ready[1..], k) by {
        assert forall p :: p in ready <==> p == ready[0] || p in ready[1..];
      }
      Admit(if key in committee then committee else committee + [key], ready[1..])
  }

  function Dismiss(committee: seq<PublicKey>, exited: seq<(PublicKey, View)>): (r: seq<PublicKey>)
    ensures forall k :: k in r ==> k in committee
    ensures forall k :: k in committee && !HasKey(exited, k) ==> k in r
    decreases |exited|
  {
    if exited == [] then committee
    else
      assert HasKey(exited, exited[0].0);
      assert forall k :: HasKey(exited[1..], k) ==> HasKey(exited, k) by {
        assert forall p :: p in exited[1..] ==> p in exited;
      }
      Dismiss(RemoveFirst(committee, exited[0].0), exited[1..])
  }

  function QueuesRecord(s: ConsensusState, view: View): ConsensusState {
    var admitted := Admit(s.committee, Due(s.pending, view));
    s.(pending := NotDue(s.pending, view), exiting := NotDue(s.exiting, view),
       committee := Dismiss(admitted, Due(s.exiting, view)))
  }

  /** Whether some key was added to or removed from the committee on the way. */
  predicate QueuesChanged(s: ConsensusState, view: View) {
    var admitted := Admit(s.committee, Due(s.pending, view));
    admitted != s.committee || Dismiss(admitted, Due(s.exiting, view)) != admitted
  }

  /** The new record is written only if the committee was touched. */
  function Queues(db: Db, view: View): Db {
    if db.state.Some? && QueuesChanged(db.state.value, view)
    then SaveState(db, QueuesRecord(db.state.value, view))
    else db
  }

  // ---- A whole block ----

  datatype Roots = Roots(stateRoot: Hash, receiptsRoot: Hash, gasUsed: nat)

  datatype Executed = Executed(db: Db, result: Result<Roots, ExecutionError>)

  function AfterSlashing(m: Machine, db: Db, block: Block): Db {
    Liveness(m, SlashAll(m, db, block.evidence), block)
  }

  function AfterPayload(m: Machine, db: Db, block: Block): Progress {
    RunPayload(m, Progress(AfterSlashing(m, db, block), [], 0, None), block, block.payload)
  }

  /** A failing block keeps the writes made before the failure. */
  function ExecuteBlock(m: Machine, db: Db, block: Block): Executed {
    var limit := GasLimitError(m, block.payload);
    if limit.Some? then Executed(AfterSlashing(m, db, block), Err(limit.value))
    else
      var p := AfterPayload(m, db, block);
      if p.error.Some? then Executed(p.db, Err(p.error.value))
      else
        var db1 := Queues(p.db, block.view);
        Executed(db1, Ok(Roots(db1.ledger.root,
                               Receipts.Root(m.receiptHash, m.pairHash, p.receipts), p.gasUsed)))
  }
}
