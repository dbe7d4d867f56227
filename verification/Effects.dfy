/** What one transaction, one system call and one payload do to the database, told by lookups. */
module Effects {
  import opened Types
  import opened Vm
  import Receipts

  // ---- EVM writes ----

  /** The i-th write is the last one to its account. */
  ghost predicate LastWrite(writes: seq<AccountWrite>, i: nat, address: Address) {
    i < |writes| && writes[i].address == address && forall j :: i < j < |writes| ==> writes[j].address != address
  }

  ghost predicate Untouched(writes: seq<AccountWrite>, address: Address) {
    forall w :: w in writes ==> w.address != address
  }

  function SlotsOf(address: Address, slots: seq<(nat, nat)>): (r: seq<((Address, nat), nat)>)
    ensures |r| == |slots| && forall i :: 0 <= i < |slots| ==> r[i] == ((address, slots[i].0), slots[i].1)
  {
    if slots == [] then [] else [((address, slots[0].0), slots[0].1)] + SlotsOf(address, slots[1..])
  }

  /** All slot writes, in order. */
  function SlotWrites(writes: seq<AccountWrite>): seq<((Address, nat), nat)> {
    if writes == [] then []
    else SlotsOf(writes[0].address, writes[0].slots) + SlotWrites(writes[1..])
  }

  ghost predicate LastSlot(slots: seq<((Address, nat), nat)>, i: nat, key: (Address, nat)) {
    i < |slots| && slots[i].0 == key && forall j :: i < j < |slots| ==> slots[j].0 != key
  }

  ghost predicate SlotUntouched(slots: seq<((Address, nat), nat)>, key: (Address, nat)) {
    forall i :: 0 <= i < |slots| ==> slots[i].0 != key
  }

  /** The account tree with the written accounts put in, in order. */
  function TreeAfter(m: Machine, root: Hash, writes: seq<AccountWrite>): Hash
    decreases |writes|
  {
    if writes == [] then root
    else m.treeUpdate(TreeAfter(m, root, writes[..|writes| - 1]), writes[|writes| - 1].address, writes[|writes| - 1].info)
  }

  /** Each written account reads as its last write, each written slot as its last value, the root is
      that of the tree with the accounts put in, and nothing else has changed. */
  ghost predicate Applied(m: Machine, a: Db, b: Db, writes: seq<AccountWrite>) {
    && AccountsApplied(a.ledger.accounts, b.ledger.accounts, writes)
    && SlotsApplied(a.ledger.slots, b.ledger.slots, SlotWrites(writes))
    && b.ledger.code == a.ledger.code && b.ledger.root == TreeAfter(m, a.ledger.root, writes)
    && b.state == a.state && b.overlay == a.overlay
  }

  ghost predicate AccountsApplied(a: map<Address, AccountInfo>, b: map<Address, AccountInfo>, writes: seq<AccountWrite>) {
    && (forall i: nat, address :: LastWrite(writes, i, address) ==> address in b && b[address] == writes[i].info)
    && (forall address :: Untouched(writes, address) ==> Same(a, b, address))
  }

  ghost predicate SlotsApplied(a: map<(Address, nat), nat>, b: map<(Address, nat), nat>, slots: seq<((Address, nat), nat)>) {
    && (forall i: nat, key :: LastSlot(slots, i, key) ==> key in b && b[key] == slots[i].1)
    && (forall key :: SlotUntouched(slots, key) ==> Same(a, b, key))
  }

  ghost predicate Same<K, V>(a: map<K, V>, b: map<K, V>, k: K) {
    (k in a <==> k in b) && (k in a ==> a[k] == b[k])
  }

  function Put(slots: map<(Address, nat), nat>, writes: seq<((Address, nat), nat)>): map<(Address, nat), nat>
    decreases |writes|
  {
    if writes == [] then slots else Put(slots[writes[0].0 := writes[0].1], writes[1..])
  }

  lemma {:induction false} PutApplied(slots: map<(Address, nat), nat>, writes: seq<((Address, nat), nat)>)
    ensures SlotsApplied(slots, Put(slots, writes), writes)
    decreases |writes|
  {
    if writes != [] {
      var next, rest := slots[writes[0].0 := writes[0].1], writes[1..];
      PutApplied(next, rest);
      forall i: nat, key | LastSlot(writes, i, key) ensures key in Put(slots, writes) && Put(slots, writes)[key] == writes[i].1 {
        assert forall j :: 0 <= j < |rest| ==> rest[j] == writes[j + 1];
        if i == 0 {
          assert SlotUntouched(rest, key);
          assert Same(next, Put(next, rest), key);
        } else {
          assert LastSlot(rest, i - 1, key);
        }
      }
      forall key | SlotUntouched(writes, key) ensures Same(slots, Put(slots, writes), key) {
        assert SlotUntouched(rest, key);
        assert Same(next, Put(next, rest), key);
        assert writes[0].0 != key;
      }
    }
  }

  lemma {:induction false} PutAppend(slots: map<(Address, nat), nat>, a: seq<((Address, nat), nat)>, b: seq<((Address, nat), nat)>)
    ensures Put(slots, a + b) == Put(Put(slots, a), b)
    decreases |a|
  {
    if a == [] {
      assert a + b == b;
    } else {
      assert (a + b)[1..] == a[1..] + b;
      PutAppend(slots[a[0].0 := a[0].1], a[1..], b);
    }
  }

  lemma {:induction false} SlotsPut(ledger: Ledger, address: Address, slots: seq<(nat, nat)>)
    ensures CommitSlots(ledger, address, slots) == ledger.(slots := Put(ledger.slots, SlotsOf(address, slots)))
    decreases |slots|
  {
    if slots != [] {
      SlotsPut(ledger.(slots := ledger.slots[(address, slots[0].0) := slots[0].1]), address, slots[1..]);
    }
  }

  lemma {:induction false} WritesPutSlots(m: Machine, db: Db, writes: seq<AccountWrite>)
    ensures CommitWrites(m, db, writes).ledger.slots == Put(db.ledger.slots, SlotWrites(writes))
    ensures CommitWrites(m, db, writes).ledger.code == db.ledger.code
    decreases |writes|
  {
    if writes != [] {
      var w := writes[0];
      var db1 := CommitAccount(m, db, w.address, w.info);
      SlotsPut(db1.ledger, w.address, w.slots);
      WritesPutSlots(m, db1.(ledger := CommitSlots(db1.ledger, w.address, w.slots)), writes[1..]);
      PutAppend(db.ledger.slots, SlotsOf(w.address, w.slots), SlotWrites(writes[1..]));
    }
  }

  lemma {:induction false} SlotsLeave(ledger: Ledger, address: Address, slots: seq<(nat, nat)>)
    ensures var r := CommitSlots(ledger, address, slots); r.accounts == ledger.accounts && r.root == ledger.root
    decreases |slots|
  {
    if slots != [] {
      SlotsLeave(ledger.(slots := ledger.slots[(address, slots[0].0) := slots[0].1]), address, slots[1..]);
    }
  }

  lemma {:induction false} WritesPutAccounts(m: Machine, db: Db, writes: seq<AccountWrite>)
    ensures AccountsApplied(db.ledger.accounts, CommitWrites(m, db, writes).ledger.accounts, writes)
    decreases |writes|
  {
    if writes != [] {
      var w, rest := writes[0], writes[1..];
      var db1 := CommitAccount(m, db, w.address, w.info);
      var next := db1.(ledger := CommitSlots(db1.ledger, w.address, w.slots));
      SlotsLeave(db1.ledger, w.address, w.slots);
      WritesPutAccounts(m, next, rest);
      AccountsStep(db.ledger.accounts, next.ledger.accounts, CommitWrites(m, db, writes).ledger.accounts, writes);
    }
  }

  lemma AccountsStep(a: map<Address, AccountInfo>, next: map<Address, AccountInfo>, b: map<Address, AccountInfo>, writes: seq<AccountWrite>)
    requires writes != [] && next == a[writes[0].address := writes[0].info] && AccountsApplied(next, b, writes[1..])
    ensures AccountsApplied(a, b, writes)
  {
    var rest := writes[1..];
    forall i: nat, address | LastWrite(writes, i, address) ensures address in b && b[address] == writes[i].info {
      assert forall j :: 0 <= j < |rest| ==> rest[j] == writes[j + 1];
      if i == 0 {
        assert Untouched(rest, address);
        assert Same(next, b, address);
      } else {
        assert LastWrite(rest, i - 1, address);
      }
    }
    forall address | Untouched(writes, address) ensures Same(a, b, address) {
      assert writes[0] in writes;
      assert Untouched(rest, address);
      assert Same(next, b, address);
    }
  }

  lemma {:induction false} TreeHead(m: Machine, root: Hash, writes: seq<AccountWrite>)
    requires writes != []
    ensures TreeAfter(m, root, writes) == TreeAfter(m, m.treeUpdate(root, writes[0].address, writes[0].info), writes[1..])
    decreases |writes|
  {
    if |writes| > 1 {
      var init := writes[..|writes| - 1];
      TreeHead(m, root, init);
      assert init[1..] == writes[1..][..|writes| - 2];
    }
  }

  lemma {:induction false} WritesPutTree(m: Machine, db: Db, writes: seq<AccountWrite>)
    ensures CommitWrites(m, db, writes).ledger.root == TreeAfter(m, db.ledger.root, writes)
    decreases |writes|
  {
    if writes != [] {
      var w := writes[0];
      var db1 := CommitAccount(m, db, w.address, w.info);
      SlotsLeave(db1.ledger, w.address, w.slots);
      WritesPutTree(m, db1.(ledger := CommitSlots(db1.ledger, w.address, w.slots)), writes[1..]);
      TreeHead(m, db.ledger.root, writes);
    }
  }

  lemma WritesApplied(m: Machine, db: Db, writes: seq<AccountWrite>)
    ensures Applied(m, db, CommitWrites(m, db, writes), writes)
  {
    hide CommitWrites, AccountsApplied, SlotsApplied, Put;
    WritesPutAccounts(m, db, writes);
    WritesPutSlots(m, db, writes);
    PutApplied(db.ledger.slots, SlotWrites(writes));
    WritesPutTree(m, db, writes);
    WritesKeepRecord(m, db, writes);
  }

  // ---- One transaction ----

  /** An EVM transaction that runs adds one receipt, with its status, the gas so far and its own, and
      its logs if it succeeded. With status 1 its writes are applied; with another status the
      database stays as it was. */
  lemma EvmEffect(m: Machine, p: Progress, block: Block, tx: Transaction)
    requires tx.to != Some(SYSTEM_CONTRACT) && m.addressOf(tx.publicKey) != ZERO_ADDRESS
    requires m.evm(p.db.ledger, tx, block.baseFeePerGas).EvmDone?
    ensures var out, q := m.evm(p.db.ledger, tx, block.baseFeePerGas), RunTx(m, p, block, tx);
            && q.error.None? && q.gasUsed == p.gasUsed + out.gasUsed
            && q.receipts == p.receipts + [Receipt(out.status, p.gasUsed + out.gasUsed, if out.status == 1 then out.logs else [])]
            && (if out.status == 1 then Applied(m, p.db, q.db, out.writes) else q.db == p.db)
  {
    hide CommitWrites, Applied;
    WritesApplied(m, p.db, m.evm(p.db.ledger, tx, block.baseFeePerGas).writes);
  }

  /** Why a transaction fails: no sender address, an EVM error, or a system call without an account or
      without the funds; the database, the receipts and the gas stay as they were. */
  lemma FailureExact(m: Machine, p: Progress, block: Block, tx: Transaction)
    requires p.error.None?
    ensures var q, sender := RunTx(m, p, block, tx), m.addressOf(tx.publicKey);
            && q.error == (if sender == ZERO_ADDRESS then Some(InvalidSender)
                           else if tx.to != Some(SYSTEM_CONTRACT) then
                             if m.evm(p.db.ledger, tx, block.baseFeePerGas).EvmError? then Some(EvmFailure) else None
                           else if sender !in p.db.ledger.accounts then Some(MissingSender)
                           else if p.db.ledger.accounts[sender].balance < tx.value then Some(InsufficientBalance)
                           else None)
            && (q.error.Some? ==> q.db == p.db && q.receipts == p.receipts && q.gasUsed == p.gasUsed)
            && (q.error.None? && tx.to == Some(SYSTEM_CONTRACT) ==>
                  q.gasUsed == p.gasUsed && q.receipts == p.receipts + [Receipt(1, p.gasUsed, [])])
  {
    hide Dispatch, CommitWrites, Paid;
  }

  // ---- System calls ----

  predicate Calls(tx: Transaction, selector: seq<Byte>) {
    |tx.data| >= 4 && tx.data[..4] == selector
  }

  /** The code of an account: with the account, or else stored under its hash. */
  function CodeOf(ledger: Ledger, info: AccountInfo): Option<seq<Byte>> {
    if info.code.None? && info.codeHash != ZERO_HASH && info.codeHash in ledger.code
    then Some(ledger.code[info.codeHash]) else info.code
  }

  /** An accepted call raises its sender's nonce by one, keeps its code, now stored with the account,
      and touches no other account, no slot and no stored code. */
  lemma CallAccounts(m: Machine, db: Db, tx: Transaction, view: View)
    requires SystemCall(m, db, tx, view).Ok?
    ensures var sender, a, b := m.addressOf(tx.publicKey), db.ledger, SystemCall(m, db, tx, view).value.ledger;
            && sender in a.accounts && sender in b.accounts
            && b.accounts[sender].nonce == a.accounts[sender].nonce + 1 && b.accounts[sender].codeHash == a.accounts[sender].codeHash
            && b.accounts[sender].code == CodeOf(a, a.accounts[sender])
            && (forall x :: x != sender ==> Same(a.accounts, b.accounts, x))
            && b.slots == a.slots && b.code == a.code
  {
    hide Wrap256, HasKey, StakeOf;
  }

  /** What an accepted call does to the registry: staking 2000 or more adds to the sender's stake and
      queues a key that is neither member nor pending, due ten views on; unstaking queues a member
      for exit, due ten views on; withdrawing empties the stake of a key that is neither member nor
      queued. Everything else is left alone. */
  lemma CallRegistry(m: Machine, db: Db, tx: Transaction, view: View)
    requires SystemCall(m, db, tx, view).Ok? && !db.overlay && db.state.Some?
    ensures var key, a := tx.publicKey, m.addressOf(tx.publicKey);
            var s, s1 := db.state.value, SystemCall(m, db, tx, view).value.state;
            var stakes := Calls(tx, [0x3a, 0x4b, 0x66, 0xf1]) && tx.value >= 2000;
            var unstakes, withdraws := Calls(tx, [0x2e, 0x17, 0xde, 0x78]), Calls(tx, [0x3c, 0xcf, 0xd6, 0x0b]);
            var free := key !in s.committee && !HasKey(s.pending, key) && !HasKey(s.exiting, key);
            && s1.Some? && s1.value == s.(pending := s1.value.pending, exiting := s1.value.exiting, stakes := s1.value.stakes)
            && s1.value.pending == s.pending + (if stakes && key !in s.committee && !HasKey(s.pending, key) then [(key, view + 10)] else [])
            && s1.value.exiting == s.exiting + (if unstakes && key in s.committee then [(key, view + 10)] else [])
            && (forall x :: x != a ==> Same(s.stakes, s1.value.stakes, x))
            && StakeOf(s1.value, a) == (if stakes then Wrap256(StakeOf(s, a) + tx.value)
                                        else if withdraws && free then 0 else StakeOf(s, a))
  {
    hide Wrap256, Basic, Credited, Paid;
  }

  // ---- The payload ----

  /** Transactions run one after the other, in the order of the payload. */
  lemma {:induction false} PayloadInOrder(m: Machine, p: Progress, block: Block, a: seq<Transaction>, b: seq<Transaction>)
    ensures RunPayload(m, p, block, a + b) == RunPayload(m, RunPayload(m, p, block, a), block, b)
    ensures p.error.None? ==> forall tx :: RunPayload(m, p, block, [tx]) == RunTx(m, p, block, tx)
    decreases |a|
  {
    hide RunTx;
    if a == [] || p.error.Some? {
      assert a == [] ==> a + b == b;
    } else {
      assert (a + b)[0] == a[0] && (a + b)[1..] == a[1..] + b;
      PayloadInOrder(m, RunTx(m, p, block, a[0]), block, a[1..], b);
    }
    forall tx | p.error.None? ensures RunPayload(m, p, block, [tx]) == RunTx(m, p, block, tx) {
      assert [tx][1..] == [];
    }
  }

  /** One receipt for each transaction, and the gas is what the last one counts. */
  lemma {:induction false} PayloadReceipts(m: Machine, p: Progress, block: Block, txs: seq<Transaction>)
    requires p.error.None? && RunPayload(m, p, block, txs).error.None?
    ensures var q := RunPayload(m, p, block, txs);
            && |q.receipts| == |p.receipts| + |txs| && q.receipts[..|p.receipts|] == p.receipts && q.gasUsed >= p.gasUsed
            && (if txs == [] then q == p else q.gasUsed == q.receipts[|q.receipts| - 1].cumulativeGasUsed)
    decreases |txs|
  {
    hide SystemCall, CommitWrites;
    if txs != [] {
      var p1 := RunTx(m, p, block, txs[0]);
      if p1.error.None? {
        PayloadReceipts(m, p1, block, txs[1..]);
      }
    }
  }

  /** A payload that fails stops at the first transaction that does, with the database those before it
      made. */
  lemma {:induction false} PayloadStops(m: Machine, p: Progress, block: Block, txs: seq<Transaction>) returns (i: nat)
    requires p.error.None? && RunPayload(m, p, block, txs).error.Some?
    ensures i < |txs|
    ensures var before := RunPayload(m, p, block, txs[..i]);
            && before.error.None? && RunTx(m, before, block, txs[i]).error == RunPayload(m, p, block, txs).error
            && RunPayload(m, p, block, txs).db == before.db
    decreases |txs|
  {
    hide SystemCall, CommitWrites;
    var p1 := RunTx(m, p, block, txs[0]);
    if p1.error.Some? {
      i := 0;
      FailureExact(m, p, block, txs[0]);
    } else {
      var k := PayloadStops(m, p1, block, txs[1..]);
      i := k + 1;
      assert txs[..i][1..] == txs[1..][..k];
    }
  }

  /** The gas limits are checked before anything runs: the first transaction above either cap, the
      fixed one of 16777216 first, names the error. */
  lemma {:induction false} FirstOverLimit(m: Machine, txs: seq<Transaction>) returns (i: nat)
    ensures i <= |txs| && forall j :: 0 <= j < i ==> WithinCaps(m, txs[j])
    ensures GasLimitError(m, txs).None? <==> i == |txs|
    ensures i < |txs| ==>
      !WithinCaps(m, txs[i]) && GasLimitError(m, txs) == Some(if txs[i].gasLimit > 16_777_216 then TxGasLimitTooHigh else BlockGasLimitExceeded)
  {
    if txs == [] || !WithinCaps(m, txs[0]) {
      i := 0;
    } else {
      var k := FirstOverLimit(m, txs[1..]);
      i := k + 1;
    }
  }

  predicate WithinCaps(m: Machine, tx: Transaction) {
    tx.gasLimit <= 16_777_216 && tx.gasLimit <= m.blockGasLimit
  }

  /** What a block that executes reports: the root of the account tree it leaves, the root of one
      receipt for each transaction, and the gas the last receipt counts. */
  lemma BlockReports(m: Machine, db: Db, block: Block)
    requires ExecuteBlock(m, db, block).result.Ok?
    ensures var out, receipts := ExecuteBlock(m, db, block), AfterPayload(m, db, block).receipts;
            && |receipts| == |block.payload|
            && out.result.value.stateRoot == out.db.ledger.root
            && out.result.value.receiptsRoot == Receipts.Root(m.receiptHash, m.pairHash, receipts)
            && out.result.value.gasUsed == if receipts == [] then 0 else receipts[|receipts| - 1].cumulativeGasUsed
  {
    hide AfterSlashing, RunPayload, Queues, GasLimitError;
    PayloadReceipts(m, Progress(AfterSlashing(m, db, block), [], 0, None), block, block.payload);
  }
}
