/** The executor as the source has it: methods that read, change and save a shared database,
    each proved to have exactly the effect that module Vm gives it. */
module ExecutorModel {
  import opened Types
  import opened Collections
  import opened Vm

  class StateManager {
    var state: Option<ConsensusState>
    var ledger: Ledger
    const overlay: bool

    constructor (state: Option<ConsensusState>, ledger: Ledger, overlay: bool)
      ensures Value() == Db(state, ledger, overlay)
    {
      this.state, this.ledger, this.overlay := state, ledger, overlay;
    }

    function Value(): Db
      reads this
    {
      Db(state, ledger, overlay)
    }

    method SaveConsensusState(s: ConsensusState)
      modifies this
      ensures Value() == SaveState(old(Value()), s)
    {
      if !overlay {
        state := Some(s);
      }
    }

    method StoreAccount(m: Machine, address: Address, info: AccountInfo)
      modifies this
      ensures Value() == CommitAccount(m, old(Value()), address, info)
    {
      ledger := ledger.(accounts := ledger.accounts[address := info],
                        root := m.treeUpdate(ledger.root, address, info));
    }

    method StoreSlot(address: Address, index: nat, value: nat)
      modifies this
      ensures Value() == old(Value()).(ledger := old(ledger).(slots := old(ledger).slots[(address, index) := value]))
    {
      ledger := ledger.(slots := ledger.slots[(address, index) := value]);
    }
  }

  method RemoveKey(keys: seq<PublicKey>, key: PublicKey) returns (r: seq<PublicKey>, found: bool)
    ensures r == RemoveFirst(keys, key)
    ensures found <==> r != keys
  {
    var i := 0;
    while i < |keys| && keys[i] != key
      invariant 0 <= i <= |keys| && key !in keys[..i]
    {
      i := i + 1;
    }
    if i < |keys| {
      RemoveAt(keys, key, i);
      return keys[..i] + keys[i + 1..], true;
    }
    assert keys[..i] == keys;
    RemoveAbsent(keys, key);
    return keys, false;
  }

  lemma {:induction false} RemovePendingAt(queue: seq<(PublicKey, View)>, key: PublicKey, i: nat)
    requires i <= |queue| && (i < |queue| ==> queue[i].0 == key)
    requires forall j :: 0 <= j < i ==> queue[j].0 != key
    ensures RemovePending(queue, key) == if i < |queue| then queue[..i] + queue[i + 1..] else queue
  {
    if i > 0 {
      RemovePendingAt(queue[1..], key, i - 1);
    }
  }

  method RemovePendingKey(queue: seq<(PublicKey, View)>, key: PublicKey) returns (r: seq<(PublicKey, View)>)
    ensures r == RemovePending(queue, key)
  {
    var i := 0;
    while i < |queue| && queue[i].0 != key
      invariant 0 <= i <= |queue|
      invariant forall j :: 0 <= j < i ==> queue[j].0 != key
    {
      i := i + 1;
    }
    RemovePendingAt(queue, key, i);
    r := if i < |queue| then queue[..i] + queue[i + 1..] else queue;
  }

  method AdmitReady(committee: seq<PublicKey>, ready: seq<(PublicKey, View)>)
    returns (r: seq<PublicKey>, changed: bool)
    ensures r == Admit(committee, ready)
    ensures changed <==> r != committee
  {
    r, changed := committee, false;
    for i := 0 to |ready|
      invariant Admit(r, ready[i..]) == Admit(committee, ready)
      invariant |r| >= |committee|
      invariant if changed then |r| > |committee| else r == committee
    {
      assert ready[i..][1..] == ready[i + 1..];
      if ready[i].0 !in r {
        r, changed := r + [ready[i].0], true;
      }
    }
  }

  method DismissExited(committee: seq<PublicKey>, exited: seq<(PublicKey, View)>)
    returns (r: seq<PublicKey>, changed: bool)
    ensures r == Dismiss(committee, exited)
    ensures changed <==> r != committee
  {
    r, changed := committee, false;
    for i := 0 to |exited|
      invariant Dismiss(r, exited[i..]) == Dismiss(committee, exited)
      invariant |r| <= |committee|
      invariant if changed then |r| < |committee| else r == committee
    {
      assert exited[i..][1..] == exited[i + 1..];
      RemoveShrinks(r, exited[i].0);
      var found;
      r, found := RemoveKey(r, exited[i].0);
      changed := changed || found;
    }
  }

  class Executor {
    const m: Machine
    const db: StateManager

    constructor (m: Machine, db: StateManager)
      ensures this.m == m && this.db == db
    {
      this.m, this.db := m, db;
    }

    method ProcessEquivocationSlashing(block: Block)
      modifies db
      ensures db.Value() == SlashAll(m, old(db.Value()), block.evidence)
    {
      for i := 0 to |block.evidence|
        invariant SlashAll(m, db.Value(), block.evidence[i..]) == SlashAll(m, old(db.Value()), block.evidence)
      {
        var e := block.evidence[i];
        ghost var before := db.Value();
        assert block.evidence[i..][1..] == block.evidence[i + 1..];
        if AcceptedEvidence(e) && db.state.Some? {
          var offender := e.voteA.author;
          var address := m.addressOf(offender);
          var s := db.state.value;
          if address in s.stakes {
            var left := if s.stakes[address] < SLASH_AMOUNT then 0 else s.stakes[address] - SLASH_AMOUNT;
            s := s.(stakes := s.stakes[address := left]);
            if left < MIN_STAKE {
              var pending := RemovePendingKey(s.pending, offender);
              var committee, _ := RemoveKey(s.committee, offender);
              s := s.(pending := pending, committee := committee);
            }
            db.SaveConsensusState(s);
          }
        }
        assert db.Value() == Slash(m, before, e);
      }
    }

    /** The record is saved only when something in it changed. */
    method ProcessLivenessSlashing(block: Block)
      modifies db
      ensures db.Value() == Liveness(m, old(db.Value()), block)
    {
      if db.state.Some? {
        var s := db.state.value;
        var changed := false;
        if block.author in s.scores && s.scores[block.author] > 0 {
          s := s.(scores := s.scores[block.author := s.scores[block.author] - 1]);
          changed := true;
        }
        var qc := block.justify;
        if qc.blockHash == ZERO_HASH && qc.view > 0 && |s.committee| > 0 {
          var leader := s.committee[qc.view % |s.committee|];
          var score := (if leader in s.scores then s.scores[leader] else 0) + 1;
          s := s.(scores := s.scores[leader := score]);
          changed := true;
          var address := m.addressOf(leader);
          if address in s.stakes {
            var left := if s.stakes[address] < LIVENESS_PENALTY then 0 else s.stakes[address] - LIVENESS_PENALTY;
            s := s.(stakes := s.stakes[address := left]);
          }
          if score > MAX_INACTIVITY {
            var committee, found := RemoveKey(s.committee, leader);
            if found {
              s := s.(committee := committee, scores := s.scores - {leader});
            } else {
              RemoveShrinks(s.committee, leader);
            }
          }
        }
        if changed {
          db.SaveConsensusState(s);
        }
      }
    }

    method ProcessSystemContract(tx: Transaction, view: View) returns (error: Option<ExecutionError>)
      modifies db
      ensures match SystemCall(m, old(db.Value()), tx, view)
              case Ok(after) => error == None && db.Value() == after
              case Err(e) => error == Some(e) && db.Value() == old(db.Value())
    {
      var sender := m.addressOf(tx.publicKey);
      var account := Basic(db.ledger, sender);
      if account.None? {
        return Some(MissingSender);
      }
      if account.value.balance < tx.value {
        return Some(InsufficientBalance);
      }
      if |tx.data| >= 4 && db.state.Some? {
        var s := db.state.value;
        var selector := tx.data[..4];
        if selector == STAKE_SELECTOR {
          if tx.value >= MIN_STAKE {
            var current := if sender in s.stakes then s.stakes[sender] else 0;
            s := s.(stakes := s.stakes[sender := Wrap256(current + tx.value)]);
            if tx.publicKey !in s.committee && !HasKey(s.pending, tx.publicKey) {
              s := s.(pending := s.pending + [(tx.publicKey, view + QUEUE_DELAY)]);
            }
            db.SaveConsensusState(s);
          }
        } else if selector == UNSTAKE_SELECTOR {
          if tx.publicKey in s.committee {
            s := s.(exiting := s.exiting + [(tx.publicKey, view + QUEUE_DELAY)]);
            db.SaveConsensusState(s);
          }
        } else if selector == WITHDRAW_SELECTOR {
          if CanWithdraw(m, s, tx.publicKey) {
            var stake := s.stakes[sender];
            db.SaveConsensusState(s.(stakes := s.stakes[sender := 0]));
            db.StoreAccount(m, sender, Credited(Basic(db.ledger, sender), stake));
          }
        }
      }
      assert db.Value() == Dispatch(m, old(db.Value()), tx, view);
      db.StoreAccount(m, sender, Paid(Basic(db.ledger, sender), tx.value));
      return None;
    }

    method CommitAll(writes: seq<AccountWrite>)
      modifies db
      ensures db.Value() == CommitWrites(m, old(db.Value()), writes)
    {
      for i := 0 to |writes|
        invariant CommitWrites(m, db.Value(), writes[i..]) == CommitWrites(m, old(db.Value()), writes)
      {
        var w := writes[i];
        assert writes[i..][1..] == writes[i + 1..];
        db.StoreAccount(m, w.address, w.info);
        ghost var start := db.Value();
        for j := 0 to |w.slots|
          invariant db.Value() == start.(ledger := db.ledger)
          invariant CommitSlots(db.ledger, w.address, w.slots[j..]) == CommitSlots(start.ledger, w.address, w.slots)
        {
          assert w.slots[j..][1..] == w.slots[j + 1..];
          db.StoreSlot(w.address, w.slots[j].0, w.slots[j].1);
        }
      }
    }

    /** Executes the payload, accumulating gas and receipts until a transaction fails. */
    method ExecutePayload(block: Block) returns (receipts: seq<Receipt>, gasUsed: nat, error: Option<ExecutionError>)
      modifies db
      ensures Progress(db.Value(), receipts, gasUsed, error)
              == RunPayload(m, Progress(old(db.Value()), [], 0, None), block, block.payload)
    {
      receipts, gasUsed, error := [], 0, None;
      ghost var final := RunPayload(m, Progress(old(db.Value()), [], 0, None), block, block.payload);
      for i := 0 to |block.payload|
        invariant error == None
        invariant RunPayload(m, Progress(db.Value(), receipts, gasUsed, None), block, block.payload[i..]) == final
      {
        var tx := block.payload[i];
        ghost var before := Progress(db.Value(), receipts, gasUsed, None);
        assert block.payload[i..][1..] == block.payload[i + 1..];
        if m.addressOf(tx.publicKey) == ZERO_ADDRESS {
          error := Some(InvalidSender);
        } else if tx.to == Some(SYSTEM_CONTRACT) {
          error := ProcessSystemContract(tx, block.view);
          if error == None {
            receipts := receipts + [Receipt(1, gasUsed, [])];
          }
        } else {
          match m.evm(db.ledger, tx, block.baseFeePerGas) {
            case EvmError => error := Some(EvmFailure);
            case EvmDone(status, gas, writes, logs) =>
              gasUsed := gasUsed + gas;
              receipts := receipts + [Receipt(status, gasUsed, if status == 1 then logs else [])];
              if status == 1 {
                CommitAll(writes);
              }
          }
        }
        assert Progress(db.Value(), receipts, gasUsed, error) == RunTx(m, before, block, tx);
        if error.Some? {
          return;
        }
      }
    }

    /** Moves due keys between the queues and the committee; saved only if the committee changed. */
    method ProcessQueues(view: View)
      modifies db
      ensures db.Value() == Queues(old(db.Value()), view)
    {
      if db.state.Some? {
        var s := db.state.value;
        var admitted, joined := AdmitReady(s.committee, Due(s.pending, view));
        var committee, left := DismissExited(admitted, Due(s.exiting, view));
        if joined || left {
          db.SaveConsensusState(s.(pending := NotDue(s.pending, view), exiting := NotDue(s.exiting, view),
                                   committee := committee));
        }
      }
    }

    method ExecuteBlock(block: Block) returns (result: Result<Roots, ExecutionError>)
      modifies db
      ensures Executed(db.Value(), result) == Vm.ExecuteBlock(m, old(db.Value()), block)
    {
      ProcessEquivocationSlashing(block);
      ProcessLivenessSlashing(block);
      var limit := GasLimitError(m, block.payload);
      if limit.Some? {
        return Err(limit.value);
      }
      var receipts, gasUsed, error := ExecutePayload(block);
      if error.Some? {
        return Err(error.value);
      }
      ProcessQueues(block.view);
      var receiptsRoot := Receipts.CalculateReceiptsRoot(m.receiptHash, m.pairHash, receipts);
      return Ok(Roots(db.ledger.root, receiptsRoot, gasUsed));
    }
  }

  lemma RemoveShrinks(s: seq<PublicKey>, x: PublicKey)
    ensures |RemoveFirst(s, x)| <= |s|
    ensures RemoveFirst(s, x) != s <==> |RemoveFirst(s, x)| < |s|
    ensures RemoveFirst(s, x) != s <==> x in s
  {
  }
}
