/** The life of a validator key over any sequence of committed blocks: how it enters the pending
    queue and the committee, and every way it can leave. */
module Lifecycle {
  import opened Types
  import opened Collections
  import opened Vm
  import Consensus

  /** The database after committing the blocks in order, failing ones included. */
  ghost function After(m: Machine, db: Db, blocks: seq<Block>): Db {
    if blocks == [] then db
    else ExecuteBlock(m, After(m, db, blocks[..|blocks| - 1]), blocks[|blocks| - 1]).db
  }

  ghost predicate DistinctKeys(queue: seq<(PublicKey, View)>) {
    forall i, j :: 0 <= i < j < |queue| ==> queue[i].0 != queue[j].0
  }

  /** Committee and pending keys are duplicate-free and disjoint. */
  ghost predicate RegistryOk(s: ConsensusState) {
    && Distinct(s.committee)
    && DistinctKeys(s.pending)
    && forall p :: p in s.pending ==> p.0 !in s.committee
  }

  ghost predicate Stakes(block: Block, key: PublicKey) {
    exists tx :: tx in block.payload && IsStakeCall(tx) && tx.publicKey == key
  }

  ghost predicate Unstakes(block: Block, key: PublicKey) {
    exists tx :: tx in block.payload && IsUnstakeCall(tx) && tx.publicKey == key
  }

  ghost predicate StakedFor(history: seq<Block>, key: PublicKey, activation: View) {
    exists b :: b in history && Stakes(b, key) && b.view + 10 == activation
  }

  ghost predicate UnstakedFor(history: seq<Block>, key: PublicKey, exit: View) {
    exists b :: b in history && Unstakes(b, key) && b.view + 10 == exit
  }

  /** Every queue entry goes back to a call in some executed block, ten views before it is due. */
  ghost predicate Traced(history: seq<Block>, s: ConsensusState) {
    && (forall p :: p in s.pending ==> StakedFor(history, p.0, p.1))
    && (forall p :: p in s.exiting ==> UnstakedFor(history, p.0, p.1))
  }

  ghost predicate Good(history: seq<Block>, db: Db) {
    !db.overlay && db.state.Some? && RegistryOk(db.state.value) && Traced(history, db.state.value)
  }

  function Committee(db: Db): seq<PublicKey> {
    if db.state.Some? then db.state.value.committee else []
  }

  // ---- The invariant, phase by phase ----

  lemma {:induction false} RemovePendingDistinct(queue: seq<(PublicKey, View)>, key: PublicKey)
    requires DistinctKeys(queue)
    ensures DistinctKeys(RemovePending(queue, key))
  {
    if queue != [] {
      RemovePendingDistinct(queue[1..], key);
      forall p | p in RemovePending(queue[1..], key) ensures p.0 != queue[0].0 {
        assert p in queue[1..];
      }
    }
  }

  lemma {:induction false} GoodSlashAll(m: Machine, history: seq<Block>, db: Db, evidence: seq<Evidence>)
    requires Good(history, db)
    ensures Good(history, SlashAll(m, db, evidence))
    ensures forall k :: k in Committee(SlashAll(m, db, evidence)) ==> k in Committee(db)
    decreases |evidence|
  {
    if evidence != [] {
      var e := evidence[0];
      if Slashes(m, db, e) {
        RemovePendingDistinct(db.state.value.pending, e.voteA.author);
        RemoveDistinct(db.state.value.committee, e.voteA.author);
      }
      GoodSlashAll(m, history, Slash(m, db, e), evidence[1..]);
    }
  }

  lemma GoodLiveness(m: Machine, history: seq<Block>, db: Db, block: Block)
    requires Good(history, db)
    ensures Good(history, Liveness(m, db, block))
    ensures forall k :: k in Committee(Liveness(m, db, block)) ==> k in Committee(db)
  {
    var s := RewardAuthor(db.state.value, block.author);
    if TimeoutCharged(s, block.justify) {
      RemoveDistinct(s.committee, FailedLeader(s, block.justify));
    }
  }

  lemma GoodTx(m: Machine, history: seq<Block>, p: Progress, block: Block, tx: Transaction)
    requires Good(history, p.db) && block in history && tx in block.payload
    ensures Good(history, RunTx(m, p, block, tx).db)
    ensures Committee(RunTx(m, p, block, tx).db) == Committee(p.db)
  {
    if tx.to != Some(SYSTEM_CONTRACT) {
      var out := m.evm(p.db.ledger, tx, block.baseFeePerGas);
      if out.EvmDone? {
        WritesKeepRecord(m, p.db, out.writes);
      }
    } else {
      if IsStakeCall(tx) {
        assert StakedFor(history, tx.publicKey, block.view + QUEUE_DELAY) by {
          assert Stakes(block, tx.publicKey);
        }
      }
      if IsUnstakeCall(tx) {
        assert UnstakedFor(history, tx.publicKey, block.view + QUEUE_DELAY) by {
          assert Unstakes(block, tx.publicKey);
        }
      }
      GoodDispatch(m, history, p.db, tx, block.view);
    }
  }

  lemma GoodStake(m: Machine, history: seq<Block>, s: ConsensusState, tx: Transaction, view: View)
    requires RegistryOk(s) && Traced(history, s) && StakedFor(history, tx.publicKey, view + QUEUE_DELAY)
    ensures var r := StakeRecord(m, s, tx, view);
            RegistryOk(r) && Traced(history, r) && r.committee == s.committee
  {
    hide StakedFor, UnstakedFor;
    if !HasKey(s.pending, tx.publicKey) {
      assert forall p :: p in s.pending ==> p.0 != tx.publicKey;
    }
  }

  lemma GoodUnstake(history: seq<Block>, s: ConsensusState, tx: Transaction, view: View)
    requires RegistryOk(s) && Traced(history, s) && UnstakedFor(history, tx.publicKey, view + QUEUE_DELAY)
    ensures var r := UnstakeRecord(s, tx, view);
            RegistryOk(r) && Traced(history, r) && r.committee == s.committee
  {
    hide StakedFor, UnstakedFor;
  }

  lemma GoodWithdraw(m: Machine, history: seq<Block>, db: Db, key: PublicKey)
    requires Good(history, db)
    ensures Good(history, Withdraw(m, db, db.state.value, key)) && Committee(Withdraw(m, db, db.state.value, key)) == Committee(db)
  {
    hide StakedFor, UnstakedFor;
  }

  lemma GoodDispatch(m: Machine, history: seq<Block>, db: Db, tx: Transaction, view: View)
    requires Good(history, db) && tx.to == Some(SYSTEM_CONTRACT)
    requires IsStakeCall(tx) ==> StakedFor(history, tx.publicKey, view + QUEUE_DELAY)
    requires IsUnstakeCall(tx) ==> UnstakedFor(history, tx.publicKey, view + QUEUE_DELAY)
    ensures Good(history, Dispatch(m, db, tx, view))
    ensures Committee(Dispatch(m, db, tx, view)) == Committee(db)
  {
    hide StakedFor, UnstakedFor, RegistryOk, Traced, StakeRecord, UnstakeRecord, Withdraw;
    if IsStakeCall(tx) {
      GoodStake(m, history, db.state.value, tx, view);
    } else if IsUnstakeCall(tx) {
      GoodUnstake(history, db.state.value, tx, view);
    } else {
      GoodWithdraw(m, history, db, tx.publicKey);
    }
  }

  lemma {:induction false} GoodPayload(m: Machine, history: seq<Block>, p: Progress, block: Block, txs: seq<Transaction>)
    requires Good(history, p.db) && block in history
    requires forall tx :: tx in txs ==> tx in block.payload
    ensures Good(history, RunPayload(m, p, block, txs).db)
    ensures Committee(RunPayload(m, p, block, txs).db) == Committee(p.db)
    decreases |txs|
  {
    if txs != [] && p.error.None? {
      GoodTx(m, history, p, block, txs[0]);
      GoodPayload(m, history, RunTx(m, p, block, txs[0]), block, txs[1..]);
    }
  }

  lemma {:induction false} DueDistinct(queue: seq<(PublicKey, View)>, view: View)
    requires DistinctKeys(queue)
    ensures DistinctKeys(NotDue(queue, view))
    ensures forall p, q :: p in Due(queue, view) && q in NotDue(queue, view) ==> p.0 != q.0
  {
    if queue != [] {
      DueDistinct(queue[1..], view);
      assert forall p :: p in queue[1..] ==> p.0 != queue[0].0;
    }
  }

  lemma {:induction false} AdmitDistinct(committee: seq<PublicKey>, ready: seq<(PublicKey, View)>)
    requires Distinct(committee)
    ensures Distinct(Admit(committee, ready))
    decreases |ready|
  {
    if ready != [] {
      var key := ready[0].0;
      AdmitDistinct(if key in committee then committee else committee + [key], ready[1..]);
    }
  }

  lemma {:induction false} DismissDistinct(committee: seq<PublicKey>, exited: seq<(PublicKey, View)>)
    requires Distinct(committee)
    ensures Distinct(Dismiss(committee, exited))
    decreases |exited|
  {
    if exited != [] {
      RemoveDistinct(committee, exited[0].0);
      DismissDistinct(RemoveFirst(committee, exited[0].0), exited[1..]);
    }
  }

  lemma GoodQueues(history: seq<Block>, db: Db, view: View)
    requires Good(history, db)
    ensures Good(history, Queues(db, view))
  {
    var s := db.state.value;
    DueDistinct(s.pending, view);
    AdmitDistinct(s.committee, Due(s.pending, view));
    DismissDistinct(Admit(s.committee, Due(s.pending, view)), Due(s.exiting, view));
  }

  lemma GoodBlock(m: Machine, history: seq<Block>, db: Db, block: Block)
    requires Good(history, db) && block in history
    ensures Good(history, SlashAll(m, db, block.evidence))
    ensures Good(history, AfterSlashing(m, db, block))
    ensures Good(history, AfterPayload(m, db, block).db)
    ensures Good(history, ExecuteBlock(m, db, block).db)
  {
    GoodSlashAll(m, history, db, block.evidence);
    GoodLiveness(m, history, SlashAll(m, db, block.evidence), block);
    GoodPayload(m, history, Progress(AfterSlashing(m, db, block), [], 0, None), block, block.payload);
    GoodQueues(history, AfterPayload(m, db, block).db, block.view);
  }

  lemma LongerHistory(history: seq<Block>, db: Db, block: Block)
    requires Good(history, db)
    ensures Good(history + [block], db)
  {
    forall p | p in db.state.value.pending ensures StakedFor(history + [block], p.0, p.1) {
      var b :| b in history && Stakes(b, p.0) && b.view + 10 == p.1;
      assert b in history + [block];
    }
    forall p | p in db.state.value.exiting ensures UnstakedFor(history + [block], p.0, p.1) {
      var b :| b in history && Unstakes(b, p.0) && b.view + QUEUE_DELAY == p.1;
      assert b in history + [block];
    }
  }

  /** From a clean start, whatever blocks are committed, the keys stay duplicate-free and disjoint
      and every queue entry is accounted for. */
  lemma {:induction false} RegistryInvariant(m: Machine, db: Db, blocks: seq<Block>)
    requires Good([], db)
    ensures Good(blocks, After(m, db, blocks))
  {
    if blocks != [] {
      var before, last := blocks[..|blocks| - 1], blocks[|blocks| - 1];
      RegistryInvariant(m, db, before);
      LongerHistory(before, After(m, db, before), last);
      assert before + [last] == blocks;
      GoodBlock(m, blocks, After(m, db, before), last);
    }
  }

  // ---- Joining and leaving ----

  /** A key joins the committee in a block of view w only through a stake call at least ten
      views earlier. */
  lemma Joins(m: Machine, db: Db, blocks: seq<Block>, last: Block, key: PublicKey)
    requires Good([], db)
    requires key !in Committee(After(m, db, blocks))
    requires key in Committee(After(m, db, blocks + [last]))
    ensures exists b :: b in blocks + [last] && Stakes(b, key) && b.view + 10 <= last.view
  {
    var history := blocks + [last];
    assert history[..|history| - 1] == blocks;
    RegistryInvariant(m, db, blocks);
    var d := After(m, db, blocks);
    LongerHistory(blocks, d, last);
    GoodSlashAll(m, history, d, last.evidence);
    GoodLiveness(m, history, SlashAll(m, d, last.evidence), last);
    GoodPayload(m, history, Progress(AfterSlashing(m, d, last), [], 0, None), last, last.payload);
    var s := AfterPayload(m, d, last).db.state.value;
    assert HasKey(Due(s.pending, last.view), key);
    var p :| p in Due(s.pending, last.view) && p.0 == key;
    assert p in s.pending && StakedFor(history, p.0, p.1);
  }

  /** This evidence is accepted against the key and leaves its stake below the minimum. */
  ghost predicate DropsBelow(m: Machine, db: Db, e: Evidence, key: PublicKey) {
    && e.voteA.author == key && Slashes(m, db, e)
    && db.state.value.stakes[m.addressOf(key)] < 2000 + 1000
  }

  ghost predicate SlashedOut(m: Machine, db: Db, evidence: seq<Evidence>, key: PublicKey) {
    exists k :: 0 <= k < |evidence| && DropsBelow(m, SlashAll(m, db, evidence[..k]), evidence[k], key)
  }

  lemma SlashOneMore(m: Machine, db: Db, evidence: seq<Evidence>, k: nat)
    requires k < |evidence|
    ensures SlashAll(m, db, evidence[..k + 1]) == SlashAll(m, Slash(m, db, evidence[0]), evidence[1..][..k])
  {
    assert evidence[..k + 1][1..] == evidence[1..][..k];
  }

  lemma StaysUnlessDropped(m: Machine, db: Db, e: Evidence, key: PublicKey)
    requires key in Committee(db) && key !in Committee(Slash(m, db, e))
    ensures DropsBelow(m, db, e, key)
  {
  }

  lemma {:induction false} LeavesBySlash(m: Machine, db: Db, evidence: seq<Evidence>, key: PublicKey)
    requires key in Committee(db) && key !in Committee(SlashAll(m, db, evidence))
    ensures SlashedOut(m, db, evidence, key)
    decreases |evidence|
  {
    var d := Slash(m, db, evidence[0]);
    if key in Committee(d) {
      var rest := evidence[1..];
      LeavesBySlash(m, d, rest, key);
      var k :| 0 <= k < |rest| && DropsBelow(m, SlashAll(m, d, rest[..k]), rest[k], key);
      SlashOneMore(m, db, evidence, k);
      assert evidence[k + 1] == rest[k];
    } else {
      StaysUnlessDropped(m, db, evidence[0], key);
      assert SlashAll(m, db, evidence[..0]) == db;
    }
  }

  /** The certificate is a dummy's and the key led its view. */
  ghost predicate Charges(s: ConsensusState, qc: QuorumCertificate, key: PublicKey) {
    qc.blockHash == ZERO_HASH && qc.view > 0 && s.committee != [] && s.committee[qc.view % |s.committee|] == key
  }

  /** The key charged for a timeout is the one whose node held itself for the leader of that view. */
  lemma ChargedIsLeader(s: ConsensusState, qc: QuorumCertificate, n: Consensus.Node)
    requires n.committee == s.committee
    ensures Charges(s, qc, n.me) <==> qc.blockHash == ZERO_HASH && qc.view > 0 && Consensus.IsLeader(n, qc.view)
    ensures TimeoutCharged(s, qc) ==> Charges(s, qc, FailedLeader(s, qc))
  {
  }

  /** Removed as the leader of a timed-out view whose inactivity score passes the threshold. */
  ghost predicate TimedOut(db: Db, block: Block, key: PublicKey) {
    db.state.Some? &&
    var s := RewardAuthor(db.state.value, block.author);
    && Charges(s, block.justify, key) && key in s.scores && s.scores[key] + 1 > 50
  }

  lemma LeavesByTimeout(m: Machine, db: Db, block: Block, key: PublicKey)
    requires key in Committee(db) && key !in Committee(Liveness(m, db, block))
    ensures TimedOut(db, block, key)
  {
  }

  lemma LeavesByExit(history: seq<Block>, db: Db, view: View, key: PublicKey)
    requires Good(history, db) && key in Committee(db) && key !in Committee(Queues(db, view))
    ensures exists b :: b in history && Unstakes(b, key) && b.view + 10 <= view
  {
    var s := db.state.value;
    assert HasKey(Due(s.exiting, view), key);
    var p :| p in Due(s.exiting, view) && p.0 == key;
    assert p in s.exiting && UnstakedFor(history, p.0, p.1);
  }

  /** A key leaves the committee in a block only by a slash that leaves it under the minimum, by
      inactivity, or by an unstake call at least ten views earlier. */
  lemma Leaves(m: Machine, db: Db, blocks: seq<Block>, last: Block, key: PublicKey)
    requires Good([], db)
    requires key in Committee(After(m, db, blocks))
    requires key !in Committee(After(m, db, blocks + [last]))
    ensures var d := After(m, db, blocks);
            || SlashedOut(m, d, last.evidence, key)
            || TimedOut(SlashAll(m, d, last.evidence), last, key)
            || exists b :: b in blocks + [last] && Unstakes(b, key) && b.view + 10 <= last.view
  {
    var history := blocks + [last];
    assert history[..|history| - 1] == blocks;
    RegistryInvariant(m, db, blocks);
    var d := After(m, db, blocks);
    LongerHistory(blocks, d, last);
    GoodSlashAll(m, history, d, last.evidence);
    var d1 := SlashAll(m, d, last.evidence);
    GoodLiveness(m, history, d1, last);
    GoodPayload(m, history, Progress(AfterSlashing(m, d, last), [], 0, None), last, last.payload);
    if key !in Committee(d1) {
      LeavesBySlash(m, d, last.evidence, key);
    } else if key !in Committee(AfterSlashing(m, d, last)) {
      LeavesByTimeout(m, d1, last, key);
    } else {
      LeavesByExit(history, AfterPayload(m, d, last).db, last.view, key);
    }
  }

  /** The queue step promotes exactly the due keys and keeps the others, although the record is
      saved only when the committee changed: a due key leaves the queue for good and sits in the
      committee unless it is also due to exit; a key not yet due stays queued. */
  lemma PromotionExact(db: Db, view: View, p: (PublicKey, View))
    requires !db.overlay && db.state.Some? && RegistryOk(db.state.value) && p in db.state.value.pending
    ensures var s, s1 := db.state.value, Queues(db, view).state.value;
            if p.1 <= view
            then !HasKey(s1.pending, p.0) && (p.0 in s1.committee || HasKey(Due(s.exiting, view), p.0))
            else p in s1.pending && p.0 !in s1.committee
  {
    var s := db.state.value;
    DueDistinct(s.pending, view);
    var ready := Due(s.pending, view);
    if p.1 <= view {
      assert p in ready && HasKey(ready, p.0);
      assert p.0 in Admit(s.committee, ready) && p.0 !in s.committee;
    } else {
      assert p in NotDue(s.pending, view);
      assert !HasKey(ready, p.0);
    }
  }

  // ---- Membership, exactly ----

  /** A committed record with no key twice in the committee. */
  ghost predicate Sane(db: Db) {
    !db.overlay && db.state.Some? && Distinct(db.state.value.committee)
  }

  /** Slashing leaves the committee as it is or makes it shorter, and never adds a key. */
  lemma {:induction false} SaneSlashAll(m: Machine, db: Db, evidence: seq<Evidence>)
    requires Sane(db)
    ensures var after := SlashAll(m, db, evidence);
            && Sane(after) && (Committee(after) == Committee(db) || |Committee(after)| < |Committee(db)|)
            && forall k :: k in Committee(after) ==> k in Committee(db)
    decreases |evidence|
  {
    if evidence != [] {
      SaneSlash(m, db, evidence[0]);
      SaneSlashAll(m, Slash(m, db, evidence[0]), evidence[1..]);
    }
  }

  lemma SaneSlash(m: Machine, db: Db, e: Evidence)
    requires Sane(db)
    ensures var after := Slash(m, db, e);
            && Sane(after) && (Committee(after) == Committee(db) || |Committee(after)| < |Committee(db)|)
            && (forall k :: k in Committee(after) ==> k in Committee(db))
            && (DropsBelow(m, db, e, e.voteA.author) ==> e.voteA.author !in Committee(after))
  {
    RemoveDistinct(db.state.value.committee, e.voteA.author);
    RemoveShorter(db.state.value.committee, e.voteA.author);
  }

  lemma {:induction false} RemoveShorter(keys: seq<PublicKey>, key: PublicKey)
    ensures RemoveFirst(keys, key) == keys || |RemoveFirst(keys, key)| < |keys|
  {
    if keys != [] && keys[0] != key {
      RemoveShorter(keys[1..], key);
    }
  }

  lemma {:induction false} SlashExact(m: Machine, db: Db, evidence: seq<Evidence>, key: PublicKey)
    requires Sane(db)
    ensures key in Committee(SlashAll(m, db, evidence)) <==> key in Committee(db) && !SlashedOut(m, db, evidence, key)
  {
    hide Sane;
    SaneSlashAll(m, db, evidence);
    if key in Committee(db) && key !in Committee(SlashAll(m, db, evidence)) {
      LeavesBySlash(m, db, evidence, key);
    } else if SlashedOut(m, db, evidence, key) {
      var k :| 0 <= k < |evidence| && DropsBelow(m, SlashAll(m, db, evidence[..k]), evidence[k], key);
      SlashEjects(m, db, evidence, k, key);
    }
  }

  /** A slash that leaves too little removes the key, and slashing never brings one back. */
  lemma {:induction false} SlashEjects(m: Machine, db: Db, evidence: seq<Evidence>, k: nat, key: PublicKey)
    requires Sane(db) && k < |evidence| && DropsBelow(m, SlashAll(m, db, evidence[..k]), evidence[k], key)
    ensures key !in Committee(SlashAll(m, db, evidence))
    decreases k
  {
    hide Sane;
    var d := Slash(m, db, evidence[0]);
    SaneSlash(m, db, evidence[0]);
    SaneSlashAll(m, d, evidence[1..]);
    if k == 0 {
      assert evidence[..0] == [];
    } else {
      SlashOneMore(m, db, evidence, k - 1);
      SlashEjects(m, d, evidence[1..], k - 1, key);
    }
  }

  lemma TimeoutExact(m: Machine, db: Db, block: Block, key: PublicKey)
    requires Sane(db)
    ensures key in Committee(Liveness(m, db, block)) <==> key in Committee(db) && !TimedOut(db, block, key)
  {
    var s := RewardAuthor(db.state.value, block.author);
    if TimeoutCharged(s, block.justify) {
      RemoveDistinct(s.committee, FailedLeader(s, block.justify));
    }
  }

  lemma {:induction false} DismissExact(committee: seq<PublicKey>, exited: seq<(PublicKey, View)>, key: PublicKey)
    requires Distinct(committee)
    ensures key in Dismiss(committee, exited) <==> key in committee && !HasKey(exited, key)
    decreases |exited|
  {
    if exited != [] {
      RemoveDistinct(committee, exited[0].0);
      DismissExact(RemoveFirst(committee, exited[0].0), exited[1..], key);
      assert exited == [exited[0]] + exited[1..];
      assert HasKey(exited, key) <==> exited[0].0 == key || HasKey(exited[1..], key);
    }
  }

  /** Despite the write gate, the queue step leaves in the committee exactly the members and the due
      pending keys that are not due to exit. */
  lemma QueuesExact(history: seq<Block>, db: Db, view: View, key: PublicKey)
    requires Good(history, db)
    ensures var s := db.state.value;
            key in Committee(Queues(db, view))
            <==> (key in s.committee || HasKey(Due(s.pending, view), key)) && !HasKey(Due(s.exiting, view), key)
  {
    var s := db.state.value;
    var ready := Due(s.pending, view);
    var admitted := Admit(s.committee, ready);
    AdmitDistinct(s.committee, ready);
    DismissExact(admitted, Due(s.exiting, view), key);
  }

  /** Whether the queue step touches the committee at all: some pending key is due, or some member
      is due to exit. */
  ghost predicate QueueStepActs(s: ConsensusState, view: View) {
    Due(s.pending, view) != [] || exists p :: p in s.exiting && p.1 <= view && p.0 in s.committee
  }

  lemma ActsIffChanged(s: ConsensusState, view: View)
    requires RegistryOk(s)
    ensures QueueStepActs(s, view) <==> QueuesChanged(s, view)
  {
    var ready, exited := Due(s.pending, view), Due(s.exiting, view);
    var admitted := Admit(s.committee, ready);
    AdmitDistinct(s.committee, ready);
    if ready != [] {
      assert HasKey(ready, ready[0].0);
      assert ready[0].0 in admitted && ready[0] in s.pending;
    } else {
      if p :| p in s.exiting && p.1 <= view && p.0 in s.committee {
        assert HasKey(exited, p.0);
        DismissExact(admitted, exited, p.0);
      } else {
        DismissNobody(admitted, exited);
      }
    }
  }

  lemma {:induction false} DismissNobody(committee: seq<PublicKey>, exited: seq<(PublicKey, View)>)
    requires forall p :: p in exited ==> p.0 !in committee
    ensures Dismiss(committee, exited) == committee
    decreases |exited|
  {
    if exited != [] {
      assert exited[0] in exited;
      RemoveAbsent(committee, exited[0].0);
      DismissNobody(committee, exited[1..]);
    }
  }

  /** Exactly when an exit entry outlives the queue step of a block: when it is not due, or when the
      step touches nobody, because the save gate then drops the shortened queue as well. Such an
      entry keeps its key from withdrawing. */
  lemma ExitEntryStaysIff(m: Machine, db: Db, view: View, p: (PublicKey, View))
    requires !db.overlay && db.state.Some? && RegistryOk(db.state.value) && p in db.state.value.exiting
    ensures var s1 := Queues(db, view).state.value;
            && (p in s1.exiting <==> p.1 > view || !QueueStepActs(db.state.value, view))
            && (p in s1.exiting ==> !CanWithdraw(m, s1, p.0))
  {
    hide QueueStepActs, QueuesChanged;
    ActsIffChanged(db.state.value, view);
  }

  /** Exactly who is in the committee after a block: a member that was neither slashed out nor
      timed out stays, and when the block executes fully, due pending keys are added and keys due to
      exit are dropped. A failing block changes nothing further. */
  lemma MembershipExact(m: Machine, db: Db, blocks: seq<Block>, last: Block, key: PublicKey)
    requires Good([], db)
    ensures var d := After(m, db, blocks);
            var out := ExecuteBlock(m, d, last);
            var s := AfterPayload(m, d, last).db.state;
            var stays := key in Committee(d) && !SlashedOut(m, d, last.evidence, key)
                         && !TimedOut(SlashAll(m, d, last.evidence), last, key);
            s.Some? && (key in Committee(out.db) <==>
              if out.result.Ok?
              then (stays || HasKey(Due(s.value.pending, last.view), key)) && !HasKey(Due(s.value.exiting, last.view), key)
              else stays)
  {
    hide Good, SlashAll, Liveness, RunPayload, Queues, TimedOut, SlashedOut, GasLimitError;
    var history := blocks + [last];
    RegistryInvariant(m, db, blocks);
    var d := After(m, db, blocks);
    LongerHistory(blocks, d, last);
    GoodBlock(m, history, d, last);
    GoodPayload(m, history, Progress(AfterSlashing(m, d, last), [], 0, None), last, last.payload);
    GoodSane(history, d);
    SaneSlashAll(m, d, last.evidence);
    SlashExact(m, d, last.evidence, key);
    TimeoutExact(m, SlashAll(m, d, last.evidence), last, key);
    GoodHasState(history, AfterPayload(m, d, last).db);
    QueuesExact(history, AfterPayload(m, d, last).db, last.view, key);
  }

  lemma GoodSane(history: seq<Block>, db: Db)
    requires Good(history, db)
    ensures Sane(db)
  {
  }

  lemma GoodHasState(history: seq<Block>, db: Db)
    requires Good(history, db)
    ensures db.state.Some?
  {
  }
}
