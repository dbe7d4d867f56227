/** The base fee rule and what it guarantees along any chain of locally built blocks. */
module BaseFee {
  import opened Types
  import opened Selection
  import opened Vm

  const ELASTICITY: nat := 2
  const MAX_CHANGE_DENOMINATOR: nat := 8

  function Target(limit: nat): nat {
    limit / ELASTICITY
  }

  /** How far the parent's gas use is from the target. */
  function Delta(limit: nat, gasUsed: nat): nat {
    if gasUsed > Target(limit) then gasUsed - Target(limit) else Target(limit) - gasUsed
  }

  function Change(limit: nat, fee: nat, gasUsed: nat): nat
    requires Target(limit) > 0
  {
    Wrap256(fee * Delta(limit, gasUsed)) / Target(limit) / MAX_CHANGE_DENOMINATOR
  }

  /** The base fee of a child block. The division by a zero target is the caller's to avoid. */
  function NextBaseFee(limit: nat, fee: nat, gasUsed: nat): nat
    requires Target(limit) > 0 || gasUsed == Target(limit)
  {
    if gasUsed == Target(limit) then fee
    else
      var change := Change(limit, fee, gasUsed);
      if gasUsed > Target(limit) then Wrap256(fee + change)
      else if change > fee then 0 else fee - change
  }

  /** No product or sum of the rule leaves 256 bits. */
  ghost predicate NoOverflow(limit: nat, fee: nat) {
    fee * limit < TWO_256 && fee + fee / MAX_CHANGE_DENOMINATOR < TWO_256
  }

  ghost predicate EvenLimit(limit: nat) {
    limit >= 2 && limit % 2 == 0
  }

  lemma MulMonotone(a: nat, b: nat, c: nat, d: nat)
    requires a <= b && c <= d
    ensures a * c <= b * d
  {
    assert a * c <= b * c by { assert (b - a) * c >= 0; }
    assert b * c <= b * d by { assert b * (d - c) >= 0; }
  }

  lemma DivLess(b: nat, q: nat, t: nat)
    requires t > 0 && b < q * t
    ensures b / t < q
  {
    if b / t >= q {
      MulMonotone(q, b / t, t, t);
      assert false;
    }
  }

  lemma DivMonotone(a: nat, b: nat, c: nat)
    requires a <= b && c > 0
    ensures a / c <= b / c
  {
    assert b == c * (b / c) + b % c;
    DivLess(a, b / c + 1, c);
  }

  lemma DivAtMost(a: nat, q: nat, c: nat)
    requires c > 0 && a <= q * c
    ensures a / c <= q
  {
    DivMonotone(a, q * c, c);
    assert q * c / c == q;
  }

  /** The fee moved by an eighth of the share by which the gas missed half the limit. */
  function PlainFee(limit: nat, fee: nat, gasUsed: nat): int
    requires limit >= 2
  {
    var half := limit / 2;
    if gasUsed > half then fee + fee * (gasUsed - half) / half / 8 else fee - fee * (half - gasUsed) / half / 8
  }

  /** Within the limit nothing wraps, and the rule is the plain formula. */
  lemma PlainFormula(limit: nat, fee: nat, gasUsed: nat)
    requires EvenLimit(limit) && gasUsed <= limit && NoOverflow(limit, fee)
    ensures Delta(limit, gasUsed) <= Target(limit) && Change(limit, fee, gasUsed) <= fee / 8
    ensures NextBaseFee(limit, fee, gasUsed) == PlainFee(limit, fee, gasUsed)
  {
    var t, d := Target(limit), Delta(limit, gasUsed);
    MulMonotone(fee, fee, d, limit);
    MulMonotone(fee, fee, d, t);
    DivAtMost(fee * d, fee, t);
    DivMonotone(fee * d / t, fee, 8);
    assert gasUsed == t ==> fee * d == 0;
  }

  /** With an even limit a child's fee is within an eighth of its parent's. */
  lemma StepBounded(limit: nat, fee: nat, gasUsed: nat)
    requires EvenLimit(limit) && gasUsed <= limit && NoOverflow(limit, fee)
    ensures fee - fee / 8 <= NextBaseFee(limit, fee, gasUsed) <= fee + fee / 8
  {
    PlainFormula(limit, fee, gasUsed);
  }

  lemma ExactShare(t: nat)
    requires t > 0
    ensures 8 * t * (t + 1) / t / 8 == t + 1
  {
    var q := 8 * (t + 1);
    assert 8 * t * (t + 1) == q * t;
    DivAtMost(q * t, q, t);
    if q * t / t < q {
      MulMonotone(q * t / t + 1, q, t, t);
      assert false;
    }
  }

  lemma SmallProduct(a: nat, b: nat)
    requires a <= 8 * TWO_64 && b <= TWO_64
    ensures a * b < TWO_256
  {
    MulMonotone(a, 8 * TWO_64, b, TWO_64);
  }

  lemma OddLimitOvershoots(limit: nat)
    requires 2 < limit < TWO_64 && limit % 2 == 1
    ensures var fee := 8 * Target(limit);
            NoOverflow(limit, fee) && NextBaseFee(limit, fee, limit) == fee + fee / 8 + 1
  {
    var t := Target(limit);
    SmallProduct(8 * t, limit);
    SmallProduct(8 * t, t + 1);
    ExactShare(t);
    assert Delta(limit, limit) == t + 1;
    assert Change(limit, 8 * t, limit) == t + 1;
  }

  /** The bound holds for every fee and every possible gas use exactly when the limit is even. */
  lemma BoundedIffEven(limit: nat)
    requires 2 <= limit < TWO_64
    ensures (forall fee: nat, gasUsed: nat :: gasUsed <= limit && NoOverflow(limit, fee) ==>
               NextBaseFee(limit, fee, gasUsed) <= fee + fee / 8)
            <==> limit % 2 == 0
  {
    if limit % 2 == 0 {
      forall fee: nat, gasUsed: nat | gasUsed <= limit && NoOverflow(limit, fee)
        ensures NextBaseFee(limit, fee, gasUsed) <= fee + fee / 8
      {
        StepBounded(limit, fee, gasUsed);
      }
    } else {
      OddLimitOvershoots(limit);
    }
  }

  /** For a share d/t of at most one, an eighth of the share grows with the fee but no faster. */
  lemma ShareGrowth(low: nat, high: nat, d: nat, t: nat)
    requires low <= high && d <= t && t > 0
    ensures low * d / t / 8 <= high * d / t / 8 <= low * d / t / 8 + (high - low)
  {
    MulMonotone(low, high, d, d);
    DivMonotone(low * d, high * d, t);
    DivMonotone(low * d / t, high * d / t, 8);
    var gap, q := high - low, low * d / t;
    MulMonotone(gap, gap, d, t);
    assert high * d == low * d + gap * d;
    assert low * d < (q + 1) * t by { assert low * d == q * t + low * d % t; }
    assert (q + 1) * t + gap * t == (q + 1 + gap) * t;
    DivLess(high * d, q + 1 + gap, t);
  }

  /** A higher parent fee never gives a lower child fee. */
  lemma MonotoneInFee(limit: nat, low: nat, high: nat, gasUsed: nat)
    requires EvenLimit(limit) && gasUsed <= limit && low <= high && NoOverflow(limit, high) && NoOverflow(limit, low)
    ensures NextBaseFee(limit, low, gasUsed) <= NextBaseFee(limit, high, gasUsed)
  {
    PlainFormula(limit, low, gasUsed);
    PlainFormula(limit, high, gasUsed);
    ShareGrowth(low, high, Delta(limit, gasUsed), Target(limit));
  }

  /** More gas used by the parent never gives a lower child fee. */
  lemma MonotoneInGas(limit: nat, fee: nat, low: nat, high: nat)
    requires EvenLimit(limit) && low <= high <= limit && NoOverflow(limit, fee)
    ensures NextBaseFee(limit, fee, low) <= NextBaseFee(limit, fee, high)
  {
    PlainFormula(limit, fee, low);
    PlainFormula(limit, fee, high);
    hide NextBaseFee, Change;
    var half := limit / 2;
    if high <= half {
      ShareOfGap(fee, half - high, half - low, half);
    } else if low > half {
      ShareOfGap(fee, low - half, high - half, half);
    }
  }

  lemma ShareOfGap(fee: nat, low: nat, high: nat, t: nat)
    requires low <= high && t > 0
    ensures fee * low / t / 8 <= fee * high / t / 8
  {
    MulMonotone(fee, fee, low, high);
    DivMonotone(fee * low, fee * high, t);
    DivMonotone(fee * low / t, fee * high / t, 8);
  }

  // ---- Gas used by a block ----

  ghost predicate GasWithinLimit(m: Machine) {
    forall ledger, tx, fee ::
      m.evm(ledger, tx, fee).EvmDone? ==> m.evm(ledger, tx, fee).gasUsed <= tx.gasLimit
  }

  lemma {:induction false} PayloadGas(m: Machine, p: Progress, block: Block, txs: seq<Transaction>)
    requires GasWithinLimit(m)
    ensures RunPayload(m, p, block, txs).gasUsed <= p.gasUsed + GasSum(txs)
    decreases |txs|
  {
    if txs != [] && p.error.None? {
      PayloadGas(m, RunTx(m, p, block, txs[0]), block, txs[1..]);
    }
  }

  // ---- Chains ----

  /** `child` was built by this node on `parent`: fee by the rule, payload by selection from some
      pool contents, gas by execution on some database. */
  ghost predicate BuiltOn(m: Machine, parent: Block, child: Block) {
    && (Target(m.blockGasLimit) > 0 || parent.gasUsed == Target(m.blockGasLimit))
    && child.baseFeePerGas == NextBaseFee(m.blockGasLimit, parent.baseFeePerGas, parent.gasUsed)
    && (exists pool :: child.payload == Select(pool, m.blockGasLimit, child.baseFeePerGas))
    && (exists db :: ExecutesTo(m, db, child))
  }

  ghost predicate ExecutesTo(m: Machine, db: Db, block: Block) {
    var out := ExecuteBlock(m, db, block).result;
    out.Ok? && out.value.gasUsed == block.gasUsed
  }

  ghost predicate LocalChain(m: Machine, chain: seq<Block>) {
    && chain != [] && chain[0].baseFeePerGas == 10_000_000 && chain[0].gasUsed == 0
    && (forall i :: 0 <= i < |chain| ==> NoOverflow(m.blockGasLimit, chain[i].baseFeePerGas))
    && (forall i :: 0 < i < |chain| ==> BuiltOn(m, chain[i - 1], chain[i]))
  }

  lemma BuiltWithinLimit(m: Machine, parent: Block, child: Block)
    requires GasWithinLimit(m) && BuiltOn(m, parent, child)
    ensures child.gasUsed <= m.blockGasLimit
  {
    var pool :| child.payload == Select(pool, m.blockGasLimit, child.baseFeePerGas);
    var db :| ExecutesTo(m, db, child);
    PayloadGas(m, Progress(AfterSlashing(m, db, child), [], 0, None), child, child.payload);
  }

  /** Along every locally built chain from genesis gas stays within the limit, each fee is within
      an eighth of its parent's, and no fee ever drops below 7. */
  lemma {:induction false} ChainFees(m: Machine, chain: seq<Block>, i: nat)
    requires GasWithinLimit(m) && EvenLimit(m.blockGasLimit) && LocalChain(m, chain) && i < |chain|
    ensures chain[i].gasUsed <= m.blockGasLimit && chain[i].baseFeePerGas >= 7
    ensures i > 0 ==>
      var parent, child := chain[i - 1].baseFeePerGas, chain[i].baseFeePerGas;
      parent - parent / 8 <= child <= parent + parent / 8
  {
    if i > 0 {
      ChainFees(m, chain, i - 1);
      assert BuiltOn(m, chain[i - 1], chain[i]);
      BuiltWithinLimit(m, chain[i - 1], chain[i]);
      StepBounded(m.blockGasLimit, chain[i - 1].baseFeePerGas, chain[i - 1].gasUsed);
    }
  }

  /** A fee below 8 can never move again. */
  lemma {:induction false} FrozenBelowEight(m: Machine, chain: seq<Block>, i: nat, j: nat)
    requires GasWithinLimit(m) && EvenLimit(m.blockGasLimit) && LocalChain(m, chain) && i <= j < |chain|
    requires chain[i].baseFeePerGas < 8
    ensures chain[j].baseFeePerGas == chain[i].baseFeePerGas == 7
    decreases j
  {
    hide NoOverflow, BuiltOn, GasWithinLimit;
    ChainFees(m, chain, i);
    if j > i {
      FrozenBelowEight(m, chain, i, j - 1);
      ChainFees(m, chain, j);
    }
  }
}
