/** Choosing the transactions of a block: eligibility, order and greedy packing. */
module Selection {
  import opened Types

  datatype Ordering = Less | Equal | Greater

  function CompareNat(a: nat, b: nat): Ordering {
    if a < b then Less else if a == b then Equal else Greater
  }

  predicate Eligible(tx: Transaction, baseFee: nat) {
    tx.maxFeePerGas >= baseFee
  }

  /** What the proposer earns per unit of gas. */
  function Tip(tx: Transaction, baseFee: nat): nat
    requires Eligible(tx, baseFee)
  {
    var room := tx.maxFeePerGas - baseFee;
    if tx.maxPriorityFeePerGas < room then tx.maxPriorityFeePerGas else room
  }

  /** The tip is the most the sender will pay: within the priority fee, and with the base fee within
      the fee cap. */
  lemma TipIsLargest(tx: Transaction, baseFee: nat, amount: nat)
    requires baseFee <= tx.maxFeePerGas
    ensures Eligible(tx, baseFee) && Tip(tx, baseFee) <= tx.maxPriorityFeePerGas && baseFee + Tip(tx, baseFee) <= tx.maxFeePerGas
    ensures amount <= tx.maxPriorityFeePerGas && baseFee + amount <= tx.maxFeePerGas ==> amount <= Tip(tx, baseFee)
  {
  }

  /** The comparator of the sort, as written: tip descending; then nonce for one sender, key
      between senders. */
  function Compare(a: Transaction, b: Transaction, baseFee: nat): Ordering
    requires Eligible(a, baseFee) && Eligible(b, baseFee)
  {
    var byTip := CompareNat(Tip(b, baseFee), Tip(a, baseFee));
    if byTip != Equal then byTip
    else if a.publicKey == b.publicKey then CompareNat(a.nonce, b.nonce)
    else CompareNat(a.publicKey, b.publicKey)
  }

  /** The lexicographic order it stands for. */
  predicate KeyAtMost(a: Transaction, b: Transaction, baseFee: nat)
    requires Eligible(a, baseFee) && Eligible(b, baseFee)
  {
    var ta, tb := Tip(a, baseFee), Tip(b, baseFee);
    ta > tb || (ta == tb && (a.publicKey < b.publicKey || (a.publicKey == b.publicKey && a.nonce <= b.nonce)))
  }

  predicate SameKey(a: Transaction, b: Transaction, baseFee: nat)
    requires Eligible(a, baseFee) && Eligible(b, baseFee)
  {
    Tip(a, baseFee) == Tip(b, baseFee) && a.publicKey == b.publicKey && a.nonce == b.nonce
  }

  /** The comparator is the lexicographic order on (tip descending, key, nonce), hence a total
      preorder whose ties are exactly equal keys. */
  lemma ComparatorIsLexicographic(a: Transaction, b: Transaction, c: Transaction, baseFee: nat)
    requires Eligible(a, baseFee) && Eligible(b, baseFee) && Eligible(c, baseFee)
    ensures Compare(a, b, baseFee) != Greater <==> KeyAtMost(a, b, baseFee)
    ensures Compare(a, b, baseFee) == Equal <==> SameKey(a, b, baseFee)
    ensures Compare(a, b, baseFee) == Less <==> Compare(b, a, baseFee) == Greater
    ensures Compare(a, b, baseFee) != Greater && Compare(b, c, baseFee) != Greater ==> Compare(a, c, baseFee) != Greater
  {
  }

  predicate AllEligible(txs: seq<Transaction>, baseFee: nat) {
    forall tx :: tx in txs ==> Eligible(tx, baseFee)
  }

  predicate Sorted(txs: seq<Transaction>, baseFee: nat)
    requires AllEligible(txs, baseFee)
  {
    forall i, j :: 0 <= i < j < |txs| ==> Compare(txs[i], txs[j], baseFee) != Greater
  }

  function Filtered(txs: seq<Transaction>, baseFee: nat): (r: seq<Transaction>)
    ensures forall tx :: tx in r <==> tx in txs && Eligible(tx, baseFee)
  {
    if txs == [] then []
    else (if Eligible(txs[0], baseFee) then [txs[0]] else []) + Filtered(txs[1..], baseFee)
  }

  function Insert(tx: Transaction, txs: seq<Transaction>, baseFee: nat): (r: seq<Transaction>)
    requires Eligible(tx, baseFee) && AllEligible(txs, baseFee)
    ensures multiset(r) == multiset(txs) + multiset{tx}
    ensures forall x :: x in r <==> x == tx || x in txs
  {
    if txs == [] || Compare(tx, txs[0], baseFee) != Greater then [tx] + txs
    else
      assert txs == [txs[0]] + txs[1..];
      [txs[0]] + Insert(tx, txs[1..], baseFee)
  }

  /** A stable sort by the comparator. */
  function SortByTip(txs: seq<Transaction>, baseFee: nat): (r: seq<Transaction>)
    requires AllEligible(txs, baseFee)
    ensures multiset(r) == multiset(txs)
    ensures forall x :: x in r <==> x in txs
  {
    if txs == [] then []
    else
      assert txs == [txs[0]] + txs[1..];
      Insert(txs[0], SortByTip(txs[1..], baseFee), baseFee)
  }

  lemma {:induction false} InsertSorted(tx: Transaction, txs: seq<Transaction>, baseFee: nat)
    requires Eligible(tx, baseFee) && AllEligible(txs, baseFee) && Sorted(txs, baseFee)
    ensures Sorted(Insert(tx, txs, baseFee), baseFee)
  {
    if txs != [] && Compare(tx, txs[0], baseFee) == Greater {
      InsertSorted(tx, txs[1..], baseFee);
      var rest := Insert(tx, txs[1..], baseFee);
      forall x | x in rest ensures Compare(txs[0], x, baseFee) != Greater {
        ComparatorIsLexicographic(tx, txs[0], x, baseFee);
        if x != tx {
          var i :| 0 <= i < |txs[1..]| && txs[1..][i] == x;
          assert txs[i + 1] == x;
        }
      }
    } else if txs != [] {
      forall x | x in txs ensures Compare(tx, x, baseFee) != Greater {
        var i :| 0 <= i < |txs| && txs[i] == x;
        ComparatorIsLexicographic(tx, txs[0], x, baseFee);
      }
    }
  }

  lemma {:induction false} SortSorts(txs: seq<Transaction>, baseFee: nat)
    requires AllEligible(txs, baseFee)
    ensures Sorted(SortByTip(txs, baseFee), baseFee)
  {
    if txs != [] {
      SortSorts(txs[1..], baseFee);
      InsertSorted(txs[0], SortByTip(txs[1..], baseFee), baseFee);
    }
  }

  predicate KeysDistinct(txs: seq<Transaction>, baseFee: nat)
    requires AllEligible(txs, baseFee)
  {
    forall a, b :: a in txs && b in txs && SameKey(a, b, baseFee) ==> a == b
  }

  lemma SortedHead(a: seq<Transaction>, x: Transaction, baseFee: nat)
    requires AllEligible(a, baseFee) && Sorted(a, baseFee) && x in a
    ensures Eligible(x, baseFee) && KeyAtMost(a[0], x, baseFee)
  {
    var i :| 0 <= i < |a| && a[i] == x;
    ComparatorIsLexicographic(a[0], x, x, baseFee);
  }

  lemma SortedTail(a: seq<Transaction>, baseFee: nat)
    requires a != [] && AllEligible(a, baseFee) && Sorted(a, baseFee)
    ensures AllEligible(a[1..], baseFee) && Sorted(a[1..], baseFee)
    ensures multiset(a[1..]) == multiset(a) - multiset{a[0]}
  {
    assert a == [a[0]] + a[1..];
    var rest := a[1..];
    forall i, j | 0 <= i < j < |rest| ensures Compare(rest[i], rest[j], baseFee) != Greater {
      assert rest[i] == a[i + 1] && rest[j] == a[j + 1];
    }
  }

  lemma SortedHeads(a: seq<Transaction>, b: seq<Transaction>, baseFee: nat)
    requires AllEligible(a, baseFee) && AllEligible(b, baseFee) && a != [] && b != []
    requires Sorted(a, baseFee) && Sorted(b, baseFee) && KeysDistinct(a, baseFee)
    requires a[0] in b && b[0] in a
    ensures a[0] == b[0]
  {
    SortedHead(a, b[0], baseFee);
    SortedHead(b, a[0], baseFee);
    assert SameKey(a[0], b[0], baseFee);
  }

  /** Any sorted arrangement of transactions with distinct keys is the same list, whichever sorting
      algorithm produced it. */
  lemma {:induction false} SortedUnique(a: seq<Transaction>, b: seq<Transaction>, baseFee: nat)
    requires AllEligible(a, baseFee) && AllEligible(b, baseFee)
    requires multiset(a) == multiset(b) && Sorted(a, baseFee) && Sorted(b, baseFee) && KeysDistinct(a, baseFee)
    ensures a == b
  {
    hide Sorted, AllEligible, SameKey;
    if a == [] || b == [] {
      assert |multiset(a)| == |a| && |multiset(b)| == |b|;
    } else {
      var ra, rb := a[1..], b[1..];
      assert a == [a[0]] + ra && b == [b[0]] + rb;
      assert a[0] == b[0] by {
        assert a[0] in multiset(b) && b[0] in multiset(a);
        SortedHeads(a, b, baseFee);
      }
      assert AllEligible(ra, baseFee) && AllEligible(rb, baseFee) && multiset(ra) == multiset(rb)
          && Sorted(ra, baseFee) && Sorted(rb, baseFee) by {
        SortedTail(a, baseFee);
        SortedTail(b, baseFee);
      }
      assert forall x :: x in ra ==> x in a;
      SortedUnique(ra, rb, baseFee);
    }
  }

  function GasSum(txs: seq<Transaction>): nat {
    if txs == [] then 0 else txs[0].gasLimit + GasSum(txs[1..])
  }

  /** Takes each transaction that still fits and stops once the block is full. */
  function Pack(txs: seq<Transaction>, limit: nat, gas: nat): (r: seq<Transaction>)
    requires gas <= limit
    ensures gas + GasSum(r) <= limit
    ensures forall tx :: tx in r ==> tx in txs
    decreases |txs|
  {
    if txs == [] then []
    else if gas + txs[0].gasLimit <= limit then
      var now := gas + txs[0].gasLimit;
      if now >= limit then [txs[0]] else [txs[0]] + Pack(txs[1..], limit, now)
    else if gas >= limit then []
    else Pack(txs[1..], limit, gas)
  }

  /** A packing cannot be improved by adding an omitted transaction. */
  lemma {:induction false} PackMaximal(txs: seq<Transaction>, limit: nat, gas: nat, tx: Transaction)
    requires gas <= limit && tx in txs && tx !in Pack(txs, limit, gas) && tx.gasLimit > 0
    ensures gas + GasSum(Pack(txs, limit, gas)) + tx.gasLimit > limit
    decreases |txs|
  {
    if gas + txs[0].gasLimit <= limit {
      if gas + txs[0].gasLimit < limit {
        assert tx != txs[0];
        PackMaximal(txs[1..], limit, gas + txs[0].gasLimit, tx);
      }
    } else if gas < limit && tx != txs[0] {
      PackMaximal(txs[1..], limit, gas, tx);
    }
  }

  /** No 64-bit addition of that loop overflows. */
  ghost predicate AdditionsFit(txs: seq<Transaction>, limit: nat, gas: nat)
    decreases |txs|
  {
    txs == [] ||
    (gas + txs[0].gasLimit < TWO_64 &&
     var now := if gas + txs[0].gasLimit <= limit then gas + txs[0].gasLimit else gas;
     now >= limit || AdditionsFit(txs[1..], limit, now))
  }

  /** The admission cap on gas limits rules out overflow for every block limit up to 2^64 - 2^24. */
  lemma {:induction false} CapRulesOutOverflow(txs: seq<Transaction>, limit: nat, gas: nat)
    requires forall tx :: tx in txs ==> tx.gasLimit <= MAX_TX_GAS_LIMIT
    requires (gas == 0 || gas < limit) && limit <= TWO_64 - MAX_TX_GAS_LIMIT
    ensures AdditionsFit(txs, limit, gas)
    decreases |txs|
  {
    if txs != [] {
      var now := if gas + txs[0].gasLimit <= limit then gas + txs[0].gasLimit else gas;
      if now < limit {
        CapRulesOutOverflow(txs[1..], limit, now);
      }
    }
  }

  /** The payload for a block: the eligible transactions, sorted and filled greedily. */
  function Select(txs: seq<Transaction>, limit: nat, baseFee: nat): (r: seq<Transaction>)
    ensures GasSum(r) <= limit
    ensures forall tx :: tx in r ==> tx in txs && tx.maxFeePerGas >= baseFee
  {
    Pack(SortByTip(Filtered(txs, baseFee), baseFee), limit, 0)
  }

  lemma {:induction false} FilteredMultiset(txs: seq<Transaction>, baseFee: nat, tx: Transaction)
    ensures multiset(Filtered(txs, baseFee))[tx] == if Eligible(tx, baseFee) then multiset(txs)[tx] else 0
  {
    if txs != [] {
      FilteredMultiset(txs[1..], baseFee, tx);
      assert txs == [txs[0]] + txs[1..];
    }
  }

  /** The chosen list does not depend on the order in which the pool hands out its transactions. */
  lemma SelectionDeterministic(a: seq<Transaction>, b: seq<Transaction>, limit: nat, baseFee: nat)
    requires multiset(a) == multiset(b) && KeysDistinct(Filtered(a, baseFee), baseFee)
    ensures Select(a, limit, baseFee) == Select(b, limit, baseFee)
  {
    var fa, fb := Filtered(a, baseFee), Filtered(b, baseFee);
    forall tx ensures multiset(fa)[tx] == multiset(fb)[tx] {
      FilteredMultiset(a, baseFee, tx);
      FilteredMultiset(b, baseFee, tx);
    }
    assert multiset(fa) == multiset(fb);
    SortSorts(fa, baseFee);
    SortSorts(fb, baseFee);
    SortedUnique(SortByTip(fa, baseFee), SortByTip(fb, baseFee), baseFee);
  }

  /** Every omitted eligible transaction with a positive gas limit is one that no longer fits. */
  lemma SelectionMaximal(txs: seq<Transaction>, limit: nat, baseFee: nat, tx: Transaction)
    requires tx in txs && tx.maxFeePerGas >= baseFee && tx.gasLimit > 0 && tx !in Select(txs, limit, baseFee)
    ensures GasSum(Select(txs, limit, baseFee)) + tx.gasLimit > limit
  {
    PackMaximal(SortByTip(Filtered(txs, baseFee), baseFee), limit, 0, tx);
  }

  /** Packing goes through the list in its order: the next transaction is taken exactly when it fits
      with those taken before it and, but for the first, the block is not full already. */
  lemma {:induction false} PackGreedy(txs: seq<Transaction>, limit: nat, gas: nat, i: nat)
    requires gas <= limit && i < |txs|
    ensures var before := Pack(txs[..i], limit, gas);
            var fits := gas + GasSum(before) + txs[i].gasLimit <= limit && (i == 0 || gas + GasSum(before) < limit);
            Pack(txs[..i + 1], limit, gas) == before + if fits then [txs[i]] else []
    decreases |txs|
  {
    var head, tail := txs[0], txs[1..];
    if i == 0 {
      assert txs[..1][1..] == [];
    } else {
      assert txs[..i + 1][1..] == tail[..i] && txs[..i][1..] == tail[..i - 1];
      var now := if gas + head.gasLimit <= limit then gas + head.gasLimit else gas;
      if now < limit {
        PackGreedy(tail, limit, now, i - 1);
      }
    }
  }

  lemma {:induction false} PackSorted(txs: seq<Transaction>, limit: nat, gas: nat, baseFee: nat)
    requires AllEligible(txs, baseFee) && Sorted(txs, baseFee) && gas <= limit
    ensures var r := Pack(txs, limit, gas); AllEligible(r, baseFee) && Sorted(r, baseFee) && forall x :: x in r ==> x in txs
    decreases |txs|
  {
    if txs != [] {
      var now := if gas + txs[0].gasLimit <= limit then gas + txs[0].gasLimit else gas;
      PackSorted(txs[1..], limit, now, baseFee);
      forall x | x in txs[1..] ensures Compare(txs[0], x, baseFee) != Greater {
        var i :| 0 <= i < |txs[1..]| && txs[1..][i] == x;
        assert txs[i + 1] == x;
      }
    }
  }

  /** The payload is in the order of the comparator, and it is the greedy choice along that order. */
  lemma SelectionGreedy(txs: seq<Transaction>, limit: nat, baseFee: nat) returns (sorted: seq<Transaction>)
    ensures multiset(sorted) == multiset(Filtered(txs, baseFee)) && AllEligible(sorted, baseFee) && Sorted(sorted, baseFee)
    ensures AllEligible(Select(txs, limit, baseFee), baseFee) && Sorted(Select(txs, limit, baseFee), baseFee)
    ensures Select(txs, limit, baseFee) == Pack(sorted, limit, 0)
  {
    sorted := SortByTip(Filtered(txs, baseFee), baseFee);
    SortSorts(Filtered(txs, baseFee), baseFee);
    PackSorted(sorted, limit, 0, baseFee);
  }
}
