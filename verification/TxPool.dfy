/** The transaction pool: a map by hash and a queue of hashes, changed in place. */
module TxPoolModel {
  import opened Types
  import opened Collections
  import opened Selection

  datatype PoolError =
    | AlreadyExists
    | InvalidSignature
    | InvalidNonce(expected: nat, got: nat)
    | GasLimitExceeded(max: nat, got: nat)

  /** The elements of a queue that are still in a set, in order. */
  function Kept(queue: seq<Hash>, keys: set<Hash>): (r: seq<Hash>)
    ensures forall h :: h in r <==> h in queue && h in keys
  {
    if queue == [] then []
    else (if queue[0] in keys then [queue[0]] else []) + Kept(queue[1..], keys)
  }

  lemma {:induction false} KeptAll(queue: seq<Hash>, keys: set<Hash>)
    requires forall h :: h in queue ==> h in keys
    ensures Kept(queue, keys) == queue
  {
    if queue != [] {
      KeptAll(queue[1..], keys);
    }
  }

  lemma {:induction false} KeptAgain(queue: seq<Hash>, a: set<Hash>, b: set<Hash>)
    requires b <= a
    ensures Kept(Kept(queue, a), b) == Kept(queue, b)
  {
    if queue != [] {
      KeptAgain(queue[1..], a, b);
      var rest := Kept(queue[1..], a);
      assert ([queue[0]] + rest)[1..] == rest && [] + rest == rest;
    }
  }

  lemma {:induction false} RemoveIsKept(queue: seq<Hash>, keys: set<Hash>, hash: Hash)
    requires Distinct(queue) && forall h :: h in queue ==> h in keys
    ensures RemoveFirst(queue, hash) == Kept(queue, keys - {hash})
  {
    if queue != [] {
      if queue[0] == hash {
        assert hash !in queue[1..];
        KeptAll(queue[1..], keys - {hash});
      } else {
        RemoveIsKept(queue[1..], keys, hash);
      }
    }
  }

  /** The pool's transactions in the order a hash map visit delivers them. */
  function Visit(transactions: map<Hash, Transaction>, order: seq<Hash>): seq<Transaction>
    requires forall h :: h in order ==> h in transactions
  {
    seq(|order|, i requires 0 <= i < |order| => transactions[order[i]])
  }

  function Without(pool: map<Hash, Transaction>, txs: seq<Transaction>, hashOf: Transaction -> Hash): map<Hash, Transaction> {
    pool - (set tx | tx in txs :: hashOf(tx))
  }

  lemma WithoutOneMore(now: map<Hash, Transaction>, pool: map<Hash, Transaction>, txs: seq<Transaction>, i: nat,
                       hashOf: Transaction -> Hash)
    requires i < |txs| && now == Without(pool, txs[..i], hashOf)
    ensures now - {hashOf(txs[i])} == Without(pool, txs[..i + 1], hashOf)
  {
    assert txs[..i + 1] == txs[..i] + [txs[i]];
  }

  lemma PackStep(txs: seq<Transaction>, limit: nat, gas: nat)
    requires gas <= limit && txs != []
    ensures Pack(txs, limit, gas) ==
      if gas + txs[0].gasLimit <= limit
      then [txs[0]] + (if gas + txs[0].gasLimit >= limit then [] else Pack(txs[1..], limit, gas + txs[0].gasLimit))
      else if gas >= limit then [] else Pack(txs[1..], limit, gas)
  {
  }

  /** The greedy fill loop. */
  method Fill(sorted: seq<Transaction>, limit: nat) returns (pending: seq<Transaction>)
    ensures pending == Pack(sorted, limit, 0)
  {
    pending := [];
    var gas: nat := 0;
    for i := 0 to |sorted|
      invariant 0 <= gas <= limit
      invariant pending + Pack(sorted[i..], limit, gas) == Pack(sorted, limit, 0)
    {
      hide Pack;
      assert sorted[i..][0] == sorted[i] && sorted[i..][1..] == sorted[i + 1..];
      PackStep(sorted[i..], limit, gas);
      ghost var before := pending;
      if gas + sorted[i].gasLimit <= limit {
        pending := pending + [sorted[i]];
        gas := gas + sorted[i].gasLimit;
      }
      if gas >= limit {
        assert before + [] == before;
        return;
      }
    }
  }

  class TxPool {
    var transactions: map<Hash, Transaction>
    var queue: seq<Hash>
    const hashOf: Transaction -> Hash
    const sighash: Transaction -> Hash
    const addressOf: PublicKey -> Address

    /** The queue lists exactly the pooled hashes, once each; every pooled transaction sits under
        its own hash, is signed and respects the gas cap. */
    ghost predicate Valid()
      reads this
    {
      && Enumerates(queue, transactions.Keys)
      && forall h :: h in transactions ==>
           var tx := transactions[h];
           hashOf(tx) == h && tx.gasLimit <= MAX_TX_GAS_LIMIT && Verify(tx.publicKey, sighash(tx), tx.signature)
    }

    constructor (hashOf: Transaction -> Hash, sighash: Transaction -> Hash, addressOf: PublicKey -> Address)
      ensures Valid() && transactions == map[] && queue == []
    {
      this.hashOf, this.sighash, this.addressOf := hashOf, sighash, addressOf;
      transactions, queue := map[], [];
    }

    function AccountNonce(accounts: map<Address, AccountInfo>, key: PublicKey): nat {
      if addressOf(key) in accounts then accounts[addressOf(key)].nonce else 0
    }

    method AddTransaction(tx: Transaction, accounts: map<Address, AccountInfo>) returns (r: Result<(), PoolError>)
      requires Valid()
      modifies this
      ensures Valid()
      ensures r.Ok? <==>
        && tx.gasLimit <= MAX_TX_GAS_LIMIT && Verify(tx.publicKey, sighash(tx), tx.signature)
        && tx.nonce >= AccountNonce(accounts, tx.publicKey) && hashOf(tx) !in old(transactions)
      ensures r.Ok? ==> transactions == old(transactions)[hashOf(tx) := tx] && queue == old(queue) + [hashOf(tx)]
      ensures r.Err? ==> transactions == old(transactions) && queue == old(queue)
      ensures r.Err? ==>
        r.error == (if tx.gasLimit > 16_777_216 then GasLimitExceeded(16_777_216, tx.gasLimit)
                    else if !Verify(tx.publicKey, sighash(tx), tx.signature) then InvalidSignature
                    else if tx.nonce < AccountNonce(accounts, tx.publicKey)
                    then InvalidNonce(AccountNonce(accounts, tx.publicKey), tx.nonce)
                    else AlreadyExists)
    {
      if tx.gasLimit > MAX_TX_GAS_LIMIT {
        return Err(GasLimitExceeded(MAX_TX_GAS_LIMIT, tx.gasLimit));
      }
      if !Verify(tx.publicKey, sighash(tx), tx.signature) {
        return Err(InvalidSignature);
      }
      var nonce := AccountNonce(accounts, tx.publicKey);
      if tx.nonce < nonce {
        return Err(InvalidNonce(nonce, tx.nonce));
      }
      var hash := hashOf(tx);
      if hash in transactions {
        return Err(AlreadyExists);
      }
      transactions := transactions[hash := tx];
      queue := queue + [hash];
      return Ok(());
    }

    /** `order` is the order in which the hash map happens to be visited. */
    method GetTransactionsForBlock(order: seq<Hash>, limit: nat, baseFee: nat) returns (pending: seq<Transaction>)
      requires Enumerates(order, transactions.Keys)
      ensures pending == Select(Visit(transactions, order), limit, baseFee)
    {
      pending := Fill(SortByTip(Filtered(Visit(transactions, order), baseFee), baseFee), limit);
    }

    method RemoveHash(hash: Hash)
      requires Valid()
      modifies this
      ensures Valid()
      ensures transactions == old(transactions) - {hash}
      ensures queue == Kept(old(queue), transactions.Keys)
    {
      if hash in transactions {
        RemoveIsKept(queue, transactions.Keys, hash);
        RemoveDistinct(queue, hash);
        transactions := transactions - {hash};
        queue := RemoveFirst(queue, hash);
      } else {
        KeptAll(queue, transactions.Keys);
      }
    }

    /** Drops the transactions of a block from the map and from the queue, keeping queue order. */
    method RemoveTransactions(txs: seq<Transaction>)
      requires Valid()
      modifies this
      ensures Valid()
      ensures transactions == Without(old(transactions), txs, hashOf)
      ensures queue == Kept(old(queue), transactions.Keys)
    {
      KeptAll(queue, transactions.Keys);
      for i := 0 to |txs|
        invariant Valid()
        invariant transactions == Without(old(transactions), txs[..i], hashOf)
        invariant queue == Kept(old(queue), transactions.Keys)
      {
        WithoutOneMore(transactions, old(transactions), txs, i, hashOf);
        KeptAgain(old(queue), transactions.Keys, transactions.Keys - {hashOf(txs[i])});
        RemoveHash(hashOf(txs[i]));
      }
      assert txs[..|txs|] == txs;
    }
  }
}
