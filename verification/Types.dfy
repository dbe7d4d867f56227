/** The data types of the node: votes, certificates, blocks, transactions, receipts and the
    consensus record kept on disk.

    Digests, keys and addresses are numbers; the digest functions themselves are parameters of
    the modules that use them, so that every theorem names what it needs of them. */
module Types {

  datatype Option<+T> = None | Some(value: T)

  datatype Result<+T, +E> = Ok(value: T) | Err(error: E)

  type Hash = nat
  type PublicKey = nat
  type Address = nat
  type View = nat
  type Byte = x: int | 0 <= x < 256

  const ZERO_HASH: Hash := 0
  const ZERO_ADDRESS: Address := 0
  const SYSTEM_CONTRACT: Address := 0x1000

  const DEFAULT_BLOCK_GAS_LIMIT: nat := 30_000_000
  const MAX_TX_GAS_LIMIT: nat := 16_777_216
  const INITIAL_BASE_FEE: nat := 10_000_000

  const TWO_64: nat := 0x1_0000_0000_0000_0000
  const TWO_256: nat :=
    0x1_0000_0000_0000_0000_0000_0000_0000_0000_0000_0000_0000_0000_0000_0000_0000_0000

  /** 256-bit arithmetic wraps around. */
  function Wrap256(x: int): (r: nat)
    ensures 0 <= x < TWO_256 ==> r == x
  {
    x % TWO_256
  }

  /** A BLS signature is a sum of key-times-message points; the free model of it is the
      multiset of the (key, message) pairs that were added up. */
  type Signature = multiset<(PublicKey, Hash)>

  function Sign(key: PublicKey, message: Hash): Signature {
    multiset{(key, message)}
  }

  predicate Verify(key: PublicKey, message: Hash, signature: Signature) {
    signature == Sign(key, message)
  }

  function AllSigned(keys: seq<PublicKey>, message: Hash): Signature {
    if keys == [] then multiset{} else Sign(keys[0], message) + AllSigned(keys[1..], message)
  }

  predicate VerifyAggregate(keys: seq<PublicKey>, message: Hash, signature: Signature) {
    keys != [] && signature == AllSigned(keys, message)
  }

  datatype VoteType = Notarize | Finalize

  datatype Vote = Vote(view: View, blockHash: Hash, voteType: VoteType,
                       author: PublicKey, signature: Signature)

  datatype QuorumCertificate = QuorumCertificate(view: View, blockHash: Hash,
                                                 signature: Signature, signers: seq<PublicKey>)

  const GENESIS_QC := QuorumCertificate(0, ZERO_HASH, multiset{}, [])

  datatype Evidence = Evidence(voteA: Vote, voteB: Vote)

  datatype Transaction = Transaction(
    chainId: nat, nonce: nat, maxPriorityFeePerGas: nat, maxFeePerGas: nat, gasLimit: nat,
    to: Option<Address>, value: nat, data: seq<Byte>, publicKey: PublicKey, signature: Signature)

  datatype Block = Block(
    author: PublicKey, view: View, parentHash: Hash, justify: QuorumCertificate,
    stateRoot: Hash, receiptsRoot: Hash, payload: seq<Transaction>, isDummy: bool,
    baseFeePerGas: nat, gasUsed: nat, evidence: seq<Evidence>, committeeHash: Hash)

  datatype Log = Log(address: Address, topics: seq<Hash>, data: seq<Byte>)

  datatype Receipt = Receipt(status: nat, cumulativeGasUsed: nat, logs: seq<Log>)

  datatype AccountInfo = AccountInfo(nonce: nat, balance: nat, codeHash: Hash, code: Option<seq<Byte>>)

  /** The record saved by both the node (first five fields and the committee) and the executor
      (committee, queues, stakes and scores). */
  datatype ConsensusState = ConsensusState(
    view: View, finalizedHeight: View, preferredBlock: Hash, preferredView: View,
    lastVotedView: View, committee: seq<PublicKey>,
    pending: seq<(PublicKey, View)>, exiting: seq<(PublicKey, View)>,
    stakes: map<Address, nat>, scores: map<PublicKey, nat>)

  /** The EVM state: accounts, storage slots, code, and the root of the account tree. */
  datatype Ledger = Ledger(
    accounts: map<Address, AccountInfo>, slots: map<(Address, nat), nat>,
    code: map<Hash, seq<Byte>>, root: Hash)

  ghost predicate Injective<A(!new), B>(f: A -> B) {
    forall x, y :: f(x) == f(y) ==> x == y
  }
}
