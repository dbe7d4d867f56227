/** The storage backends as values: the in-memory store and read-through, write-local overlays
    stacked on it to any depth. */
module Storage {
  import opened Types

  /** The tables an overlay caches. */
  datatype Tables = Tables(
    accounts: map<Address, AccountInfo>,
    slots: map<(Address, nat), nat>,
    code: map<Hash, seq<Byte>>,
    leaves: map<Hash, seq<Byte>>,
    branches: map<(nat, Hash), seq<Byte>>)

  const EMPTY := Tables(map[], map[], map[], map[], map[])

  datatype Store =
    | Mem(blocks: map<Hash, Block>, qcs: map<View, QuorumCertificate>, state: Option<ConsensusState>, tables: Tables)
    | Overlay(inner: Store, cache: Tables)

  function Lookup<K, V>(m: map<K, V>, k: K): Option<V> {
    if k in m then Some(m[k]) else None
  }

  // ---- Reads ----

  function GetBlock(s: Store, hash: Hash): Option<Block> {
    if s.Mem? then Lookup(s.blocks, hash) else GetBlock(s.inner, hash)
  }

  function GetQc(s: Store, view: View): Option<QuorumCertificate> {
    if s.Mem? then Lookup(s.qcs, view) else GetQc(s.inner, view)
  }

  function GetState(s: Store): Option<ConsensusState> {
    if s.Mem? then s.state else GetState(s.inner)
  }

  function GetAccount(s: Store, address: Address): Option<AccountInfo> {
    if s.Mem? then Lookup(s.tables.accounts, address)
    else if address in s.cache.accounts then Some(s.cache.accounts[address])
    else GetAccount(s.inner, address)
  }

  /** A slot never written reads as zero. */
  function GetSlot(s: Store, slot: (Address, nat)): nat {
    if s.Mem? then (if slot in s.tables.slots then s.tables.slots[slot] else 0)
    else if slot in s.cache.slots then s.cache.slots[slot]
    else GetSlot(s.inner, slot)
  }

  function GetCode(s: Store, hash: Hash): Option<seq<Byte>> {
    if s.Mem? then Lookup(s.tables.code, hash)
    else if hash in s.cache.code then Some(s.cache.code[hash])
    else GetCode(s.inner, hash)
  }

  function GetLeaf(s: Store, hash: Hash): Option<seq<Byte>> {
    if s.Mem? then Lookup(s.tables.leaves, hash)
    else if hash in s.cache.leaves then Some(s.cache.leaves[hash])
    else GetLeaf(s.inner, hash)
  }

  function GetBranch(s: Store, key: (nat, Hash)): Option<seq<Byte>> {
    if s.Mem? then Lookup(s.tables.branches, key)
    else if key in s.cache.branches then Some(s.cache.branches[key])
    else GetBranch(s.inner, key)
  }

  // ---- Writes ----

  datatype Write =
    | PutBlock(hash: Hash, block: Block)
    | PutQc(qc: QuorumCertificate)
    | PutState(state: ConsensusState)
    | PutAccount(address: Address, info: AccountInfo)
    | PutSlot(slot: (Address, nat), value: nat)
    | PutCode(codeHash: Hash, code: seq<Byte>)
    | PutLeaf(leafHash: Hash, leaf: seq<Byte>)
    | PutBranch(key: (nat, Hash), branch: seq<Byte>)

  function PutTable(t: Tables, w: Write): Tables {
    match w
    case PutAccount(address, info) => t.(accounts := t.accounts[address := info])
    case PutSlot(slot, value) => t.(slots := t.slots[slot := value])
    case PutCode(hash, code) => t.(code := t.code[hash := code])
    case PutLeaf(hash, leaf) => t.(leaves := t.leaves[hash := leaf])
    case PutBranch(key, branch) => t.(branches := t.branches[key := branch])
    case _ => t
  }

  /** An overlay keeps table writes to itself and drops blocks, certificates and the record. */
  function Put(s: Store, w: Write): Store {
    if s.Overlay? then s.(cache := PutTable(s.cache, w))
    else
      match w
      case PutBlock(hash, block) => s.(blocks := s.blocks[hash := block])
      case PutQc(qc) => s.(qcs := s.qcs[qc.view := qc])
      case PutState(state) => s.(state := Some(state))
      case _ => s.(tables := PutTable(s.tables, w))
  }

  function PutAll(s: Store, ws: seq<Write>): Store
    decreases |ws|
  {
    if ws == [] then s else PutAll(Put(s, ws[0]), ws[1..])
  }

  // ---- The private copy ----

  function Base(s: Store): (r: Store)
    ensures r.Mem?
  {
    if s.Mem? then s else Base(s.inner)
  }

  function Merge(below: Tables, above: Tables): Tables {
    Tables(below.accounts + above.accounts, below.slots + above.slots, below.code + above.code,
           below.leaves + above.leaves, below.branches + above.branches)
  }

  function Flat(s: Store): Tables {
    if s.Mem? then s.tables else Merge(Flat(s.inner), s.cache)
  }

  /** A store of one's own with the same contents. */
  function PrivateCopy(s: Store): (r: Store)
    ensures r.Mem?
  {
    var base := Base(s);
    Mem(base.blocks, base.qcs, base.state, Flat(s))
  }

  /** The reads of accounts, slots, code and tree nodes are those of the given tables. */
  ghost predicate ReadsAs(s: Store, t: Tables) {
    && (forall a :: GetAccount(s, a) == Lookup(t.accounts, a))
    && (forall k :: GetSlot(s, k) == if k in t.slots then t.slots[k] else 0)
    && (forall h :: GetCode(s, h) == Lookup(t.code, h))
    && (forall h :: GetLeaf(s, h) == Lookup(t.leaves, h))
    && (forall k :: GetBranch(s, k) == Lookup(t.branches, k))
  }

  lemma {:induction false} ReadsAreFlat(s: Store)
    ensures ReadsAs(s, Flat(s))
  {
    if s.Overlay? {
      ReadsAreFlat(s.inner);
    }
  }

  lemma MergeUpdate<K, V>(below: map<K, V>, above: map<K, V>, k: K, v: V)
    ensures below + above[k := v] == (below + above)[k := v]
  {
  }

  lemma MergePut(below: Tables, above: Tables, w: Write)
    ensures Merge(below, PutTable(above, w)) == PutTable(Merge(below, above), w)
  {
    match w
    case PutAccount(address, info) => MergeUpdate(below.accounts, above.accounts, address, info);
    case PutSlot(slot, value) => MergeUpdate(below.slots, above.slots, slot, value);
    case PutCode(hash, code) => MergeUpdate(below.code, above.code, hash, code);
    case PutLeaf(hash, leaf) => MergeUpdate(below.leaves, above.leaves, hash, leaf);
    case PutBranch(key, branch) => MergeUpdate(below.branches, above.branches, key, branch);
    case _ =>
  }

  /** Blocks, certificates and the record read as in the base. */
  ghost predicate ChainReadsAs(s: Store, base: Store) {
    && (forall h :: GetBlock(s, h) == GetBlock(base, h))
    && (forall v :: GetQc(s, v) == GetQc(base, v))
    && GetState(s) == GetState(base)
  }

  lemma {:induction false} ChainReadsAreBase(s: Store)
    ensures ChainReadsAs(s, Base(s))
  {
    if s.Overlay? {
      ChainReadsAreBase(s.inner);
    }
  }

  lemma {:induction false} PutAllFlat(s: Store, p: Store, ws: seq<Write>)
    requires s.Overlay? && p.Mem? && p.tables == Flat(s)
    ensures PutAll(s, ws).Overlay? && PutAll(s, ws).inner == s.inner
    ensures PutAll(p, ws).Mem? && PutAll(p, ws).tables == Flat(PutAll(s, ws))
    decreases |ws|
  {
    if ws != [] {
      MergePut(Flat(s.inner), s.cache, ws[0]);
      PutAllFlat(Put(s, ws[0]), Put(p, ws[0]), ws[1..]);
    }
  }

  /** Whatever is written to a stack of overlays, account, slot, code and node reads are those of a
      private copy that received the same writes, chain reads are those of the base, and the stores
      below are untouched. */
  lemma OverlayRefinesPrivateCopy(s: Store, ws: seq<Write>)
    requires s.Overlay?
    ensures var after, copy := PutAll(s, ws), PutAll(PrivateCopy(s), ws);
            && copy.Mem? && ReadsAs(after, copy.tables) && ReadsAs(copy, copy.tables)
            && ChainReadsAs(after, Base(s))
            && after.Overlay? && after.inner == s.inner
  {
    PutAllFlat(s, PrivateCopy(s), ws);
    ReadsAreFlat(PutAll(s, ws));
    ReadsAreFlat(PutAll(PrivateCopy(s), ws));
    ChainReadsAreBase(PutAll(s, ws));
  }
}
