/** The storage objects: hash maps changed in place behind a shared reference. */
module StateOverlayModel {
  import opened Types
  import opened Storage

  class MemStorage {
    var blocks: map<Hash, Block>
    var qcs: map<View, QuorumCertificate>
    var state: Option<ConsensusState>
    var tables: Tables

    constructor ()
      ensures Value() == Mem(map[], map[], None, EMPTY)
    {
      blocks, qcs, state, tables := map[], map[], None, EMPTY;
    }

    function Value(): Store
      reads this
    {
      Mem(blocks, qcs, state, tables)
    }

    method Save(w: Write)
      modifies this
      ensures Value() == Put(old(Value()), w)
    {
      match w
      case PutBlock(hash, block) => blocks := blocks[hash := block];
      case PutQc(qc) => qcs := qcs[qc.view := qc];
      case PutState(s) => state := Some(s);
      case _ => tables := PutTable(tables, w);
    }
  }

  /** What an overlay sits on. */
  datatype Backend = OnMem(mem: MemStorage) | OnOverlay(overlay: StateOverlay)

  class StateOverlay {
    const inner: Backend
    ghost const depth: nat
    ghost const below: set<object>
    var accounts: map<Address, AccountInfo>
    var slots: map<(Address, nat), nat>
    var code: map<Hash, seq<Byte>>
    var leaves: map<Hash, seq<Byte>>
    var branches: map<(nat, Hash), seq<Byte>>

    /** The stack below is finite and does not contain this overlay. */
    ghost predicate Valid()
      decreases depth
    {
      && this !in below
      && match inner
         case OnMem(m) => m in below
         case OnOverlay(o) => o in below && o.below <= below && o.depth < depth && o.Valid()
    }

    ghost function Value(): Store
      requires Valid()
      reads this, below
      decreases depth
    {
      Overlay(match inner case OnMem(m) => m.Value() case OnOverlay(o) => o.Value(),
              Tables(accounts, slots, code, leaves, branches))
    }

    constructor OverMem(m: MemStorage)
      ensures Valid() && Value() == Overlay(m.Value(), EMPTY)
    {
      inner, depth, below := OnMem(m), 0, {m};
      accounts, slots, code, leaves, branches := map[], map[], map[], map[], map[];
    }

    constructor OverOverlay(o: StateOverlay)
      requires o.Valid()
      ensures Valid() && Value() == Overlay(o.Value(), EMPTY)
    {
      inner, depth, below := OnOverlay(o), o.depth + 1, o.below + {o};
      accounts, slots, code, leaves, branches := map[], map[], map[], map[], map[];
    }

    /** Blocks, certificates and the record are dropped; the other tables are written here only. */
    method Save(w: Write)
      requires Valid()
      modifies this
      ensures Value() == Put(old(Value()), w)
    {
      match w
      case PutAccount(address, info) => accounts := accounts[address := info];
      case PutSlot(slot, value) => slots := slots[slot := value];
      case PutCode(hash, bytes) => code := code[hash := bytes];
      case PutLeaf(hash, leaf) => leaves := leaves[hash := leaf];
      case PutBranch(key, branch) => branches := branches[key := branch];
      case _ =>
    }

    method ReadAccount(address: Address) returns (r: Option<AccountInfo>)
      requires Valid()
      ensures r == GetAccount(Value(), address)
      decreases depth
    {
      if address in accounts {
        return Some(accounts[address]);
      }
      match inner
      case OnMem(m) => r := Lookup(m.tables.accounts, address);
      case OnOverlay(o) => r := o.ReadAccount(address);
    }

    method ReadSlot(slot: (Address, nat)) returns (r: nat)
      requires Valid()
      ensures r == GetSlot(Value(), slot)
      decreases depth
    {
      if slot in slots {
        return slots[slot];
      }
      match inner
      case OnMem(m) => r := if slot in m.tables.slots then m.tables.slots[slot] else 0;
      case OnOverlay(o) => r := o.ReadSlot(slot);
    }

    method ReadCode(hash: Hash) returns (r: Option<seq<Byte>>)
      requires Valid()
      ensures r == GetCode(Value(), hash)
      decreases depth
    {
      if hash in code {
        return Some(code[hash]);
      }
      match inner
      case OnMem(m) => r := Lookup(m.tables.code, hash);
      case OnOverlay(o) => r := o.ReadCode(hash);
    }

    method ReadLeaf(hash: Hash) returns (r: Option<seq<Byte>>)
      requires Valid()
      ensures r == GetLeaf(Value(), hash)
      decreases depth
    {
      if hash in leaves {
        return Some(leaves[hash]);
      }
      match inner
      case OnMem(m) => r := Lookup(m.tables.leaves, hash);
      case OnOverlay(o) => r := o.ReadLeaf(hash);
    }

    method ReadBranch(key: (nat, Hash)) returns (r: Option<seq<Byte>>)
      requires Valid()
      ensures r == GetBranch(Value(), key)
      decreases depth
    {
      if key in branches {
        return Some(branches[key]);
      }
      match inner
      case OnMem(m) => r := Lookup(m.tables.branches, key);
      case OnOverlay(o) => r := o.ReadBranch(key);
    }

    method ReadBlock(hash: Hash) returns (r: Option<Block>)
      requires Valid()
      ensures r == GetBlock(Value(), hash)
      decreases depth
    {
      match inner
      case OnMem(m) => r := Lookup(m.blocks, hash);
      case OnOverlay(o) => r := o.ReadBlock(hash);
    }

    method ReadQc(view: View) returns (r: Option<QuorumCertificate>)
      requires Valid()
      ensures r == GetQc(Value(), view)
      decreases depth
    {
      match inner
      case OnMem(m) => r := Lookup(m.qcs, view);
      case OnOverlay(o) => r := o.ReadQc(view);
    }

    method ReadState() returns (r: Option<ConsensusState>)
      requires Valid()
      ensures r == GetState(Value())
      decreases depth
    {
      match inner
      case OnMem(m) => r := m.state;
      case OnOverlay(o) => r := o.ReadState();
    }
  }
}
