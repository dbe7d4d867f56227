/** The consensus state machine: what each handler does to a node and which actions it emits, as
    functions on node values. The node's disk is part of the value, so a restart is a function
    too. */
module Consensus {
  import opened Types
  import opened Collections
  import opened EvidencePoolModel
  import opened BaseFee
  import opened Vm

  datatype ConsensusError =
    | InvalidView | InvalidParent | InvalidQC | InvalidBlock | UnknownAuthor
    | InvalidStateRoot | InvalidReceiptsRoot | InvalidSignature

  datatype Action =
    | BroadcastVote(vote: Vote)
    | BroadcastEvidence(evidence: Evidence)
    | BroadcastBlock(block: Block)
    | BroadcastRequest(hash: Hash)
    | SendBlock(served: Block, peer: string)

  /** The part of the record that only the executor changes. */
  datatype Registry = Registry(
    committee: seq<PublicKey>, pending: seq<(PublicKey, View)>, exiting: seq<(PublicKey, View)>,
    stakes: map<Address, nat>, scores: map<PublicKey, nat>)

  function RegistryOf(s: ConsensusState): Registry {
    Registry(s.committee, s.pending, s.exiting, s.stakes, s.scores)
  }

  function DiskRegistry(state: Option<ConsensusState>): Option<Registry> {
    if state.Some? then Some(RegistryOf(state.value)) else None
  }

  datatype Committed = Committed(state: Option<ConsensusState>, ledger: Ledger, ok: bool)

  /** Digests, and the executor in its two uses: a dry run on an overlay that starts from the
      parent's state root, and a commit to the real database. */
  datatype Env = Env(
    hash: Block -> Hash,
    committeeHash: seq<PublicKey> -> Hash,
    addressOf: PublicKey -> Address,
    dryRun: (Option<Registry>, Ledger, Hash, nat, Block) -> Option<Roots>,
    commit: (Option<ConsensusState>, Ledger, Block) -> Committed,
    genesisKey: PublicKey,
    emptyCodeHash: Hash)

  datatype Disk = Disk(blocks: map<Hash, Block>, qcs: map<View, QuorumCertificate>,
                       state: Option<ConsensusState>, ledger: Ledger)

  type VoteTable = map<View, map<PublicKey, Vote>>

  datatype Node = Node(
    me: PublicKey, committee: seq<PublicKey>,
    currentView: View, finalizedHeight: View, preferredBlock: Hash, preferredView: View,
    lastVotedView: View, blockGasLimit: nat, disk: Disk,
    votes: VoteTable, finalizeVotes: VoteTable, orphans: map<Hash, seq<Block>>, evidence: Pool)

  datatype Out = Out(node: Node, result: Result<seq<Action>, ConsensusError>)

  function Emitted(o: Out): seq<Action> {
    if o.result.Ok? then o.result.value else []
  }

  /** What the environment decides when a block is proposed: the transactions the pool hands out
      and the order in which the evidence map is visited. */
  datatype Offer = Offer(payload: seq<Transaction>, evidenceOrder: seq<PublicKey>)

  // ---- Starting ----

  function GenesisBlock(env: Env): Block {
    Block(env.genesisKey, 0, ZERO_HASH, GENESIS_QC, ZERO_HASH, ZERO_HASH, [], false, INITIAL_BASE_FEE, 0, [], ZERO_HASH)
  }

  function InitialStakes(env: Env, committee: seq<PublicKey>): (stakes: map<Address, nat>)
    ensures forall k :: k in committee ==> env.addressOf(k) in stakes
    ensures forall a :: a in stakes ==> stakes[a] == 5000 && exists k :: k in committee && env.addressOf(k) == a
  {
    if committee == [] then map[]
    else InitialStakes(env, committee[..|committee| - 1])[env.addressOf(committee[|committee| - 1]) := 5000]
  }

  function InitialState(env: Env, committee: seq<PublicKey>): ConsensusState {
    ConsensusState(1, 0, env.hash(GenesisBlock(env)), 0, 0, committee, [], [], InitialStakes(env, committee), map[])
  }

  function GenesisDisk(env: Env, disk: Disk, committee: seq<PublicKey>): Disk {
    Disk(disk.blocks[env.hash(GenesisBlock(env)) := GenesisBlock(env)], disk.qcs[0 := GENESIS_QC],
         Some(InitialState(env, committee)),
         disk.ledger.(accounts := disk.ledger.accounts[
           env.addressOf(env.genesisKey) := AccountInfo(0, TWO_256 - 1, env.emptyCodeHash, None)]))
  }

  function Loaded(me: PublicKey, disk: Disk, s: ConsensusState, limit: nat): Node {
    Node(me, s.committee, s.view, s.finalizedHeight, s.preferredBlock, s.preferredView, s.lastVotedView,
         limit, disk, map[], map[], map[], map[])
  }

  /** A stored record wins over the arguments, and brings the default gas limit with it. */
  function Start(env: Env, me: PublicKey, committee: seq<PublicKey>, disk: Disk, limit: nat): Node {
    if disk.state.Some? then Loaded(me, disk, disk.state.value, DEFAULT_BLOCK_GAS_LIMIT)
    else Loaded(me, GenesisDisk(env, disk, committee), InitialState(env, committee), limit)
  }

  function Restarted(env: Env, n: Node): Node {
    Start(env, n.me, n.committee, n.disk, n.blockGasLimit)
  }

  // ---- The record on disk ----

  function OwnFields(n: Node, s: ConsensusState): ConsensusState {
    s.(view := n.currentView, finalizedHeight := n.finalizedHeight, preferredBlock := n.preferredBlock,
       preferredView := n.preferredView, lastVotedView := n.lastVotedView, committee := n.committee)
  }

  function Persist(env: Env, n: Node): Node {
    var base := if n.disk.state.Some? then n.disk.state.value else InitialState(env, n.committee);
    n.(disk := n.disk.(state := Some(OwnFields(n, base))))
  }

  function UpdatePreferred(env: Env, n: Node, qc: QuorumCertificate): Node {
    if qc.blockHash != ZERO_HASH && qc.view >= n.preferredView
    then Persist(env, n.(preferredView := qc.view, preferredBlock := qc.blockHash))
    else n
  }

  function AdvanceTo(env: Env, n: Node, view: View): Node {
    Persist(env, n.(currentView := view))
  }

  /** Catching up with the view of a stored block. */
  function FastForward(env: Env, n: Node, view: View): (r: Node)
    ensures r.orphans == n.orphans && r.disk.blocks == n.disk.blocks && r.currentView >= view
  {
    if view >= n.currentView then AdvanceTo(env, n, view) else n
  }

  function SaveBlock(env: Env, n: Node, block: Block): Node {
    n.(disk := n.disk.(blocks := n.disk.blocks[env.hash(block) := block]))
  }

  // ---- Votes and certificates ----

  function Threshold(committee: seq<PublicKey>): nat {
    |committee| * 2 / 3 + 1
  }

  predicate IsLeader(n: Node, view: View) {
    |n.committee| > 0 && n.committee[view % |n.committee|] == n.me
  }

  function MakeVote(author: PublicKey, view: View, hash: Hash, kind: VoteType): Vote {
    Vote(view, hash, kind, author, Sign(author, hash))
  }

  function CastVote(n: Node, view: View, hash: Hash, kind: VoteType): Action {
    BroadcastVote(MakeVote(n.me, view, hash, kind))
  }

  function FinalizeParent(n: Node, qc: QuorumCertificate): seq<Action> {
    if qc.view > 0 then [CastVote(n, qc.view, qc.blockHash, Finalize)] else []
  }

  predicate QcVerifies(qc: QuorumCertificate) {
    qc.view == 0 || VerifyAggregate(qc.signers, qc.blockHash, qc.signature)
  }

  function VotesAt(table: VoteTable, view: View): map<PublicKey, Vote> {
    if view in table then table[view] else map[]
  }

  // ---- Proposing ----

  function ParentRoot(n: Node, parent: Hash): Hash {
    if parent == ZERO_HASH || parent !in n.disk.blocks then ZERO_HASH else n.disk.blocks[parent].stateRoot
  }

  /** A certificate for a dummy is extended through the preferred block. */
  function ParentFor(n: Node, qc: QuorumCertificate): Hash {
    if qc.blockHash == ZERO_HASH then n.preferredBlock else qc.blockHash
  }

  function Draft(env: Env, n: Node, view: View, qc: QuorumCertificate, parent: Hash, fee: nat, offer: Offer): Block {
    Block(n.me, view, parent, qc, ZERO_HASH, ZERO_HASH, offer.payload, false, fee, 0,
          GetAll(n.evidence, offer.evidenceOrder), env.committeeHash(n.committee))
  }

  predicate FeeDefined(limit: nat, parent: Block) {
    Target(limit) > 0 || parent.gasUsed == Target(limit)
  }

  /** The executed proposal, if the parent is known and the payload executes. */
  function Propose(env: Env, n: Node, view: View, qc: QuorumCertificate, offer: Offer): (r: Option<Block>)
    ensures r.Some? ==> r.value.view == view && r.value.justify == qc && r.value.author == n.me
    ensures r.Some? ==> r.value.parentHash == ParentFor(n, qc) && r.value.parentHash in n.disk.blocks
  {
    var parent := ParentFor(n, qc);
    if parent !in n.disk.blocks || !FeeDefined(n.blockGasLimit, n.disk.blocks[parent]) then None
    else
      var p := n.disk.blocks[parent];
      var draft := Draft(env, n, view, qc, parent, NextBaseFee(n.blockGasLimit, p.baseFeePerGas, p.gasUsed), offer);
      match env.dryRun(DiskRegistry(n.disk.state), n.disk.ledger, ParentRoot(n, parent), n.blockGasLimit, draft)
      case None => None
      case Some(r) => Some(draft.(stateRoot := r.stateRoot, receiptsRoot := r.receiptsRoot, gasUsed := r.gasUsed))
  }

  /** Proposing on start. The node's own vote is cast without recording it in lastVotedView. */
  function TryPropose(env: Env, n: Node, offer: Offer): Out {
    if n.currentView == 0 || !IsLeader(n, n.currentView) || n.currentView - 1 !in n.disk.qcs then Out(n, Ok([]))
    else
      match Propose(env, n, n.currentView, n.disk.qcs[n.currentView - 1], offer)
      case None => Out(n, Err(InvalidParent))
      case Some(block) =>
        var n1 := SaveBlock(env, n, block).(evidence := Remove(n.evidence, block.evidence));
        Out(n1, Ok([BroadcastBlock(block), CastVote(n, block.view, env.hash(block), Notarize)]
                   + FinalizeParent(n, block.justify)))
  }

  // ---- Receiving blocks ----

  datatype Check = Rejected(error: ConsensusError) | Orphaned(node: Node) | Stored(node: Node)

  predicate ParentReady(n: Node, block: Block) {
    block.parentHash == ZERO_HASH || block.parentHash in n.disk.blocks
  }

  function Buffer(n: Node, block: Block): Node {
    var list := if block.parentHash in n.orphans then n.orphans[block.parentHash] else [];
    n.(orphans := n.orphans[block.parentHash := list + [block]])
  }

  /** The verdict on a block whose parent is at hand: re-execution and the certificate. */
  function Verdict(env: Env, committee: seq<PublicKey>, registry: Option<Registry>, ledger: Ledger,
                   root: Hash, limit: nat, block: Block): Option<ConsensusError> {
    if block.committeeHash != env.committeeHash(committee) then Some(InvalidBlock)
    else
      match env.dryRun(registry, ledger, root, limit, block.(gasUsed := 0))
      case None => Some(InvalidBlock)
      case Some(r) =>
        if block.stateRoot != r.stateRoot then Some(InvalidStateRoot)
        else if block.receiptsRoot != r.receiptsRoot then Some(InvalidReceiptsRoot)
        else if !QcVerifies(block.justify) then Some(InvalidQC)
        else None
  }

  function NodeVerdict(env: Env, n: Node, block: Block): Option<ConsensusError> {
    Verdict(env, n.committee, DiskRegistry(n.disk.state), n.disk.ledger,
            ParentRoot(n, block.parentHash), n.blockGasLimit, block)
  }

  /** Blocks are only ever added. */
  ghost predicate Grows(a: Node, b: Node) {
    forall h :: h in a.disk.blocks ==> h in b.disk.blocks
  }

  function ValidateAndStore(env: Env, n: Node, block: Block): (c: Check)
    ensures c.Stored? ==> env.hash(block) in c.node.disk.blocks && c.node.orphans == n.orphans && Grows(n, c.node)
    ensures c.Orphaned? <==> env.hash(block) !in n.disk.blocks && !ParentReady(n, block)
    ensures c.Orphaned? ==> c.node.disk == n.disk && c.node.orphans.Keys == n.orphans.Keys + {block.parentHash}
  {
    if env.hash(block) in n.disk.blocks then Stored(n)
    else if !ParentReady(n, block) then Orphaned(Buffer(n, block))
    else
      var verdict := NodeVerdict(env, n, block);
      if verdict.Some? then Rejected(verdict.value)
      else
        var n1 := SaveBlock(env, UpdatePreferred(env, n, block.justify), block);
        Stored(n1.(evidence := Remove(n1.evidence, block.evidence)))
  }

  function OnProposal(env: Env, n: Node, block: Block): Out {
    if block.view < n.currentView then Out(n, Err(InvalidView))
    else
      match ValidateAndStore(env, n, block)
      case Rejected(e) => Out(n, Err(e))
      case Orphaned(n1) => Out(n1, Ok([BroadcastRequest(block.parentHash)]))
      case Stored(n1) =>
        var n2 := FastForward(env, n1, block.view);
        if block.view <= n2.lastVotedView then Out(n2, Ok([]))
        else
          var n3 := Persist(env, n2.(lastVotedView := block.view));
          Out(n3, Ok([CastVote(n3, block.view, env.hash(block), Notarize)] + FinalizeParent(n3, block.justify)))
  }

  /** Buffered blocks sit under the parent they wait for. */
  ghost predicate Filed(orphans: map<Hash, seq<Block>>) {
    forall h :: h in orphans ==> forall b :: b in orphans[h] ==> b.parentHash == h
  }

  /** A synced block, and after it every buffered block that was waiting for it. */
  function Respond(env: Env, n: Node, block: Block): (o: Out)
    requires Filed(n.orphans)
    ensures Filed(o.node.orphans) && Grows(n, o.node)
    ensures ParentReady(n, block) ==> o.node.orphans.Keys <= n.orphans.Keys
    decreases |n.orphans.Keys|, 0
  {
    var check := ValidateAndStore(env, n, block);
    match check
    case Rejected(e) => Out(n, Err(e))
    case Orphaned(n1) => Out(n1, Ok([BroadcastRequest(block.parentHash)]))
    case Stored(n1) =>
      var n2 := FastForward(env, n1, block.view);
      var hash := env.hash(block);
      if hash !in n2.orphans then Out(n2, Ok([]))
      else
        SmallerSet(n.orphans.Keys - {hash}, n.orphans.Keys);
        var (n3, actions) := RespondAll(env, Released(n2, hash), n2.orphans[hash]);
        Out(n3, Ok(actions))
  }

  function Released(n: Node, hash: Hash): (r: Node)
    ensures r.orphans.Keys == n.orphans.Keys - {hash}
  {
    n.(orphans := n.orphans - {hash})
  }

  function RespondAll(env: Env, n: Node, blocks: seq<Block>): (o: (Node, seq<Action>))
    requires Filed(n.orphans) && forall b :: b in blocks ==> ParentReady(n, b)
    ensures Filed(o.0.orphans) && Grows(n, o.0)
    ensures o.0.orphans.Keys <= n.orphans.Keys
    decreases |n.orphans.Keys|, |blocks|
  {
    if blocks == [] then (n, [])
    else
      var first := Respond(env, n, blocks[0]);
      SubsetSize(first.node.orphans.Keys, n.orphans.Keys);
      assert forall b :: b in blocks[1..] ==> ParentReady(n, b);
      var (rest, actions) := RespondAll(env, first.node, blocks[1..]);
      (rest, Emitted(first) + actions)
  }

  lemma SmallerSet<T>(a: set<T>, b: set<T>)
    requires a < b
    ensures |a| < |b|
  {
    assert b == a + (b - a);
  }

  // ---- Receiving votes ----

  /** The votes of a view with a new vote filed. */
  function FiledVotes(n: Node, vote: Vote): map<PublicKey, Vote> {
    VotesAt(n.votes, vote.view)[vote.author := vote]
  }

  function Supporters(votes: map<PublicKey, Vote>, hash: Hash): set<PublicKey> {
    set a | a in votes && votes[a].blockHash == hash
  }

  function AggregateOf(votes: map<PublicKey, Vote>, signers: seq<PublicKey>): Signature
    requires forall a :: a in signers ==> a in votes
  {
    if signers == [] then multiset{} else votes[signers[0]].signature + AggregateOf(votes, signers[1..])
  }

  predicate Conflicts(n: Node, vote: Vote) {
    var votes := VotesAt(n.votes, vote.view);
    && vote.author in votes && votes[vote.author].blockHash != vote.blockHash
    && votes[vote.author].blockHash != ZERO_HASH && vote.blockHash != ZERO_HASH
  }

  function QcFrom(votes: map<PublicKey, Vote>, vote: Vote, signers: seq<PublicKey>): QuorumCertificate
    requires forall a :: a in signers ==> a in votes
  {
    QuorumCertificate(vote.view, vote.blockHash, AggregateOf(votes, signers), signers)
  }

  /** The follow-up of a new certificate when this node leads the next view. */
  function ChainedProposal(env: Env, n: Node, qc: QuorumCertificate, offer: Offer): (Node, seq<Action>) {
    match Propose(env, n, qc.view + 1, qc, offer)
    case None => (n, [])
    case Some(block) =>
      var n1 := Persist(env, SaveBlock(env, n, block).(lastVotedView := block.view));
      (n1, [BroadcastBlock(block), CastVote(n, block.view, env.hash(block), Notarize)] + FinalizeParent(n, block.justify))
  }

  function NewQc(env: Env, n: Node, qc: QuorumCertificate): Node {
    var n1 := UpdatePreferred(env, n.(disk := n.disk.(qcs := n.disk.qcs[qc.view := qc])), qc);
    if qc.view + 1 > n1.currentView then AdvanceTo(env, n1, qc.view + 1) else n1
  }

  /** A new certificate: store it, vote to finalize its view, and perhaps propose. */
  function Certify(env: Env, n: Node, qc: QuorumCertificate, offer: Offer): Out {
    var n1 := NewQc(env, n, qc);
    var finalize := [CastVote(n, qc.view, qc.blockHash, Finalize)];
    if IsLeader(n1, qc.view + 1) then
      var (n2, more) := ChainedProposal(env, n1, qc, offer);
      Out(n2, Ok(finalize + more))
    else Out(n1, Ok(finalize))
  }

  /** Whether this vote brings its view to a new certificate. */
  predicate Completes(n: Node, vote: Vote) {
    && Verify(vote.author, vote.blockHash, vote.signature) && vote.voteType == Notarize && !Conflicts(n, vote)
    && |Supporters(FiledVotes(n, vote), vote.blockHash)| >= Threshold(n.committee)
    && vote.view !in n.disk.qcs
  }

  /** `signers` lists the supporting authors in the order the vote map is visited. */
  function OnVote(env: Env, n: Node, vote: Vote, signers: seq<PublicKey>, offer: Offer): Out
    requires Enumerates(signers, Supporters(FiledVotes(n, vote), vote.blockHash))
  {
    if !Verify(vote.author, vote.blockHash, vote.signature) then Out(n, Err(InvalidSignature))
    else if vote.voteType == Finalize then OnFinalizeVote(env, n, vote)
    else if Conflicts(n, vote) then
      var e := Evidence(VotesAt(n.votes, vote.view)[vote.author], vote);
      Out(n.(evidence := Add(n.evidence, e)), Ok(if Accepts(n.evidence, e) then [BroadcastEvidence(e)] else []))
    else
      var votes := FiledVotes(n, vote);
      var n1 := n.(votes := n.votes[vote.view := votes]);
      assert forall a :: a in signers ==> a in Elements(signers);
      if Completes(n, vote) then Certify(env, n1, QcFrom(votes, vote, signers), offer) else Out(n1, Ok([]))
  }

  function FinalizeVotes(n: Node, vote: Vote): map<PublicKey, Vote> {
    VotesAt(n.finalizeVotes, vote.view)[vote.author := vote]
  }

  /** Whether this finalize vote raises the finalized height. Votes are counted per view. */
  predicate Finalizes(n: Node, vote: Vote) {
    && Verify(vote.author, vote.blockHash, vote.signature) && vote.voteType == Finalize
    && |FinalizeVotes(n, vote)| >= Threshold(n.committee) && vote.view > n.finalizedHeight
  }

  function Raise(env: Env, n: Node, vote: Vote): Node {
    Persist(env, n.(finalizeVotes := n.finalizeVotes[vote.view := FinalizeVotes(n, vote)], finalizedHeight := vote.view))
  }

  function CommitBlock(env: Env, n: Node, block: Block): Node {
    var c := env.commit(n.disk.state, n.disk.ledger, block);
    n.(disk := n.disk.(state := c.state, ledger := c.ledger),
       committee := if c.ok && c.state.Some? then c.state.value.committee else n.committee)
  }

  function OnFinalizeVote(env: Env, n: Node, vote: Vote): Out
    requires Verify(vote.author, vote.blockHash, vote.signature) && vote.voteType == Finalize
  {
    if !Finalizes(n, vote) then
      Out(n.(finalizeVotes := n.finalizeVotes[vote.view := FinalizeVotes(n, vote)]), Ok([]))
    else
      var n1 := Raise(env, n, vote);
      if vote.blockHash == ZERO_HASH || vote.blockHash !in n1.disk.blocks then Out(n1, Ok([]))
      else Out(CommitBlock(env, n1, n1.disk.blocks[vote.blockHash]), Ok([]))
  }

  function OnTimeout(n: Node, view: View): Out {
    if view < n.currentView then Out(n, Ok([])) else Out(n, Ok([CastVote(n, view, ZERO_HASH, Notarize)]))
  }

  function OnBlockRequest(n: Node, hash: Hash, peer: string): Out {
    if hash in n.disk.blocks then Out(n, Ok([SendBlock(n.disk.blocks[hash], peer)])) else Out(n, Ok([]))
  }

  /** Evidence from the network goes to the pool; nothing is emitted. */
  function OnEvidence(n: Node, evidence: Evidence): Out {
    Out(n.(evidence := Add(n.evidence, evidence)), Ok([]))
  }

  // ---- Events and runs of one node ----

  datatype Event =
    | Launch(offer: Offer)
    | Proposal(block: Block)
    | VoteIn(vote: Vote, signers: seq<PublicKey>, offer: Offer)
    | Timeout(view: View)
    | Response(block: Block)
    | Request(hash: Hash, peer: string)
    | Gossip(evidence: Evidence)
    | Restart

  ghost predicate Enabled(n: Node, e: Event) {
    && Filed(n.orphans)
    && (e.VoteIn? ==> Enumerates(e.signers, Supporters(FiledVotes(n, e.vote), e.vote.blockHash)))
  }

  ghost function Handle(env: Env, n: Node, e: Event): Out
    requires Enabled(n, e)
  {
    match e
    case Launch(offer) => TryPropose(env, n, offer)
    case Proposal(block) => OnProposal(env, n, block)
    case VoteIn(vote, signers, offer) => OnVote(env, n, vote, signers, offer)
    case Timeout(view) => OnTimeout(n, view)
    case Response(block) => Respond(env, n, block)
    case Request(hash, peer) => OnBlockRequest(n, hash, peer)
    case Gossip(evidence) => OnEvidence(n, evidence)
    case Restart => Out(Restarted(env, n), Ok([]))
  }
}
