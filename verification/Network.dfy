/** The network: correct nodes running the handlers on whatever messages arrive, and agreement on
    certificates in every run. */
module Network {
  import opened Types
  import opened Collections
  import opened Consensus
  import opened Frames
  import opened Recovery
  import opened Discipline
  import opened VoteTables
  import opened Emissions
  import opened Quorums
  import opened Intents

  /** A node finalized a view with this hash, which these members' counted votes name. */
  datatype Finalization = Finalization(node: PublicKey, view: View, hash: Hash, support: set<PublicKey>)

  /** The correct nodes, every vote they ever broadcast, every block they broadcast or were handed,
      the highest view each voted for at launch, the first certified hash of each view, and every
      finalization. */
  datatype World = World(
    nodes: map<PublicKey, Node>, sent: set<Vote>, blocks: set<Block>,
    launched: map<PublicKey, View>, certified: map<View, Hash>, finalized: set<Finalization>)

  /** A fixed committee and its faulty members. */
  datatype Setup = Setup(env: Env, committee: seq<PublicKey>, faulty: set<PublicKey>)

  ghost predicate SetupOk(s: Setup) {
    && Distinct(s.committee) && s.committee != [] && |s.faulty| <= (|s.committee| - 1) / 3
    && NonzeroHashes(s.env) && KeepsPositions(s.env)
  }

  function Delivered(e: Event): set<Block> {
    if e.Proposal? || e.Response? then {e.block} else {}
  }

  /** The members whose finalize votes, this one counted, name its hash. */
  function NamedBy(n: Node, vote: Vote): set<PublicKey> {
    Supporters(FinalizeVotes(n, vote), vote.blockHash)
  }

  ghost function Step(s: Setup, w: World, p: PublicKey, e: Event): World
    requires p in w.nodes && p in w.launched && Enabled(w.nodes[p], e)
  {
    var n := w.nodes[p];
    var o := Handle(s.env, n, e);
    World(w.nodes[p := o.node], w.sent + VotesIn(Emitted(o)), w.blocks + Delivered(e) + BlocksIn(Emitted(o)),
          if e.Launch? && StepBallots(s.env, n, e) != []
          then w.launched[p := Max(w.launched[p], n.currentView)] else w.launched,
          if e.VoteIn? && Completes(n, e.vote) && e.vote.view !in w.certified
          then w.certified[e.vote.view := e.vote.blockHash] else w.certified,
          if e.VoteIn? && Finalizes(n, e.vote)
          then w.finalized + {Finalization(p, e.vote.view, e.vote.blockHash, NamedBy(n, e.vote))} else w.finalized)
  }

  /** Votes are authenticated: one that verifies comes from a member, and if that member is correct
      it was sent. With no faulty member, blocks too come from the nodes. */
  ghost predicate Deliverable(s: Setup, w: World, e: Event) {
    match e
    case VoteIn(v, _, _) =>
      Verify(v.author, v.blockHash, v.signature) ==> v.author in s.committee && (v.author !in s.faulty ==> v in w.sent)
    case Proposal(b) => s.faulty == {} ==> b in w.blocks
    case Response(b) => s.faulty == {} ==> b in w.blocks
    case _ => true
  }

  /** An enabled handler on a deliverable message that leaves the node's committee as it is. */
  ghost predicate Possible(s: Setup, w: World, p: PublicKey, e: Event) {
    && p in w.nodes && p in w.launched && Enabled(w.nodes[p], e) && Deliverable(s, w, e)
    && Handle(s.env, w.nodes[p], e).node.committee == s.committee
  }

  /** The step is about to vote for a block in a view where the node voted for another one. */
  ghost predicate Equivocates(s: Setup, w: World, p: PublicKey, e: Event)
    requires p in w.nodes && Enabled(w.nodes[p], e)
  {
    var x := Intended(s.env, w.nodes[p], e);
    x.Some? && exists y :: y in w.sent && IsBallot(y) && y.author == p && y.view == x.value.view && y.blockHash != x.value.blockHash
  }

  /** A step of a run: possible, and not voting for two blocks in one view. */
  ghost predicate Allowed(s: Setup, w: World, p: PublicKey, e: Event) {
    Possible(s, w, p, e) && !Equivocates(s, w, p, e)
  }

  // ---- The invariant of one node ----

  /** Filed votes of this kind come from members, and those of correct members were sent. */
  ghost predicate Authentic(s: Setup, sent: set<Vote>, table: VoteTable) {
    forall v, a :: v in table && a in table[v] ==> a in s.committee && (a !in s.faulty ==> table[v][a] in sent)
  }

  ghost predicate QcsBacked(s: Setup, sent: set<Vote>, qcs: map<View, QuorumCertificate>) {
    && 0 in qcs && qcs[0] == GENESIS_QC
    && forall v :: v in qcs ==>
         qcs[v].view == v && (v > 0 ==> Quorum(sent, s.committee, s.faulty, v, qcs[v].blockHash))
  }

  ghost predicate NodeOk(s: Setup, sent: set<Vote>, p: PublicKey, n: Node) {
    && n.me == p && n.committee == s.committee && Anchored(n) && Filed(n.orphans) && TablesSound(n)
    && Authentic(s, sent, n.votes) && Authentic(s, sent, n.finalizeVotes)
    && QcsBacked(s, sent, n.disk.qcs)
  }

  lemma QcsGrow(s: Setup, sent: set<Vote>, more: set<Vote>, qcs: map<View, QuorumCertificate>)
    requires QcsBacked(s, sent, qcs) && sent <= more
    ensures QcsBacked(s, more, qcs)
  {
    hide Quorum;
    forall v | v in qcs && v > 0 ensures Quorum(more, s.committee, s.faulty, v, qcs[v].blockHash) {
      QuorumGrows(sent, more, s.committee, s.faulty, v, qcs[v].blockHash);
    }
  }

  lemma NodeOkGrows(s: Setup, sent: set<Vote>, more: set<Vote>, p: PublicKey, n: Node)
    requires NodeOk(s, sent, p, n) && sent <= more
    ensures NodeOk(s, more, p, n)
  {
    hide Anchored, Filed, TablesSound, QcsBacked;
    QcsGrow(s, sent, more, n.disk.qcs);
  }

  lemma HandleFiled(env: Env, n: Node, e: Event)
    requires Enabled(n, e) && Anchored(n)
    ensures Filed(Handle(env, n, e).node.orphans)
  {
    hide FastForward, Persist, NodeVerdict, UpdatePreferred, OnFinalizeVote, Certify, Completes, Respond, Propose;
    match e
    case Proposal(block) =>
      var c := ValidateAndStore(env, n, block);
      if c.Stored? {
        FastForwardFrame(env, c.node, block.view);
        PersistFrame(env, FastForward(env, c.node, block.view).(lastVotedView := block.view));
      }
    case VoteIn(vote, signers, offer) =>
      if Verify(vote.author, vote.blockHash, vote.signature) && vote.voteType == Finalize {
        FinalizeFrame(env, n, vote);
      } else if Completes(n, vote) {
        assert forall a :: a in signers ==> a in Elements(signers);
        CertifyFrame(env, n.(votes := n.votes[vote.view := FiledVotes(n, vote)]),
                     QcFrom(FiledVotes(n, vote), vote, signers), offer);
      }
    case Restart => AnchoredRestarts(env, n);
    case _ =>
  }

  /** Table entries are old ones or the vote just received. */
  ghost predicate FromTable(was: VoteTable, now: VoteTable, e: Event) {
    forall v, a :: v in now && a in now[v] ==>
      || (v in was && a in was[v] && now[v][a] == was[v][a])
      || (e.VoteIn? && now[v][a] == e.vote && a == e.vote.author
          && Verify(e.vote.author, e.vote.blockHash, e.vote.signature))
  }

  lemma SameTable(table: VoteTable, e: Event)
    ensures FromTable(table, table, e) && FromTable(table, map[], e)
  {
  }

  lemma FileFrom(table: VoteTable, e: Event)
    requires e.VoteIn? && Verify(e.vote.author, e.vote.blockHash, e.vote.signature)
    ensures FromTable(table, table[e.vote.view := VotesAt(table, e.vote.view)[e.vote.author := e.vote]], e)
  {
  }

  lemma VoteFrom(env: Env, n: Node, e: Event)
    requires Enabled(n, e) && e.VoteIn?
    ensures var out := Handle(env, n, e).node;
            FromTable(n.votes, out.votes, e) && FromTable(n.finalizeVotes, out.finalizeVotes, e)
  {
    hide OnFinalizeVote, Certify, Completes, Conflicts, FromTable;
    SameTable(n.votes, e);
    SameTable(n.finalizeVotes, e);
    var vote := e.vote;
    if Verify(vote.author, vote.blockHash, vote.signature) {
      FileFrom(n.votes, e);
      FileFrom(n.finalizeVotes, e);
      if vote.voteType == Finalize {
        FinalizeFrame(env, n, vote);
      } else if Completes(n, vote) {
        assert forall a :: a in e.signers ==> a in Elements(e.signers);
        CertifyFrame(env, n.(votes := n.votes[vote.view := FiledVotes(n, vote)]),
                     QcFrom(FiledVotes(n, vote), vote, e.signers), e.offer);
      }
    }
  }

  lemma HandleFrom(env: Env, n: Node, e: Event)
    requires Enabled(n, e) && Anchored(n)
    ensures var out := Handle(env, n, e).node;
            FromTable(n.votes, out.votes, e) && FromTable(n.finalizeVotes, out.finalizeVotes, e)
  {
    hide FastForward, Persist, ValidateAndStore, OnVote, Respond, Propose, FromTable;
    SameTable(n.votes, e);
    SameTable(n.finalizeVotes, e);
    match e
    case Proposal(block) =>
      StoreFrame(env, n, block);
      var c := ValidateAndStore(env, n, block);
      if c.Stored? {
        FastForwardFrame(env, c.node, block.view);
        PersistFrame(env, FastForward(env, c.node, block.view).(lastVotedView := block.view));
      }
    case VoteIn(vote, signers, offer) => VoteFrom(env, n, e);
    case Response(block) => RespondFrame(env, n, block);
    case Restart => AnchoredRestarts(env, n);
    case _ =>
  }

  lemma AuthenticStep(s: Setup, sent: set<Vote>, more: set<Vote>, table: VoteTable, now: VoteTable, e: Event)
    requires Authentic(s, sent, table) && FromTable(table, now, e) && sent <= more
    requires e.VoteIn? && Verify(e.vote.author, e.vote.blockHash, e.vote.signature) ==>
      e.vote.author in s.committee && (e.vote.author !in s.faulty ==> e.vote in sent)
    ensures Authentic(s, more, now)
  {
  }

  /** Every supporter counted for a certificate is a backer. */
  lemma SupporterBacks(s: Setup, sent: set<Vote>, n: Node, vote: Vote, a: PublicKey)
    requires TablesSound(n) && Authentic(s, sent, n.votes) && a in Supporters(FiledVotes(n, vote), vote.blockHash)
    requires Verify(vote.author, vote.blockHash, vote.signature) && vote.voteType == Notarize
    requires vote.author in s.committee && (vote.author !in s.faulty ==> vote in sent)
    ensures a in Backers(sent, s.committee, s.faulty, vote.view, vote.blockHash)
  {
    hide Verify;
    var votes: map<PublicKey, Vote> := FiledVotes(n, vote);
    FilingKeeps(n.votes, vote, Notarize);
    var table := n.votes[vote.view := votes];
    assert table[vote.view][a] == MakeVote(a, vote.view, vote.blockHash, Notarize);
    assert a != vote.author ==> vote.view in n.votes && n.votes[vote.view][a] == votes[a];
  }

  /** A completed certificate is backed by a quorum. */
  lemma CompletedBacked(s: Setup, sent: set<Vote>, n: Node, vote: Vote)
    requires TablesSound(n) && Authentic(s, sent, n.votes) && n.committee == s.committee && Completes(n, vote)
    requires vote.author in s.committee && (vote.author !in s.faulty ==> vote in sent)
    ensures Quorum(sent, s.committee, s.faulty, vote.view, vote.blockHash)
  {
    hide TablesSound, Authentic, Supporters, FiledVotes, Backers, Verify, Conflicts;
    var supporters := Supporters(FiledVotes(n, vote), vote.blockHash);
    var backers := Backers(sent, s.committee, s.faulty, vote.view, vote.blockHash);
    forall a | a in supporters ensures a in backers {
      SupporterBacks(s, sent, n, vote, a);
    }
    SubsetSize(supporters, backers);
  }

  lemma QcsStep(s: Setup, sent: set<Vote>, more: set<Vote>, n: Node, e: Event)
    requires Enabled(n, e) && NodeOk(s, sent, n.me, n) && sent <= more
    requires e.VoteIn? && Verify(e.vote.author, e.vote.blockHash, e.vote.signature) ==>
      e.vote.author in s.committee && (e.vote.author !in s.faulty ==> e.vote in sent)
    ensures QcsBacked(s, more, Handle(s.env, n, e).node.disk.qcs)
  {
    hide Handle, Completes, Completed, Quorum;
    TablesStep(s.env, n, e);
    NodeOkGrows(s, sent, more, n.me, n);
    if e.VoteIn? && Completes(n, e.vote) {
      CompletesVerified(n, e.vote);
      CompletedBacked(s, sent, n, e.vote);
      QuorumGrows(sent, more, s.committee, s.faulty, e.vote.view, e.vote.blockHash);
    }
  }

  lemma NodeStep(s: Setup, sent: set<Vote>, more: set<Vote>, n: Node, e: Event)
    requires SetupOk(s) && Enabled(n, e) && NodeOk(s, sent, n.me, n) && sent <= more
    requires e.VoteIn? && Verify(e.vote.author, e.vote.blockHash, e.vote.signature) ==>
      e.vote.author in s.committee && (e.vote.author !in s.faulty ==> e.vote in sent)
    requires Handle(s.env, n, e).node.committee == s.committee
    ensures NodeOk(s, more, n.me, Handle(s.env, n, e).node)
  {
    hide Handle, Filed, Authentic, QcsBacked, TablesSound, Anchored, NonzeroHashes, KeepsPositions;
    HandleAnchored(s.env, n, e);
    HandleFiled(s.env, n, e);
    TablesStep(s.env, n, e);
    HandleRules(s.env, n, e);
    HandleFrom(s.env, n, e);
    var out := Handle(s.env, n, e).node;
    AuthenticStep(s, sent, more, n.votes, out.votes, e);
    AuthenticStep(s, sent, more, n.finalizeVotes, out.finalizeVotes, e);
    QcsStep(s, sent, more, n, e);
  }

  // ---- The invariant of the votes sent ----

  /** Votes are what their correct authors make. */
  ghost predicate SentOk(w: World) {
    && w.launched.Keys == w.nodes.Keys
    && forall x :: x in w.sent ==> x.author in w.nodes && x == MakeVote(x.author, x.view, x.blockHash, x.voteType)
  }

  /** One block per author and view. */
  ghost predicate OneBallot(sent: set<Vote>) {
    forall x, y :: x in sent && y in sent && IsBallot(x) && IsBallot(y) && x.author == y.author && x.view == y.view ==>
      x.blockHash == y.blockHash
  }

  lemma VotesInMember(actions: seq<Action>, v: Vote)
    ensures v in VotesIn(actions) <==> BroadcastVote(v) in actions
  {
  }

  lemma {:induction false} BallotsMember(actions: seq<Action>, v: Vote)
    requires BroadcastVote(v) in actions && IsBallot(v)
    ensures v in Ballots(actions)
  {
    if actions[0] != BroadcastVote(v) {
      BallotsMember(actions[1..], v);
    }
  }

  lemma {:induction false} BallotsSubset(actions: seq<Action>, v: Vote)
    requires v in Ballots(actions)
    ensures BroadcastVote(v) in actions && IsBallot(v)
  {
    if actions[0] != BroadcastVote(v) || !IsBallot(v) {
      BallotsSubset(actions[1..], v);
    }
  }

  /** The votes of one step, as the invariant needs them. */
  lemma StepVotes(s: Setup, w: World, p: PublicKey, e: Event)
    requires SetupOk(s) && p in w.nodes && p in w.launched && Enabled(w.nodes[p], e)
    requires NodeOk(s, w.sent, p, w.nodes[p])
    ensures forall x :: x in VotesIn(Emitted(Handle(s.env, w.nodes[p], e))) ==>
              && x == MakeVote(p, x.view, x.blockHash, x.voteType)
              && (IsBallot(x) ==> StepBallots(s.env, w.nodes[p], e) == [x] && x.view == BallotView(w.nodes[p], e))
  {
    hide Handle, Ballots, Anchored, TablesSound, Filed, NonzeroHashes, KeepsPositions, Quorum;
    var n := w.nodes[p];
    HandleEmits(s.env, n, e);
    HandleRules(s.env, n, e);
    var actions := Emitted(Handle(s.env, n, e));
    forall x | x in VotesIn(actions)
      ensures x == MakeVote(p, x.view, x.blockHash, x.voteType)
      ensures IsBallot(x) ==> StepBallots(s.env, n, e) == [x] && x.view == BallotView(n, e)
    {
      VotesInMember(actions, x);
      assert ActionRule(s.env, n, e, Handle(s.env, n, e).node, actions, BroadcastVote(x));
      if IsBallot(x) {
        BallotsMember(actions, x);
      }
    }
  }

  /** The step's ballots are among the votes it sends. */
  lemma BallotsSent(s: Setup, w: World, p: PublicKey, e: Event, x: Vote)
    requires SetupOk(s) && Possible(s, w, p, e) && NodeOk(s, w.sent, p, w.nodes[p]) && x in StepBallots(s.env, w.nodes[p], e)
    ensures x in VotesIn(Emitted(Handle(s.env, w.nodes[p], e))) && x in Step(s, w, p, e).sent
    ensures IsBallot(x) && x.author == p && x.view == BallotView(w.nodes[p], e)
  {
    hide Handle, NodeOk, Ballots, SetupOk, Deliverable, Completes, Finalizes, BlocksIn;
    var actions := Emitted(Handle(s.env, w.nodes[p], e));
    BallotsSubset(actions, x);
    VotesInMember(actions, x);
    StepVotes(s, w, p, e);
  }

  /** The code does not keep to one block per author and view: a step does so exactly when it does
      not vote in a view where the node voted for another block. */
  lemma OneBallotIff(s: Setup, w: World, p: PublicKey, e: Event)
    requires SetupOk(s) && Possible(s, w, p, e) && NodeOk(s, w.sent, p, w.nodes[p]) && OneBallot(w.sent)
    ensures OneBallot(Step(s, w, p, e).sent) <==> !Equivocates(s, w, p, e)
  {
    hide Handle, StepBallots, NodeOk, SetupOk, Completes, Finalizes, BlocksIn, Deliverable, Intended, NonzeroHashes;
    var n, w1 := w.nodes[p], Step(s, w, p, e);
    StepVotes(s, w, p, e);
    NonzeroOf(s);
    BallotsIntended(s.env, n, e);
    if Equivocates(s, w, p, e) {
      var x := Intended(s.env, n, e).value;
      assert x in StepBallots(s.env, n, e);
      BallotsSent(s, w, p, e, x);
    } else {
      var cast := VotesIn(Emitted(Handle(s.env, n, e)));
      forall x, y | x in cast && y in w.sent && IsBallot(x) && IsBallot(y) && x.author == y.author && x.view == y.view
        ensures x.blockHash == y.blockHash
      {
        assert x in StepBallots(s.env, n, e);
      }
      NoClashIn(w.sent, cast);
    }
  }

  lemma NonzeroOf(s: Setup)
    requires SetupOk(s)
    ensures NonzeroHashes(s.env)
  {
  }

  lemma NoClashIn(sent: set<Vote>, cast: set<Vote>)
    requires OneBallot(sent)
    requires forall x, y :: x in cast && y in cast && IsBallot(x) && IsBallot(y) ==> x == y
    requires forall x, y :: x in cast && y in sent && IsBallot(x) && IsBallot(y) && x.author == y.author && x.view == y.view ==>
      x.blockHash == y.blockHash
    ensures OneBallot(sent + cast)
  {
  }

  lemma SentStep(s: Setup, w: World, p: PublicKey, e: Event)
    requires SetupOk(s) && Allowed(s, w, p, e) && SentOk(w) && OneBallot(w.sent) && NodeOk(s, w.sent, p, w.nodes[p])
    ensures SentOk(Step(s, w, p, e)) && OneBallot(Step(s, w, p, e).sent)
  {
    hide Handle, StepBallots, NodeOk, SetupOk, Completes, Finalizes, OneBallot, VotesIn, BlocksIn, Equivocates, Deliverable;
    StepVotes(s, w, p, e);
    OneBallotIff(s, w, p, e);
  }

  lemma AnchoredOf(s: Setup, w: World, p: PublicKey)
    requires p in w.nodes && NodeOk(s, w.sent, p, w.nodes[p])
    ensures Anchored(w.nodes[p])
  {
  }

  // ---- Runs ----

  ghost predicate Inv(s: Setup, w: World) {
    && SentOk(w) && OneBallot(w.sent)
    && forall p :: p in w.nodes ==> NodeOk(s, w.sent, p, w.nodes[p])
  }

  lemma InvStep(s: Setup, w: World, p: PublicKey, e: Event)
    requires SetupOk(s) && Allowed(s, w, p, e) && Inv(s, w)
    ensures Inv(s, Step(s, w, p, e))
  {
    hide Handle, StepBallots, NodeOk, SentOk, OneBallot, Completes, Finalizes;
    var w1 := Step(s, w, p, e);
    SentStep(s, w, p, e);
    MeOf(s, w, p);
    NodeStep(s, w.sent, w1.sent, w.nodes[p], e);
    forall q | q in w1.nodes ensures NodeOk(s, w1.sent, q, w1.nodes[q]) {
      if q != p {
        NodeOkGrows(s, w.sent, w1.sent, q, w.nodes[q]);
      }
    }
  }

  lemma MeOf(s: Setup, w: World, p: PublicKey)
    requires p in w.nodes && NodeOk(s, w.sent, p, w.nodes[p])
    ensures w.nodes[p].me == p
  {
  }

  /** A node that has just been set up on an empty disk. */
  ghost predicate FreshNode(s: Setup, p: PublicKey, n: Node) {
    exists ledger, limit :: n == Start(s.env, p, s.committee, Disk(map[], map[], None, ledger), limit)
  }

  ghost predicate InitialWorld(s: Setup, w: World) {
    && w.launched.Keys == w.nodes.Keys && w.sent == {} && w.blocks == {} && w.certified == map[] && w.finalized == {}
    && forall p :: p in w.nodes ==> w.launched[p] == 0 && FreshNode(s, p, w.nodes[p])
  }

  lemma FreshOk(s: Setup, p: PublicKey, n: Node)
    requires FreshNode(s, p, n)
    ensures NodeOk(s, {}, p, n)
  {
    var ledger, limit :| n == Start(s.env, p, s.committee, Disk(map[], map[], None, ledger), limit);
    FreshSynced(s.env, p, s.committee, Disk(map[], map[], None, ledger), limit);
  }

  lemma InitialInv(s: Setup, w: World)
    requires InitialWorld(s, w)
    ensures Inv(s, w)
  {
    hide NodeOk, FreshNode;
    forall p | p in w.nodes ensures NodeOk(s, w.sent, p, w.nodes[p]) {
      FreshOk(s, p, w.nodes[p]);
    }
  }

  datatype Move = Move(node: PublicKey, event: Event)

  ghost predicate Reaches(s: Setup, w: World, run: seq<Move>, end: World)
    decreases |run|
  {
    if run == [] then end == w
    else
      var last := run[|run| - 1];
      exists mid :: Reaches(s, w, run[..|run| - 1], mid) && Allowed(s, mid, last.node, last.event)
                    && end == Step(s, mid, last.node, last.event)
  }

  /** The invariant holds in every world of every run. */
  lemma {:induction false} RunInv(s: Setup, w: World, run: seq<Move>, end: World)
    requires SetupOk(s) && InitialWorld(s, w) && Reaches(s, w, run, end)
    ensures Inv(s, end)
    decreases |run|
  {
    hide Step, Handle, StepBallots, Equivocates, Deliverable, Inv, InitialWorld, SetupOk;
    if run == [] {
      InitialInv(s, w);
    } else {
      var last := run[|run| - 1];
      var mid :| Reaches(s, w, run[..|run| - 1], mid) && Allowed(s, mid, last.node, last.event)
                 && end == Step(s, mid, last.node, last.event);
      RunInv(s, w, run[..|run| - 1], mid);
      InvStep(s, mid, last.node, last.event);
    }
  }

  lemma QuorumsAgree(s: Setup, w: World, view: View, a: Hash, b: Hash)
    requires SetupOk(s) && Inv(s, w) && a != ZERO_HASH && b != ZERO_HASH
    requires Quorum(w.sent, s.committee, s.faulty, view, a) && Quorum(w.sent, s.committee, s.faulty, view, b)
    ensures a == b
  {
    var member := QuorumsIntersect(s.committee, s.faulty, Backers(w.sent, s.committee, s.faulty, view, a),
                                   Backers(w.sent, s.committee, s.faulty, view, b));
    assert MakeVote(member, view, a, Notarize) in w.sent && MakeVote(member, view, b, Notarize) in w.sent;
  }

  /** In every run with at most a third of the committee faulty, any two certificates formed by
      correct nodes for one view, neither of them for the dummy, certify the same block. */
  lemma CertificateAgreement(s: Setup, w: World, run: seq<Move>, end: World, p: PublicKey, q: PublicKey, view: View)
    requires SetupOk(s) && InitialWorld(s, w) && Reaches(s, w, run, end)
    requires p in end.nodes && q in end.nodes
    requires view in end.nodes[p].disk.qcs && view in end.nodes[q].disk.qcs
    requires end.nodes[p].disk.qcs[view].blockHash != ZERO_HASH && end.nodes[q].disk.qcs[view].blockHash != ZERO_HASH
    ensures end.nodes[p].disk.qcs[view].blockHash == end.nodes[q].disk.qcs[view].blockHash
  {
    hide Reaches, InitialWorld, SetupOk, Quorum;
    RunInv(s, w, run, end);
    assert NodeOk(s, end.sent, p, end.nodes[p]) && NodeOk(s, end.sent, q, end.nodes[q]);
    QuorumsAgree(s, end, view, end.nodes[p].disk.qcs[view].blockHash, end.nodes[q].disk.qcs[view].blockHash);
  }

  // ---- Guarded runs ----

  /** The voting guard of a single node, which the caller can check before the step. */
  ghost predicate Guarded(s: Setup, w: World, p: PublicKey, e: Event) {
    && Possible(s, w, p, e)
    && (StepBallots(s.env, w.nodes[p], e) != [] ==> Guard(w.nodes[p], w.launched[p], e))
  }

  ghost function HighWater(w: World, p: PublicKey): View
    requires p in w.nodes && p in w.launched
  {
    Max(w.nodes[p].lastVotedView, w.launched[p])
  }

  /** No author's ballots go beyond what its lastVotedView and its launches account for. */
  ghost predicate BelowHighWater(w: World) {
    && w.launched.Keys == w.nodes.Keys
    && forall x :: x in w.sent && IsBallot(x) ==> x.author in w.nodes && x.view <= HighWater(w, x.author)
  }

  /** The high-water mark never falls and covers the ballot just cast. */
  lemma HighWaterRises(s: Setup, w: World, p: PublicKey, e: Event)
    requires SetupOk(s) && Guarded(s, w, p, e) && Anchored(w.nodes[p])
    ensures var w1 := Step(s, w, p, e);
            && p in w1.nodes && p in w1.launched && HighWater(w1, p) >= HighWater(w, p)
            && (StepBallots(s.env, w.nodes[p], e) != [] ==> HighWater(w1, p) >= BallotView(w.nodes[p], e) > HighWater(w, p))
  {
    hide Handle, StepBallots, NonzeroHashes, KeepsPositions, Completes, Finalizes, VotesIn, BlocksIn, Deliverable, Anchored;
    var n := w.nodes[p];
    HandleRules(s.env, n, e);
    var cast := StepBallots(s.env, n, e);
    if cast != [] {
      assert cast[0] in cast && cast[0].view == BallotView(n, e);
    }
  }

  /** A guarded step never votes for two blocks in one view. */
  lemma GuardSuffices(s: Setup, w: World, p: PublicKey, e: Event)
    requires SetupOk(s) && Guarded(s, w, p, e) && BelowHighWater(w) && NodeOk(s, w.sent, p, w.nodes[p])
    ensures Allowed(s, w, p, e) && BelowHighWater(Step(s, w, p, e))
  {
    hide Handle, StepBallots, NodeOk, SetupOk, Completes, Finalizes, VotesIn, BlocksIn, Guard, Deliverable, Intended, NonzeroHashes;
    var n, w1 := w.nodes[p], Step(s, w, p, e);
    AnchoredOf(s, w, p);
    NonzeroOf(s);
    BallotsIntended(s.env, n, e);
    HighWaterRises(s, w, p, e);
    StepVotes(s, w, p, e);
    forall x | x in StepBallots(s.env, n, e) ensures x.view > HighWater(w, p) {
      BallotsSent(s, w, p, e, x);
    }
    forall x | x in w1.sent && IsBallot(x) ensures x.author in w1.nodes && x.view <= HighWater(w1, x.author) {
      if x in w.sent && x.author != p {
        assert HighWater(w1, x.author) == HighWater(w, x.author);
      }
    }
  }

  lemma InitialHighWater(s: Setup, w: World)
    requires InitialWorld(s, w)
    ensures BelowHighWater(w)
  {
  }

  ghost predicate GuardedRun(s: Setup, w: World, run: seq<Move>, end: World)
    decreases |run|
  {
    if run == [] then end == w
    else
      var last := run[|run| - 1];
      exists mid :: GuardedRun(s, w, run[..|run| - 1], mid) && Guarded(s, mid, last.node, last.event)
                    && end == Step(s, mid, last.node, last.event)
  }

  /** Every run that respects the guard is a run in the sense of the theorems here: the recorded
      lastVotedView keeps its nodes from voting twice. */
  lemma {:induction false} GuardedRunsQualify(s: Setup, w: World, run: seq<Move>, end: World)
    requires SetupOk(s) && InitialWorld(s, w) && GuardedRun(s, w, run, end)
    ensures Reaches(s, w, run, end) && BelowHighWater(end)
    decreases |run|
  {
    hide Step, Handle, Guard, StepBallots, Deliverable, Equivocates, Inv, SetupOk, BelowHighWater;
    InitialHighWater(s, w);
    if run != [] {
      var last := run[|run| - 1];
      var mid :| GuardedRun(s, w, run[..|run| - 1], mid) && Guarded(s, mid, last.node, last.event)
                 && end == Step(s, mid, last.node, last.event);
      GuardedRunsQualify(s, w, run[..|run| - 1], mid);
      RunInv(s, w, run[..|run| - 1], mid);
      InvNode(s, mid, last.node, last.event);
      GuardSuffices(s, mid, last.node, last.event);
    }
  }

  lemma InvNode(s: Setup, w: World, p: PublicKey, e: Event)
    requires Inv(s, w) && Guarded(s, w, p, e)
    ensures p in w.nodes && NodeOk(s, w.sent, p, w.nodes[p])
  {
    hide NodeOk, SentOk, OneBallot;
  }

  // ---- Finalization ----

  /** The members that voted to finalize a view, with every faulty member counted in. */
  ghost function Finalizers(s: Setup, sent: set<Vote>, view: View): set<PublicKey> {
    set a | a in s.committee && (a in s.faulty || exists hash :: MakeVote(a, view, hash, Finalize) in sent)
  }

  ghost predicate FinalizedByQuorum(s: Setup, w: World) {
    forall f :: f in w.finalized ==> |Finalizers(s, w.sent, f.view)| >= Threshold(s.committee)
  }

  /** A finalize vote in the count is a member's, and a correct member's was sent. */
  lemma CountedVote(s: Setup, sent: set<Vote>, n: Node, vote: Vote, a: PublicKey)
    requires Filing(n.finalizeVotes, Finalize) && Authentic(s, sent, n.finalizeVotes) && a in FinalizeVotes(n, vote)
    requires Verify(vote.author, vote.blockHash, vote.signature) && vote.voteType == Finalize
    requires vote.author in s.committee && (vote.author !in s.faulty ==> vote in sent)
    ensures var x := FinalizeVotes(n, vote)[a];
            x == MakeVote(a, vote.view, x.blockHash, Finalize) && a in s.committee && (a !in s.faulty ==> x in sent)
  {
    var votes: map<PublicKey, Vote> := FinalizeVotes(n, vote);
    if a != vote.author {
      assert vote.view in n.finalizeVotes && n.finalizeVotes[vote.view][a] == votes[a];
    }
  }

  lemma FinalizerCounted(s: Setup, sent: set<Vote>, n: Node, vote: Vote, a: PublicKey)
    requires TablesSound(n) && Authentic(s, sent, n.finalizeVotes) && a in FinalizeVotes(n, vote)
    requires Verify(vote.author, vote.blockHash, vote.signature) && vote.voteType == Finalize
    requires vote.author in s.committee && (vote.author !in s.faulty ==> vote in sent)
    ensures a in Finalizers(s, sent, vote.view)
  {
    hide Filing, Authentic, FinalizeVotes, Verify;
    CountedVote(s, sent, n, vote, a);
  }

  /** A correct member counted for a hash sent the finalize vote that names it. */
  lemma NamedWasSent(s: Setup, sent: set<Vote>, n: Node, vote: Vote, a: PublicKey)
    requires TablesSound(n) && Authentic(s, sent, n.finalizeVotes) && a in NamedBy(n, vote) && a !in s.faulty
    requires Verify(vote.author, vote.blockHash, vote.signature) && vote.voteType == Finalize
    requires vote.author in s.committee && (vote.author !in s.faulty ==> vote in sent)
    ensures MakeVote(a, vote.view, vote.blockHash, Finalize) in sent
  {
    hide Filing, Authentic, FinalizeVotes, Verify;
    CountedVote(s, sent, n, vote, a);
  }

  /** The votes counted when a view is finalized come from distinct members that sent them. */
  lemma FinalizesByQuorum(s: Setup, sent: set<Vote>, n: Node, vote: Vote)
    requires TablesSound(n) && Authentic(s, sent, n.finalizeVotes) && n.committee == s.committee && Finalizes(n, vote)
    requires vote.author in s.committee && (vote.author !in s.faulty ==> vote in sent)
    ensures |Finalizers(s, sent, vote.view)| >= Threshold(s.committee)
  {
    hide TablesSound, Authentic, Verify, FinalizeVotes, Finalizers;
    var votes: map<PublicKey, Vote> := FinalizeVotes(n, vote);
    var finalizers := Finalizers(s, sent, vote.view);
    forall a | a in votes.Keys ensures a in finalizers {
      FinalizerCounted(s, sent, n, vote, a);
    }
    SubsetSize(votes.Keys, finalizers);
  }

  lemma FinalizersGrow(s: Setup, sent: set<Vote>, more: set<Vote>, view: View)
    requires sent <= more
    ensures |Finalizers(s, sent, view)| <= |Finalizers(s, more, view)|
  {
    SubsetSize(Finalizers(s, sent, view), Finalizers(s, more, view));
  }

  lemma FinalizedStep(s: Setup, w: World, p: PublicKey, e: Event)
    requires Inv(s, w) && Allowed(s, w, p, e) && FinalizedByQuorum(s, w)
    ensures FinalizedByQuorum(s, Step(s, w, p, e))
  {
    hide Handle, StepBallots, Equivocates, SentOk, OneBallot, QcsBacked, Anchored, Filed, VotesIn, BlocksIn,
         Completes, Finalizers, Authentic, TablesSound, FinalizeVotes;
    var n, w1 := w.nodes[p], Step(s, w, p, e);
    assert NodeOk(s, w.sent, p, n);
    forall f | f in w1.finalized ensures |Finalizers(s, w1.sent, f.view)| >= Threshold(s.committee) {
      if f !in w.finalized {
        FinalizesByQuorum(s, w.sent, n, e.vote);
      }
      FinalizersGrow(s, w.sent, w1.sent, f.view);
    }
  }

  /** In every run each finalized view has finalize votes of distinct members past the threshold,
      restarts and lost vote tables notwithstanding. */
  lemma {:induction false} FinalizationQuorum(s: Setup, w: World, run: seq<Move>, end: World)
    requires SetupOk(s) && InitialWorld(s, w) && Reaches(s, w, run, end)
    ensures FinalizedByQuorum(s, end)
    decreases |run|
  {
    hide Step, Handle, StepBallots, Equivocates, Inv, SetupOk, Finalizers, Deliverable;
    if run != [] {
      var last := run[|run| - 1];
      var mid :| Reaches(s, w, run[..|run| - 1], mid) && Allowed(s, mid, last.node, last.event)
                 && end == Step(s, mid, last.node, last.event);
      FinalizationQuorum(s, w, run[..|run| - 1], mid);
      RunInv(s, w, run[..|run| - 1], mid);
      FinalizedStep(s, mid, last.node, last.event);
    }
  }
}
