/** The hypotheses of the run theorems can be met: a lone validator proposes, certifies and finalizes
    its own block. */
module SampleRun {
  import opened Types
  import opened Collections
  import opened EvidencePoolModel
  import opened Consensus
  import opened Frames
  import opened Discipline
  import opened VoteTables
  import opened Emissions
  import opened Intents
  import opened Network
  import opened Agreement
  import opened SingleChain

  const NOTHING := Offer([], [])

  /** Every payload executes, and commits succeed and keep the committee. */
  ghost predicate Obliging(env: Env) {
    && (forall r, l, h, g, b :: env.dryRun(r, l, h, g, b).Some?)
    && (forall s, l, b :: env.commit(Some(s), l, b).ok)
    && (forall s: ConsensusState, l, b ::
          env.commit(Some(s), l, b).state.Some? && env.commit(Some(s), l, b).state.value.committee == s.committee)
  }

  /** A node alone in its committee, somewhere in a run. */
  ghost predicate Alone(env: Env, n: Node) {
    n.committee == [n.me] && n.blockGasLimit >= 2 && n.evidence == map[] && n.orphans == map[]
  }

  ghost predicate Proposes(env: Env, n: Node, view: View, qc: QuorumCertificate, b: Block) {
    Propose(env, n, view, qc, NOTHING) == Some(b)
  }

  lemma CanPropose(env: Env, n: Node, view: View, qc: QuorumCertificate) returns (b: Block)
    requires Obliging(env) && Alone(env, n) && ParentFor(n, qc) in n.disk.blocks
    ensures Proposes(env, n, view, qc, b) && b.view == view && b.justify == qc && b.evidence == []
  {
    b := Propose(env, n, view, qc, NOTHING).value;
  }

  /** Launch: the genesis certificate is extended. */
  lemma LaunchStep(env: Env, n: Node) returns (b: Block)
    requires Obliging(env) && Alone(env, n) && n.currentView == 1 && 0 in n.disk.qcs && n.disk.qcs[0] == GENESIS_QC
    requires n.preferredBlock in n.disk.blocks
    ensures b.view == 1
    ensures TryPropose(env, n, NOTHING)
         == Out(SaveBlock(env, n, b), Ok([BroadcastBlock(b), CastVote(n, 1, env.hash(b), Notarize)]))
  {
    b := CanPropose(env, n, 1, GENESIS_QC);
    hide Propose;
    assert Remove(n.evidence, b.evidence) == map[];
    assert FinalizeParent(n, GENESIS_QC) == [];
    var own := [BroadcastBlock(b), CastVote(n, 1, env.hash(b), Notarize)];
    assert own + [] == own;
  }

  /** The node's own vote is a quorum. */
  lemma OwnVoteCompletes(n: Node, view: View, hash: Hash)
    requires n.committee == [n.me] && n.votes == map[] && view !in n.disk.qcs
    ensures var vote := MakeVote(n.me, view, hash, Notarize);
            && FiledVotes(n, vote) == map[n.me := vote] && Supporters(FiledVotes(n, vote), hash) == {n.me}
            && Enumerates([n.me], Supporters(FiledVotes(n, vote), hash)) && Completes(n, vote)
  {
    var vote := MakeVote(n.me, view, hash, Notarize);
    assert FiledVotes(n, vote) == map[n.me := vote];
    assert Supporters(FiledVotes(n, vote), hash) == {n.me};
    assert Elements([n.me]) == {n.me};
  }

  /** A new certificate: the node finalizes its view and proposes the next. */
  lemma CertifyStep(env: Env, n: Node, qc: QuorumCertificate) returns (b: Block)
    requires Obliging(env) && Alone(env, n) && qc.blockHash != ZERO_HASH && qc.blockHash in n.disk.blocks
    requires n.preferredView <= n.currentView == qc.view && qc.view > 0
    ensures b.view == qc.view + 1
    ensures var o := Certify(env, n, qc, NOTHING);
            && Emitted(o) == [CastVote(n, qc.view, qc.blockHash, Finalize), BroadcastBlock(b),
                              CastVote(n, qc.view + 1, env.hash(b), Notarize), CastVote(n, qc.view, qc.blockHash, Finalize)]
            && o.node.disk.qcs == n.disk.qcs[qc.view := qc] && o.node.me == n.me && o.node.committee == n.committee
            && o.node.preferredView == qc.view && o.node.finalizedHeight == n.finalizedHeight
            && o.node.votes == n.votes && o.node.finalizeVotes == n.finalizeVotes && o.node.orphans == n.orphans
            && qc.blockHash in o.node.disk.blocks
  {
    hide Persist;
    CertifyFrame(env, n, qc, NOTHING);
    NewQcFrame(env, n, qc);
    var n1 := NewQc(env, n, qc);
    ChainedFrame(env, n1, qc, NOTHING);
    b := CanPropose(env, n1, qc.view + 1, qc);
    hide Propose, NewQc;
    assert FinalizeParent(n1, qc) == [CastVote(n, qc.view, qc.blockHash, Finalize)];
  }

  /** The node's own finalize vote finalizes the view. */
  lemma FinalizeStep(n: Node, view: View, hash: Hash)
    requires n.committee == [n.me] && n.finalizeVotes == map[] && n.finalizedHeight < view
    requires VotesAt(n.votes, view) == map[n.me := MakeVote(n.me, view, hash, Notarize)]
    ensures var vote := MakeVote(n.me, view, hash, Finalize);
            && Enumerates([n.me], Supporters(FiledVotes(n, vote), hash)) && Finalizes(n, vote) && NamedBy(n, vote) == {n.me}
  {
    var vote := MakeVote(n.me, view, hash, Finalize);
    assert FiledVotes(n, vote) == map[n.me := vote];
    assert Supporters(FiledVotes(n, vote), hash) == {n.me};
    assert Elements([n.me]) == {n.me};
    assert FinalizeVotes(n, vote) == map[n.me := vote];
    assert |map[n.me := vote]| == 1;
    assert NamedBy(n, vote) == {n.me};
  }

  // ---- The run ----

  ghost function Beginning(s: Setup, p: PublicKey, ledger: Ledger, limit: nat): World {
    World(map[p := Start(s.env, p, s.committee, Disk(map[], map[], None, ledger), limit)], {}, {}, map[p := 0], map[], {})
  }

  ghost predicate Sole(s: Setup, p: PublicKey) {
    SetupOk(s) && s.committee == [p] && s.faulty == {} && Obliging(s.env)
  }

  /** What the first node looks like. */
  ghost predicate JustStarted(s: Setup, p: PublicKey, n: Node) {
    && Alone(s.env, n) && n.me == p && n.committee == s.committee && n.currentView == 1 && n.disk.qcs == map[0 := GENESIS_QC]
    && n.preferredBlock in n.disk.blocks && n.preferredView == 0 && n.lastVotedView == 0 && n.finalizedHeight == 0
    && n.votes == map[] && n.finalizeVotes == map[] && Filed(n.orphans)
  }

  lemma BeginningOk(s: Setup, p: PublicKey, ledger: Ledger, limit: nat)
    requires s.committee == [p] && limit >= 2
    ensures var w := Beginning(s, p, ledger, limit); InitialWorld(s, w) && JustStarted(s, p, w.nodes[p])
  {
    assert FreshNode(s, p, Start(s.env, p, s.committee, Disk(map[], map[], None, ledger), limit));
  }

  /** The votes and blocks among the actions of a launch. */
  lemma LaunchEmissions(b: Block, vote: Vote)
    requires IsBallot(vote)
    ensures var actions := [BroadcastBlock(b), BroadcastVote(vote)];
            VotesIn(actions) == {vote} && BlocksIn(actions) == {b} && Ballots(actions) == [vote]
  {
    var actions := [BroadcastBlock(b), BroadcastVote(vote)];
    assert actions[1] in actions && actions[0] in actions;
    assert actions[1..] == [BroadcastVote(vote)] && actions[1..][1..] == [];
    assert Ballots(actions[1..]) == [vote] + Ballots(actions[1..][1..]);
  }

  ghost function Second(s: Setup, p: PublicKey, n: Node, b: Block): World {
    World(map[p := SaveBlock(s.env, n, b)], {MakeVote(p, 1, s.env.hash(b), Notarize)}, {b}, map[p := 1], map[], {})
  }

  lemma First(s: Setup, w: World, p: PublicKey, n: Node) returns (e: Event, b: Block)
    requires Sole(s, p) && JustStarted(s, p, n) && w == World(map[p := n], {}, {}, map[p := 0], map[], {})
    ensures Allowed(s, w, p, e) && CaughtUp(s, w, p, e) && b.view == 1 && Step(s, w, p, e) == Second(s, p, n, b)
  {
    hide SetupOk;
    b := LaunchStep(s.env, n);
    e := Launch(NOTHING);
    HashNonzero(s, b);
    hide TryPropose, VotesIn, BlocksIn, Ballots;
    var vote := MakeVote(p, 1, s.env.hash(b), Notarize);
    LaunchEmissions(b, vote);
    assert Emitted(Handle(s.env, n, e)) == [BroadcastBlock(b), BroadcastVote(vote)];
    assert map[p := n][p := SaveBlock(s.env, n, b)] == map[p := SaveBlock(s.env, n, b)];
    assert map[p := 0][p := 1] == map[p := 1];
    assert forall x :: x in BlocksIn(Emitted(Handle(s.env, n, e))) ==> x == b;
  }

  lemma HashNonzero(s: Setup, b: Block)
    requires SetupOk(s)
    ensures s.env.hash(b) != ZERO_HASH
  {
  }

  lemma CertifyEmissions(f: Vote, b: Block, vote: Vote)
    requires IsBallot(vote) && !IsBallot(f)
    ensures var actions := [BroadcastVote(f), BroadcastBlock(b), BroadcastVote(vote), BroadcastVote(f)];
            VotesIn(actions) == {f, vote} && BlocksIn(actions) == {b}
  {
    var actions := [BroadcastVote(f), BroadcastBlock(b), BroadcastVote(vote), BroadcastVote(f)];
    assert actions[0] in actions && actions[1] in actions && actions[2] in actions;
  }

  /** A vote that completes a certificate is handled by certifying. */
  lemma VoteCertifies(env: Env, n: Node, vote: Vote, signers: seq<PublicKey>, offer: Offer)
    requires Enumerates(signers, Supporters(FiledVotes(n, vote), vote.blockHash)) && Completes(n, vote)
    ensures OnVote(env, n, vote, signers, offer)
         == Certify(env, n.(votes := n.votes[vote.view := FiledVotes(n, vote)]), Completed(n, vote, signers), offer)
  {
    hide Certify;
  }

  /** The certified world: one certificate, and a finalize vote for it in circulation. */
  ghost predicate Certified(s: Setup, p: PublicKey, w: World, hash: Hash) {
    && w.nodes.Keys == {p} && w.launched == map[p := 1] && w.certified == map[1 := hash] && w.finalized == {}
    && MakeVote(p, 1, hash, Finalize) in w.sent && OneHash(w.sent)
    && var n := w.nodes[p];
       && n.me == p && n.committee == [p] && n.finalizeVotes == map[] && n.finalizedHeight == 0 && n.orphans == map[]
       && 1 in n.disk.qcs && n.disk.qcs[1].blockHash == hash
       && VotesAt(n.votes, 1) == map[p := MakeVote(p, 1, hash, Notarize)]
  }

  /** What handling the own vote gives. */
  ghost predicate CertifiedOut(s: Setup, p: PublicKey, hash: Hash, o: Out, next: Block) {
    && next.view == 2
    && Emitted(o) == [BroadcastVote(MakeVote(p, 1, hash, Finalize)), BroadcastBlock(next),
                      BroadcastVote(MakeVote(p, 2, s.env.hash(next), Notarize)), BroadcastVote(MakeVote(p, 1, hash, Finalize))]
    && o.node.disk.qcs.Keys == {0, 1} && o.node.disk.qcs[1].blockHash == hash && o.node.me == p && o.node.committee == [p]
    && o.node.preferredView == 1 && o.node.finalizedHeight == 0 && o.node.finalizeVotes == map[] && o.node.orphans == map[]
    && VotesAt(o.node.votes, 1) == map[p := MakeVote(p, 1, hash, Notarize)]
  }

  ghost predicate Voted(s: Setup, p: PublicKey, n: Node, e: Event, b: Block) {
    e == VoteIn(MakeVote(p, 1, s.env.hash(b), Notarize), [p], NOTHING) && Enabled(n, e) && Completes(n, e.vote)
  }

  lemma MiddleNode(s: Setup, p: PublicKey, n: Node, b: Block) returns (e: Event, next: Block)
    requires Sole(s, p) && JustStarted(s, p, n) && b.view == 1
    ensures var n1 := SaveBlock(s.env, n, b);
            Voted(s, p, n1, e, b) && CertifiedOut(s, p, s.env.hash(b), Handle(s.env, n1, e), next)
  {
    hide SetupOk;
    var n1, hash := SaveBlock(s.env, n, b), s.env.hash(b);
    var vote := MakeVote(p, 1, hash, Notarize);
    HashNonzero(s, b);
    OwnVoteCompletes(n1, 1, hash);
    e := VoteIn(vote, [p], NOTHING);
    VoteCertifies(s.env, n1, vote, [p], NOTHING);
    var n2 := n1.(votes := n1.votes[1 := FiledVotes(n1, vote)]);
    var qc := Completed(n1, vote, [p]);
    next := CertifyStep(s.env, n2, qc);
    hide OnVote, Certify, Completes, Supporters, FiledVotes, Obliging;
  }

  lemma OneHashEach(p: PublicKey, hash: Hash, other: Hash)
    ensures OneHash({MakeVote(p, 1, hash, Notarize), MakeVote(p, 1, hash, Finalize), MakeVote(p, 2, other, Notarize)})
  {
  }

  lemma Middle(s: Setup, p: PublicKey, n: Node, b: Block) returns (e: Event)
    requires Sole(s, p) && JustStarted(s, p, n) && b.view == 1
    ensures var w, hash := Second(s, p, n, b), s.env.hash(b);
            Allowed(s, w, p, e) && CaughtUp(s, w, p, e) && Certified(s, p, Step(s, w, p, e), hash)
  {
    hide SetupOk, Obliging;
    var w, hash := Second(s, p, n, b), s.env.hash(b);
    var next;
    e, next := MiddleNode(s, p, n, b);
    HashNonzero(s, b);
    HashNonzero(s, next);
    hide Handle;
    NonzeroOf(s);
    MiddleWorld(s, p, w, e, hash, next);
  }

  lemma MiddleWorld(s: Setup, p: PublicKey, w: World, e: Event, hash: Hash, next: Block)
    requires NonzeroHashes(s.env) && s.committee == [p] && hash != ZERO_HASH && s.env.hash(next) != ZERO_HASH
    requires w.nodes.Keys == {p} && w.launched == map[p := 1] && w.certified == map[] && w.finalized == {}
    requires w.sent == {MakeVote(p, 1, hash, Notarize)} && w.nodes[p].lastVotedView == 0
    requires e == VoteIn(MakeVote(p, 1, hash, Notarize), [p], NOTHING) && Enabled(w.nodes[p], e) && Completes(w.nodes[p], e.vote)
    requires CertifiedOut(s, p, hash, Handle(s.env, w.nodes[p], e), next)
    ensures Allowed(s, w, p, e) && CaughtUp(s, w, p, e) && Certified(s, p, Step(s, w, p, e), hash)
  {
    hide Handle, VotesIn, BlocksIn, Ballots, Completes, Enabled, Finalizes, MakeVote, OneHash, Intended, NonzeroHashes;
    var f, ballot := MakeVote(p, 1, hash, Finalize), MakeVote(p, 2, s.env.hash(next), Notarize);
    VoteFields(p, 1, hash, Notarize);
    VoteFields(p, 1, hash, Finalize);
    VoteFields(p, 2, s.env.hash(next), Notarize);
    CertifyEmissions(f, next, ballot);
    NotFinal(w.nodes[p], e.vote);
    OneHashEach(p, hash, s.env.hash(next));
    var o, w1 := Handle(s.env, w.nodes[p], e), Step(s, w, p, e);
    forall x | x in StepBallots(s.env, w.nodes[p], e) ensures x == ballot {
      BallotsSubset(Emitted(o), x);
    }
    BallotsIntended(s.env, w.nodes[p], e);
    assert Intended(s.env, w.nodes[p], e).Some? ==> Intended(s.env, w.nodes[p], e).value in StepBallots(s.env, w.nodes[p], e);
    assert BlocksIn(Emitted(o)) == {next};
    assert w1.sent == {e.vote, f, ballot};
  }

  lemma VoteFields(p: PublicKey, view: View, hash: Hash, kind: VoteType)
    ensures var v := MakeVote(p, view, hash, kind);
            v.author == p && v.view == view && v.blockHash == hash && v.voteType == kind && Verify(p, hash, v.signature)
  {
  }

  lemma NotFinal(n: Node, vote: Vote)
    requires vote.voteType == Notarize
    ensures !Finalizes(n, vote)
  {
  }

  /** Handling the own finalize vote. */
  lemma LastNode(s: Setup, p: PublicKey, n: Node, hash: Hash) returns (e: Event)
    requires Obliging(s.env) && n.me == p && n.committee == [p] && n.finalizeVotes == map[] && n.finalizedHeight == 0
    requires n.orphans == map[] && VotesAt(n.votes, 1) == map[p := MakeVote(p, 1, hash, Notarize)]
    ensures e == VoteIn(MakeVote(p, 1, hash, Finalize), [p], NOTHING) && Enabled(n, e)
    ensures Finalizes(n, e.vote) && NamedBy(n, e.vote) == {p}
    ensures var o := Handle(s.env, n, e);
            Emitted(o) == [] && o.node.committee == [p] && o.node.disk.qcs == n.disk.qcs
  {
    var vote := MakeVote(p, 1, hash, Finalize);
    FinalizeStep(n, 1, hash);
    e := VoteIn(vote, [p], NOTHING);
    FinalizeFrame(s.env, n, vote);
    CommitKept(s.env, n, vote);
    hide OnFinalizeVote, Finalizes, NamedBy, Supporters, FiledVotes, VotesAt, Obliging;
  }

  /** The finalize vote finalizes view 1. */
  lemma Last(s: Setup, p: PublicKey, w: World, hash: Hash) returns (e: Event)
    requires Sole(s, p) && Certified(s, p, w, hash)
    ensures Allowed(s, w, p, e) && CaughtUp(s, w, p, e)
    ensures var w1 := Step(s, w, p, e);
            Finalization(p, 1, hash, {p}) in w1.finalized && w1.sent == w.sent && p in w1.nodes && w1.nodes[p].disk.qcs == w.nodes[p].disk.qcs
  {
    hide SetupOk, Obliging, OneHash;
    e := LastNode(s, p, w.nodes[p], hash);
    hide Handle, Enabled, Finalizes, NamedBy, VotesAt, Completes, MakeVote, Ballots, Verify;
    VoteFields(p, 1, hash, Finalize);
    NonzeroOf(s);
    LastWorld(s, p, w, e);
  }

  /** A step that emits nothing and keeps the committee. */
  lemma LastWorld(s: Setup, p: PublicKey, w: World, e: Event)
    requires NonzeroHashes(s.env) && p in w.nodes && p in w.launched && s.committee == [p] && Enabled(w.nodes[p], e) && e.VoteIn?
    requires e.vote.author == p && e.vote in w.sent && Finalizes(w.nodes[p], e.vote) && NamedBy(w.nodes[p], e.vote) == {p}
    requires var o := Handle(s.env, w.nodes[p], e);
             Emitted(o) == [] && o.node.committee == [p] && o.node.disk.qcs == w.nodes[p].disk.qcs
    ensures Allowed(s, w, p, e) && CaughtUp(s, w, p, e)
    ensures var w1 := Step(s, w, p, e);
            && Finalization(p, e.vote.view, e.vote.blockHash, {p}) in w1.finalized && w1.sent == w.sent
            && p in w1.nodes && w1.nodes[p].disk.qcs == w.nodes[p].disk.qcs
  {
    hide Handle, Enabled, Finalizes, NamedBy, Completes, Verify, Ballots, Intended, NonzeroHashes;
    NoBallots([]);
    BallotsIntended(s.env, w.nodes[p], e);
    assert VotesIn([]) == {} && BlocksIn([]) == {};
  }

  lemma CommitKept(env: Env, n: Node, vote: Vote)
    requires Obliging(env) && Verify(vote.author, vote.blockHash, vote.signature) && vote.voteType == Finalize
    ensures OnFinalizeVote(env, n, vote).node.committee == n.committee
  {
  }

  /** There is a run, within all the hypotheses of the agreement and chain theorems, that certifies and
      finalizes a block. */
  lemma LoneValidatorFinalizes(s: Setup, p: PublicKey, ledger: Ledger, limit: nat) returns (run: seq<Move>, end: World, hash: Hash)
    requires Sole(s, p) && limit >= 2
    ensures var w := Beginning(s, p, ledger, limit);
            && InitialWorld(s, w) && Reaches(s, w, run, end) && CaughtUpRun(s, w, run, end) && OneHash(end.sent)
    ensures hash != ZERO_HASH && Finalization(p, 1, hash, {p}) in end.finalized
    ensures p in end.nodes && 1 in end.nodes[p].disk.qcs && end.nodes[p].disk.qcs[1].blockHash == hash
  {
    hide Obliging, Step, CaughtUp, JustStarted, InitialWorld, SetupOk, Start, Handle, Equivocates, StepBallots, Deliverable, Reaches, CaughtUpRun;
    var w := Beginning(s, p, ledger, limit);
    BeginningOk(s, p, ledger, limit);
    var n := w.nodes[p];
    var e1, b := First(s, w, p, n);
    hash := s.env.hash(b);
    HashNonzero(s, b);
    var w1 := Second(s, p, n, b);
    var e2 := Middle(s, p, n, b);
    var w2 := Step(s, w1, p, e2);
    var e3 := Last(s, p, w2, hash);
    end := Step(s, w2, p, e3);
    var m1, m2, m3 := Move(p, e1), Move(p, e2), Move(p, e3);
    run := [m1, m2, m3];
    assert [m1] + [m2] == [m1, m2] && [m1, m2] + [m3] == run && [] + [m1] == [m1];
    NoSteps(s, w);
    Extended(s, w, [], w, m1, w1);
    Extended(s, w, [m1], w1, m2, w2);
    Extended(s, w, [m1, m2], w2, m3, end);
  }

  lemma Extended(s: Setup, w: World, run: seq<Move>, mid: World, m: Move, end: World)
    requires Reaches(s, w, run, mid) && CaughtUpRun(s, w, run, mid)
    requires Allowed(s, mid, m.node, m.event) && CaughtUp(s, mid, m.node, m.event) && end == Step(s, mid, m.node, m.event)
    ensures Reaches(s, w, run + [m], end) && CaughtUpRun(s, w, run + [m], end)
  {
    hide Step, CaughtUp, Handle, Equivocates, StepBallots, Deliverable;
    var more := run + [m];
    assert more[..|more| - 1] == run && more[|more| - 1] == m;
    assert Reaches(s, w, more[..|more| - 1], mid) && CaughtUpRun(s, w, more[..|more| - 1], mid);
  }

  lemma NoSteps(s: Setup, w: World)
    ensures Reaches(s, w, [], w) && CaughtUpRun(s, w, [], w)
  {
  }
}
