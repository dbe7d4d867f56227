/** Checks on the certificate of a delivered block that make it genuine, how much they must ask, and
    agreement for runs in which nodes make them. */
module Certificates {
  import opened Types
  import opened Collections
  import opened Consensus
  import opened Quorums
  import opened Discipline
  import opened Network
  import opened Agreement

  /** The committee members among the signers of a certificate. */
  function MemberSigners(committee: seq<PublicKey>, qc: QuorumCertificate): set<PublicKey> {
    set a | a in qc.signers && a in committee
  }

  /** A check any node can make: the genesis certificate, or a threshold of members among the signers. */
  predicate Checked(committee: seq<PublicKey>, qc: QuorumCertificate) {
    if qc.view == 0 then qc.blockHash == ZERO_HASH else |MemberSigners(committee, qc)| >= Threshold(committee)
  }

  /** Whole votes are authenticated: a correct member that signs a certificate sent that very vote. */
  ghost predicate Attested(s: Setup, sent: set<Vote>, qc: QuorumCertificate) {
    forall a :: a in MemberSigners(s.committee, qc) && a !in s.faulty ==> MakeVote(a, qc.view, qc.blockHash, Notarize) in sent
  }

  lemma CheckedIsGenuine(s: Setup, sent: set<Vote>, qc: QuorumCertificate)
    requires Checked(s.committee, qc) && Attested(s, sent, qc)
    ensures JustifyOk(s, sent, qc)
  {
    if qc.view > 0 {
      SubsetSize(MemberSigners(s.committee, qc), Backers(sent, s.committee, s.faulty, qc.view, qc.blockHash));
    }
  }

  /** The check asks exactly enough: a certificate passes it if and only if it is genuine in every
      network that attests it, whichever third of the committee is faulty. */
  lemma CheckIsExact(env: Env, committee: seq<PublicKey>, qc: QuorumCertificate)
    requires committee != []
    ensures Checked(committee, qc) <==>
      forall faulty: set<PublicKey>, sent: set<Vote> ::
        |faulty| <= (|committee| - 1) / 3 && Attested(Setup(env, committee, faulty), sent, qc) ==>
        JustifyOk(Setup(env, committee, faulty), sent, qc)
  {
    if Checked(committee, qc) {
      forall faulty: set<PublicKey>, sent: set<Vote> | Attested(Setup(env, committee, faulty), sent, qc)
        ensures JustifyOk(Setup(env, committee, faulty), sent, qc)
      {
        CheckedIsGenuine(Setup(env, committee, faulty), sent, qc);
      }
    } else {
      BarelyAttested(Setup(env, committee, {}), qc);
    }
  }

  /** The votes of the signers alone attest a certificate and back it only if it passes the check. */
  lemma BarelyAttested(s: Setup, qc: QuorumCertificate)
    requires s.faulty == {} && !Checked(s.committee, qc)
    ensures var sent := set a | a in MemberSigners(s.committee, qc) :: MakeVote(a, qc.view, qc.blockHash, Notarize);
            Attested(s, sent, qc) && !JustifyOk(s, sent, qc)
  {
    var signers := MemberSigners(s.committee, qc);
    var sent := set a | a in signers :: MakeVote(a, qc.view, qc.blockHash, Notarize);
    var backers := Backers(sent, s.committee, s.faulty, qc.view, qc.blockHash);
    forall a | a in backers ensures a in signers {
      var b :| b in signers && MakeVote(b, qc.view, qc.blockHash, Notarize) == MakeVote(a, qc.view, qc.blockHash, Notarize);
      assert MakeVote(a, qc.view, qc.blockHash, Notarize).author == a && MakeVote(b, qc.view, qc.blockHash, Notarize).author == b;
    }
    SubsetSize(backers, signers);
  }

  /** So a node that votes on a block casts a finalize vote that is sure to be backed, in every network
      that attests the block's certificate, if and only if the certificate passes the check. */
  lemma FinalizeVoteSureIff(env: Env, committee: seq<PublicKey>, n: Node, block: Block)
    requires committee != [] && block.justify.view > 0
    requires ValidateAndStore(env, n, block).Stored? && block.view >= n.currentView && block.view > n.lastVotedView
    ensures var vote := MakeVote(n.me, block.justify.view, block.justify.blockHash, Finalize);
            && BroadcastVote(vote) in Emitted(OnProposal(env, n, block))
            && (Checked(committee, block.justify) <==>
                forall faulty: set<PublicKey>, sent: set<Vote> ::
                  |faulty| <= (|committee| - 1) / 3 && Attested(Setup(env, committee, faulty), sent, block.justify) ==>
                  Backed(Setup(env, committee, faulty), sent, vote.view, vote.blockHash))
  {
    hide ValidateAndStore, OnProposal, Checked, Quorum, Attested;
    FinalizeVoteCast(env, n, block);
    CheckIsExact(env, committee, block.justify);
  }

  // ---- Runs of nodes that make the check ----

  ghost predicate ChecksOut(s: Setup, w: World, e: Event) {
    forall b :: b in Delivered(e) ==> Checked(s.committee, b.justify) && Attested(s, w.sent, b.justify)
  }

  ghost predicate CheckedRun(s: Setup, w: World, run: seq<Move>, end: World)
    decreases |run|
  {
    if run == [] then end == w
    else
      var last := run[|run| - 1];
      exists mid :: CheckedRun(s, w, run[..|run| - 1], mid) && Allowed(s, mid, last.node, last.event)
                    && ChecksOut(s, mid, last.event) && end == Step(s, mid, last.node, last.event)
  }

  lemma CheckedEventIsGenuine(s: Setup, w: World, e: Event)
    requires ChecksOut(s, w, e)
    ensures Genuine(s, w, e)
  {
    hide Checked, Attested, JustifyOk;
    forall b | b in Delivered(e) ensures JustifyOk(s, w.sent, b.justify) {
      CheckedIsGenuine(s, w.sent, b.justify);
    }
  }

  /** Every run whose delivered certificates pass the check delivers genuine certificates only. */
  lemma {:induction false} CheckedRunsAreGenuine(s: Setup, w: World, run: seq<Move>, end: World)
    requires CheckedRun(s, w, run, end)
    ensures GenuineRun(s, w, run, end)
    decreases |run|
  {
    hide Step, Handle, Equivocates, StepBallots, Deliverable, Genuine, ChecksOut;
    if run != [] {
      var last := run[|run| - 1];
      var mid :| CheckedRun(s, w, run[..|run| - 1], mid) && Allowed(s, mid, last.node, last.event)
                 && ChecksOut(s, mid, last.event) && end == Step(s, mid, last.node, last.event);
      CheckedRunsAreGenuine(s, w, run[..|run| - 1], mid);
      CheckedEventIsGenuine(s, mid, last.event);
    }
  }

  /** Agreement from a check nodes can make: with up to a third of the members faulty, correct nodes
      that notarize one hash per view vote to finalize one hash per view, and a finalization that a
      correct vote counts for, or a threshold of the counted votes, is for that hash. */
  lemma CheckedAgreement(s: Setup, w: World, run: seq<Move>, end: World, x: Vote, f: Finalization)
    requires SetupOk(s) && InitialWorld(s, w) && CheckedRun(s, w, run, end) && OneHash(end.sent)
    ensures x in end.sent && x.voteType == Finalize ==>
      x.view > 0 && Quorum(end.sent, s.committee, s.faulty, x.view, x.blockHash) && Names(s, end, x.view, x.blockHash)
    ensures f in end.finalized && (Correct(s, f) || |f.support| >= Threshold(s.committee)) ==> Names(s, end, f.view, f.hash)
  {
    hide CheckedRun, GenuineRun, InitialWorld, SetupOk, OneHash, Names, Correct;
    CheckedRunsAreGenuine(s, w, run, end);
    if x in end.sent && x.voteType == Finalize {
      FinalizeVotesAgree(s, w, run, end, x);
    }
    if f in end.finalized {
      if Correct(s, f) {
        FinalizationAgreement(s, w, run, end, f);
      } else if |f.support| >= Threshold(s.committee) {
        ThresholdFinalization(s, w, run, end, f);
      }
    }
  }

  // ---- What the signatures alone give ----

  /** A correct member's signature on a hash is found only in votes it sent for that hash. */
  ghost predicate Unforged(s: Setup, sent: set<Vote>, signature: Signature) {
    forall a, hash :: a in s.committee && a !in s.faulty && (a, hash) in signature ==>
      exists x :: x in sent && x.author == a && x.blockHash == hash
  }

  lemma {:induction false} SignersSigned(keys: seq<PublicKey>, message: Hash, a: PublicKey)
    requires a in keys
    ensures (a, message) in AllSigned(keys, message)
  {
    if keys[0] != a {
      SignersSigned(keys[1..], message, a);
    }
  }

  /** In a sound world a correct node's vote for a block, of either kind, is for the block's view, or
      the block is certified there already. */
  lemma VotesForBlock(s: Setup, w: World, b: Block, x: Vote)
    requires SetupOk(s) && GroundInv(s, w) && Injective(s.env.hash) && b in w.blocks
    requires x in w.sent && x.blockHash == s.env.hash(b)
    ensures x == MakeVote(x.author, b.view, s.env.hash(b), Notarize) || Backed(s, w.sent, b.view, s.env.hash(b))
  {
    hide Backed, AllJustified, Grounded, Registered, NodeOk, OneBallot, Quorum;
    if x.voteType == Finalize {
      BackedBroadcast(s, w, x.view, x.blockHash);
    }
    assert Broadcast(s, w.blocks, x.view, x.blockHash);
    var c :| c in w.blocks && c.view == x.view && s.env.hash(c) == x.blockHash;
    assert c == b;
  }

  /** For a real block the code's own signatures suffice: a verified certificate with a threshold of
      members that names a known block and that block's view is genuine. Only the dummy, which has no
      view of its own, needs whole votes. */
  lemma RealCertificateSuffices(s: Setup, w: World, qc: QuorumCertificate, b: Block)
    requires SetupOk(s) && GroundInv(s, w) && Injective(s.env.hash) && Unforged(s, w.sent, qc.signature)
    requires qc.view > 0 && QcVerifies(qc) && Checked(s.committee, qc)
    requires b in w.blocks && s.env.hash(b) == qc.blockHash && b.view == qc.view
    ensures Backed(s, w.sent, qc.view, qc.blockHash)
  {
    hide SetupOk, GroundInv, Quorum, Threshold;
    if !Backed(s, w.sent, qc.view, qc.blockHash) {
      forall a | a in MemberSigners(s.committee, qc) && a !in s.faulty
        ensures MakeVote(a, qc.view, qc.blockHash, Notarize) in w.sent
      {
        SignersSigned(qc.signers, qc.blockHash, a);
        var x :| x in w.sent && x.author == a && x.blockHash == qc.blockHash;
        VotesForBlock(s, w, b, x);
      }
      CheckedIsGenuine(s, w.sent, qc);
    }
  }
}
