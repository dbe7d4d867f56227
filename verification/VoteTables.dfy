/** What the vote tables hold in every run, and what follows for certificates and evidence. */
module VoteTables {
  import opened Types
  import opened Collections
  import opened EvidencePoolModel
  import opened Vm
  import opened Consensus
  import opened Frames
  import opened Recovery
  import opened Discipline

  /** Every filed vote is a verified vote of this kind, under its own view and author. */
  ghost predicate Filing(table: VoteTable, kind: VoteType) {
    forall v, a :: v in table && a in table[v] ==>
      table[v][a] == MakeVote(a, v, table[v][a].blockHash, kind)
  }

  lemma EmptyTables()
    ensures Filing(map[], Notarize) && Filing(map[], Finalize)
  {
  }

  ghost predicate TablesSound(n: Node) {
    Filing(n.votes, Notarize) && Filing(n.finalizeVotes, Finalize)
  }

  lemma {:induction false} AggregateIsAllSigned(votes: map<PublicKey, Vote>, signers: seq<PublicKey>, hash: Hash)
    requires forall a :: a in signers ==> a in votes && votes[a].signature == Sign(a, hash)
    ensures AggregateOf(votes, signers) == AllSigned(signers, hash)
  {
    if signers != [] {
      AggregateIsAllSigned(votes, signers[1..], hash);
    }
  }

  lemma FilingKeeps(table: VoteTable, vote: Vote, kind: VoteType)
    requires Filing(table, kind) && vote.voteType == kind && Verify(vote.author, vote.blockHash, vote.signature)
    ensures Filing(table[vote.view := VotesAt(table, vote.view)[vote.author := vote]], kind)
  {
  }

  /** The certificate a vote completes. */
  ghost function Completed(n: Node, vote: Vote, signers: seq<PublicKey>): (qc: QuorumCertificate)
    requires Enumerates(signers, Supporters(FiledVotes(n, vote), vote.blockHash))
    ensures qc.view == vote.view && qc.blockHash == vote.blockHash && qc.signers == signers
  {
    assert forall a :: a in signers ==> a in Elements(signers);
    QcFrom(FiledVotes(n, vote), vote, signers)
  }

  lemma VoteTablesStep(env: Env, n: Node, vote: Vote, signers: seq<PublicKey>, offer: Offer)
    requires TablesSound(n) && Enabled(n, VoteIn(vote, signers, offer))
    ensures var out := OnVote(env, n, vote, signers, offer).node;
            && TablesSound(out)
            && out.disk.qcs == (if Completes(n, vote) then n.disk.qcs[vote.view := Completed(n, vote, signers)] else n.disk.qcs)
  {
    hide OnFinalizeVote, Certify, Completes, Conflicts, Filing;
    if Verify(vote.author, vote.blockHash, vote.signature) {
      FilingKeeps(if vote.voteType == Finalize then n.finalizeVotes else n.votes, vote, vote.voteType);
      if vote.voteType == Finalize {
        FinalizeFrame(env, n, vote);
      } else if Completes(n, vote) {
        CertifyFrame(env, n.(votes := n.votes[vote.view := FiledVotes(n, vote)]), Completed(n, vote, signers), offer);
      }
    }
    if Completes(n, vote) {
      CompletesVerified(n, vote);
    }
  }

  lemma CompletesVerified(n: Node, vote: Vote)
    requires Completes(n, vote)
    ensures Verify(vote.author, vote.blockHash, vote.signature) && vote.voteType == Notarize && !Conflicts(n, vote)
    ensures vote.view !in n.disk.qcs
  {
  }

  /** Tables stay sound under every handler, and a certificate is stored only by the vote that
      completes it, in a view that had none: certificates are write-once. */
  lemma TablesStep(env: Env, n: Node, e: Event)
    requires TablesSound(n) && Enabled(n, e) && Anchored(n)
    ensures var out := Handle(env, n, e).node;
            && TablesSound(out)
            && out.disk.qcs == (if e.VoteIn? && Completes(n, e.vote)
                                then n.disk.qcs[e.vote.view := Completed(n, e.vote, e.signers)] else n.disk.qcs)
  {
    hide ValidateAndStore, FastForward, Persist, OnVote, Respond, Propose, Completes, Filing;
    match e
    case Proposal(block) =>
      StoreFrame(env, n, block);
      var c := ValidateAndStore(env, n, block);
      if c.Stored? {
        FastForwardFrame(env, c.node, block.view);
        PersistFrame(env, FastForward(env, c.node, block.view).(lastVotedView := block.view));
      }
    case VoteIn(vote, signers, offer) => VoteTablesStep(env, n, vote, signers, offer);
    case Response(block) => RespondFrame(env, n, block);
    case Restart =>
      AnchoredRestarts(env, n);
      EmptyTables();
    case _ =>
  }

  /** A certificate as its verifiers want it. */
  ghost predicate SoundQc(qc: QuorumCertificate, committee: seq<PublicKey>) {
    Distinct(qc.signers) && |qc.signers| >= Threshold(committee) && QcVerifies(qc)
  }

  /** A completed certificate has a quorum of distinct signers, all of whom signed, and passes
      certificate verification. */
  lemma CompletedSound(n: Node, vote: Vote, signers: seq<PublicKey>)
    requires TablesSound(n) && Completes(n, vote)
    requires Enumerates(signers, Supporters(FiledVotes(n, vote), vote.blockHash))
    ensures SoundQc(Completed(n, vote, signers), n.committee)
  {
    DistinctSize(signers);
    FilingKeeps(n.votes, vote, Notarize);
    var votes := FiledVotes(n, vote);
    forall a | a in signers ensures a in votes && votes[a].signature == Sign(a, vote.blockHash) {
      assert a in Elements(signers);
      assert n.votes[vote.view := votes][vote.view][a] == votes[a];
    }
    AggregateIsAllSigned(votes, signers, vote.blockHash);
  }

  /** In every run, each certificate on disk was there at the start or is sound for the committee
      the node had when it was formed. */
  lemma {:induction false} RunQcsSound(env: Env, n: Node, es: seq<Event>, v: View)
    requires KeepsPositions(env) && Anchored(n) && TablesSound(n) && Runs(env, n, es)
    requires v in After(env, n, es).disk.qcs
    ensures TablesSound(After(env, n, es))
    ensures || (v in n.disk.qcs && After(env, n, es).disk.qcs[v] == n.disk.qcs[v])
            || (v !in n.disk.qcs && After(env, n, es).disk.qcs[v].view == v && exists i ::
                  0 <= i < |es| && SoundQc(After(env, n, es).disk.qcs[v], After(env, n, es[..i]).committee))
  {
    hide Handle, Anchored, KeepsPositions, TablesSound, Completes, Completed, SoundQc;
    if es != [] {
      var k := |es| - 1;
      var init, e := es[..k], es[k];
      var before := After(env, n, init);
      RunAnchored(env, n, init);
      RunTablesSound(env, n, init);
      TablesStep(env, before, e);
      if e.VoteIn? && Completes(before, e.vote) && v == e.vote.view {
        CompletesVerified(before, e.vote);
        CompletedSound(before, e.vote, e.signers);
        assert es[..k] == init;
        if v in n.disk.qcs {
          QcsStay(env, n, init, v);
          assert false;
        }
      } else {
        RunQcsSound(env, n, init, v);
        if v !in n.disk.qcs {
          var i :| 0 <= i < |init| && SoundQc(before.disk.qcs[v], After(env, n, init[..i]).committee);
          assert init[..i] == es[..i];
        }
      }
    }
  }

  lemma {:induction false} RunTablesSound(env: Env, n: Node, es: seq<Event>)
    requires KeepsPositions(env) && Anchored(n) && TablesSound(n) && Runs(env, n, es)
    ensures TablesSound(After(env, n, es))
  {
    hide Handle, Anchored, KeepsPositions, TablesSound, Completes, Completed;
    if es != [] {
      RunTablesSound(env, n, es[..|es| - 1]);
      RunAnchored(env, n, es[..|es| - 1]);
      TablesStep(env, After(env, n, es[..|es| - 1]), es[|es| - 1]);
    }
  }

  lemma {:induction false} QcsStay(env: Env, n: Node, es: seq<Event>, v: View)
    requires KeepsPositions(env) && Anchored(n) && TablesSound(n) && Runs(env, n, es)
    requires v in n.disk.qcs
    ensures v in After(env, n, es).disk.qcs
  {
    hide Handle, Anchored, KeepsPositions, TablesSound, Completes, Completed;
    if es != [] {
      var init := es[..|es| - 1];
      QcsStay(env, n, init, v);
      RunTablesSound(env, n, init);
      RunAnchored(env, n, init);
      TablesStep(env, After(env, n, init), es[|es| - 1]);
    }
  }

  /** Evidence is broadcast only about one author and one view with two distinct real hashes, and
      passes both the pool's check and the executor's. */
  lemma EvidenceSound(env: Env, n: Node, vote: Vote, signers: seq<PublicKey>, offer: Offer, x: Evidence)
    requires TablesSound(n) && Enabled(n, VoteIn(vote, signers, offer))
    requires BroadcastEvidence(x) in Emitted(OnVote(env, n, vote, signers, offer))
    ensures x.voteA.blockHash != ZERO_HASH && x.voteB.blockHash != ZERO_HASH
    ensures x.voteA.voteType == x.voteB.voteType == Notarize
    ensures Plausible(x) && AcceptedEvidence(x)
    ensures Holds(OnVote(env, n, vote, signers, offer).node.evidence, x)
  {
    hide OnFinalizeVote, Certify, Completes;
    if Verify(vote.author, vote.blockHash, vote.signature) && vote.voteType == Finalize {
      FinalizeFrame(env, n, vote);
      assert false;
    }
    if Completes(n, vote) {
      CompletesVerified(n, vote);
      var n1 := n.(votes := n.votes[vote.view := FiledVotes(n, vote)]);
      CertifyActions(env, n1, Completed(n, vote, signers), offer);
    } else {
      assert Conflicts(n, vote);
    }
  }

  lemma CertifyActions(env: Env, n: Node, qc: QuorumCertificate, offer: Offer)
    ensures forall a :: a in Emitted(Certify(env, n, qc, offer)) ==> a.BroadcastVote? || a.BroadcastBlock?
  {
    hide NewQc, Propose, Persist;
  }
}
