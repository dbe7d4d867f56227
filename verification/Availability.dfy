/** How many votes a certificate and a finalization take: exactly the members that remain when as
    many as can be tolerated are faulty. */
module Availability {
  import opened Types
  import opened Collections
  import opened Consensus
  import opened Frames
  import opened Discipline

  /** What is left of a committee without the faulty members it can bear. */
  function Remaining(committee: seq<PublicKey>): nat
    requires committee != []
  {
    |committee| - (|committee| - 1) / 3
  }

  // ---- One vote ----

  /** Those other than the author whose vote in the table is for the hash. */
  ghost function NamedExcept(t: map<PublicKey, Vote>, author: PublicKey, hash: Hash): set<PublicKey> {
    set a | a in t && a != author && t[a].blockHash == hash
  }

  /** Those other than the vote's author that have voted for its hash in its view. */
  ghost function OthersFor(n: Node, vote: Vote): set<PublicKey> {
    NamedExcept(VotesAt(n.votes, vote.view), vote.author, vote.blockHash)
  }

  /** The author has not voted for two different blocks in the view. */
  ghost predicate Consistent(n: Node, vote: Vote) {
    var table := VotesAt(n.votes, vote.view);
    vote.author in table && table[vote.author].blockHash != ZERO_HASH && vote.blockHash != ZERO_HASH
    ==> table[vote.author].blockHash == vote.blockHash
  }

  ghost predicate Counted(n: Node, vote: Vote, kind: VoteType) {
    vote.voteType == kind && vote.signature == Sign(vote.author, vote.blockHash) && n.committee != []
  }

  lemma SupporterCount(n: Node, vote: Vote)
    ensures |Supporters(FiledVotes(n, vote), vote.blockHash)| == |OthersFor(n, vote)| + 1
  {
    assert Supporters(FiledVotes(n, vote), vote.blockHash) == OthersFor(n, vote) + {vote.author};
  }

  /** A vote is filed under its author, over an earlier one. Its view gets a certificate exactly when
      it has none and the voters for the hash are as many as remain without the tolerated faulty ones;
      the node then votes to finalize it. */
  lemma VoteCertifiesIff(env: Env, n: Node, vote: Vote, signers: seq<PublicKey>, offer: Offer)
    requires Enumerates(signers, Supporters(FiledVotes(n, vote), vote.blockHash))
    requires Counted(n, vote, Notarize) && Consistent(n, vote)
    ensures var out := OnVote(env, n, vote, signers, offer);
            && out.node.votes == n.votes[vote.view := VotesAt(n.votes, vote.view)[vote.author := vote]]
            && (if |OthersFor(n, vote)| + 1 >= Remaining(n.committee) && vote.view !in n.disk.qcs
                then && vote.view in out.node.disk.qcs
                     && var qc := out.node.disk.qcs[vote.view];
                        && qc.view == vote.view && qc.blockHash == vote.blockHash && qc.signers == signers
                        && BroadcastVote(MakeVote(n.me, vote.view, vote.blockHash, Finalize)) in Emitted(out)
                else out.node == n.(votes := out.node.votes) && Emitted(out) == [])
  {
    hide Certify;
    SupporterCount(n, vote);
    if Completes(n, vote) {
      var votes := FiledVotes(n, vote);
      assert forall a :: a in signers ==> a in Elements(signers);
      var n1 := n.(votes := n.votes[vote.view := votes]);
      CertifyFrame(env, n1, QcFrom(votes, vote, signers), offer);
      CertifyVotes(env, n1, QcFrom(votes, vote, signers), offer);
    }
  }

  lemma CertifyVotes(env: Env, n: Node, qc: QuorumCertificate, offer: Offer)
    ensures CastVote(n, qc.view, qc.blockHash, Finalize) in Emitted(Certify(env, n, qc, offer))
  {
    hide NewQc, ChainedProposal;
    var vote := CastVote(n, qc.view, qc.blockHash, Finalize);
    assert ([vote] + ChainedProposal(env, NewQc(env, n, qc), qc, offer).1)[0] == vote;
  }

  /** A finalize vote is filed likewise; it raises the height exactly when as many members as remain
      have voted to finalize its view. */
  lemma VoteFinalizesIff(env: Env, n: Node, vote: Vote, signers: seq<PublicKey>, offer: Offer)
    requires Enumerates(signers, Supporters(FiledVotes(n, vote), vote.blockHash)) && Counted(n, vote, Finalize)
    ensures var out, others := OnVote(env, n, vote, signers, offer).node, VotesAt(n.finalizeVotes, vote.view).Keys - {vote.author};
            && out.finalizeVotes == n.finalizeVotes[vote.view := VotesAt(n.finalizeVotes, vote.view)[vote.author := vote]]
            && (if |others| + 1 >= Remaining(n.committee) && vote.view > n.finalizedHeight
                then out.finalizedHeight == vote.view
                else out == n.(finalizeVotes := out.finalizeVotes))
  {
    hide OnFinalizeVote;
    FinalizeFiled(env, n, vote);
  }

  lemma FinalizeCount(n: Node, vote: Vote)
    ensures |FinalizeVotes(n, vote)| == |VotesAt(n.finalizeVotes, vote.view).Keys - {vote.author}| + 1
  {
    var votes: map<PublicKey, Vote> := FinalizeVotes(n, vote);
    assert votes.Keys == (VotesAt(n.finalizeVotes, vote.view).Keys - {vote.author}) + {vote.author};
    assert |votes| == |votes.Keys|;
  }

  // ---- The votes of the correct members ----

  /** The members' votes for one hash, one after the other. */
  ghost function Arrivals(view: View, hash: Hash, authors: seq<PublicKey>, offer: Offer): seq<Event> {
    if authors == [] then []
    else Arrivals(view, hash, authors[..|authors| - 1], offer)
         + [VoteIn(MakeVote(authors[|authors| - 1], view, hash, Notarize), authors, offer)]
  }

  ghost function TableWith(table: map<PublicKey, Vote>, view: View, hash: Hash, authors: seq<PublicKey>): map<PublicKey, Vote> {
    if authors == [] then table
    else
      var author := authors[|authors| - 1];
      TableWith(table, view, hash, authors[..|authors| - 1])[author := MakeVote(author, view, hash, Notarize)]
  }

  /** Nobody has voted for the hash yet; the authors have at most timed out. */
  ghost predicate Open(table: map<PublicKey, Vote>, hash: Hash, authors: seq<PublicKey>) {
    forall a :: a in table ==> table[a].blockHash != hash && (a in authors ==> table[a].blockHash == ZERO_HASH || hash == ZERO_HASH)
  }

  lemma {:induction false} TableContents(table: map<PublicKey, Vote>, view: View, hash: Hash, authors: seq<PublicKey>)
    ensures Contents(table, TableWith(table, view, hash, authors), view, hash, Elements(authors))
  {
    hide TableWith, Contents;
    if authors == [] {
      TableEmpty(table, view, hash);
      ContentsNone(table, view, hash);
      assert Elements(authors) == {};
    } else {
      var init, last := authors[..|authors| - 1], authors[|authors| - 1];
      TableContents(table, view, hash, init);
      assert authors == init + [last];
      TableStep(table, view, hash, init, last);
      ElementsOfAppend(init, last);
      ContentsStep(table, TableWith(table, view, hash, init), view, hash, Elements(init), last);
    }
  }

  /** The votes of some, over the table. */
  ghost predicate Contents(table: map<PublicKey, Vote>, t: map<PublicKey, Vote>, view: View, hash: Hash, who: set<PublicKey>) {
    && (forall a :: a in t <==> a in table || a in who)
    && (forall a :: a in who ==> t[a] == MakeVote(a, view, hash, Notarize))
    && (forall a :: a in table && a !in who ==> t[a] == table[a])
  }

  lemma TableEmpty(table: map<PublicKey, Vote>, view: View, hash: Hash)
    ensures TableWith(table, view, hash, []) == table
  {
  }

  lemma ContentsNone(table: map<PublicKey, Vote>, view: View, hash: Hash)
    ensures Contents(table, table, view, hash, {})
  {
  }

  lemma ContentsStep(table: map<PublicKey, Vote>, t: map<PublicKey, Vote>, view: View, hash: Hash, who: set<PublicKey>, last: PublicKey)
    requires Contents(table, t, view, hash, who)
    ensures Contents(table, t[last := MakeVote(last, view, hash, Notarize)], view, hash, who + {last})
  {
    hide MakeVote;
  }

  lemma ElementsOfAppend(init: seq<PublicKey>, last: PublicKey)
    ensures Elements(init + [last]) == Elements(init) + {last}
  {
  }

  ghost predicate Waiting(n: Node, view: View, hash: Hash, authors: seq<PublicKey>) {
    && n.committee != [] && Distinct(authors) && Filed(n.orphans)
    && Open(VotesAt(n.votes, view), hash, authors) && view !in n.disk.qcs
  }

  lemma WaitingInit(n: Node, view: View, hash: Hash, authors: seq<PublicKey>)
    requires Waiting(n, view, hash, authors) && authors != []
    ensures Waiting(n, view, hash, authors[..|authors| - 1]) && authors[|authors| - 1] !in authors[..|authors| - 1]
  {
  }

  /** While fewer have voted than remain, only the vote table grows. */
  lemma {:induction false} TooFewArrived(env: Env, n: Node, view: View, hash: Hash, authors: seq<PublicKey>, offer: Offer)
    requires Waiting(n, view, hash, authors) && |authors| < Remaining(n.committee)
    ensures var es := Arrivals(view, hash, authors, offer);
            && Runs(env, n, es)
            && After(env, n, es) == n.(votes := After(env, n, es).votes)
            && VotesAt(After(env, n, es).votes, view) == TableWith(VotesAt(n.votes, view), view, hash, authors)
  {
    hide Handle;
    if authors != [] {
      var init, last := authors[..|authors| - 1], authors[|authors| - 1];
      WaitingInit(n, view, hash, authors);
      TooFewArrived(env, n, view, hash, init, offer);
      assert authors == init + [last];
      NextArrival(env, n, After(env, n, Arrivals(view, hash, init, offer)), view, hash, init, last, offer);
      ArrivalSplit(view, hash, authors, offer);
    }
  }

  lemma ArrivalSplit(view: View, hash: Hash, authors: seq<PublicKey>, offer: Offer)
    requires authors != []
    ensures var es, author := Arrivals(view, hash, authors, offer), authors[|authors| - 1];
            && es != [] && es[..|es| - 1] == Arrivals(view, hash, authors[..|authors| - 1], offer)
            && es[|es| - 1] == VoteIn(MakeVote(author, view, hash, Notarize), authors, offer)
  {
  }

  /** What the next vote does to a node that has all the earlier ones in its table. */
  lemma NextArrival(env: Env, n: Node, now: Node, view: View, hash: Hash, init: seq<PublicKey>, last: PublicKey, offer: Offer)
    requires Waiting(n, view, hash, init + [last]) && now == n.(votes := now.votes)
    requires VotesAt(now.votes, view) == TableWith(VotesAt(n.votes, view), view, hash, init)
    ensures var e := VoteIn(MakeVote(last, view, hash, Notarize), init + [last], offer);
            && Enabled(now, e)
            && var out := Handle(env, now, e).node;
               && VotesAt(out.votes, view) == TableWith(VotesAt(n.votes, view), view, hash, init + [last])
               && (if |init| + 1 >= Remaining(n.committee)
                   then view in out.disk.qcs && out.disk.qcs[view].blockHash == hash && out.disk.qcs[view].signers == init + [last]
                   else out == now.(votes := out.votes))
  {
    hide OnVote, Waiting, TableWith, OthersFor, Consistent, Supporters, FiledVotes;
    var vote := MakeVote(last, view, hash, Notarize);
    ArrivalCounts(n, now, view, hash, init, last);
    VoteCertifiesIff(env, now, vote, init + [last], offer);
  }

  lemma ArrivalCounts(n: Node, now: Node, view: View, hash: Hash, init: seq<PublicKey>, last: PublicKey)
    requires Waiting(n, view, hash, init + [last]) && now == n.(votes := now.votes)
    requires VotesAt(now.votes, view) == TableWith(VotesAt(n.votes, view), view, hash, init)
    ensures var vote := MakeVote(last, view, hash, Notarize);
            && Enumerates(init + [last], Supporters(FiledVotes(now, vote), hash)) && Consistent(now, vote)
            && |OthersFor(now, vote)| == |init| && n.committee != [] && Filed(n.orphans) && view !in n.disk.qcs
            && VotesAt(now.votes, view)[last := vote] == TableWith(VotesAt(n.votes, view), view, hash, init + [last])
  {
    hide TableWith, Supporters, Open, Filed, Distinct, Elements;
    var table, vote := VotesAt(n.votes, view), MakeVote(last, view, hash, Notarize);
    var t := TableWith(table, view, hash, init);
    DistinctInit(init, last);
    FiledNames(table, view, hash, init, last);
    assert OthersFor(now, vote) == NamedExcept(t, last, hash);
    DistinctSize(init);
    TableStep(table, view, hash, init, last);
  }

  lemma FiledNames(table: map<PublicKey, Vote>, view: View, hash: Hash, init: seq<PublicKey>, last: PublicKey)
    requires Open(table, hash, init + [last]) && last !in init
    ensures var t := TableWith(table, view, hash, init);
            && NamedExcept(t, last, hash) == Elements(init)
            && Supporters(t[last := MakeVote(last, view, hash, Notarize)], hash) == Elements(init + [last])
            && (last in t ==> t[last].blockHash == ZERO_HASH || hash == ZERO_HASH)
  {
    hide TableWith, Supporters, Open, Elements, NamedExcept, Contents;
    TableContents(table, view, hash, init);
    NamedIn(table, TableWith(table, view, hash, init), view, hash, init, last);
  }

  lemma DistinctInit(init: seq<PublicKey>, last: PublicKey)
    requires Distinct(init + [last])
    ensures Distinct(init) && last !in init
  {
    var s := init + [last];
    assert forall i :: 0 <= i < |init| ==> s[i] == init[i];
    assert s[|init|] == last;
  }

  /** With the earlier votes filed, those for the hash are exactly the earlier authors'. */
  lemma NamedIn(table: map<PublicKey, Vote>, t: map<PublicKey, Vote>, view: View, hash: Hash, init: seq<PublicKey>, last: PublicKey)
    requires Open(table, hash, init + [last]) && last !in init && Contents(table, t, view, hash, Elements(init))
    ensures NamedExcept(t, last, hash) == Elements(init)
    ensures Supporters(t[last := MakeVote(last, view, hash, Notarize)], hash) == Elements(init + [last])
    ensures last in t ==> t[last].blockHash == ZERO_HASH || hash == ZERO_HASH
  {
    forall a | a in t && a !in init
      ensures t[a].blockHash != hash
    {
      assert a in table;
    }
    assert last in init + [last];
    assert Supporters(t[last := MakeVote(last, view, hash, Notarize)], hash) == Elements(init) + {last};
  }

  lemma TableStep(table: map<PublicKey, Vote>, view: View, hash: Hash, init: seq<PublicKey>, last: PublicKey)
    ensures TableWith(table, view, hash, init + [last]) == TableWith(table, view, hash, init)[last := MakeVote(last, view, hash, Notarize)]
  {
    assert (init + [last])[..|init|] == init;
  }

  lemma RemainingSize(committee: seq<PublicKey>, faulty: set<PublicKey>, authors: seq<PublicKey>)
    requires committee != [] && Distinct(committee) && faulty <= Elements(committee) && |faulty| == (|committee| - 1) / 3
    requires Enumerates(authors, Elements(committee) - faulty)
    ensures |authors| == Remaining(committee) > 0
  {
    DistinctSize(committee);
    DistinctSize(authors);
    assert Elements(committee) == (Elements(committee) - faulty) + faulty;
  }

  /** Whichever members are faulty, if they are exactly as many as the committee can bear, the votes
      of the others for one hash certify it, in any order and whatever the faulty ones voted for
      instead; and one vote fewer leaves the view without a certificate. */
  lemma RemainingMembersCertify(env: Env, n: Node, faulty: set<PublicKey>, view: View, hash: Hash, authors: seq<PublicKey>, offer: Offer)
    requires Distinct(n.committee) && faulty <= Elements(n.committee) && |faulty| == (|n.committee| - 1) / 3
    requires Enumerates(authors, Elements(n.committee) - faulty) && Waiting(n, view, hash, authors)
    ensures authors != [] && Runs(env, n, Arrivals(view, hash, authors, offer))
    ensures view !in After(env, n, Arrivals(view, hash, authors[..|authors| - 1], offer)).disk.qcs
    ensures var out := After(env, n, Arrivals(view, hash, authors, offer));
            view in out.disk.qcs && out.disk.qcs[view].blockHash == hash && out.disk.qcs[view].signers == authors
  {
    hide Handle;
    RemainingSize(n.committee, faulty, authors);
    hide Elements, Distinct, Filed, Open;
    var init, last := authors[..|authors| - 1], authors[|authors| - 1];
    WaitingInit(n, view, hash, authors);
    TooFewArrived(env, n, view, hash, init, offer);
    ArrivalSplit(view, hash, authors, offer);
    assert authors == init + [last];
    NextArrival(env, n, After(env, n, Arrivals(view, hash, init, offer)), view, hash, init, last, offer);
  }

  // ---- The finalize votes of the correct members ----

  ghost function FinalizedBy(env: Env, n: Node, view: View, hash: Hash, authors: seq<PublicKey>): Node {
    if authors == [] then n
    else OnFinalizeVote(env, FinalizedBy(env, n, view, hash, authors[..|authors| - 1]),
                        MakeVote(authors[|authors| - 1], view, hash, Finalize)).node
  }

  /** Distinct keys that have not been counted yet. */
  ghost predicate Unseen(authors: seq<PublicKey>, seen: set<PublicKey>) {
    Distinct(authors) && forall a :: a in authors ==> a !in seen
  }

  lemma UnseenInit(init: seq<PublicKey>, last: PublicKey, seen: set<PublicKey>)
    requires Unseen(init + [last], seen)
    ensures Unseen(init, seen)
  {
    DistinctInit(init, last);
    assert forall a :: a in init ==> a in init + [last];
  }

  lemma {:induction false} FinalizesCounted(env: Env, n: Node, view: View, hash: Hash, authors: seq<PublicKey>)
    requires n.committee != [] && |VotesAt(n.finalizeVotes, view).Keys| + |authors| < Remaining(n.committee)
    requires Unseen(authors, VotesAt(n.finalizeVotes, view).Keys)
    ensures var out := FinalizedBy(env, n, view, hash, authors);
            && out == n.(finalizeVotes := out.finalizeVotes)
            && VotesAt(out.finalizeVotes, view).Keys == VotesAt(n.finalizeVotes, view).Keys + Elements(authors)
  {
    hide OnFinalizeVote, Unseen;
    if authors != [] {
      var init, last := authors[..|authors| - 1], authors[|authors| - 1];
      assert authors == init + [last];
      UnseenInit(init, last, VotesAt(n.finalizeVotes, view).Keys);
      FinalizesCounted(env, n, view, hash, init);
      NextFinalize(env, n, FinalizedBy(env, n, view, hash, init), view, hash, init, last);
    }
  }

  lemma NextFinalize(env: Env, n: Node, now: Node, view: View, hash: Hash, init: seq<PublicKey>, last: PublicKey)
    requires n.committee != [] && now == n.(finalizeVotes := now.finalizeVotes)
    requires Unseen(init + [last], VotesAt(n.finalizeVotes, view).Keys)
    requires VotesAt(now.finalizeVotes, view).Keys == VotesAt(n.finalizeVotes, view).Keys + Elements(init)
    ensures var out := OnFinalizeVote(env, now, MakeVote(last, view, hash, Finalize)).node;
            && VotesAt(out.finalizeVotes, view).Keys == VotesAt(n.finalizeVotes, view).Keys + Elements(init + [last])
            && (if |VotesAt(n.finalizeVotes, view).Keys| + |init| + 1 >= Remaining(n.committee) && view > n.finalizedHeight
                then out.finalizedHeight == view
                else out == now.(finalizeVotes := out.finalizeVotes))
  {
    hide OnFinalizeVote, FinalizeVotes;
    var vote := MakeVote(last, view, hash, Finalize);
    var filed := VotesAt(now.finalizeVotes, view);
    hide Unseen, Elements, VotesAt;
    NextCount(VotesAt(n.finalizeVotes, view).Keys, filed.Keys, init, last);
    FinalizeFiled(env, now, vote);
    FiledKeys(now.finalizeVotes, view, last, vote);
  }

  lemma FiledKeys(table: VoteTable, view: View, author: PublicKey, vote: Vote)
    ensures VotesAt(table[view := VotesAt(table, view)[author := vote]], view).Keys == VotesAt(table, view).Keys + {author}
  {
  }

  lemma NextCount(seen: set<PublicKey>, now: set<PublicKey>, init: seq<PublicKey>, last: PublicKey)
    requires Unseen(init + [last], seen) && now == seen + Elements(init)
    ensures |now - {last}| == |seen| + |init| && now + {last} == seen + Elements(init + [last])
  {
    DistinctInit(init, last);
    DistinctSize(init);
    assert forall a :: a in init ==> a in init + [last];
    assert seen !! Elements(init);
    assert last in init + [last];
    assert now - {last} == seen + Elements(init);
  }

  lemma FinalizeFiled(env: Env, n: Node, vote: Vote)
    requires Counted(n, vote, Finalize)
    ensures var out, others := OnFinalizeVote(env, n, vote).node, VotesAt(n.finalizeVotes, vote.view).Keys - {vote.author};
            && out.finalizeVotes == n.finalizeVotes[vote.view := VotesAt(n.finalizeVotes, vote.view)[vote.author := vote]]
            && (if |others| + 1 >= Remaining(n.committee) && vote.view > n.finalizedHeight
                then out.finalizedHeight == vote.view
                else out == n.(finalizeVotes := out.finalizeVotes))
  {
    hide Raise, CommitBlock;
    FinalizeCount(n, vote);
    FinalizeFrame(env, n, vote);
  }

  /** The same count for finalization: the finalize votes of the members that remain raise the height
      to a view nobody has voted to finalize, and one vote fewer does not. */
  lemma RemainingMembersFinalize(env: Env, n: Node, faulty: set<PublicKey>, view: View, hash: Hash, authors: seq<PublicKey>)
    requires Distinct(n.committee) && n.committee != [] && faulty <= Elements(n.committee) && |faulty| == (|n.committee| - 1) / 3
    requires Enumerates(authors, Elements(n.committee) - faulty) && VotesAt(n.finalizeVotes, view) == map[] && view > n.finalizedHeight
    ensures authors != [] && FinalizedBy(env, n, view, hash, authors).finalizedHeight == view
    ensures FinalizedBy(env, n, view, hash, authors[..|authors| - 1]).finalizedHeight == n.finalizedHeight
  {
    hide OnFinalizeVote;
    RemainingSize(n.committee, faulty, authors);
    var init, last := authors[..|authors| - 1], authors[|authors| - 1];
    assert authors == init + [last] && Unseen(init + [last], {});
    UnseenInit(init, last, {});
    hide Unseen, Distinct, Elements;
    FinalizesCounted(env, n, view, hash, init);
    NextFinalize(env, n, FinalizedBy(env, n, view, hash, init), view, hash, init, last);
  }
}
