/** What accepted evidence proves about the one it accuses. */
module Conviction {
  import opened Types
  import opened Vm
  import opened Consensus
  import opened Network

  /** The evidence is put together from signatures its author made: each of its two votes carries the
      signature of some vote the author sent. */
  ghost predicate FromSent(sent: set<Vote>, e: Evidence) {
    && (exists x :: x in sent && x.author == e.voteA.author && x.signature == e.voteA.signature)
    && (exists y :: y in sent && y.author == e.voteB.author && y.signature == e.voteB.signature)
  }

  lemma SignatureNames(key: PublicKey, other: PublicKey, a: Hash, b: Hash)
    requires Sign(key, a) == Sign(other, b)
    ensures key == other && a == b
  {
    assert (key, a) in Sign(other, b);
  }

  /** Two votes of one author for different hashes make accepted evidence, whatever their views and
      kinds: the view label is not signed, and kinds and dummies are not looked at. A correct node
      that voted in two views, or timed out and later voted to finalize, is slashed on it. */
  lemma AnyTwoHashesConvict(m: Machine, db: Db, x: Vote, y: Vote)
    requires x == MakeVote(x.author, x.view, x.blockHash, x.voteType) && y == MakeVote(x.author, y.view, y.blockHash, y.voteType)
    requires x.blockHash != y.blockHash && db.state.Some? && m.addressOf(x.author) in db.state.value.stakes
    ensures Slashes(m, db, Evidence(x, y.(view := x.view)))
  {
  }

  /** Of the votes as sent, the executor accepts exactly the pairs of one author with one view label and
      two hashes. */
  lemma SentPairsAcceptedIff(x: Vote, y: Vote)
    requires x.signature == Sign(x.author, x.blockHash) && y.signature == Sign(y.author, y.blockHash)
    ensures AcceptedEvidence(Evidence(x, y)) <==> x.author == y.author && x.view == y.view && x.blockHash != y.blockHash
  {
  }

  /** Exactly whom accepted evidence can convict: an author that signed two different hashes, in
      whatever view or kind of vote. */
  lemma ConvictableIff(w: World, key: PublicKey)
    requires SentOk(w)
    ensures (exists e :: AcceptedEvidence(e) && e.voteA.author == key && FromSent(w.sent, e)) <==>
            (exists x, y :: x in w.sent && y in w.sent && x.author == key && y.author == key && x.blockHash != y.blockHash)
  {
    if e :| AcceptedEvidence(e) && e.voteA.author == key && FromSent(w.sent, e) {
      var x :| x in w.sent && x.author == e.voteA.author && x.signature == e.voteA.signature;
      var y :| y in w.sent && y.author == e.voteB.author && y.signature == e.voteB.signature;
      SignatureNames(key, key, x.blockHash, e.voteA.blockHash);
      SignatureNames(key, key, y.blockHash, e.voteB.blockHash);
    }
    if x, y :| x in w.sent && y in w.sent && x.author == key && y.author == key && x.blockHash != y.blockHash {
      var e := Evidence(x, y.(view := x.view));
      assert AcceptedEvidence(e) && FromSent(w.sent, e);
    }
  }
}
