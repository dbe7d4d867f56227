/** Quorums of a fixed committee with some faulty members. */
module Quorums {
  import opened Types
  import opened Collections
  import opened Consensus

  /** The members that notarized a hash in a view, with every faulty member counted in. */
  ghost function Backers(sent: set<Vote>, committee: seq<PublicKey>, faulty: set<PublicKey>, view: View, hash: Hash): set<PublicKey> {
    set a | a in committee && (a in faulty || MakeVote(a, view, hash, Notarize) in sent)
  }

  /** Enough members are behind the hash for a certificate to exist. */
  ghost predicate Quorum(sent: set<Vote>, committee: seq<PublicKey>, faulty: set<PublicKey>, view: View, hash: Hash) {
    |Backers(sent, committee, faulty, view, hash)| >= Threshold(committee)
  }

  lemma QuorumGrows(sent: set<Vote>, more: set<Vote>, committee: seq<PublicKey>, faulty: set<PublicKey>, view: View, hash: Hash)
    requires sent <= more && Quorum(sent, committee, faulty, view, hash)
    ensures Quorum(more, committee, faulty, view, hash)
  {
    SubsetSize(Backers(sent, committee, faulty, view, hash), Backers(more, committee, faulty, view, hash));
  }

  /** Twice the threshold exceeds the committee by more than the faulty members. */
  lemma ThresholdOverlap(n: nat)
    requires n >= 1
    ensures 2 * (n * 2 / 3 + 1) - n > (n - 1) / 3
  {
  }

  lemma UnionSize<T>(a: set<T>, b: set<T>)
    ensures |a + b| + |a * b| == |a| + |b|
  {
    assert a + b == a + (b - a);
    assert b == (b - a) + (a * b);
  }

  /** Any two quorums share a member that is not faulty, for every committee size. */
  lemma QuorumsIntersect(committee: seq<PublicKey>, faulty: set<PublicKey>, a: set<PublicKey>, b: set<PublicKey>)
    returns (member: PublicKey)
    requires Distinct(committee) && committee != [] && |faulty| <= (|committee| - 1) / 3
    requires a <= Elements(committee) && b <= Elements(committee)
    requires |a| >= Threshold(committee) && |b| >= Threshold(committee)
    ensures member in a && member in b && member !in faulty
  {
    DistinctSize(committee);
    SubsetSize(a + b, Elements(committee));
    UnionSize(a, b);
    ThresholdOverlap(|committee|);
    if a * b <= faulty {
      SubsetSize(a * b, faulty);
      assert false;
    }
    member :| member in a * b && member !in faulty;
  }
}
