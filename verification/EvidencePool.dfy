/** The pool of equivocation evidence: a list per author, changed in place. */
module EvidencePoolModel {
  import opened Types
  import opened Collections

  type Pool = map<PublicKey, seq<Evidence>>

  function ListOf(pool: Pool, author: PublicKey): seq<Evidence> {
    if author in pool then pool[author] else []
  }

  predicate Plausible(e: Evidence) {
    && e.voteA.author == e.voteB.author
    && e.voteA.view == e.voteB.view
    && e.voteA.blockHash != e.voteB.blockHash
  }

  predicate Accepts(pool: Pool, e: Evidence) {
    e !in ListOf(pool, e.voteA.author) && Plausible(e)
  }

  /** A refused item still leaves an entry for its author behind. */
  function Add(pool: Pool, e: Evidence): Pool {
    var author := e.voteA.author;
    pool[author := ListOf(pool, author) + if Accepts(pool, e) then [e] else []]
  }

  function RemoveOne(pool: Pool, e: Evidence): Pool {
    var author := e.voteA.author;
    if author in pool then pool[author := RemoveFirst(pool[author], e)] else pool
  }

  function Remove(pool: Pool, evidence: seq<Evidence>): Pool
    decreases |evidence|
  {
    if evidence == [] then pool else Remove(RemoveOne(pool, evidence[0]), evidence[1..])
  }

  /** All items, author by author in the order the map is visited. */
  function GetAll(pool: Pool, order: seq<PublicKey>): seq<Evidence> {
    if order == [] then [] else ListOf(pool, order[0]) + GetAll(pool, order[1..])
  }

  predicate Holds(pool: Pool, e: Evidence) {
    e in ListOf(pool, e.voteA.author)
  }

  /** Each list holds plausible items of its author, once each. */
  ghost predicate WellFormed(pool: Pool) {
    forall k :: k in pool ==>
      Distinct(pool[k]) && forall e :: e in pool[k] ==> e.voteA.author == k && Plausible(e)
  }

  lemma {:induction false} GetAllHolds(pool: Pool, order: seq<PublicKey>, e: Evidence)
    requires WellFormed(pool) && Elements(order) == pool.Keys
    ensures e in GetAll(pool, order) <==> Holds(pool, e)
  {
    InLists(pool, order, e);
    if Holds(pool, e) {
      assert e.voteA.author in Elements(order);
    }
  }

  lemma {:induction false} InLists(pool: Pool, order: seq<PublicKey>, e: Evidence)
    requires WellFormed(pool)
    ensures e in GetAll(pool, order) <==> e.voteA.author in order && Holds(pool, e)
  {
    if order != [] {
      InLists(pool, order[1..], e);
    }
  }

  /** Adding stores exactly a new item of one author and one view with two hashes, and keeps every
      other one. */
  lemma AddExact(pool: Pool, e: Evidence, x: Evidence)
    requires WellFormed(pool)
    ensures WellFormed(Add(pool, e))
    ensures var a, b := e.voteA, e.voteB;
            var isNew := x == e && a.author == b.author && a.view == b.view && a.blockHash != b.blockHash;
            Holds(Add(pool, e), x) <==> Holds(pool, x) || isNew
  {
    var author := e.voteA.author;
    forall k | k in Add(pool, e)
      ensures Distinct(Add(pool, e)[k]) && forall y :: y in Add(pool, e)[k] ==> y.voteA.author == k && Plausible(y)
    {
      if k == author && author !in pool {
        assert ListOf(pool, author) == [];
      }
    }
  }

  /** Removing drops exactly the listed items, and so undoes an addition. */
  lemma {:induction false} RemoveExact(pool: Pool, evidence: seq<Evidence>, x: Evidence)
    requires WellFormed(pool)
    ensures WellFormed(Remove(pool, evidence))
    ensures Holds(Remove(pool, evidence), x) <==> Holds(pool, x) && x !in evidence
    decreases |evidence|
  {
    if evidence != [] {
      var e := evidence[0];
      if e.voteA.author in pool {
        RemoveDistinct(pool[e.voteA.author], e);
      }
      RemoveExact(RemoveOne(pool, e), evidence[1..], x);
    }
  }

  class EvidencePool {
    var evidences: Pool

    constructor ()
      ensures evidences == map[]
    {
      evidences := map[];
    }

    method AddEvidence(e: Evidence) returns (added: bool)
      modifies this
      ensures evidences == Add(old(evidences), e)
      ensures added <==> Accepts(old(evidences), e)
    {
      var author := e.voteA.author;
      if author !in evidences {
        evidences := evidences[author := []];
      }
      var existing := evidences[author];
      if e in existing || e.voteA.author != e.voteB.author || e.voteA.view != e.voteB.view
         || e.voteA.blockHash == e.voteB.blockHash {
        assert existing + [] == existing;
        return false;
      }
      evidences := evidences[author := existing + [e]];
      return true;
    }

    method RemoveEvidence(evidence: seq<Evidence>)
      modifies this
      ensures evidences == Remove(old(evidences), evidence)
    {
      for i := 0 to |evidence|
        invariant Remove(evidences, evidence[i..]) == Remove(old(evidences), evidence)
      {
        assert evidence[i..][1..] == evidence[i + 1..];
        var author := evidence[i].voteA.author;
        if author in evidences {
          evidences := evidences[author := RemoveFirst(evidences[author], evidence[i])];
        }
      }
    }
  }
}
