/** The order of the committee, which decides who leads a view, and what slashing leaves of the
    pending queue. */
module Rotation {
  import opened Types
  import opened Collections
  import opened Vm
  import opened Lifecycle
  import CommitSync

  /** The elements to keep, in their order. */
  function Only(s: seq<PublicKey>, keep: set<PublicKey>): (r: seq<PublicKey>)
    ensures forall x :: x in r <==> x in s && x in keep
  {
    if s == [] then [] else (if s[0] in keep then [s[0]] else []) + Only(s[1..], keep)
  }

  /** `r` is `s` without some of its elements; nobody has moved. */
  ghost predicate Thinned(s: seq<PublicKey>, r: seq<PublicKey>) {
    r == Only(s, Elements(r))
  }

  lemma {:induction false} OnlySame(s: seq<PublicKey>, a: set<PublicKey>, b: set<PublicKey>)
    requires forall x :: x in s ==> (x in a <==> x in b)
    ensures Only(s, a) == Only(s, b)
  {
    if s != [] {
      OnlySame(s[1..], a, b);
    }
  }

  lemma {:induction false} OnlyTwice(s: seq<PublicKey>, a: set<PublicKey>, b: set<PublicKey>)
    ensures Only(Only(s, a), b) == Only(s, a * b)
  {
    if s != [] {
      OnlyTwice(s[1..], a, b);
      var rest := Only(s[1..], a);
      if s[0] in a {
        var kept := [s[0]] + rest;
        assert Only(s, a) == kept && kept[0] == s[0] && kept[1..] == rest;
      } else {
        assert Only(s, a) == rest;
      }
    }
  }

  lemma OnlyThins(s: seq<PublicKey>, keep: set<PublicKey>)
    ensures Thinned(s, Only(s, keep))
  {
    OnlySame(s, keep, Elements(Only(s, keep)));
  }

  lemma ThinnedTwice(a: seq<PublicKey>, b: seq<PublicKey>, c: seq<PublicKey>)
    requires Thinned(a, b) && Thinned(b, c)
    ensures Thinned(a, c)
  {
    OnlyTwice(a, Elements(b), Elements(c));
    assert Elements(b) * Elements(c) == Elements(c);
  }

  lemma ThinnedSelf(s: seq<PublicKey>)
    ensures Thinned(s, s)
  {
    OnlyAll(s, Elements(s));
  }

  lemma {:induction false} OnlyAll(s: seq<PublicKey>, keep: set<PublicKey>)
    requires forall x :: x in s ==> x in keep
    ensures Only(s, keep) == s
  {
    if s != [] {
      OnlyAll(s[1..], keep);
      assert s == [s[0]] + s[1..];
    }
  }

  lemma {:induction false} RemovalThins(s: seq<PublicKey>, x: PublicKey)
    requires Distinct(s)
    ensures RemoveFirst(s, x) == Only(s, Elements(s) - {x}) && Thinned(s, RemoveFirst(s, x))
  {
    OnlyThins(s, Elements(s) - {x});
    if s != [] {
      var rest := s[1..];
      RemovalThins(rest, x);
      if s[0] == x {
        OnlyAll(rest, Elements(s) - {x});
      } else {
        OnlySame(rest, Elements(s) - {x}, Elements(rest) - {x});
      }
    }
  }

  lemma {:induction false} SlashingThins(m: Machine, db: Db, evidence: seq<Evidence>)
    requires Sane(db)
    ensures Thinned(Committee(db), Committee(SlashAll(m, db, evidence)))
    decreases |evidence|
  {
    hide Thinned;
    ThinnedSelf(Committee(db));
    if evidence != [] {
      var d := Slash(m, db, evidence[0]);
      RemovalThins(Committee(db), evidence[0].voteA.author);
      SaneSlash(m, db, evidence[0]);
      SlashingThins(m, d, evidence[1..]);
      ThinnedTwice(Committee(db), Committee(d), Committee(SlashAll(m, db, evidence)));
    }
  }

  lemma TimeoutThins(m: Machine, db: Db, block: Block)
    requires Sane(db)
    ensures Thinned(Committee(db), Committee(Liveness(m, db, block)))
  {
    hide Thinned;
    ThinnedSelf(Committee(db));
    var s := RewardAuthor(db.state.value, block.author);
    if TimeoutCharged(s, block.justify) {
      RemovalThins(s.committee, FailedLeader(s, block.justify));
    }
  }

  function KeysOf(queue: seq<(PublicKey, View)>): (keys: seq<PublicKey>)
    ensures forall k :: k in keys <==> HasKey(queue, k)
  {
    if queue == [] then []
    else
      assert forall p :: p in queue <==> p == queue[0] || p in queue[1..];
      [queue[0].0] + KeysOf(queue[1..])
  }

  lemma {:induction false} AdmittedLast(committee: seq<PublicKey>, ready: seq<(PublicKey, View)>)
    requires DistinctKeys(ready) && forall p :: p in ready ==> p.0 !in committee
    ensures Admit(committee, ready) == committee + KeysOf(ready)
    decreases |ready|
  {
    if ready != [] {
      var key, rest := ready[0].0, ready[1..];
      forall p | p in rest ensures p.0 !in committee + [key] {
        assert p in ready;
      }
      AdmittedLast(committee + [key], rest);
      assert committee + [key] + KeysOf(rest) == committee + KeysOf(ready);
    } else {
      assert committee + KeysOf(ready) == committee;
    }
  }

  lemma {:induction false} DismissalThins(committee: seq<PublicKey>, exited: seq<(PublicKey, View)>)
    requires Distinct(committee)
    ensures Thinned(committee, Dismiss(committee, exited))
    decreases |exited|
  {
    hide Thinned;
    ThinnedSelf(committee);
    if exited != [] {
      var key := exited[0].0;
      RemovalThins(committee, key);
      RemoveDistinct(committee, key);
      DismissalThins(RemoveFirst(committee, key), exited[1..]);
      ThinnedTwice(committee, RemoveFirst(committee, key), Dismiss(committee, exited));
    }
  }

  lemma {:induction false} DueKeysDistinct(queue: seq<(PublicKey, View)>, view: View)
    requires DistinctKeys(queue)
    ensures DistinctKeys(Due(queue, view))
  {
    if queue != [] {
      DueKeysDistinct(queue[1..], view);
      forall p | p in Due(queue[1..], view) ensures p.0 != queue[0].0 {
        assert p in queue[1..];
      }
    }
  }

  lemma QueuesInOrder(history: seq<Block>, db: Db, view: View)
    requires Good(history, db)
    ensures Thinned(Committee(db) + KeysOf(Due(db.state.value.pending, view)), Committee(Queues(db, view)))
  {
    hide Thinned, Traced;
    var s := db.state.value;
    var ready := Due(s.pending, view);
    DueKeysDistinct(s.pending, view);
    AdmittedLast(s.committee, ready);
    AdmitDistinct(s.committee, ready);
    ThinnedSelf(Admit(s.committee, ready));
    DismissalThins(Admit(s.committee, ready), Due(s.exiting, view));
  }

  /** A block never moves a member: those it removes are taken out where they stood, and the pending
      keys that are due come last, in the order of the queue. */
  lemma CommitteeKeepsOrder(m: Machine, db: Db, blocks: seq<Block>, last: Block)
    requires Good([], db)
    ensures var d := After(m, db, blocks);
            var spared, out, s := Committee(AfterSlashing(m, d, last)), ExecuteBlock(m, d, last), AfterPayload(m, d, last).db.state;
            && s.Some? && Thinned(Committee(d), spared)
            && (if out.result.Ok? then Thinned(spared + KeysOf(Due(s.value.pending, last.view)), Committee(out.db))
                else Committee(out.db) == spared)
  {
    hide Good, SlashAll, Liveness, RunPayload, Queues, Thinned, GasLimitError;
    var history, d := blocks + [last], After(m, db, blocks);
    RegistryInvariant(m, db, blocks);
    LongerHistory(blocks, d, last);
    GoodSane(history, d);
    SlashingThins(m, d, last.evidence);
    SaneSlashAll(m, d, last.evidence);
    var slashed := SlashAll(m, d, last.evidence);
    TimeoutThins(m, slashed, last);
    ThinnedTwice(Committee(d), Committee(slashed), Committee(AfterSlashing(m, d, last)));
    GoodSlashAll(m, history, d, last.evidence);
    GoodLiveness(m, history, slashed, last);
    GoodPayload(m, history, Progress(AfterSlashing(m, d, last), [], 0, None), last, last.payload);
    GoodHasState(history, AfterPayload(m, d, last).db);
    QueuesInOrder(history, AfterPayload(m, d, last).db, last.view);
  }

  // ---- The pending queue ----

  lemma {:induction false} RemovedPending(queue: seq<(PublicKey, View)>, key: PublicKey)
    requires DistinctKeys(queue)
    ensures forall p :: p in RemovePending(queue, key) <==> p in queue && p.0 != key
  {
    if queue != [] {
      RemovedPending(queue[1..], key);
    }
  }

  /** Slashing takes out of the pending queue exactly the keys it leaves below the minimum; a timeout
      takes out none, and neither touches the exits. */
  lemma {:induction false} PendingAfterSlashing(m: Machine, history: seq<Block>, db: Db, block: Block, p: (PublicKey, View))
    requires Good(history, db)
    ensures var after := AfterSlashing(m, db, block).state;
            && after.Some? && after.value.exiting == db.state.value.exiting
            && (p in after.value.pending <==> p in db.state.value.pending && !SlashedOut(m, db, block.evidence, p.0))
  {
    hide Good, SlashAll, SlashedOut;
    GoodSlashAll(m, history, db, block.evidence);
    SlashedPending(m, history, db, block.evidence, p);
    var slashed := SlashAll(m, db, block.evidence);
    GoodHasState(history, slashed);
    TimeoutKeepsQueues(m, slashed, block);
  }

  lemma TimeoutKeepsQueues(m: Machine, db: Db, block: Block)
    requires db.state.Some?
    ensures var after := Liveness(m, db, block).state;
            after.Some? && after.value.exiting == db.state.value.exiting && after.value.pending == db.state.value.pending
  {
  }

  lemma {:induction false} SlashedPending(m: Machine, history: seq<Block>, db: Db, evidence: seq<Evidence>, p: (PublicKey, View))
    requires Good(history, db)
    ensures var after := SlashAll(m, db, evidence).state;
            && db.state.Some? && after.Some? && after.value.exiting == db.state.value.exiting
            && (p in after.value.pending <==> p in db.state.value.pending && !SlashedOut(m, db, evidence, p.0))
    decreases |evidence|
  {
    hide SlashedOut, Traced;
    if evidence == [] {
      CommitSync.NoneSlashed(m, db);
    } else {
      var d := Slash(m, db, evidence[0]);
      assert SlashAll(m, db, evidence[..1]) == d by {
        assert evidence[..1] == [evidence[0]] && [evidence[0]][1..] == [];
      }
      GoodSlashAll(m, history, db, evidence[..1]);
      RemovedPending(db.state.value.pending, evidence[0].voteA.author);
      SlashedPending(m, history, d, evidence[1..], p);
      CommitSync.SlashedOutTail(m, db, evidence, p.0);
    }
  }
}
