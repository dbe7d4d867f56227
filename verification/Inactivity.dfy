/** Inactivity scores over any sequence of committed blocks. */
module Inactivity {
  import opened Types
  import opened Vm
  import opened Lifecycle

  function ScoreOf(s: ConsensusState, key: PublicKey): nat {
    if key in s.scores then s.scores[key] else 0
  }

  /** A running count that never goes below zero. */
  function Floored(moves: seq<int>): nat {
    if moves == [] then 0
    else
      var c := Floored(moves[..|moves| - 1]) + moves[|moves| - 1];
      if c < 0 then 0 else c
  }

  function MoveSum(moves: seq<int>): int {
    if moves == [] then 0 else MoveSum(moves[..|moves| - 1]) + moves[|moves| - 1]
  }

  ghost predicate ChargedTo(db: Db, block: Block, key: PublicKey) {
    db.state.Some? && Charges(db.state.value, block.justify, key)
  }

  /** What happened to the key since it was last removed for inactivity: -1 for a block it
      authored, +1 for a timeout charged to it. */
  ghost function Moves(m: Machine, db: Db, blocks: seq<Block>, key: PublicKey): seq<int> {
    if blocks == [] then []
    else
      var before, last := blocks[..|blocks| - 1], blocks[|blocks| - 1];
      var d := SlashAll(m, After(m, db, before), last.evidence);
      var authored := Moves(m, db, before, key) + if last.author == key then [-1] else [];
      if !ChargedTo(d, last, key) then authored
      else if Floored(authored) + 1 > 50 then []
      else authored + [1]
  }

  ghost predicate HasRecord(db: Db) {
    !db.overlay && db.state.Some?
  }

  ghost predicate SameScores(a: Db, b: Db) {
    HasRecord(a) && HasRecord(b) && a.state.value.scores == b.state.value.scores
  }

  lemma {:induction false} SlashKeepsScores(m: Machine, db: Db, evidence: seq<Evidence>)
    requires HasRecord(db)
    ensures SameScores(SlashAll(m, db, evidence), db)
    decreases |evidence|
  {
    if evidence != [] {
      SlashKeepsScores(m, Slash(m, db, evidence[0]), evidence[1..]);
    }
  }

  lemma CallKeepsScores(m: Machine, db: Db, tx: Transaction, view: View)
    requires HasRecord(db)
    ensures var r := SystemCall(m, db, tx, view); r.Ok? ==> SameScores(r.value, db)
  {
  }

  lemma {:induction false} PayloadKeepsScores(m: Machine, p: Progress, block: Block, txs: seq<Transaction>)
    requires HasRecord(p.db)
    ensures SameScores(RunPayload(m, p, block, txs).db, p.db)
    decreases |txs|
  {
    hide SystemCall, CommitWrites;
    if txs != [] && p.error.None? {
      var out := m.evm(p.db.ledger, txs[0], block.baseFeePerGas);
      if out.EvmDone? {
        WritesKeepRecord(m, p.db, out.writes);
      }
      CallKeepsScores(m, p.db, txs[0], block.view);
      PayloadKeepsScores(m, RunTx(m, p, block, txs[0]), block, txs[1..]);
    }
  }

  /** Only the leader-inactivity step of a block changes scores. */
  lemma BlockScores(m: Machine, db: Db, block: Block)
    requires HasRecord(db)
    ensures HasRecord(SlashAll(m, db, block.evidence))
    ensures SameScores(SlashAll(m, db, block.evidence), db)
    ensures SameScores(ExecuteBlock(m, db, block).db, Liveness(m, SlashAll(m, db, block.evidence), block))
  {
    SlashKeepsScores(m, db, block.evidence);
    PayloadKeepsScores(m, Progress(AfterSlashing(m, db, block), [], 0, None), block, block.payload);
  }

  lemma FlooredStep(moves: seq<int>, x: int)
    ensures Floored(moves + [x]) == (if Floored(moves) + x < 0 then 0 else Floored(moves) + x)
  {
    assert (moves + [x])[..|moves|] == moves;
  }

  lemma FlooredNone()
    ensures Floored([]) == 0
  {
  }

  lemma RewardScore(s: ConsensusState, author: PublicKey, key: PublicKey)
    ensures var r := RewardAuthor(s, author);
            && r == s.(scores := r.scores)
            && ScoreOf(r, key) == (if author == key && ScoreOf(s, key) > 0 then ScoreOf(s, key) - 1 else ScoreOf(s, key))
  {
  }

  lemma ChargeScore(m: Machine, s: ConsensusState, leader: PublicKey, key: PublicKey)
    requires leader in s.committee
    ensures ScoreOf(Charge(m, s, leader), key) ==
      if leader != key then ScoreOf(s, key) else if ScoreOf(s, key) + 1 > 50 then 0 else ScoreOf(s, key) + 1
  {
    hide Deduct;
  }

  lemma LivenessScore(m: Machine, db: Db, block: Block, key: PublicKey, moves: seq<int>)
    requires HasRecord(db) && ScoreOf(db.state.value, key) == Floored(moves) <= 50
    ensures var authored := moves + if block.author == key then [-1] else [];
            var now := if !ChargedTo(db, block, key) then authored
                       else if Floored(authored) + 1 > 50 then [] else authored + [1];
            ScoreOf(Liveness(m, db, block).state.value, key) == Floored(now) <= 50
  {
    hide Floored, RewardAuthor, Charge, ScoreOf;
    var s := db.state.value;
    var authored := moves + if block.author == key then [-1] else [];
    RewardScore(s, block.author, key);
    var s1 := RewardAuthor(s, block.author);
    FlooredStep(moves, -1);
    FlooredStep(authored, 1);
    FlooredNone();
    assert authored == if block.author == key then moves + [-1] else moves;
    assert ScoreOf(s1, key) == Floored(authored);
    if TimeoutCharged(s1, block.justify) {
      ChargeScore(m, s1, FailedLeader(s1, block.justify), key);
    }
  }

  /** Every stored score is the zero-floored count of timeouts charged minus blocks authored since
      the key's last inactivity removal, and never exceeds the threshold. */
  lemma {:induction false} ScoresCount(m: Machine, db: Db, blocks: seq<Block>, key: PublicKey)
    requires HasRecord(db) && db.state.value.scores == map[]
    ensures HasRecord(After(m, db, blocks))
    ensures ScoreOf(After(m, db, blocks).state.value, key) == Floored(Moves(m, db, blocks, key)) <= 50
  {
    if blocks != [] {
      var before, last := blocks[..|blocks| - 1], blocks[|blocks| - 1];
      ScoresCount(m, db, before, key);
      var d := After(m, db, before);
      BlockScores(m, d, last);
      LivenessScore(m, SlashAll(m, d, last.evidence), last, key, Moves(m, db, before, key));
    }
  }

  /** In closed form: the floored count is the largest total over any recent stretch of moves. */
  lemma {:induction false} FlooredIsWorstStretch(moves: seq<int>) returns (start: nat)
    ensures start <= |moves| && Floored(moves) == MoveSum(moves[start..])
    ensures forall k :: 0 <= k <= |moves| ==> MoveSum(moves[k..]) <= Floored(moves)
  {
    if moves == [] {
      start := 0;
    } else {
      var n := |moves| - 1;
      var init := moves[..n];
      start := FlooredIsWorstStretch(init);
      forall k | 0 <= k <= n ensures MoveSum(moves[k..]) == MoveSum(init[k..]) + moves[n] {
        assert moves[k..][..|moves[k..]| - 1] == init[k..];
      }
      if Floored(init) + moves[n] < 0 {
        start := n + 1;
      }
      assert moves[n + 1..] == [];
      forall k | 0 <= k <= n + 1 ensures MoveSum(moves[k..]) <= Floored(moves) {
        if k <= n {
          assert MoveSum(init[k..]) <= Floored(init);
        }
      }
    }
  }
}
