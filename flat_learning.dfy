// Learning and turnover in the older flat-belief scenario (test2).  Every
// agent first copies its beliefs into a buffer and moves each buffered bit
// to the side of the strict majority of its better-scoring neighbours; then,
// bit by bit, a buffered bit that differs from the belief is adopted when
// its draw falls under P_LEARNING, and the agent is rescored.  Turnover as
// written writes a column past the end of the belief rows.

module FlatLearning {
  import opened Graphs
  import opened Wrappers
  import opened Learning
  import opened FlatBeliefs

  /** The part of the scenario learning reads: the network, the scores and the beliefs. */
  datatype Crowd = Crowd(network: Matrix, performance: seq<nat>, belief: seq<Bits>)

  predicate CrowdFits(p: Crowd, n: nat, m: nat)
  {
    IsSquare(p.network, n) && |p.performance| == n && |p.belief| == n
    && forall a :: 0 <= a < n ==> |p.belief[a]| == m
  }

  /** One draw in [0, 1) per agent and bit. */
  predicate CoinGrid(coins: seq<seq<real>>, n: nat, m: nat)
  {
    |coins| == n && forall a :: 0 <= a < n ==> |coins[a]| == m
  }

  // ---------------------------------------------------------------
  // The majority count
  // ---------------------------------------------------------------

  /** What agent j tells agent a about bit k: the bit's sign when j is tied to a and scores strictly higher. */
  function Voice(p: Crowd, n: nat, m: nat, j: nat, a: nat, k: nat): int
    requires CrowdFits(p, n, m) && j < n && a < n && k < m
  {
    if p.network[a][j] && p.performance[j] > p.performance[a] then Sign(p.belief[j][k]) else 0
  }

  /** The voices of agents 0 .. hi-1 on bit k of agent a. */
  function TallyUpTo(p: Crowd, n: nat, m: nat, a: nat, k: nat, hi: nat): int
    requires CrowdFits(p, n, m) && a < n && k < m && hi <= n
  {
    if hi == 0 then 0 else TallyUpTo(p, n, m, a, k, hi - 1) + Voice(p, n, m, hi - 1, a, k)
  }

  /** majority_opinion_count[k] for agent a once every target has been visited. */
  function Tally(p: Crowd, n: nat, m: nat, a: nat, k: nat): int
    requires CrowdFits(p, n, m) && a < n && k < m
  {
    TallyUpTo(p, n, m, a, k, n)
  }

  /** Nobody outscoring agent a, no voice reaches it. */
  lemma {:induction false} SilentAtTop(p: Crowd, n: nat, m: nat, a: nat, k: nat, hi: nat)
    requires CrowdFits(p, n, m) && a < n && k < m && hi <= n
    requires forall j :: 0 <= j < n ==> p.performance[j] <= p.performance[a]
    ensures TallyUpTo(p, n, m, a, k, hi) == 0
  {
    if hi > 0 {
      SilentAtTop(p, n, m, a, k, hi - 1);
    }
  }

  /** Each agent visited moves the count by at most one. */
  lemma {:induction false} TallyBounds(p: Crowd, n: nat, m: nat, a: nat, k: nat, hi: nat)
    requires CrowdFits(p, n, m) && a < n && k < m && hi <= n
    ensures -(hi as int) <= TallyUpTo(p, n, m, a, k, hi) <= hi
  {
    if hi > 0 {
      TallyBounds(p, n, m, a, k, hi - 1);
    }
  }

  // ---------------------------------------------------------------
  // The buffer and the update
  // ---------------------------------------------------------------

  /** belief_of_buffer[a]: the belief, each bit moved to the side of a strictly positive or negative count. */
  function Buffer(p: Crowd, n: nat, m: nat, a: nat): (r: Bits)
    requires CrowdFits(p, n, m) && a < n
    ensures |r| == m
    ensures forall k :: 0 <= k < m ==> (r[k] != p.belief[a][k] <==> Disagrees(Tally(p, n, m, a, k), p.belief[a][k]))
    ensures forall k :: 0 <= k < m && r[k] != p.belief[a][k] ==> r[k] == (Tally(p, n, m, a, k) > 0)
  {
    seq(m, k requires 0 <= k < m =>
      if Tally(p, n, m, a, k) > 0 then true
      else if Tally(p, n, m, a, k) < 0 then false
      else p.belief[a][k])
  }

  /**
   * Every agent's beliefs after do_learning.  Bit by bit this is the
   * primary variant's update rule: a bit moves only when the count points
   * away from it and its draw falls under the learning probability.
   */
  function FlatLearned(p: Crowd, n: nat, m: nat, coins: seq<seq<real>>, pLearning: real): (r: seq<Bits>)
    requires CrowdFits(p, n, m) && CoinGrid(coins, n, m)
    ensures |r| == n && forall a :: 0 <= a < n ==> |r[a]| == m
    ensures forall a, k :: 0 <= a < n && 0 <= k < m ==>
              r[a][k] == LearnBit(p.belief[a][k], Tally(p, n, m, a, k), coins[a][k], pLearning)
  {
    seq(n, a requires 0 <= a < n =>
      var buffer := Buffer(p, n, m, a);
      seq(m, k requires 0 <= k < m =>
        if p.belief[a][k] != buffer[k] && coins[a][k] < pLearning then buffer[k] else p.belief[a][k]))
  }

  /** An agent nobody outscores keeps every belief. */
  lemma TopKeepsBeliefs(p: Crowd, n: nat, m: nat, coins: seq<seq<real>>, pLearning: real, a: nat)
    requires CrowdFits(p, n, m) && CoinGrid(coins, n, m) && a < n
    requires forall j :: 0 <= j < n ==> p.performance[j] <= p.performance[a]
    ensures FlatLearned(p, n, m, coins, pLearning)[a] == p.belief[a]
  {
    forall k | 0 <= k < m ensures FlatLearned(p, n, m, coins, pLearning)[a][k] == p.belief[a][k] {
      SilentAtTop(p, n, m, a, k, n);
    }
  }

  /** With a learning probability of 0 or less nobody changes a belief. */
  lemma NoFlatLearningWithoutProbability(p: Crowd, n: nat, m: nat, coins: seq<seq<real>>, pLearning: real)
    requires CrowdFits(p, n, m) && CoinGrid(coins, n, m) && pLearning <= 0.0
    requires forall a, k :: 0 <= a < n && 0 <= k < m ==> coins[a][k] >= 0.0
    ensures FlatLearned(p, n, m, coins, pLearning) == p.belief
  {
    var r := FlatLearned(p, n, m, coins, pLearning);
    forall a | 0 <= a < n ensures r[a] == p.belief[a] {
      assert forall k :: 0 <= k < m ==> r[a][k] == p.belief[a][k];
    }
  }

  /** A bit with a non-zero count whose draw is under the probability ends on the count's side, whatever it was. */
  lemma DrawnBitFollowsCount(p: Crowd, n: nat, m: nat, coins: seq<seq<real>>, pLearning: real, a: nat, k: nat)
    requires CrowdFits(p, n, m) && CoinGrid(coins, n, m) && a < n && k < m
    requires Tally(p, n, m, a, k) != 0 && pLearning > coins[a][k]
    ensures FlatLearned(p, n, m, coins, pLearning)[a][k] == (Tally(p, n, m, a, k) > 0)
  {
  }

  // ---------------------------------------------------------------
  // do_learning as a procedure
  // ---------------------------------------------------------------

  /** The tally loop for one agent: every target tied to it and scoring strictly higher adds the signs of its bits. */
  method TallyOf(p: Crowd, n: nat, m: nat, a: nat) returns (count: seq<int>)
    requires CrowdFits(p, n, m) && a < n
    ensures |count| == m && forall k :: 0 <= k < m ==> count[k] == Tally(p, n, m, a, k)
  {
    count := seq(m, _ => 0);
    for target := 0 to n
      invariant |count| == m && forall k :: 0 <= k < m ==> count[k] == TallyUpTo(p, n, m, a, k, target)
    {
      if p.network[a][target] && p.performance[target] > p.performance[a] {
        count := AddVotes(count, p.belief[target]);
      }
    }
  }

  /** One better neighbour's votes: +1 for each true bit, -1 for each false one. */
  method AddVotes(count: seq<int>, bits: Bits) returns (r: seq<int>)
    requires |count| == |bits|
    ensures |r| == |count| && forall k :: 0 <= k < |r| ==> r[k] == count[k] + Sign(bits[k])
  {
    r := count;
    for k := 0 to |bits|
      invariant |r| == |count| && forall j :: 0 <= j < |r| ==> r[j] == count[j] + (if j < k then Sign(bits[j]) else 0)
    {
      if bits[k] {
        r := r[k := r[k] + 1];
      } else {
        r := r[k := r[k] - 1];
      }
    }
  }

  /** The first loop of do_learning for one agent: copy the belief, then follow the sign of each count. */
  method BufferOf(p: Crowd, n: nat, m: nat, a: nat) returns (buffer: Bits)
    requires CrowdFits(p, n, m) && a < n
    ensures buffer == Buffer(p, n, m, a)
  {
    buffer := p.belief[a];
    var count := TallyOf(p, n, m, a);
    for k := 0 to m
      invariant |buffer| == m
      invariant forall j :: 0 <= j < m ==> buffer[j] == if j < k then Buffer(p, n, m, a)[j] else p.belief[a][j]
    {
      if count[k] > 0 {
        buffer := buffer[k := true];
      } else if count[k] < 0 {
        buffer := buffer[k := false];
      }
    }
  }

  /** The second loop of do_learning for one agent: adopt each differing buffered bit whose draw is under P_LEARNING. */
  method Adopt(belief: Bits, buffer: Bits, coins: seq<real>, pLearning: real) returns (r: Bits)
    requires |belief| == |buffer| == |coins|
    ensures |r| == |belief|
    ensures forall k :: 0 <= k < |r| ==> r[k] == if belief[k] != buffer[k] && coins[k] < pLearning then buffer[k] else belief[k]
  {
    r := belief;
    for k := 0 to |belief|
      invariant |r| == |belief|
      invariant forall j :: 0 <= j < |r| ==>
                  r[j] == if j < k && belief[j] != buffer[j] && coins[j] < pLearning then buffer[j] else belief[j]
    {
      if r[k] != buffer[k] {
        if coins[k] < pLearning {
          r := r[k := buffer[k]];
        }
      }
    }
  }

  /**
   * do_learning: all buffers from the beliefs as they stood, then each
   * agent's update and rescoring.  The new scores are those of the new
   * beliefs.
   */
  method DoLearning(p: Crowd, n: nat, mOf: nat, mIn: nat, reality: Bits, coins: seq<seq<real>>, pLearning: real)
    returns (belief: seq<Bits>, performance: seq<nat>)
    requires CrowdFits(p, n, mOf * mIn) && CoinGrid(coins, n, mOf * mIn) && |reality| == mOf * mIn
    ensures belief == FlatLearned(p, n, mOf * mIn, coins, pLearning)
    ensures performance == Scores(reality, belief, mOf, mIn)
  {
    var m := mOf * mIn;
    var buffers: seq<Bits> := [];
    for a := 0 to n
      invariant |buffers| == a && forall j :: 0 <= j < a ==> buffers[j] == Buffer(p, n, m, j)
    {
      var buffer := BufferOf(p, n, m, a);
      buffers := buffers + [buffer];
    }
    belief, performance := p.belief, p.performance;
    for a := 0 to n
      invariant |belief| == n && |performance| == n
      invariant forall j :: 0 <= j < n ==> belief[j] == if j < a then FlatLearned(p, n, m, coins, pLearning)[j] else p.belief[j]
      invariant forall j :: 0 <= j < a ==> performance[j] == Score(reality, belief[j], mOf, mIn)
    {
      var next := Adopt(belief[a], buffers[a], coins[a], pLearning);
      assert next == FlatLearned(p, n, m, coins, pLearning)[a];
      belief := belief[a := next];
      var s := SetPerformanceSingle(reality, next, mOf, mIn);
      performance := performance[a := s];
    }
  }

  // ---------------------------------------------------------------
  // do_turnover
  // ---------------------------------------------------------------

  /**
   * do_turnover as written: for each agent i whose draw is under the rate,
   * rows 0 .. M-1 of the belief table get the drawn bit draws[i][m] written
   * at column M.  Err(i) stands for the index-out-of-bounds panic at agent i.
   */
  function TurnoverAsWritten(belief: seq<Bits>, m: nat, draws: seq<real>, drawn: seq<Bits>, rate: real, i: nat)
    : (r: Result<seq<Bits>, nat>)
    requires i <= |draws| == |drawn|
    ensures r.Ok? ==> |r.value| == |belief| && forall a :: 0 <= a < |belief| ==> |r.value[a]| == |belief[a]|
  {
    if i == 0 then Ok(belief)
    else match TurnoverAsWritten(belief, m, draws, drawn, rate, i - 1)
      case Err(j) => Err(j)
      case Ok(b) =>
        if draws[i - 1] >= rate then Ok(b)
        else if m <= |b| && |drawn[i - 1]| >= m && forall r :: 0 <= r < m ==> m < |b[r]| then
          Ok(seq(|b|, r requires 0 <= r < |b| => if r < m then b[r][m := drawn[i - 1][r]] else b[r]))
        else Err(i - 1)
  }

  /**
   * With belief rows exactly M wide, the first agent drawn under the rate
   * makes the write at column M panic.
   */
  lemma {:induction false} TurnoverAsWrittenPanics(belief: seq<Bits>, m: nat, draws: seq<real>, drawn: seq<Bits>, rate: real, i: nat, j: nat)
    requires i <= |draws| == |drawn| && m > 0 && |belief| >= m
    requires forall a :: 0 <= a < |belief| ==> |belief[a]| == m
    requires j < i && draws[j] < rate
    ensures TurnoverAsWritten(belief, m, draws, drawn, rate, i).Err?
  {
    if j < i - 1 {
      TurnoverAsWrittenPanics(belief, m, draws, drawn, rate, i - 1, j);
    } else if TurnoverAsWritten(belief, m, draws, drawn, rate, i - 1).Ok? {
      var b := TurnoverAsWritten(belief, m, draws, drawn, rate, i - 1).value;
      assert |b[0]| == m;
    }
  }

  /** When it does not panic, turnover as written changes none of the first M bits of any agent: nobody is replaced. */
  lemma {:induction false} TurnoverAsWrittenReplacesNobody(belief: seq<Bits>, m: nat, draws: seq<real>, drawn: seq<Bits>, rate: real, i: nat)
    requires i <= |draws| == |drawn|
    requires forall a :: 0 <= a < |belief| ==> |belief[a]| >= m
    requires TurnoverAsWritten(belief, m, draws, drawn, rate, i).Ok?
    ensures forall a, k :: 0 <= a < |belief| && 0 <= k < m ==> TurnoverAsWritten(belief, m, draws, drawn, rate, i).value[a][k] == belief[a][k]
  {
    if i > 0 {
      TurnoverAsWrittenReplacesNobody(belief, m, draws, drawn, rate, i - 1);
    }
  }

  /** The intended turnover: each agent drawn under the rate takes its newcomer's beliefs. */
  function FlatReplaced(belief: seq<Bits>, draws: seq<real>, newcomers: seq<Bits>, rate: real): (r: seq<Bits>)
    requires |draws| == |belief| == |newcomers|
    ensures |r| == |belief|
  {
    seq(|belief|, a requires 0 <= a < |belief| => if draws[a] < rate then newcomers[a] else belief[a])
  }

  /**
   * Exactly the agents drawn under the rate are replaced; with a rate of 0
   * or less nobody leaves, with a rate of 1 or more everybody does.
   */
  lemma FlatReplacedAgents(belief: seq<Bits>, draws: seq<real>, newcomers: seq<Bits>, rate: real)
    requires |draws| == |belief| == |newcomers|
    requires forall a :: 0 <= a < |draws| ==> 0.0 <= draws[a] < 1.0
    ensures forall a :: 0 <= a < |belief| && newcomers[a] != belief[a] ==>
              (FlatReplaced(belief, draws, newcomers, rate)[a] == newcomers[a] <==> draws[a] < rate)
    ensures rate <= 0.0 ==> FlatReplaced(belief, draws, newcomers, rate) == belief
    ensures rate >= 1.0 ==> FlatReplaced(belief, draws, newcomers, rate) == newcomers
  {
  }

  /**
   * The intended do_turnover: each agent drawn under the rate takes its
   * newcomer's beliefs and is rescored; other scores are left alone, so
   * scores that matched the beliefs still do.
   */
  method DoTurnover(reality: Bits, belief: seq<Bits>, performance: seq<nat>, mOf: nat, mIn: nat,
                    draws: seq<real>, newcomers: seq<Bits>, rate: real)
    returns (next: seq<Bits>, scores: seq<nat>)
    requires |reality| == mOf * mIn && |draws| == |belief| == |newcomers| == |performance|
    requires forall a :: 0 <= a < |belief| ==> |belief[a]| == mOf * mIn && |newcomers[a]| == mOf * mIn
    ensures next == FlatReplaced(belief, draws, newcomers, rate)
    ensures |scores| == |belief|
    ensures forall a :: 0 <= a < |belief| ==>
              scores[a] == if draws[a] < rate then Score(reality, newcomers[a], mOf, mIn) else performance[a]
    ensures performance == Scores(reality, belief, mOf, mIn) ==> scores == Scores(reality, next, mOf, mIn)
  {
    next, scores := belief, performance;
    for i := 0 to |belief|
      invariant |next| == |belief| && |scores| == |belief|
      invariant forall a :: 0 <= a < |belief| ==> next[a] == if a < i then FlatReplaced(belief, draws, newcomers, rate)[a] else belief[a]
      invariant forall a :: 0 <= a < |belief| ==>
                  scores[a] == if a < i && draws[a] < rate then Score(reality, newcomers[a], mOf, mIn) else performance[a]
    {
      if draws[i] < rate {
        next := next[i := newcomers[i]];
        var s := SetPerformanceSingle(reality, newcomers[i], mOf, mIn);
        scores := scores[i := s];
      }
    }
  }
}
