# Flat design in Rust: a verified model of the scenario and its network analyzer

The repository simulates organisational learning in a population of N
agents. The agents sit in a formal hierarchy and may also hold informal ties.
Each agent holds a belief about a reality of M = M_OF_BUNDLE * M_IN_BUNDLE
bits. Its score is M_IN_BUNDLE for every bundle it gets entirely right.

Each time step of a `Scenario` does three things:

1. **Rewiring.** The informal ties are rewired. The new ties and the cut ties
   are either drawn at random, or chosen by a roulette over weights. The
   weight is network closure (shared neighbours) or preferential attachment
   (degree).
2. **Learning.** Every agent learns from the neighbours that outscore it. A
   bit moves to the majority of their votes with probability P_LEARNING.
3. **Turnover.** Agents are replaced by newcomers with random beliefs.

Turbulence flips bits of reality. A `NetworkAnalyzer` measures each network:

- the average shortest path and the network efficiency;
- the closeness centralization;
- the Watts-Strogatz clustering;
- the triadic-participation numerator;
- the path-length variance.

All of them are computed from breadth-first distances.

The model covers three variants of the scenario:

- **Primary** (`FDFirstRust/src/scenario.rs`, `network_analyzer.rs`). It uses
  boolean matrices with degree counters. The scenario is a Dafny `class`
  whose methods update its fields, and the analyzer is a `class` too.
- **HashSet** (`FDFirstRust-Hashset`). It uses sets of neighbours, and its
  degrees are set sizes.
- **Flat** (`test2/src/scenario.rs`). It is the older layout: beliefs are flat
  bit rows, and the dyad list is an index list.

The HashSet and flat variants are modelled on values: their methods return the
new sets, ties or beliefs. Lemmas connect each of them to the primary variant
wherever the two agree.

`test2/src/params.rs` gives the derived constants and the enumeration of
parameter combinations.

Randomness is passed in explicitly:

- every `rng.gen` draw is a real in [0, 1) given as an input sequence;
- every shuffle is a given permutation, constrained to be a reordering of the
  list it replaces.

A run of the model is therefore a function of the run's draws.

Modules:

| module | file | models |
|---|---|---|
| Graphs | graph.dfy | boolean adjacency matrices, row counts, symmetric links, the dyad list |
| Roulette | roulette.dfy | the cumulative-share roulette both directed rewirings use |
| Reach | reach.dfy | breadth-first distance as a reference definition |
| Metrics | metrics.dfy | the analyzer's outputs as functions of the distance matrix |
| Analyzer | analyzer.dfy | class `NetworkAnalyzer`: adjacency lists, BFS, metric accumulation |
| Beliefs | beliefs.dfy | the bundle score, as written and as intended |
| Learning | learning.dfy | majority counts over the dyad list and the learning rule |
| Networks | networks.dfy | the tie state (network, formal, informal, limited, three counters), its invariant, rewiring weights |
| Rewiring | rewiring.dfy | directed formation and break rounds, random passes |
| Selection | selection.dfy | the loops that compute weights and pick a dyad |
| Hierarchy | hierarchy.dfy | the hierarchy built by initialize_network |
| Initial | init.dfy | enforcement, additional links, the LIMIT_LEVEL mask |
| Simulation | scenario.dfy | class `Scenario` of the primary variant |
| Settings | params.dfy | derived constants and initialize_once_cells |
| SetAnalysis | set_analyzer.dfy | the HashSet analyzer |
| SetScenario, SetRewiring, SetLearning, SetStep | set_*.dfy | the HashSet scenario |
| FlatInit, FlatRewiring, FlatBeliefs, FlatLearning, FlatStep | flat_*.dfy | the test2 scenario |

## Model

| member | source | states |
|---|---|---|
| Graphs.Empty | FDFirstRust/src/scenario.rs:208-211 | the re-initialised matrix is N by N, symmetric and loop-free, with no entry set |
| Graphs.Link | FDFirstRust/src/scenario.rs:229-230 | the paired assignments set (i, j) and (j, i) to v and change no other entry |
| Graphs.LinkKeepsSimple | FDFirstRust/src/scenario.rs:229-230 | a paired assignment between distinct agents keeps the matrix symmetric and loop-free |
| Graphs.LinkKeepsDegrees | FDFirstRust/src/scenario.rs:229-232 | setting an absent tie and raising both counters (or clearing a present one and lowering them) keeps every counter equal to its row count |
| Graphs.LinkGrowsTotal | FDFirstRust/src/scenario.rs:229-230 | setting an absent tie of a simple graph adds exactly two entries to the row counts |
| Graphs.DyadRow | FDFirstRust/src/scenario.rs:98-100 | the inner loop of the dyad list yields (i, i+1) .. (i, N-1), n - i - 1 pairs |
| Graphs.AllDyadsShape | FDFirstRust/src/scenario.rs:97-101 | iterator_dyad has N(N-1)/2 entries, each pair i < j < N appears, and the list is strictly increasing in lexicographic order |
| Graphs.PairCountStep | test2/src/params.rs:47 | N_DYAD = N(N-1)/2 grows by a - 1 when agent a is added |
| Roulette.SelectFrom | FDFirstRust/src/scenario.rs:517-535 | the roulette returns the first position from which the cumulative share reaches the marker, and none when no position does |
| Roulette.SelectFound | FDFirstRust/src/scenario.rs:561-579 | with exact arithmetic, a non-zero denominator equal to the weight sum and a marker at most 1, the walk always stops, and at a position of non-zero weight |
| Roulette.UniformStopsFirst | FDFirstRust/src/scenario.rs:511-515 | the fallback (every weight 1, denominator 1) stops at the first dyad of the list |
| Roulette.Walk | FDFirstRust/src/scenario.rs:561-579 | the walking loop finds a position exactly when the roulette does, and it is the roulette's position |
| Reach.DistAtMost | FDFirstRust/src/network_analyzer.rs:185-197 | a vertex reachable within d edges has a distance of at most d |
| Reach.DistUnique | FDFirstRust/src/network_analyzer.rs:185-197 | the breadth-first distance is unique |
| Reach.DistZero | FDFirstRust/src/network_analyzer.rs:180 | only the source is at distance 0 |
| Reach.ClosedHoldsReachable | FDFirstRust/src/network_analyzer.rs:185-197 | a set that holds the source and is closed under neighbours holds every reachable vertex |
| Reach.WithinCompose | FDFirstRust/src/network_analyzer.rs:185-197 | walks compose: within j then within k is within j + k |
| Reach.DistSymmetric | FDFirstRust/src/network_analyzer.rs:207-210 | in an undirected network the distance from s to w is the distance from w to s, as the row-and-column store assumes |
| Analyzer.Neighbours | FDFirstRust/src/network_analyzer.rs:165-169 | the list of a row has one entry per set entry, each a set position |
| Analyzer.NeighboursExact | FDFirstRust/src/network_analyzer.rs:165-169 | the list is increasing and holds exactly the set positions of the row |
| Analyzer.AdjOfExact | FDFirstRust/src/network_analyzer.rs:163-170 | adjacency list i holds exactly the j with network[i][j], in increasing order; symmetric matrices give symmetric lists |
| Analyzer.DiscoverSound | FDFirstRust/src/network_analyzer.rs:188-191 | an agent first reached from v at distance lv gets distance lv + 1, which is its breadth-first distance |
| Analyzer.Discover | FDFirstRust/src/network_analyzer.rs:188-191 | a discovery keeps the search invariant (sound distances, queue ordered by layer) and reaches one more agent |
| Analyzer.AdvanceLayer | FDFirstRust/src/network_analyzer.rs:185 | when the front of the queue opens a new layer, the layer before it has been fully reached |
| Analyzer.PopFront | FDFirstRust/src/network_analyzer.rs:185 | taking the front of the queue keeps the search invariant at its layer |
| Analyzer.Expand | FDFirstRust/src/network_analyzer.rs:187-196 | visiting v's neighbours gives each unreached one the distance dist[v] + 1 and enqueues it, keeping the invariant |
| Analyzer.Bfs | FDFirstRust/src/network_analyzer.rs:172-197 | every agent ends with its breadth-first distance from s, -1 exactly when unreachable |
| Analyzer.Store | FDFirstRust/src/network_analyzer.rs:207-210 | the distances from s are written into row s and column s |
| Analyzer.StoreKeepsFilled | FDFirstRust/src/network_analyzer.rs:207-210 | after source s is stored, the entries of sources 0..s are complete |
| Analyzer.FinishedEntry | FDFirstRust/src/network_analyzer.rs:207-210 | with symmetric adjacency, every finished entry holds the distance from its row to its column, even when a later column store overwrote it |
| Analyzer.ShortestPathsSymmetric | FDFirstRust/src/network_analyzer.rs:161-212 | on a symmetric network the matrix is symmetric, holds the distance between every pair, and 0 on the diagonal |
| Analyzer.CompleteAllAdjacent | FDFirstRust/src/network_analyzer.rs:161-212 | in a complete network every pair of distinct agents is at distance 1 |
| Analyzer.ScanRow | FDFirstRust/src/network_analyzer.rs:89-106 | row i adds its positive forward distances to the path total, their inverses to the efficiency total, and each one to the closeness sums of both ends |
| Analyzer.CountTriangles | FDFirstRust/src/network_analyzer.rs:123-129 | the double loop counts the linked pairs j < k of listed neighbours |
| Analyzer.Start | FDFirstRust/src/network_analyzer.rs:72-84 | every total starts at 0 and both maxima at f64::MIN, with per-agent vectors of length N |
| Analyzer.CloseAgent | FDFirstRust/src/network_analyzer.rs:110-116 | agent i's closeness is (N-1) over its distance total when positive; the centralization accumulator and the running maximum follow |
| Analyzer.ClusterAgent | FDFirstRust/src/network_analyzer.rs:119-137 | an agent with two or more neighbours adds its local clustering and triangle count, and updates the triadic maximum |
| Analyzer.ScanAgent | FDFirstRust/src/network_analyzer.rs:87-137 | one pass of the outer loop extends every accumulated quantity by agent i |
| Analyzer.Accumulate | FDFirstRust/src/network_analyzer.rs:87-145 | the two loops leave the totals of the reference functions: the path sum, the inverse sum, the closeness, the clustering, the triadic and the variance |
| Analyzer.VarianceTotal | FDFirstRust/src/network_analyzer.rs:141-145 | the variance loop sums mean square minus squared mean of each agent's forward distances |
| Analyzer.Summarize | FDFirstRust/src/network_analyzer.rs:87-155 | the six outputs are the reference metrics of the distance matrix |
| Analyzer.NetworkAnalyzer.constructor | FDFirstRust/src/network_analyzer.rs:46-57 | every distance is -1, no adjacency, and every output is 0 |
| Analyzer.NetworkAnalyzer.BuildAdjacency | FDFirstRust/src/network_analyzer.rs:163-170 | the adjacency lists are those of the network |
| Analyzer.NetworkAnalyzer.SetShortestPath | FDFirstRust/src/network_analyzer.rs:161-212 | after the call, the matrix holds the breadth-first distance of every pair and the adjacency lists match the network |
| Analyzer.NetworkAnalyzer.SetNetworkMetrics | FDFirstRust/src/network_analyzer.rs:63-158 | the distances are recomputed; each output equals its metric function; the adjacency lists are cleared at the end |
| Metrics.Closeness | FDFirstRust/src/network_analyzer.rs:110-112 | closeness is never negative, and is 0 exactly when the agent reaches nobody |
| Metrics.ClosenessMax | FDFirstRust/src/network_analyzer.rs:114-116 | the running maximum bounds every closeness seen, and is f64::MIN before any agent |
| Metrics.ClosenessMaxAttained | FDFirstRust/src/network_analyzer.rs:114-116 | once an agent has been seen, the maximum is the closeness of one of them |
| Metrics.ClosenessDenominator | test2/src/params.rs:57 | CLOSENESS_CENTRALIZATION_DENOMINATOR is positive for N >= 3 |
| Metrics.EfficiencyInUnitInterval | FDFirstRust/src/network_analyzer.rs:95 | the network efficiency lies in [0, 1] |
| Metrics.CompleteGraphMetrics | FDFirstRust/src/network_analyzer.rs:148-149 | on a complete network the average path length and the efficiency are both exactly 1 |
| Metrics.ClosenessCoversAllPartners | FDFirstRust/src/network_analyzer.rs:96-97 | adding each forward distance to both ends gives each agent the total distance to all its partners |
| Metrics.CentralizationNonnegative | FDFirstRust/src/network_analyzer.rs:150 | the negated closeness sum plus N times the maximum is never negative |
| Metrics.ClosenessCentralizationNonnegative | FDFirstRust/src/network_analyzer.rs:150-151 | the closeness centralization is never negative |
| Metrics.LastAgentNoVariance | FDFirstRust/src/network_analyzer.rs:141-145 | the last agent has no forward partner and adds nothing to the variance |
| Metrics.LocalInUnitInterval | FDFirstRust/src/network_analyzer.rs:119-131 | a local clustering lies in [0, 1]: triangles never exceed the neighbour pairs |
| Metrics.GlobalClusteringInUnitInterval | FDFirstRust/src/network_analyzer.rs:154 | the Watts-Strogatz clustering lies in [0, 1] |
| Metrics.TriMaxBounds | FDFirstRust/src/network_analyzer.rs:132-136 | the triadic maximum bounds every agent's triangle count, is >= 0 once some agent has two neighbours, and stays f64::MIN otherwise |
| Metrics.TriadicNumeratorNonnegative | FDFirstRust/src/network_analyzer.rs:152 | with some agent of degree two or more, the triadic numerator is never negative |
| Networks.CountSplit | FDFirstRust/src/scenario.rs:266-284 | with the network split into disjoint formal and informal parts, a row count is the sum of the parts' counts |
| Networks.DegreeSplit | FDFirstRust/src/scenario.rs:266-284 | under the tie invariant, degree == degree_formal + degree_informal at every agent |
| Networks.Add | FDFirstRust/src/scenario.rs:567-574 | forming ties f and g in network and informal at both ends, raises both counters, and grows the informal total by two; formal, limited and degree_formal are unchanged |
| Networks.Cut | FDFirstRust/src/scenario.rs:523-530 | cutting clears the tie from network and informal at both ends, lowers both counters, and shrinks the informal total by two |
| Networks.AddKeepsConsistent | FDFirstRust/src/scenario.rs:567-574 | forming a tie at two distinct non-adjacent agents keeps the invariant (simple relations, disjoint partition, matching counters) |
| Networks.CutKeepsConsistent | FDFirstRust/src/scenario.rs:523-530 | cutting an informal tie keeps the invariant |
| Networks.AddOnTieDrifts | FDFirstRust/src/scenario.rs:567-574 | forming where a tie already exists raises the counter without changing the row: the counters drift |
| Networks.CutOnFormalBreaksPartition | FDFirstRust/src/scenario.rs:523-530 | cutting a formal tie removes it from the network but leaves it formal |
| Networks.CommonRow | FDFirstRust/src/scenario.rs:463-467 | marks exactly the agents adjacent to both f and g |
| Networks.CommonWithinRow | FDFirstRust/src/scenario.rs:463-467 | common neighbours are neighbours of f; when g is adjacent it is not one of them, so there are strictly fewer |
| Networks.ClosureRatioBounds | FDFirstRust/src/scenario.rs:461-471 | (1 + common) over (larger degree + 1 if not adjacent) lies in (0, 1] when common is below the degrees |
| Networks.ClosureWeightBounds | FDFirstRust/src/scenario.rs:461-471 | while the counters match the rows, the closure weight lies in (0, 1] |
| Networks.WeightSymmetric | FDFirstRust/src/scenario.rs:450-477 | both weights treat the dyad as unordered |
| Networks.WeightNonnegative | FDFirstRust/src/scenario.rs:450-477 | no weight is negative, and the closure weight is positive |
| Beliefs.MatchingBundles | FDFirstRust-Hashset/src/scenario.rs:570-578 | the matched bundles number at most M_OF_BUNDLE, and all of them exactly when belief equals reality |
| Beliefs.PerformanceRange | FDFirstRust-Hashset/src/scenario.rs:570-578 | the intended score is a multiple of M_IN_BUNDLE, at most M, and equal to M exactly when belief equals reality |
| Beliefs.MatchingPrefix | FDFirstRust/src/scenario.rs:669-675 | the inner loop's stopping point: belief and reality agree before it and differ at it |
| Beliefs.WholePrefix | FDFirstRust/src/scenario.rs:669-675 | the loop runs through a whole bundle exactly when the bundles agree |
| Beliefs.PrefixTotalRange | FDFirstRust/src/scenario.rs:669-675 | the prefixes total at most M, and exactly M when belief equals reality |
| Beliefs.PerformanceAsWrittenRange | FDFirstRust/src/scenario.rs:666-678 | the score as written lies in [0, M_IN_BUNDLE * M] and reaches that top exactly when belief equals reality |
| Beliefs.PerformanceAsWrittenOvercounts | FDFirstRust/src/scenario.rs:669-675 | a half-matched bundle scores M_IN_BUNDLE as written but 0 as intended, and a perfect belief scores above M |
| Beliefs.SingleElementScoresAgree | FDFirstRust/src/scenario.rs:669-675 | with one element per bundle the two scores coincide |
| Learning.TallyReorder | FDFirstRust/src/scenario.rs:631-646 | the majority count does not depend on the order of the dyad list, so the shuffles made by rewiring never change what is learned |
| Learning.VoteSplit | FDFirstRust/src/scenario.rs:632-643 | a tied dyad with unequal scores adds the better end's signed bit to the other end's count, and an untied or level dyad adds nothing |
| Learning.TallyIsNeighbourTally | FDFirstRust/src/scenario.rs:631-646 | walking the dyad list gives each agent the sum of the signed bits of its better-scoring neighbours |
| Learning.LearnBit | FDFirstRust/src/scenario.rs:651-659 | a bit changes exactly when the count points away from it and the draw is below P_LEARNING, and then takes the count's side |
| Learning.LearnBundles | FDFirstRust/src/scenario.rs:647-661 | each of an agent's bits is updated by the rule from its own count and draw |
| Learning.CountsOf | FDFirstRust/src/scenario.rs:630-646 | agent a's count grid holds, per bundle and element, the tally over the dyad list |
| Learning.BestKeepsBeliefs | FDFirstRust/src/scenario.rs:631-646 | an agent that no neighbour outscores hears no vote, in any shuffle of the list, and keeps its beliefs |
| Learning.NoLearningWithoutProbability | FDFirstRust/src/scenario.rs:657 | with a learning probability of 0 or less nobody changes a belief |
| Learning.CertainLearningFollowsCount | FDFirstRust/src/scenario.rs:654-659 | with a learning probability of 1 or more every bit with a non-zero count ends on the count's side |
| Rewiring.ShuffleKeepsDyadsOver | FDFirstRust/src/scenario.rs:514 | a reshuffled dyad list keeps its length and its pairs of distinct agents |
| Rewiring.FormationRound | FDFirstRust/src/scenario.rs:541-579 | one round adds one informal tie. On a zero weight sum it adds the first dyad of the new shuffle. Otherwise the roulette picks a formable dyad (open, unmasked, both under the cap) of non-zero weight |
| Rewiring.Formations | FDFirstRust/src/scenario.rs:540-581 | after r rounds the list is a reordering of the original. Formal ties, the mask and the formal counters are unchanged. The informal total grows by 2r. The invariant holds when no round fell back |
| Rewiring.FormationsStep | FDFirstRust/src/scenario.rs:541-580 | round k + 1 applies the round function to the state and list that round k left |
| Rewiring.FormationRoundKeepsConsistent | FDFirstRust/src/scenario.rs:545-579 | a round that picks by weight keeps the invariant |
| Rewiring.FormationFallbackDrifts | FDFirstRust/src/scenario.rs:556-560 | a fallback round that lands on an existing tie leaves a counter above its row count |
| Rewiring.CutMax | FDFirstRust/src/scenario.rs:492-501 | the running maximum bounds the weight of every informal dyad seen so far |
| Rewiring.BreakRound | FDFirstRust/src/scenario.rs:490-536 | one round cuts one dyad. On a zero inverted sum it cuts the first of the new shuffle. Otherwise it cuts an informal tie of non-zero weight below the maximum |
| Rewiring.Breaks | FDFirstRust/src/scenario.rs:488-537 | after r rounds the informal total has shrunk by 2r. Formal ties, the mask and the formal counters are unchanged. The invariant holds when no round fell back |
| Rewiring.BreaksStep | FDFirstRust/src/scenario.rs:490-536 | round k + 1 applies the round function to the state and list that round k left |
| Rewiring.BreakRoundKeepsConsistent | FDFirstRust/src/scenario.rs:519-535 | a round that picks by weight keeps the invariant |
| Rewiring.BreakFallbackHitsFormal | FDFirstRust/src/scenario.rs:511-515 | a fallback round that lands on a formal tie leaves a formal tie outside the network |
| Rewiring.Visit | FDFirstRust/src/scenario.rs:589-616 | one dyad of a random pass moves the informal total by +2 per formation spent and -2 per break spent, and touches no formal tie |
| Rewiring.PassFrom | FDFirstRust/src/scenario.rs:588-620 | a pass moves the informal total by the quotas it spends, and it stops once both quotas are 0 |
| Rewiring.PassesFrom | FDFirstRust/src/scenario.rs:584-627 | the passes leave a reordering of the list, spend no more than the quotas and move the informal total by what they spend; they end when both quotas are met or the given shuffles run out |
| Rewiring.PassesStep | FDFirstRust/src/scenario.rs:621-625 | a pass ends the loop when both quotas are met (or the shuffles run out), and otherwise the next pass starts from its state |
| Rewiring.PassKeepsConsistent | FDFirstRust/src/scenario.rs:588-620 | a pass only cuts informal ties and only forms ties at open distinct dyads, so it keeps the invariant |
| Rewiring.PassesKeepConsistent | FDFirstRust/src/scenario.rs:584-627 | random rewiring as a whole keeps the invariant |
| Rewiring.SaturatedPassStalls | FDFirstRust/src/scenario.rs:621-625 | with no cuts owed and every dyad tied, a pass changes nothing, so the outer loop never ends |
| Selection.ClosureWeightOf | FDFirstRust/src/scenario.rs:461-471 | the counting loop computes the closure weight |
| Selection.WeightOf | FDFirstRust/src/scenario.rs:450-458 | the dispatch returns the closure weight, the preferential-attachment weight (the smaller degree), or 0 |
| Selection.FormationWeightsOf | FDFirstRust/src/scenario.rs:542-555 | the first loop of do_tie_formation gives each formable dyad its weight (0 elsewhere) and the sum |
| Selection.BreakWeightsOf | FDFirstRust/src/scenario.rs:491-502 | the first loop of do_tie_break gives each informal tie its weight (0 elsewhere) and their running maximum from f64::MIN |
| Selection.InvertedOf | FDFirstRust/src/scenario.rs:504-510 | each non-zero weight becomes the maximum minus itself, and the denominator is their sum |
| Selection.Choose | FDFirstRust/src/scenario.rs:511-535 | on a zero denominator the list takes its shuffle and the first dyad is chosen; otherwise the roulette's stopping dyad is chosen |
| Selection.FormationChoice | FDFirstRust/src/scenario.rs:542-579 | the dyad picked and the list left are those of the formation round function |
| Selection.BreakChoice | FDFirstRust/src/scenario.rs:489-535 | the dyad picked and the list left are those of the break round function |
| Hierarchy.Parent | FDFirstRust/src/scenario.rs:227-233 | every agent k >= 1 has a superior below it in the order |
| Hierarchy.ParentBlock | FDFirstRust/src/scenario.rs:227-255 | agent k sits in its superior's block of span subordinates: Parent * span + 1 <= k < Parent * span + 1 + span |
| Hierarchy.NextIsSuccessorMod | FDFirstRust/src/scenario.rs:244 | the ring successor is (i + 1) % lower_num |
| Hierarchy.RingLinkIsNew | FDFirstRust/src/scenario.rs:242-252 | before link i, no earlier ring link joins its pair, except on a ring of two |
| Hierarchy.LinkRingAsWritten | FDFirstRust/src/scenario.rs:236-253 | the ring loop as written sets the ring; each counter of a block of two or more is raised by 2, even when the block of two has a single tie |
| Hierarchy.RingOfTwoOvercounts | FDFirstRust/src/scenario.rs:242-252 | with two subordinates the first counter ends one above its row count, so the counters no longer match the matrix |
| Hierarchy.IntendedRing | FDFirstRust/src/scenario.rs:236-253 | the intended ring (one link per ring tie) adds exactly the ring ties and keeps the counters equal to the row counts |
| Hierarchy.LinkRing | FDFirstRust/src/scenario.rs:236-253 | the corrected ring loop yields the intended ring links and counters |
| Hierarchy.HierarchyTieSimple | FDFirstRust/src/scenario.rs:229-230 | the hierarchy is symmetric and has no self-tie |
| Hierarchy.OneSuperior | FDFirstRust/src/scenario.rs:227-253 | every agent but 0 has exactly one tie to the level above, its superior. Its other ties go to subordinates or, with LINK_LEVEL, to siblings on its own level |
| Hierarchy.LevelsMonotone | FDFirstRust/src/scenario.rs:233 | levels never decrease along the agent order |
| Hierarchy.LinkSubordinates | FDFirstRust/src/scenario.rs:228-235 | upper is joined to each of lower_start .. lower_end-1, both counters are raised, and those agents get level_now |
| Hierarchy.ChildLinksCounted | FDFirstRust/src/scenario.rs:228-235 | each subordinate link is a new tie: the counters keep matching and their total grows by two per link |
| Hierarchy.BlockStep | FDFirstRust/src/scenario.rs:227-255 | processing one upper extends the hierarchy from the agents below lower_start to those below lower_end, and, with the intended ring of the Findings, the counters keep matching |
| Hierarchy.LinkBlock | FDFirstRust/src/scenario.rs:227-255 | one pass of `for upper` gives upper its block, the ring when LINK_LEVEL is set, and the block's levels; the ring is the intended one of the Findings |
| Hierarchy.FillLevel | FDFirstRust/src/scenario.rs:227-256 | the `for upper` loop over one band builds the hierarchy up to the next band's start, with the bounds the source computes, the counters matching the rows under the intended ring |
| Hierarchy.DescendLevels | FDFirstRust/src/scenario.rs:225-262 | the outer loop ends with the whole hierarchy, counters matching under the intended ring (2(N-1) in total without LINK_LEVEL) and every agent at its level |
| Hierarchy.BuildHierarchy | FDFirstRust/src/scenario.rs:212-263 | network[a][b] is set exactly for the ties of the hierarchy; the counters equal the row counts under the intended ring; level_of is each agent's depth plus one |
| Initial.EnforceStep | FDFirstRust/src/scenario.rs:266-284 | one visited dyad goes to the formal part or the informal part (and was in neither before) |
| Initial.Enforce | FDFirstRust/src/scenario.rs:266-284 | the enforcement loop yields the formal and informal parts of the draws, and the part counters equal their row counts |
| Initial.EnforcedConsistent | FDFirstRust/src/scenario.rs:266-284 | after enforcement every tie is formal or informal, never both; all relations are simple, and degree == degree_formal + degree_informal |
| Initial.Attach | FDFirstRust/src/scenario.rs:297-307 | an added tie is set in the network at both ends, and no counter moves |
| Initial.AdditionsFrom | FDFirstRust/src/scenario.rs:291-313 | the pass ties open dyads in list order until no addition is owed; it moves no counter and leaves the mask alone |
| Initial.AddLinks | FDFirstRust/src/scenario.rs:288-318 | the loop leaves the state and the owed count of the pass function |
| Initial.AdditionsMonotone | FDFirstRust/src/scenario.rs:291-313 | ties only appear during the pass |
| Initial.ShortPassClosesAll | FDFirstRust/src/scenario.rs:291-313 | a pass that ends with additions owed leaves no open dyad behind it |
| Initial.ClosedPassIdle | FDFirstRust/src/scenario.rs:291-313 | with no open dyad left, a pass changes nothing |
| Initial.ShortPassRepeatsForever | FDFirstRust/src/scenario.rs:290-317 | if the first pass ends with additions owed, every later pass over the same list adds nothing, so `'outer: loop` never ends |
| Initial.AdditionsKeepPartition | FDFirstRust/src/scenario.rs:291-313 | the additions keep the three relations simple and every tie formal or informal, never both |
| Initial.AdditionsGrowNetwork | FDFirstRust/src/scenario.rs:297-298 | each addition puts two more entries into the network's rows |
| Initial.AdditionsDrift | FDFirstRust/src/scenario.rs:297-308 | because no counter moves, any addition leaves degree below the network's row count |
| Initial.LimitLevelsAsWritten | FDFirstRust/src/scenario.rs:320-329 | the LIMIT_LEVEL loop as written masks only the diagonal (or nothing when LIMIT_LEVEL is off) |
| Initial.LimitLevels | FDFirstRust/src/scenario.rs:320-329 | the corrected loop masks each pair whose levels differ by more than one, plus the diagonal |
| Initial.MaskedNeverFormable | FDFirstRust/src/scenario.rs:546-548 | under the corrected mask, a dyad is unmasked exactly when its agents are distinct and at most one level apart |
| Initial.MaskSparesHierarchy | FDFirstRust/src/scenario.rs:320-329 | the mask never closes a tie of the hierarchy |
| Initial.AsWrittenMaskLeavesGap | FDFirstRust/src/scenario.rs:324-325 | agents two levels apart are masked as intended but left open by the loop as written |
| Initial.HierarchyNet | FDFirstRust/src/scenario.rs:212-263 | the matrix holds exactly the ties of the hierarchy |
| Initial.Levels | FDFirstRust/src/scenario.rs:222-233 | every agent has a level of at least 1, its depth plus one |
| Initial.NoneAddedUnchanged | FDFirstRust/src/scenario.rs:287-288 | a pass that adds nothing returns the state it was given |
| Initial.InitialPartitioned | FDFirstRust/src/scenario.rs:206-337 | after initialize_network the three relations are simple and partition the network, and degree == degree_formal + degree_informal. The counters match the rows exactly when no additional link was made |
| Simulation.TotalBound | FDFirstRust/src/scenario.rs:381-383 | a total of scores each at most m is at most m per agent, and reaches that exactly when every score does |
| Simulation.MeanPerformanceRange | FDFirstRust/src/scenario.rs:381-384 | with every agent scored, performance_avg lies in [0, 1], and it is 1 exactly when every agent's beliefs are reality |
| Simulation.ScoreAsWritten | FDFirstRust/src/scenario.rs:666-678 | the loop as written computes the as-written score: M_IN_BUNDLE per element of each bundle's matching prefix |
| Simulation.Score | FDFirstRust/src/scenario.rs:666-678 | the corrected loop computes M_IN_BUNDLE per bundle matched in every element |
| Simulation.AfterRewiring | FDFirstRust/src/scenario.rs:479-486 | do_rewiring reorders the dyad list and never touches formal ties, the mask or the formal counters. When every quota is met, the informal total moves by 2nf - 2nb. Directed rewiring always completes |
| Simulation.RewiringKeepsConsistent | FDFirstRust/src/scenario.rs:479-486 | random rewiring never falls back; rewiring without a fallback keeps the invariant |
| Simulation.AddRowVotes | FDFirstRust/src/scenario.rs:642-644 | each count of the row moves by +1 for a true bit and -1 for a false one |
| Simulation.AddVotes | FDFirstRust/src/scenario.rs:641-645 | the superior's votes are added to the inferior's counts, bundle by bundle |
| Simulation.MajorityCounts | FDFirstRust/src/scenario.rs:630-646 | the first loop of do_learning leaves every agent the count grid of the dyad list |
| Simulation.LearnAgent | FDFirstRust/src/scenario.rs:648-661 | the second loop updates an agent's bits by the learning rule from its counts and draws |
| Simulation.Replaced | FDFirstRust/src/scenario.rs:732-741 | each agent whose draw is under the rate takes its newcomer's beliefs; every other agent keeps its own |
| Simulation.TurnoverExtremes | FDFirstRust/src/scenario.rs:733 | with a rate of 0 or less nobody leaves; with a rate of 1 or more everybody is replaced |
| Simulation.Turbulent | FDFirstRust/src/scenario.rs:746-752 | each bit of reality flips exactly when its draw is under the rate |
| Simulation.TurbulenceExtremes | FDFirstRust/src/scenario.rs:748 | with a rate of 0 or less reality stays; with a rate of 1 or more every bit flips |
| Simulation.InitialNetwork | FDFirstRust/src/scenario.rs:206-337 | the body of initialize_network computes the initial tie state, the owed additions, every agent's level and level_range |
| Simulation.Scenario.constructor | FDFirstRust/src/scenario.rs:70-154 | Scenario::new records the constants and sets the flags from social_dynamics (rewiring on, random off). The dyad list starts in order; then initialize runs with the given draws |
| Simulation.Scenario.GetClone | FDFirstRust/src/scenario.rs:158-183 | the clone has the same constants. It takes the original's reality, beliefs, scores, average, three tie matrices and counters, and a fresh analyzer. It keeps its own mask, levels and dyad list, and is measured afresh |
| Simulation.Scenario.Adopt | FDFirstRust/src/scenario.rs:168-180 | the copied fields arrive unchanged, the analyzer is fresh, and set_outcome measures them |
| Simulation.Scenario.Fresh | FDFirstRust/src/scenario.rs:160-166 | a new scenario with the same constructor arguments, initialised with its own draws |
| Simulation.Scenario.GetCloneWithParams | FDFirstRust/src/scenario.rs:186-190 | the clone, with the two rewiring flags set afterwards |
| Simulation.Scenario.SetNetworkParams | FDFirstRust/src/scenario.rs:193-196 | the two flags take the given values and nothing else changes |
| Simulation.Scenario.InitializeNetwork | FDFirstRust/src/scenario.rs:206-337 | the fields equal the initial tie state of the draws. The dyad list is reshuffled only when additions are owed. The analyzer is fresh |
| Simulation.Scenario.InitializeEntity | FDFirstRust/src/scenario.rs:339-348 | reality and every belief take the drawn bits |
| Simulation.Scenario.InitializeOutcome | FDFirstRust/src/scenario.rs:350-356 | every score is up to date and the outcome is measured |
| Simulation.Scenario.Initialize | FDFirstRust/src/scenario.rs:199-203 | network, bits, scores and outcome as the three steps leave them |
| Simulation.Scenario.FormTie | FDFirstRust/src/scenario.rs:567-574 | the eight writes of a formation are the value-level Add |
| Simulation.Scenario.CutTie | FDFirstRust/src/scenario.rs:523-530 | the eight writes of a cut are the value-level Cut |
| Simulation.Scenario.DoTieFormation | FDFirstRust/src/scenario.rs:540-581 | the state and the dyad list become those of num formation rounds |
| Simulation.Scenario.DoTieBreak | FDFirstRust/src/scenario.rs:488-537 | the state and the dyad list become those of num break rounds |
| Simulation.Scenario.FormationStep | FDFirstRust/src/scenario.rs:541-580 | one pass of the while loop is one formation round |
| Simulation.Scenario.BreakStep | FDFirstRust/src/scenario.rs:490-536 | one pass of the while loop is one break round |
| Simulation.Scenario.VisitDyad | FDFirstRust/src/scenario.rs:589-616 | one dyad of the pass is the value-level Visit |
| Simulation.Scenario.RandomPass | FDFirstRust/src/scenario.rs:588-620 | the inner loop is the value-level pass |
| Simulation.Scenario.ShuffledPass | FDFirstRust/src/scenario.rs:587-625 | one shuffle plus one pass advances the passes function by one step |
| Simulation.Scenario.DoRandomRewiring | FDFirstRust/src/scenario.rs:584-627 | the state and list are those of the passes; complete holds exactly when both quotas end at 0 |
| Simulation.Scenario.DoRewiring | FDFirstRust/src/scenario.rs:479-486 | random passes, or nf formations followed by nb breaks, as AfterRewiring states |
| Simulation.Scenario.StepForward | FDFirstRust/src/scenario.rs:358-371 | step_forward rewires (when is_rewiring is set), learns from the rewired network, measures, then turns over. Afterwards every score is up to date and the analyzer reports the network |
| Simulation.Scenario.RewiringStep | FDFirstRust/src/scenario.rs:359-365 | INFORMAL_REWIRING_NUM formations and breaks, random or directed, when is_rewiring is set |
| Simulation.Scenario.LearningStep | FDFirstRust/src/scenario.rs:366-370 | learning, measuring and turnover leave the ties alone and follow the learning rule |
| Simulation.Scenario.TurnoverStep | FDFirstRust/src/scenario.rs:368-370 | do_turnover runs only with a positive rate; with any other rate the beliefs stay |
| Simulation.Scenario.DoLearning | FDFirstRust/src/scenario.rs:629-664 | every agent's new beliefs are Learned from the beliefs and scores before the step, and every score is brought up to date |
| Simulation.Scenario.DoTurnover | FDFirstRust/src/scenario.rs:731-742 | exactly the agents drawn under the rate take their newcomers' beliefs and are rescored; other scores are untouched |
| Simulation.Scenario.DoTurbulence | FDFirstRust/src/scenario.rs:745-754 | reality flips where drawn, and then every agent is rescored |
| Simulation.Scenario.GetPerformanceOfAsWritten | FDFirstRust/src/scenario.rs:666-678 | get_performance_of as written returns the as-written score |
| Simulation.Scenario.GetPerformanceOf | FDFirstRust/src/scenario.rs:666-678 | the corrected get_performance_of returns the intended score |
| Simulation.Scenario.SetPerformanceOf | FDFirstRust/src/scenario.rs:681-683 | only the focal agent's score changes, to its current score |
| Simulation.Scenario.SetPerformance | FDFirstRust/src/scenario.rs:686-690 | every agent's score is up to date |
| Simulation.Scenario.SetOutcome | FDFirstRust/src/scenario.rs:373-385 | the analyzer reports the current network, the scenario's metric fields are its outputs, and performance_avg is the mean score over M_N |
| Simulation.Scenario.CopyMetrics | FDFirstRust/src/scenario.rs:376-380 | the five metric fields are read from the analyzer's getters |
| Simulation.Scenario.AveragePerformance | FDFirstRust/src/scenario.rs:381-384 | performance_avg is the total score over M_N |
| Settings.AsUsize | test2/src/params.rs:53-55 | `as usize` on a float truncates toward zero and sends negatives to 0 |
| Settings.ScaledAtMost | test2/src/params.rs:53-55 | truncating a count scaled by a proportion in [0, 1] never exceeds the count |
| Settings.RewiringWithinInitial | test2/src/params.rs:53-54 | with INFORMAL_REWIRING_PROP at most 1, INFORMAL_REWIRING_NUM <= INFORMAL_INITIAL_NUM |
| Settings.AdditionsWithinDyads | test2/src/params.rs:55 | with P_ADDITION at most 1, NUM_ADDITION <= N_DYAD |
| Settings.DyadCount | test2/src/params.rs:45-47 | N_DYAD is the length of the dyad list and M_N = N * M |
| Settings.CombinationsShape | test2/src/params.rs:105-116 | PARAMS_INDEX_COMBINATIONS has the product of the first five RESULT_SHAPE entries as length; every entry lies within RESULT_SHAPE; the entries strictly increase |
| Settings.CombinationsCover | test2/src/params.rs:105-116 | every index tuple within RESULT_SHAPE is enumerated (exactly once, the list being strictly sorted) |
| Settings.WithTimeLength | test2/src/params.rs:117-125 | the timed list is TIME times as long |
| Settings.WithTimeEntry | test2/src/params.rs:117-125 | entry k * TIME + t is combination k with t appended |
| Settings.WithTimeInShape | test2/src/params.rs:64-71 | every timed entry lies within RESULT_SHAPE |
| Settings.PushTimes | test2/src/params.rs:117-126 | the time loop appends the combination with each time index in order |
| Settings.PushTurnovers | test2/src/params.rs:109-127 | the turnover loop appends its combinations, and the timed list stays in step |
| Settings.PushTurbulences | test2/src/params.rs:108-128 | the turbulence loop appends its combinations, and the timed list stays in step |
| Settings.PushEnforcements | test2/src/params.rs:107-129 | the enforcement loop appends its combinations, and the timed list stays in step |
| Settings.PushSpans | test2/src/params.rs:106-130 | the span loop appends its combinations, and the timed list stays in step |
| Settings.Enumerate | test2/src/params.rs:102-131 | the nested loops build exactly the combinations and their timed list |
| Settings.OnceCells.constructor | test2/src/params.rs:73-74 | both cells start unset |
| Settings.OnceCells.InitializeOnceCells | test2/src/params.rs:100-135 | the first call sets both cells to the enumerations. A later call fails, as the unwrap panics, and leaves the cells as they were |
| SetAnalysis.SameMembersDist | FDFirstRust-Hashset/src/network_analyzer.rs:115-127 | adjacency lists with the same members give the same breadth-first distances, whatever order the sets yield |
| SetAnalysis.EnumerationMembers | FDFirstRust-Hashset/src/network_analyzer.rs:117 | any iteration order of the neighbour sets lists exactly the members of the membership matrix |
| SetAnalysis.ShortestPathsUnique | FDFirstRust-Hashset/src/network_analyzer.rs:99-142 | a matrix of finished distances is unique, so two searches of one network leave the same matrix |
| SetAnalysis.TrianglesBySet | FDFirstRust-Hashset/src/network_analyzer.rs:71-77 | the double loop over a listed neighbour set counts the linked pairs of its members |
| SetAnalysis.SameRowTriangles | FDFirstRust-Hashset/src/network_analyzer.rs:67-79 | two listings of one set give the same degree and triangle count |
| SetAnalysis.EnumeratedClustering | FDFirstRust-Hashset/src/network_analyzer.rs:67-79 | the clustering of any iteration order is the clustering of the membership matrix |
| SetAnalysis.SetNetworkAnalyzer.constructor | FDFirstRust-Hashset/src/network_analyzer.rs:17-26 | every distance is -1 and every output is 0 |
| SetAnalysis.SetNetworkAnalyzer.SetShortestPath | FDFirstRust-Hashset/src/network_analyzer.rs:99-142 | the matrix holds the breadth-first distances of the membership matrix |
| SetAnalysis.SetNetworkAnalyzer.SetNetworkMetrics | FDFirstRust-Hashset/src/network_analyzer.rs:28-97 | the distances and the five outputs are the reference metrics of the membership matrix |
| SetAnalysis.SetSummarize | FDFirstRust-Hashset/src/network_analyzer.rs:31-96 | the five outputs computed from distances and listed sets are the metric functions |
| SetAnalysis.ReportsDetermined | FDFirstRust-Hashset/src/network_analyzer.rs:28-97 | two analyses of one network, in any iteration orders, report the same values |
| SetAnalysis.AgreesWithMatrixAnalyzer | FDFirstRust-Hashset/src/network_analyzer.rs:28-97 | the HashSet analyzer reports what the matrix analyzer reports for the membership matrix |
| SetScenario.SizesAreCounts | FDFirstRust-Hashset/src/scenario.rs:470-471 | the length of each neighbour set is the degree count of the membership matrix |
| SetScenario.MembersDetermine | FDFirstRust-Hashset/src/scenario.rs:197-201 | sets over 0..N are determined by their membership matrix, so the set view loses nothing |
| SetScenario.JoinIsLink | FDFirstRust-Hashset/src/scenario.rs:217-218 | inserting g into set f and f into set g is linking the pair in the membership matrix |
| SetScenario.PartIsLink | FDFirstRust-Hashset/src/scenario.rs:441-442 | removing g from set f and f from set g is unlinking the pair in the membership matrix |
| SetScenario.JoinSizes | FDFirstRust-Hashset/src/scenario.rs:217-218 | an insertion raises the two set lengths by one when the tie is new and leaves them otherwise |
| SetScenario.PartSizes | FDFirstRust-Hashset/src/scenario.rs:441-442 | a removal lowers the two set lengths by one when the tie was there and leaves them otherwise |
| SetScenario.FormTieIsAdd | FDFirstRust-Hashset/src/scenario.rs:486-489 | forming a tie on sets is the matrix model's formation (network and informal rows, counters from set lengths) |
| SetScenario.CutTieIsCut | FDFirstRust-Hashset/src/scenario.rs:441-444 | cutting a tie on sets is the matrix model's cut |
| SetScenario.FormOnTieKeepsNetwork | FDFirstRust-Hashset/src/scenario.rs:486-489 | forming on a pair already tied changes neither the network nor its set lengths: insertion is idempotent, unlike the matrix counters |
| SetScenario.EnforceStep | FDFirstRust-Hashset/src/scenario.rs:250-261 | one visited target puts the pair into the formal or the informal sets as its draw says |
| SetScenario.Enforce | FDFirstRust-Hashset/src/scenario.rs:249-262 | the enforcement loops build exactly the enforced formal and informal sets |
| SetScenario.EnforcedWithin | FDFirstRust-Hashset/src/scenario.rs:249-262 | each enforced layer is a simple graph within the network |
| SetScenario.EnforcedCover | FDFirstRust-Hashset/src/scenario.rs:249-262 | the formal and informal layers together are the network |
| SetScenario.EnforcedOverlap | FDFirstRust-Hashset/src/scenario.rs:249-262 | a tie lands in both layers exactly when its two directed draws disagree, as each side of a tie is visited once |
| SetScenario.EnforcedDisjointAtExtremes | FDFirstRust-Hashset/src/scenario.rs:249-262 | with enforcement 0 or 1 the two layers are disjoint |
| SetScenario.EnforcedConsistent | FDFirstRust-Hashset/src/scenario.rs:249-262 | the enforced network satisfies the tie invariant of the matrix model |
| SetScenario.LimitSets | FDFirstRust-Hashset/src/scenario.rs:299-307 | the limited sets only ever hold the focal agent itself |
| SetScenario.LimitLevels | FDFirstRust-Hashset/src/scenario.rs:299-307 | the LIMIT_LEVEL loops build exactly those sets |
| SetScenario.Attach | FDFirstRust-Hashset/src/scenario.rs:271-284 | an added link joins the network and one of the layers as its draw says |
| SetScenario.AdditionsFrom | FDFirstRust-Hashset/src/scenario.rs:268-295 | one pass over the shuffled dyads adds at most what is left and accounts for every addition |
| SetScenario.AddLinks | FDFirstRust-Hashset/src/scenario.rs:265-296 | the additional-links loop is the passes over the dyads, stopping when none is left |
| SetScenario.AttachKeepsConsistent | FDFirstRust-Hashset/src/scenario.rs:271-284 | an added link keeps the tie invariant |
| SetScenario.AdditionsKeepConsistent | FDFirstRust-Hashset/src/scenario.rs:265-296 | the additions keep the tie invariant |
| SetScenario.AdditionsMonotone | FDFirstRust-Hashset/src/scenario.rs:265-296 | additions only grow the network and informal sets |
| SetScenario.ShortPassClosesAll | FDFirstRust-Hashset/src/scenario.rs:268-291 | a pass that ends with additions still left leaves no dyad open behind it |
| SetScenario.ClosedPassIdle | FDFirstRust-Hashset/src/scenario.rs:268-291 | a pass over closed dyads adds nothing |
| SetScenario.ShortPassRepeatsForever | FDFirstRust-Hashset/src/scenario.rs:265-296 | when a pass ends with additions left, the next pass adds nothing, so the source loops forever |
| SetScenario.ClosureWeightOf | FDFirstRust-Hashset/src/scenario.rs:377-387 | the closure weight on sets is the matrix model's closure weight |
| SetScenario.WeightOf | FDFirstRust-Hashset/src/scenario.rs:366-374 | the rewiring weight on sets is the matrix model's weight for the dynamics mode |
| SetScenario.ClosureWeightInUnit | FDFirstRust-Hashset/src/scenario.rs:377-387 | the closure weight lies in (0, 1] |
| SetScenario.UniformPick | FDFirstRust-Hashset/src/scenario.rs:433-436 | with every weight 1 and denominator the length, the wheel stops at index k exactly when k / len < marker <= (k + 1) / len |
| SetScenario.WheelStops | FDFirstRust-Hashset/src/scenario.rs:427-450 | the wheel always stops, within the list, for a marker below 1 |
| SetScenario.PickSelects | FDFirstRust-Hashset/src/scenario.rs:427-450 | the fallback is taken exactly when the weights sum to 0; otherwise the wheel stops at a nonzero weight |
| SetScenario.FormationRound | FDFirstRust-Hashset/src/scenario.rs:457-495 | a formation round fails only with an empty dyad list, and forms the tie of the chosen dyad |
| SetScenario.FormationRoundPicks | FDFirstRust-Hashset/src/scenario.rs:457-495 | the fallback is taken exactly when no formable dyad has weight; otherwise the chosen dyad is formable |
| SetScenario.FormationRoundKeepsConsistent | FDFirstRust-Hashset/src/scenario.rs:457-495 | a round without fallback keeps the tie invariant |
| SetScenario.FormationFallbackOnTie | FDFirstRust-Hashset/src/scenario.rs:476-489 | a fallback round on an existing tie leaves the network as it was |
| SetScenario.ListedPairs | FDFirstRust-Hashset/src/scenario.rs:406-412 | the listed pairs are exactly the informal ties, both directions, and the list is empty exactly when no informal tie exists |
| SetScenario.Shuffled | FDFirstRust-Hashset/src/scenario.rs:413 | the shuffle keeps the length and the pairs (a permutation) |
| SetScenario.ShuffledLists | FDFirstRust-Hashset/src/scenario.rs:406-413 | the shuffled list still lists exactly the informal ties |
| SetScenario.BreakRound | FDFirstRust-Hashset/src/scenario.rs:405-453 | a break round fails only when no informal tie exists, and cuts the chosen informal tie |
| SetScenario.BreakRoundPicks | FDFirstRust-Hashset/src/scenario.rs:414-450 | the fallback is taken exactly when the inverted weights sum to 0; otherwise the chosen pair has nonzero weight |
| SetScenario.BreakRoundKeepsConsistent | FDFirstRust-Hashset/src/scenario.rs:405-453 | a break round keeps the tie invariant |
| SetScenario.BreakOfDoubleTie | FDFirstRust-Hashset/src/scenario.rs:441-444 | cutting a pair that is formal too leaves the formal tie while the pair leaves the network |
| SetScenario.TidyIsConsistent | FDFirstRust-Hashset/src/scenario.rs:196-201 | the set-level invariant (symmetric sets, informal within network, network the union of the layers) is the tie invariant of the matrix model |
| SetScenario.NextBreak | FDFirstRust-Hashset/src/scenario.rs:405-453 | one break iteration fails only without informal ties and otherwise keeps the sets simple and formal and limited unchanged |
| SetScenario.NextBreakEffect | FDFirstRust-Hashset/src/scenario.rs:405-453 | an iteration removes one informal tie (both directions) and keeps the set invariant |
| SetScenario.NextFormation | FDFirstRust-Hashset/src/scenario.rs:457-495 | one formation iteration fails only with no dyads; without fallback it keeps the set invariant |
| SetScenario.Spin | FDFirstRust-Hashset/src/scenario.rs:426-450 | the choice loop returns the wheel's pick and whether it fell back |
| SetScenario.FormationWeightsOf | FDFirstRust-Hashset/src/scenario.rs:458-477 | the weight loop computes the formation weights and their sum |
| SetScenario.BreakWeightNext | FDFirstRust-Hashset/src/scenario.rs:416-423 | one step of the weight loop extends the weights and the running maximum |
| SetScenario.BreakWeightsOf | FDFirstRust-Hashset/src/scenario.rs:414-424 | the weight loop computes the break weights and their maximum |
| SetScenario.FormationStep | FDFirstRust-Hashset/src/scenario.rs:457-495 | a formation iteration is the formation round |
| SetScenario.BreakStep | FDFirstRust-Hashset/src/scenario.rs:414-453 | a break iteration is the break round |
| SetScenario.ListInformal | FDFirstRust-Hashset/src/scenario.rs:406-412 | the collection loop lists the informal pairs in ascending focal order |
| SetScenario.BreakStepOf | FDFirstRust-Hashset/src/scenario.rs:405-453 | listing, shuffling and the round make one break iteration |
| SetScenario.BreakRounds | FDFirstRust-Hashset/src/scenario.rs:404-454 | num_break rounds of listing, shuffling and cutting the roulette's pick, iterated from the start state; formal, limited and simplicity kept |
| SetScenario.FormationRounds | FDFirstRust-Hashset/src/scenario.rs:456-496 | num_formation rounds of weighing the dyad list and forming the roulette's pick, iterated from the start state, with the number of uniform fallbacks; formal, limited and simplicity kept, at most one fallback per round, and the set invariant kept when none fell back |
| SetScenario.FormsToRounds | FDFirstRust-Hashset/src/scenario.rs:456-496 | any run of the loop that applies one formation round per marker ends in FormationRounds |
| SetScenario.DoTieBreak | FDFirstRust-Hashset/src/scenario.rs:404-454 | the ties after the loop are BreakRounds; num_break iterations remove 2 * num_break informal entries and keep the set invariant; stuck only when no informal tie is left, where the source loops forever |
| SetScenario.DoTieFormation | FDFirstRust-Hashset/src/scenario.rs:456-496 | the ties and the fallback count after the loop are those of FormationRounds; stuck exactly when the dyad list is empty and a round is asked for |
| SetRewiring.VisitPair | FDFirstRust-Hashset/src/scenario.rs:502-522 | visiting a dyad keeps the sets simple and formal and limited unchanged, and the counts left only fall |
| SetRewiring.PassOver | FDFirstRust-Hashset/src/scenario.rs:501-526 | a pass over the shuffled dyads keeps the same facts |
| SetRewiring.PassesOver | FDFirstRust-Hashset/src/scenario.rs:498-531 | the repeated passes keep them, each pass reshuffles the dyads (a permutation), and the run stops early exactly when both counts reach 0 |
| SetRewiring.VisitEffect | FDFirstRust-Hashset/src/scenario.rs:502-522 | a visit keeps the set invariant and changes the informal total by 2 per formation minus 2 per break |
| SetRewiring.PassEffect | FDFirstRust-Hashset/src/scenario.rs:501-526 | a pass keeps the set invariant and the same informal accounting |
| SetRewiring.PassesEffect | FDFirstRust-Hashset/src/scenario.rs:498-531 | the whole random rewiring keeps the set invariant and the same informal accounting |
| SetRewiring.VisitIsVisit | FDFirstRust-Hashset/src/scenario.rs:502-522 | the visit on sets is the matrix model's visit, whose tests (informal membership, formability with OR on the caps) agree |
| SetRewiring.PassIsPass | FDFirstRust-Hashset/src/scenario.rs:501-526 | a pass on sets is the matrix model's pass |
| SetRewiring.PassesArePasses | FDFirstRust-Hashset/src/scenario.rs:498-531 | the random rewiring on sets is the matrix model's random rewiring |
| SetRewiring.VisitDyad | FDFirstRust-Hashset/src/scenario.rs:502-522 | the visit body computes the visit |
| SetRewiring.RandomPass | FDFirstRust-Hashset/src/scenario.rs:501-526 | the inner loop computes one pass |
| SetRewiring.DoRandomRewiring | FDFirstRust-Hashset/src/scenario.rs:498-531 | the outer loop computes the passes, and reports completion exactly when both counts reach 0 |
| SetRewiring.RewiredSets | FDFirstRust-Hashset/src/scenario.rs:395-402 | the ties and dyad list after do_rewiring: the random passes, or FormationRounds followed by BreakRounds with the list unchanged; formal and limited untouched, the list a shuffle of the old one |
| SetRewiring.DoRewiring | FDFirstRust-Hashset/src/scenario.rs:395-402 | ties and list equal RewiredSets; complete says whether the quotas were met; the set invariant is kept when no round fell back |
| SetLearning.HeardInsert | FDFirstRust-Hashset/src/scenario.rs:539-549 | the tally over a set grows by one member's vote when that member is added |
| SetLearning.HeardAll | FDFirstRust-Hashset/src/scenario.rs:539-549 | the tally over the neighbour set is the tally over the agents linked in the membership matrix |
| SetLearning.SetLearnedIsLearned | FDFirstRust-Hashset/src/scenario.rs:533-567 | on a symmetric network, learning from neighbour sets is the matrix model's learning over all dyads |
| SetLearning.NoBetterNeighbourKeeps | FDFirstRust-Hashset/src/scenario.rs:539-560 | an agent with no better-scoring neighbour keeps its beliefs |
| SetLearning.BundleCounts | FDFirstRust-Hashset/src/scenario.rs:537-550 | the tally loop over the neighbour set, in any order, gives each element's vote count |
| SetLearning.AgentCounts | FDFirstRust-Hashset/src/scenario.rs:535-551 | the tallies of every bundle of one agent are the neighbour counts |
| SetLearning.DoLearning | FDFirstRust-Hashset/src/scenario.rs:533-567 | learning returns the learned beliefs and their scores |
| SetLearning.Rescore | FDFirstRust-Hashset/src/scenario.rs:586-590 | every score is the performance of its agent's beliefs |
| SetLearning.DoTurnover | FDFirstRust-Hashset/src/scenario.rs:630-643 | the drawn agents get the newcomer beliefs and their new score; the others keep their score |
| SetLearning.DoTurbulence | FDFirstRust-Hashset/src/scenario.rs:646-655 | reality flips where drawn and every score is recomputed against it |
| SetStep.LearnStep | FDFirstRust-Hashset/src/scenario.rs:342-346 | learning, then the mean score, then turnover when its rate is positive |
| SetStep.StepForward | FDFirstRust-Hashset/src/scenario.rs:334-347 | rewiring only when enabled, the ties and list then equal RewiredSets, leaving formal, limited and reality alone, keeping the set invariant when no round fell back; then learning and turnover as above |
| FlatInit.DyadIndex | test2/src/scenario.rs:118-134 | the dyad map lists the N_DYAD pairs i < j in lexicographic order and the index list starts as the identity |
| FlatInit.Admit | test2/src/scenario.rs:306-322 | an added link sets the network and the layer its draw selects, raising the overall counter and that layer's counter only |
| FlatInit.AdmitKeepsConsistent | test2/src/scenario.rs:306-322 | an added link between distinct untied agents keeps the whole tie invariant, counters included |
| FlatInit.AdmissionsFrom | test2/src/scenario.rs:298-328 | one pass adds at most what is left and accounts for every addition |
| FlatInit.AdmissionsKeepConsistent | test2/src/scenario.rs:298-328 | the additions keep the tie invariant |
| FlatInit.AdmitLinks | test2/src/scenario.rs:294-333 | the additional-links loop is one pass over the shuffled list, left as soon as nothing is owed; it ends in the state and count that `AdmissionsFrom` gives |
| FlatInit.AdmissionsMonotone | test2/src/scenario.rs:298-328 | ties only appear and informal counters only rise during the pass |
| FlatInit.ShortAdmissionsCloseAll | test2/src/scenario.rs:298-328 | a pass that ends with additions owed leaves no open dyad behind it |
| FlatInit.ClosedAdmissionsIdle | test2/src/scenario.rs:298-328 | with no open dyad left, a pass changes nothing |
| FlatInit.AdmissionsRepeatForever | test2/src/scenario.rs:294-333 | if the first pass ends with additions owed, every later pass over the same list adds nothing, so test2's `'outer: loop` never ends |
| FlatInit.FlatInitialConsistent | test2/src/scenario.rs:211-348 | test2's initial network keeps the whole tie invariant and every degree is its formal plus its informal degree |
| FlatInit.FlatInitialNetwork | test2/src/scenario.rs:211-348 | initialize_network computes the initial ties, the additions still owed, the levels and the level range |
| FlatRewiring.CapIdleBelowIt | test2/src/scenario.rs:611-619 | test2's formation guard has no informal cap; while every informal counter is under the cap, it admits what the capped guard admits |
| FlatRewiring.OpenRound | test2/src/scenario.rs:607-649 | a formation round forms the chosen pair, falls back exactly when the weights sum to 0, and keeps the dyad list a permutation |
| FlatRewiring.OpenRoundBelowCap | test2/src/scenario.rs:607-649 | below the cap everywhere, a test2 formation round is a primary one |
| FlatRewiring.OpenRoundKeepsConsistent | test2/src/scenario.rs:607-649 | a formation round without fallback keeps the tie invariant |
| FlatRewiring.Openings | test2/src/scenario.rs:606-651 | formation rounds keep formal ties, the mask and the formal counters, and the dyad list a permutation |
| FlatRewiring.OpeningsStep | test2/src/scenario.rs:606-651 | one more round applies the round to the state the earlier rounds left |
| FlatRewiring.OpenWeightsOf | test2/src/scenario.rs:608-621 | the weight loop computes the admitted weights and their sum |
| FlatRewiring.OpenChoice | test2/src/scenario.rs:622-648 | the choice loop picks the round's dyad and leaves its list |
| FlatRewiring.FlatTieFormation | test2/src/scenario.rs:606-651 | do_tie_formation performs the formation rounds |
| FlatRewiring.PositiveCutMax | test2/src/scenario.rs:551-562 | the running maximum bounds every informal weight seen |
| FlatRewiring.PositiveCutMaxNext | test2/src/scenario.rs:553-561 | one more dyad raises the maximum exactly when it is an informal tie above it |
| FlatRewiring.PositiveCutMaxClamps | test2/src/scenario.rs:551 | starting from the smallest positive double instead of the most negative one only raises a maximum below it |
| FlatRewiring.BreakProbabilitiesAgree | test2/src/scenario.rs:551-571 | both starting values give the same break probabilities unless some informal weight lies strictly between 0 and the smallest positive double |
| FlatRewiring.PositiveBreakRound | test2/src/scenario.rs:549-602 | a break round cuts the chosen pair, falls back exactly when the inverted weights sum to 0, and keeps the dyad list a permutation |
| FlatRewiring.PositiveBreakRoundKeepsConsistent | test2/src/scenario.rs:549-602 | a break round without fallback keeps the tie invariant |
| FlatRewiring.PositiveBreakRoundAgrees | test2/src/scenario.rs:549-602 | without such tiny weights, a test2 break round is a primary one |
| FlatRewiring.PositiveBreaks | test2/src/scenario.rs:548-603 | break rounds keep formal ties, the mask and the formal counters, and the dyad list a permutation |
| FlatRewiring.PositiveBreaksStep | test2/src/scenario.rs:548-603 | one more round applies the round to the state the earlier rounds left |
| FlatRewiring.PositiveBreakWeightsOf | test2/src/scenario.rs:550-562 | the weight loop computes the informal weights and their running maximum |
| FlatRewiring.InformalWeightOf | test2/src/scenario.rs:556-561 | a dyad's weight is its rewiring weight when informal and 0 otherwise |
| FlatRewiring.PositiveBreakChoice | test2/src/scenario.rs:564-600 | the choice loop picks the round's dyad and leaves its list |
| FlatRewiring.FlatTieBreak | test2/src/scenario.rs:548-603 | do_tie_break performs the break rounds |
| FlatRewiring.VisitDyad | test2/src/scenario.rs:661-688 | the loop body computes the visit of the primary model |
| FlatRewiring.RandomPass | test2/src/scenario.rs:658-692 | the inner loop computes one pass |
| FlatRewiring.RandomRewiring | test2/src/scenario.rs:654-699 | the outer loop computes the passes and reports completion exactly when both counts reach 0 |
| FlatRewiring.FlatAfterRewiring | test2/src/scenario.rs:538-545 | do_rewiring, random or breaks then formations, keeps formal ties, the mask and the formal counters |
| FlatRewiring.FlatRewiringKeepsConsistent | test2/src/scenario.rs:538-545 | rewiring keeps the tie invariant unless a directed round fell back; random passes never do |
| FlatRewiring.RandomRewiringShared | test2/src/scenario.rs:654-699 | test2's random rewiring is the primary variant's on the same shuffles |
| FlatRewiring.FlatDoRewiring | test2/src/scenario.rs:538-545 | the method computes the rewiring |
| FlatBeliefs.Bundled | test2/src/scenario.rs:351-364 | a flat row of M bits read as M_OF_BUNDLE bundles of M_IN_BUNDLE bits: bit e of bundle b is bit b * M_IN_BUNDLE + e |
| FlatBeliefs.Position | test2/src/scenario.rs:353-356 | every bit lies in exactly one bundle, at its quotient and remainder by M_IN_BUNDLE |
| FlatBeliefs.BundledInjective | test2/src/scenario.rs:351-364 | two rows with the same bundles are equal, so the bundled view loses nothing |
| FlatBeliefs.BundleAgrees | test2/src/scenario.rs:753-759 | the inner loop reports a match exactly when the belief equals reality on the bundle's range |
| FlatBeliefs.BundleMatches | test2/src/scenario.rs:751-759 | a bundle matches exactly when the bundled belief equals the bundled reality there |
| FlatBeliefs.MatchingNext | test2/src/scenario.rs:750-764 | one more bundle adds one to the matched count exactly when it matches |
| FlatBeliefs.GetPerformance | test2/src/scenario.rs:747-766 | get_performance is the bundled score of the primary model: M_IN_BUNDLE per bundle matched whole |
| FlatBeliefs.Agreements | test2/src/scenario.rs:769-777 | the agreeing positions are at most k, and all k agree exactly when the prefixes are equal |
| FlatBeliefs.GetPerformanceS1 | test2/src/scenario.rs:769-777 | get_performance_s1 counts the bits on which belief and reality agree |
| FlatBeliefs.AgreementsAreBundles | test2/src/scenario.rs:780-786 | with one-bit bundles, the agreeing bits are the matched bundles, so both branches compute the same score |
| FlatBeliefs.ScoreRange | test2/src/scenario.rs:780-786 | either branch gives the bundled score: a multiple of M_IN_BUNDLE, at most M, and M exactly when the belief is reality |
| FlatBeliefs.SetPerformanceSingle | test2/src/scenario.rs:780-786 | the score of one agent is the bundled score of its beliefs |
| FlatBeliefs.SetPerformance | test2/src/scenario.rs:789-793 | every agent's score is recomputed from its beliefs |
| FlatBeliefs.TurbulenceFlips | test2/src/scenario.rs:848-854 | exactly the bits drawn under the rate flip, the same draws twice restore reality, and a rate of 0 or less changes nothing |
| FlatBeliefs.DoTurbulence | test2/src/scenario.rs:848-854 | the loop flips exactly those bits; the scores are not recomputed |
| FlatLearning.SilentAtTop | test2/src/scenario.rs:711-723 | nobody outscoring the focal agent, every count stays 0 |
| FlatLearning.TallyBounds | test2/src/scenario.rs:711-723 | each visited target moves a count by at most one |
| FlatLearning.Buffer | test2/src/scenario.rs:707-731 | a buffered bit differs from the belief exactly when the count points strictly away from it, and then it takes the count's side |
| FlatLearning.FlatLearned | test2/src/scenario.rs:702-744 | bit by bit, learning is the primary model's update rule on the flat rows |
| FlatLearning.TopKeepsBeliefs | test2/src/scenario.rs:702-744 | an agent nobody outscores keeps every belief |
| FlatLearning.NoFlatLearningWithoutProbability | test2/src/scenario.rs:737 | with P_LEARNING at most 0 nobody changes a belief |
| FlatLearning.DrawnBitFollowsCount | test2/src/scenario.rs:726-741 | a bit with a non-zero count whose draw is under P_LEARNING ends on the count's side |
| FlatLearning.TallyOf | test2/src/scenario.rs:711-723 | the tally loop gives every count |
| FlatLearning.AddVotes | test2/src/scenario.rs:715-721 | one better neighbour adds +1 per true bit and -1 per false one |
| FlatLearning.BufferOf | test2/src/scenario.rs:707-731 | the first loop builds the buffer |
| FlatLearning.Adopt | test2/src/scenario.rs:735-741 | each differing buffered bit is adopted exactly when its draw is under P_LEARNING |
| FlatLearning.DoLearning | test2/src/scenario.rs:702-744 | learning returns the learned beliefs and their scores |
| FlatLearning.TurnoverAsWritten | test2/src/scenario.rs:834-845 | do_turnover as written writes column M of rows 0 .. M-1, failing where that index is out of range |
| FlatLearning.TurnoverAsWrittenPanics | test2/src/scenario.rs:838-839 | with rows M wide, the first agent drawn under the rate makes the write panic |
| FlatLearning.TurnoverAsWrittenReplacesNobody | test2/src/scenario.rs:838-839 | when it does not panic it changes none of the first M bits of any agent |
| FlatLearning.FlatReplacedAgents | test2/src/scenario.rs:834-845 | exactly the agents drawn under the rate are replaced; rate at most 0 replaces nobody, at least 1 everybody |
| FlatLearning.DoTurnover | test2/src/scenario.rs:834-845 | the corrected turnover replaces the drawn agents and rescores them; other scores are left as they were |
| FlatStep.FlatMeanRange | test2/src/scenario.rs:434-437 | the mean score over M * N lies in [0, 1], and is 1 exactly when every belief is reality |
| FlatStep.StepForward | test2/src/scenario.rs:414-420 | learning, the mean score of the learned beliefs, then turnover when its rate is positive; ties, dyads and reality are untouched and every score matches its beliefs |
| FlatStep.Rewired | test2/src/scenario.rs:386-395 | the ties and dyads are rewired only when post-rewiring and rewiring are both on; formal ties and the mask never change |
| FlatStep.RewiredKeepsConsistent | test2/src/scenario.rs:386-395 | a rewiring step keeps the tie invariant unless a directed round fell back; random passes never fall back |
| FlatStep.StepForwardNumFormationBreak | test2/src/scenario.rs:386-397 | the rewiring step, then step_forward on the rewired network |
| FlatStep.StepForwardTieTurnover | test2/src/scenario.rs:400-411 | the rewiring step with tie_turnover formations and tie_turnover breaks, then step_forward on the rewired network: new ties and dyads, learned (and replaced) beliefs, their scores and the mean; the tie invariant is kept when no round fell back |
| FlatStep.Turbulence | test2/src/scenario.rs:848-854 | turbulence changes reality only and leaves the scores stale |

## Left out

- Random number generation: every `rng.gen` draw and every shuffle is an input. Where the source draws a number only when an earlier condition holds (the `&&` in the HashSet learning loop, the enforcement of an addition), the model gives each position its own draw. The outcome for given draws is the same, but the stream of draws is not.
- Floating point: weights, shares and averages are exact reals. The roulette's rounding of the running share, and a share that never reaches the marker because of rounding, are not modelled.
- `f64::MIN_POSITIVE` in test2's break loop is a positive constant `MinPositive`, not the IEEE value.
- A closure weight whose denominator is 0 happens only after the counters drift. The model gives it weight 0, where the source divides to infinity or NaN.
- HashSet iteration order: the source's order is unspecified. Iterations over a neighbour set either take an arbitrary enumeration as input (analyzer, learning tally) or list the set in ascending order (`ListInformal`). The lemmas show which results do not depend on the order.
- The HashSet and test2 scenarios are modelled on values, not as classes. Their methods return the new ties and beliefs, so updating one shared object in place is not captured. The primary scenario is the class.
- Endless loops: the random-rewiring loop, the additional-links loop and a tie break with no informal tie left can repeat forever in the source. The model runs them over a finite list of shuffles, or reports "stuck". For the additional-links loop it proves, in all three variants, that a pass ending with additions still owed is followed by passes that add nothing, so the source would not stop (`Initial.ShortPassRepeatsForever`, `SetScenario.ShortPassRepeatsForever`, `FlatInit.AdmissionsRepeatForever`); `SaturatedPassStalls` does the same for the random-rewiring loop.
- `DO_POST_REWIRING` is not defined in test2's `params.rs`, so the test2 step methods take it as a parameter.
- test2's `get_clone`, `get_clone_with_params`, `set_network_params`, `initialize`, `initialize_entity` and `initialize_outcome` are not modelled separately. They mirror the primary ones, which are modelled.
- test2's `set_outcome` network metrics are not recomputed in `FlatStep`: that step returns only the mean score. The analyzer is modelled once, for the primary variant, and linked to the HashSet analyzer.
- test2's `set_preference_score` family (lines 441-505) computes scores that no other code reads. It is not modelled.
- `print_csv`, `export_network_csv`, experiment managers, HDF5 output, `main.rs`, `test1`, `PARAM_STRING` and `FILE_NAME` are file I/O or drivers, and are not modelled.
- The analyzer's betweenness bookkeeping (sigma and delta) and the diameter are computed but never read. They are not modelled.
- `TRIADIC_CENTRALIZATION_DENOMINATOR` is defined nowhere in the repository, so only the triadic numerator is modelled (`TriadicNumeratorNonnegative`).
- The primary `scenario.rs` calls `set_network_metrics()` at line 375 without the network that `network_analyzer.rs` line 63 takes. The model passes the network explicitly.
- Width of integers: in FDFirstRust the degree counters are `Vec<isize>` (FDFirstRust/src/scenario.rs:46-48), so a `-= 1` below 0 just gives a negative count, as the model's `int` does; the model is exact there. In test2 they are `Vec<usize>` (test2/src/scenario.rs:45-47). While the tie invariant holds no counter can fall below 0, but after a directed break has fallen back on a formal tie (`Rewiring.BreakFallbackHitsFormal`) a later `-= 1` (test2/src/scenario.rs:594-597) can take a test2 counter below 0. There test2 panics (debug build) or wraps around (release build); the model lets the counter go negative and does not model the panic or the wrap for test2.
- SetLearning.SetLearnedIsLearned: the agreement with the matrix model is proved only for symmetric neighbour sets, which is what the HashSet scenario keeps.
- SetScenario.DoTieBreak: when no informal tie is left, the model reports it and later rounds cut nothing. The source loops forever.
- FlatStep.StepForward: uses the corrected turnover, not the one as written (see Findings).
- FlatStep.StepForwardNumFormationBreak: runs FlatStep.StepForward, so it uses the corrected turnover too.
- FlatStep.StepForwardTieTurnover: runs FlatStep.StepForward, so it uses the corrected turnover too.
- The main scenario runs the corrected halves of the first three Findings rows: the whole-bundle score instead of the prefix score of FDFirstRust/src/scenario.rs:669-675, the ring with one tie per pair of siblings instead of the double-counted ring of two at lines 242-252 (test2 lines 244-258), and the mask of every pair more than one level apart instead of the diagonal-only mask at lines 320-329 (test2 lines 336-345). The members below therefore promise less than the source as written. As written, the ring of two leaves agents 1 and 2 with degree counters one above their rows; the mask leaves pairs two levels apart formable; and the score lets performance_avg reach M_IN_BUNDLE and can make an agent superior on a partial bundle.
- Hierarchy.BlockStep: its counters are those of the intended ring; with LINK_LEVEL and a block of two the source's counters exceed the rows.
- Hierarchy.LinkBlock: links the intended ring, not the double-counted ring of two.
- Hierarchy.FillLevel: DegreesMatch holds for the intended ring only.
- Hierarchy.DescendLevels: DegreesMatch holds for the intended ring only.
- Hierarchy.BuildHierarchy: builds the intended ring; the counters equal the rows only for it.
- Initial.InitialPartitioned: "counters match the rows when no addition was made" holds for the intended ring only.
- FlatInit.FlatInitialConsistent: the counters match because the intended ring is built.
- FlatInit.FlatInitialNetwork: builds the intended ring and the intended LIMIT_LEVEL mask.
- Simulation.InitialNetwork: builds the intended ring and the intended LIMIT_LEVEL mask.
- Simulation.MeanPerformanceRange: [0, 1] holds for the whole-bundle score; with the prefix score performance_avg can reach M_IN_BUNDLE.
- Simulation.Scenario.constructor: initialises with the intended ring, mask and score.
- Simulation.Scenario.GetClone: its mask is the intended LIMIT_LEVEL mask.
- Simulation.Scenario.Fresh: initialises with the intended ring, mask and score.
- Simulation.Scenario.GetCloneWithParams: inherits GetClone's intended mask.
- Simulation.Scenario.InitializeNetwork: the fields equal the initial state with the intended ring and mask.
- Simulation.Scenario.InitializeOutcome: scores with the whole-bundle score.
- Simulation.Scenario.Initialize: its three steps use the intended ring, mask and score.
- Simulation.Scenario.StepForward: learning and rescoring use the whole-bundle score.
- Simulation.Scenario.LearningStep: scores and superiority come from the whole-bundle score.
- Simulation.Scenario.TurnoverStep: replaced agents are rescored with the whole-bundle score.
- Simulation.Scenario.DoLearning: superior and inferior neighbours, and the rescoring, use the whole-bundle score.
- Simulation.Scenario.DoTurnover: rescores with the whole-bundle score.
- Simulation.Scenario.DoTurbulence: rescores with the whole-bundle score.
- Simulation.Scenario.SetPerformanceOf: stores the whole-bundle score where set_performance_of stores the prefix score.
- Simulation.Scenario.SetPerformance: sets every score to the whole-bundle score.

## Findings

| source | as written | input that shows it | evidently intended | confidence | as-written member | corrected member |
|---|---|---|---|---|---|---|
| FDFirstRust/src/scenario.rs:669-675 | `get_performance_of` adds M_IN_BUNDLE for every element of the matching prefix, not once per bundle matched whole | reality [[true, true]], belief [[true, false]], M_IN_BUNDLE = 2: scores 2 instead of 0; a perfect belief scores M_IN_BUNDLE * M | M_IN_BUNDLE per bundle whose every element matches, so the score lies in [0, M] | not executed | Beliefs.PerformanceAsWrittenOvercounts | Beliefs.PerformanceRange |
| FDFirstRust/src/scenario.rs:242-252 | the LINK_LEVEL ring links i to (i + 1) mod k for every child, so with two children the pair is visited twice and its counters are raised twice | span 2, N = 3, LINK_LEVEL on: agents 1 and 2 end with degree counters one above their row counts | one ring tie per pair of siblings, the counters matching the rows | not executed | Hierarchy.RingOfTwoOvercounts | Hierarchy.IntendedRing |
| FDFirstRust/src/scenario.rs:320-329 | LIMIT_LEVEL sets only `network_limited[focal][focal]`, the diagonal, so no pair of agents is ever masked | levels [1, 2, 3], dyad (0, 2): two levels apart, yet still formable | mask every pair whose levels differ by more than one | not executed | Initial.AsWrittenMaskLeavesGap | Initial.MaskedNeverFormable |
| test2/src/scenario.rs:834-845 | `do_turnover` writes `belief_of[m][M]` for m in 0..M: it indexes rows by bit and columns out of range | any run with turnover_rate > 0 and a draw under it: rows M wide make the write panic; wider rows are written at column M and nobody is replaced | agent i's M bits take the newcomer's beliefs | not executed | FlatLearning.TurnoverAsWrittenPanics | FlatLearning.FlatReplacedAgents |
