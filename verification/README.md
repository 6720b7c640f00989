# Route assignment: cost model, search and QUBO encoders

This project models the core of a traffic route-assignment code base in
Dafny and proves properties of that model. Each demand (an
origin–destination pair) is given a list of candidate paths. A *state*
picks one candidate per demand. The code then does the following:

- **Scoring.** It scores a state by travel time plus a congestion penalty
  `coef·max(0, load − cap)^power` per edge (`src/formulation.py`). Loads
  are counted over sorted edge keys.
- **Moves.** It draws random states and single-demand neighbour moves.
- **Two QUBO encoders.**
  - `src/formulation.py` builds an upper-triangular map `Q[(a, b)]` over
    dense variable indices.
  - `src/qubo_formulation.py` builds a dimod binary quadratic model: an
    offset, linear biases, and interactions over unordered pairs.
- **Baselines.** It scores two baselines through the same cost functions
  (`src/baselines.py`): the lightest candidate per demand, and a seeded
  uniform choice.
- **Annealing.** It runs a simulated-annealing loop over whole paths
  (`src/annealing.py`). That loop is scored by the older cost path of
  `src/metrics.py` and `src/traffic_sim.py`.
- **Reporting.** It reports the total load above capacity
  (`final_violations` in `src/param_grid.py` and `src/quick_sweep.py`).

How the source is represented:

- **Graph.** A graph is a `Graph` value (module `Graphs`): its nodes, and
  its edges in `G.edges` order with optional attributes.
- **Paths.** A path is a sequence of nodes.
- **Randomness.** Every random draw is an explicit input: a sequence of
  draws, or a `Draw` record per annealing episode.
- **Mutation.** Code that mutates state becomes imperative Dafny.
  - The loops become methods with loop invariants.
  - Each method is proved against a specification function.
  - The dimod model is a class `QuboBqm.Bqm` whose methods
    `AddToOffset`, `AddVariable` and `AddInteraction` update its fields in
    place. `QuboBuild.BuildQubo` drives that class with the source's
    nested loops.
- **Pure code.** Comprehensions become functions.

Both encoders carry a `Variant` parameter:

- `AsWritten` computes exactly what the source computes.
- `Corrected` applies the corrections listed under "## Findings".

Properties are proved for both variants wherever they hold for both.

## Where the code and its description differ

The model follows the code in each case below.

- **One-path penalty in `src/qubo_formulation.py`.** The linear bias is
  `−2α` (line 22). The standard expansion of `α(1 − Σx)²` folds `x² = x`
  into a linear bias of `−α`. See finding F2.
- **Capacity penalty in `src/qubo_formulation.py`.** Lines 36-40 visit
  every ordered pair of entries. Each unordered pair therefore gets
  `4β·c·c'` rather than `2β·c·c'`. See finding F3.
- **One-choice block in `src/formulation.py`.**
  - The diagonal nets 0: `+P` at line 155, then `−P` at line 161.
  - Each same-demand pair gets `−P` (line 158).
  - The block is therefore not the penalty `P(Σx − 1)²`. See finding F1.
- **Congestion term in `src/formulation.py`.**
  - The QUBO congestion term is `coef·(k − cap)²` less a constant.
  - The objective it stands for uses `max(0, load − cap)^power`. The QUBO
    also charges loads below capacity: `TinyQubo.TinyQuboChargesWithinCapacity`
    shows a state within capacity whose corrected energy is not its
    objective less the constraint constant.
  - A missing capacity counts as 0 here (line 138), as 1 in
    `src/qubo_formulation.py` (line 29), and as infinite in
    `objective_cost` (line 71).
- **Annealing.**
  - The loop moves whole paths.
  - It is scored by `metrics.cost_function` (length·load + 5·excess), not
    by `objective_cost`.
  - It makes one move per episode and emits no per-episode record.
- **Import binding in `src/baselines.py`.** The file imports
  `compute_edge_loads_from_state`, `objective_cost` and
  `compute_capacity_violation` from `src/annealing.py`, which defines none
  of them.
  - The first two are bound to `src/formulation.py`.
  - The third is bound to the violation sum of `src/param_grid.py`.
- **Malformed paths.** A path with a hop that is not a graph edge makes
  the code raise an exception.
  - In `path_travel_time` it is `AttributeError`: `G.get_edge_data`
    returns `None` and `None.get` fails (src/formulation.py:50-51).
  - Where a loads or usage dictionary is indexed it is `KeyError`
    (src/formulation.py:43, src/param_grid.py:21).
  - The model requires paths to stay on the graph instead.
- **Missing attributes.** `G[u][v]["weight"]` (src/baselines.py:18),
  `G[u][w]["capacity"]` (src/param_grid.py:24) and
  `G[u][v]['length']`, `G[u][v]['capacity']` (src/metrics.py:4-5) raise
  `KeyError` on an edge without that attribute. The predicates
  `Baselines.HasWeights`, `ParamGrid.HasCapacities` and
  `Metrics.HasLengthAndCapacity` require every edge to carry it, and so
  stand for that `KeyError`.
- **Too few nodes.** `random.sample(nodes, 2)` raises `ValueError` on
  fewer than two nodes (src/traffic_sim.py:8, src/param_grid.py:14).
  `GenerateDemand` and `SampleDemands` require two nodes only when at
  least one demand is drawn, since with none `sample` is never called.
- **No episodes.** `simulated_annealing` divides by `episodes * 1.5`
  (src/annealing.py:14) and raises `ZeroDivisionError` when there are
  none. `Annealing.SimulatedAnnealing` requires `episodes > 0`.
- **Empty lists.** On an empty list the source raises `ValueError`, and
  these members require the list to be non-empty instead:
  - `Formulation.RandomInitialState` requires every candidate list to be
    non-empty: `random.randrange(0)` fails (src/formulation.py:79).
  - `Formulation.SaNeighbor` requires a non-empty state:
    `random.randrange(len(state))` fails on `[]` (src/formulation.py:87).
  - `Baselines.ShortestIndex`, `Baselines.ShortestState` and
    `Baselines.ShortestPathBaseline` require non-empty candidate lists:
    `min` of an empty `range` fails (src/baselines.py:16-19).
  - `Baselines.RandomRoutingBaseline` requires non-empty candidate lists:
    `rnd.randrange(0)` fails (src/baselines.py:35).
  - `Annealing.SimulatedAnnealing` requires a non-empty demand list:
    `random.randint(0, -1)` fails (src/annealing.py:19).

## Model

| member | source | states |
|---|---|---|
| Graphs.Canon | src/formulation.py:42 | The key of a hop is its two endpoints with the smaller one first, whichever way the hop runs. |
| Graphs.Hops | src/formulation.py:41 | The hops of a path are its consecutive node pairs: one fewer than its nodes, none for a path of 0 or 1 node. |
| Graphs.LookupSpec | src/formulation.py:50 | `G.get_edge_data(u, v)` finds data exactly when some edge has that key, and returns that edge's data. |
| Graphs.Usage | src/param_grid.py:17-21 | The usage dictionary has exactly the sorted edge keys as its keys. |
| Graphs.CountKeySwapRev | src/formulation.py:41-43 | Walking a path backwards leaves every key's hop count unchanged. |
| Graphs.SampleIndices | src/traffic_sim.py:8 | `random.sample(nodes, 2)` picks two distinct positions in range. |
| Graphs.SampleIndicesReachAll | src/traffic_sim.py:8 | Every ordered pair of distinct positions is picked by some draw. |
| Graphs.SamplePair | src/traffic_sim.py:8 | The sampled pair has different endpoints when the nodes are distinct. |
| Graphs.SampleDemands | src/param_grid.py:11-14 | `build_random_demand` returns one pair per draw, each with distinct endpoints. Two nodes are needed only when some pair is drawn. The copy at src/quick_sweep.py:11-14 has the same text. |
| Formulation.ChosenPaths | src/quick_sweep.py:18 | The chosen paths are `candidate_lists[i][state[i]]`, one per demand. |
| Formulation.ComputeEdgeLoadsFromState | src/formulation.py:33-44 | The loop returns the sorted-key load map of the state: every edge key, plus one per chosen hop on that key. |
| Formulation.CountPathHops | src/formulation.py:41-43 | The inner loop adds path i's hops to the loads of paths 0..i − 1 and keeps the key set. |
| Formulation.UnusedEdgeHasZeroLoad | src/formulation.py:37 | An edge that no chosen path walks, in either direction, has load 0. |
| Formulation.LoadsIgnoreDirection | src/formulation.py:42 | Reversing a chosen path changes no load. |
| Formulation.LoadsSumToHops | src/formulation.py:37-43 | Summed over the edges, the loads equal the total number of chosen hops. |
| Formulation.PathTravelTime | src/formulation.py:46-52 | The loop returns the sum of the hop times, and 0 for a path of at most one node. |
| Formulation.TravelTimeSplit | src/formulation.py:49-51 | Travel time splits into the two parts of a path cut at any node. |
| Formulation.TravelTimeReverse | src/formulation.py:50 | A path costs the same walked backwards (the graph is undirected). |
| Formulation.TravelTimeWithoutTimes | src/formulation.py:51 | With no time attribute anywhere, each hop counts 1, so travel time is the hop count. |
| Formulation.Excess | src/formulation.py:71-72 | The excess is never negative, and is positive exactly when a capacity exists and the load exceeds it. A missing capacity is infinite. |
| Formulation.EdgePenaltySign | src/formulation.py:71-73 | The penalty of an edge is ≥ 0 for coef ≥ 0. For power > 0 it is 0 on an edge without capacity; at power 0, `0.0 ** 0` is 1, so such an edge is charged coef. With coef > 0 and power > 0 it is 0 exactly when the edge is within capacity. |
| Formulation.CongestionPenalty | src/formulation.py:69-73 | The penalty loop returns the sum of the per-edge penalties in `G.edges` order. |
| Formulation.ObjectiveCost | src/formulation.py:54-75 | `objective_cost` is the travel cost of the chosen paths plus the congestion penalty of their loads. |
| Formulation.PenaltyBounds | src/formulation.py:73 | The penalty is ≥ 0 for a non-negative coefficient and grows with the coefficient. |
| Formulation.PenaltyZeroCoef | src/formulation.py:73 | With coefficient 0 the penalty is 0. |
| Formulation.PenaltyZeroIff | src/formulation.py:69-73 | With coef > 0 and power > 0, the penalty is 0 exactly when no edge is overloaded. |
| Formulation.ObjectiveAtLeastTravel | src/formulation.py:54-75 | With coef ≥ 0 the objective is at least the travel cost, and a larger coefficient never lowers it. |
| Formulation.ObjectiveZeroCoef | src/formulation.py:54-75 | With coef = 0 the objective equals the travel cost. |
| Formulation.ObjectiveIsTravelIffNoOverload | src/formulation.py:54-75 | With coef > 0 and power > 0, the objective equals the travel cost exactly when no edge is overloaded. |
| Formulation.RandomInitialState | src/formulation.py:77-79 | The random initial state has one in-range index per demand. |
| Formulation.RandomInitialStateReachesAll | src/formulation.py:79 | Every valid state is produced by some draw. |
| Formulation.Alternatives | src/formulation.py:88-91 | `choices` minus the current index: every other index below n, each exactly once, in ascending order. |
| Formulation.SaNeighbor | src/formulation.py:81-93 | The neighbour has the same length and is a valid state. It agrees with the input except at the picked demand. It equals the input when that demand has at most one candidate, and otherwise changes that entry to a different index. |
| FormulationQubo.Vars | src/formulation.py:110-113 | The loop visits the (i, p) pairs in order. Visit q holds a valid pair whose index `Σ_{j<i} len(P_j) + p` is q. |
| FormulationQubo.VarsAt | src/formulation.py:108-113 | Every valid pair's index is below N, and the pair sits at that index, so the index map is a bijection onto 0..N − 1. |
| FormulationQubo.BuildVarIdx | src/formulation.py:108-113 | The loop builds exactly the valid pairs as keys, each mapped to its dense index, and ends with `idx = N`. |
| FormulationQubo.Ordered | src/formulation.py:118-119 | The swap yields the same two indices with the smaller first. |
| FormulationQubo.AccumulateAdds | src/formulation.py:117-120 | `q_add` only ever adds. Every entry is its initial value plus the values of the terms on its key. Every key is ordered, and exactly the keys some term lands on are added. |
| FormulationQubo.AccumulateAppend | src/formulation.py:117-120 | Adding two lists of terms is adding the first, then the second. |
| FormulationQubo.AccumulateEnergy | src/formulation.py:115-120 | On a 0/1 selection, the value of the accumulated Q is the sum of the terms' values. |
| FormulationQubo.QAddEnergy | src/formulation.py:117-120 | One `q_add(a, b, val)` raises the value by `val·x_a·x_b`. |
| FormulationQubo.GridKeysComplete | src/formulation.py:115 | The upper-triangular key list has no repeats and holds every key (a, b) with a ≤ b < n. |
| FormulationQubo.DiagEnergy | src/formulation.py:141-143 | A diagonal block of weight w is worth w times the number of selected variables. |
| FormulationQubo.PairEnergy | src/formulation.py:144-148 | A pair block of weight w is worth w times the number of selected pairs. |
| FormulationBuild.AddTravelTerms | src/formulation.py:122-126 | The travel loop adds, in index order, each variable's path travel time on its diagonal. |
| FormulationBuild.TravelStep | src/formulation.py:123-126 | One turn of the travel loop adds variable k's term. |
| FormulationBuild.TravelCoefficients | src/formulation.py:122-126 | The travel phase alone puts exactly variable q's travel time on (q, q), and nothing off the diagonal. |
| FormulationBuild.HopIncidences | src/formulation.py:133-135 | One append per hop, under the hop's key, of the variable. |
| FormulationBuild.GroupKeys | src/formulation.py:130 | The defaultdict's keys are distinct, and are exactly the keys some append used. |
| FormulationBuild.MembersOfAbsent | src/formulation.py:130 | A key never appended to has no members. |
| FormulationBuild.GroupStep | src/formulation.py:135 | One append extends an existing key's list, or adds a new key with a one-element list. |
| FormulationBuild.GroupEdgeVars | src/formulation.py:130-135 | The `edge_to_vars` loop yields the keys in first-append order, with each key's variables in append order. |
| FormulationBuild.FileVariable | src/formulation.py:131-135 | One outer turn files variable k's hops. |
| FormulationBuild.AppendHops | src/formulation.py:133-135 | The inner loop files every hop of one path. |
| FormulationBuild.HopKeyAdjacent | src/formulation.py:134 | The key a hop is filed under is a graph edge, so the capacity lookup succeeds. |
| FormulationBuild.HopKeyDirections | src/formulation.py:134 | As written, the two directions of one edge are filed under two different keys. Corrected, both share the sorted key. |
| FormulationValue.AsWrittenSplitsOpposite | src/formulation.py:130-161 | Two demands whose only candidates cross edge u–v in opposite directions, both selected: as written their hops form two singleton groups worth 2·coef·((1 − cap)² − cap²), corrected they form one group worth coef·((2 − cap)² − cap²), and the two differ by exactly the coupling 2·coef. |
| FormulationBuild.CorrectedFilesByLoadKey | src/formulation.py:133-135 | Corrected, a path's hops are filed under key k exactly as often as they cross edge k in the loads, in either direction. |
| FormulationBuild.IncidencesOnGraph | src/formulation.py:131-135 | Every filed key is a graph edge and every filed variable is below the number filed. |
| FormulationBuild.GroupKeysOnGraph | src/formulation.py:137-138 | Every key of `edge_to_vars` is a graph edge. |
| FormulationBuild.AddDiag | src/formulation.py:141-143 | The diagonal loop adds weight w on each listed variable, in order. |
| FormulationBuild.AddPairs | src/formulation.py:144-148 | The nested pair loop adds weight w on every pair i1 < i2, row by row. |
| FormulationBuild.AddPairRow | src/formulation.py:145-148 | The inner pair loop adds row i1. |
| FormulationBuild.PairRowStep | src/formulation.py:146-148 | One inner turn adds the term (vs[i1], vs[i2]). |
| FormulationBuild.AddCongestionTerms | src/formulation.py:137-148 | The edge loop adds, key by key, `coef·(1 − 2·cap)` per variable and `2·coef` per pair, with a missing capacity as 0. |
| FormulationBuild.CongestionStep | src/formulation.py:137-148 | One turn of the edge loop adds that edge's block. |
| FormulationBuild.AddEdgeTerms | src/formulation.py:141-148 | The two loops for one edge add its diagonal and pair terms. |
| FormulationBuild.BlockVars | src/formulation.py:153 | `vars_i` lists demand i's variables, one per candidate. |
| FormulationBuild.BlockIndices | src/formulation.py:153 | The comprehension over `var_idx` returns demand i's block of variables. |
| FormulationBuild.AddChoiceTerms | src/formulation.py:151-161 | The constraint loop adds each demand's block, in demand order. |
| FormulationBuild.AddDemandBlock | src/formulation.py:152-161 | One turn of the constraint loop adds demand i's block. |
| FormulationBuild.AddChoiceBlock | src/formulation.py:154-161 | The three loops of a block add the diagonal, pair and second diagonal terms. |
| FormulationBuild.BuildQubo | src/formulation.py:97-161 | `build_qubo` returns the map the travel, congestion and constraint `q_add` calls accumulate from empty. Every key is ordered, and `var_idx` is the dense bijection. |
| FormulationEnergy.EdgeEnergy | src/formulation.py:137-149 | An edge block with k selected variables is worth `coef·((k − cap)² − cap²)`: the congestion square less the omitted constant. |
| FormulationEnergy.ChoiceEnergy | src/formulation.py:152-161 | A demand block with k selected variables is worth ChoiceCost(k). As written that is −P·k(k − 1)/2. Corrected it is P·((k − 1)² − 1). |
| FormulationEnergy.AsWrittenRewardsSeveral | src/formulation.py:152-161 | As written, with P > 0, one selected candidate is worth 0 and two or more are worth at most −P. |
| FormulationEnergy.CorrectedExactlyOne | src/formulation.py:152-161 | Corrected, the block is never below −P and equals −P exactly when one candidate is selected. |
| FormulationEnergy.ChoiceAsWrittenRewardsSeveral | src/formulation.py:152-161 | The same, on the block's terms: as written, selecting several candidates of a demand lowers the energy below selecting one. |
| FormulationEnergy.ChoiceCorrectedExactlyOne | src/formulation.py:152-161 | Corrected, the block's terms are worth at least −P, and exactly −P when one candidate is selected. |
| FormulationValue.TravelTermsEnergy | src/formulation.py:122-126 | The travel terms of the first n variables are worth the summed travel times of the selected ones. |
| FormulationValue.CongestionTermsEnergy | src/formulation.py:137-149 | The congestion terms are worth, key by key, coef·((k − cap)² − cap²) with k members of the key's group selected. |
| FormulationValue.ChoiceTermsEnergy | src/formulation.py:151-161 | The constraint terms are worth, demand by demand, ChoiceCost at the number of the demand's variables selected. |
| FormulationValue.QuboTermsBelow | src/formulation.py:117-161 | Every `q_add` of `build_qubo` names two variables below N, so the finished Q lies on the N × N grid. |
| FormulationValue.BuildQuboEnergy | src/formulation.py:108-161 | On any 0/1 selection, in either variant, the finished Q is worth three parts. The travel part is the selected variables' travel times. The congestion part is coef·((k − cap)² − cap²) per edge group at its selected count. The constraint part is each demand's block at its selected count. |
| FormulationValue.VarAtBlock | src/formulation.py:110-113 | Variable Σ_{j<i} len(P_j) + p is the pair (i, p). |
| FormulationValue.OneHotAt | src/formulation.py:110-113 | Within demand i's block, a state's one-hot vector sets exactly the variable of the chosen candidate. |
| FormulationValue.BlockSelected | src/formulation.py:153 | A state's one-hot vector selects exactly one variable of each demand's block. |
| FormulationValue.ChoiceOneHot | src/formulation.py:151-161 | Corrected, on a state's one-hot vector the constraint blocks of the first n demands total −P·n. |
| FormulationValue.AsWrittenChoiceOneHot | src/formulation.py:152-161 | As written, on a state's one-hot vector the constraint blocks total 0. |
| FormulationValue.MembersLoad | src/formulation.py:130-135 | Corrected, the selected members of key e's group count the selected variables' crossings of e. |
| FormulationValue.GroupLoad | src/formulation.py:130-135 | Corrected, on a state's one-hot vector, key e's group has as many selected members as the state's paths cross e. That is the load `compute_edge_loads_from_state` counts. |
| FormulationValue.CongestionOneHot | src/formulation.py:137-149 | Corrected, on a state's one-hot vector every group's block is charged at the state's load on its key. |
| FormulationValue.TravelOneHot | src/formulation.py:122-126 | The travel diagonal of a state's one-hot vector is worth the state's travel cost. |
| FormulationValue.CorrectedOneHotEnergy | src/formulation.py:97-161 | Corrected, the energy of a state's one-hot vector is its travel cost, plus coef·((load − cap)² − cap²) for every edge some candidate crosses, minus P per demand. |
| FormulationValue.CouplingGain | src/formulation.py:139-148 | One group holding two selected variables is worth 2·coef more than two groups holding one each. |
| TinyQubo.TinyIncidences | src/formulation.py:130-135 | On the triangle, corrected, variables 0 and 2 (A–B–C) are filed under A–B and B–C, and variables 1 and 3 (A–C) under A–C. |
| TinyQubo.TinyGroups | src/formulation.py:130-137 | The triangle's groups are A–B, B–C and A–C, in that order. |
| TinyQubo.TinyCongestion | src/formulation.py:137-149 | With every capacity 2, state [0, 0] is charged −8·coef of congestion by the corrected QUBO. |
| TinyQubo.TinyWithinCapacity | tests/test_formulation.py:8-24 | With every capacity 2, state [0, 0] overloads no edge, so the objective's penalty is 0. |
| TinyQubo.TinyObjective | tests/test_formulation.py:8-28 | With every capacity 2, the objective of state [0, 0] is 4 whatever the coefficient. |
| TinyQubo.TinyQuboChargesWithinCapacity | src/formulation.py:137-149 | With every capacity 2, state [0, 0] is within capacity, yet the corrected QUBO's energy is the objective less 8·coef and less 2P. The QUBO thus prices loads the objective does not charge. |
| QuboAlgebra.Bit | src/qubo_formulation.py:19 | A binary value is 0 or 1, and is 1 exactly when the variable is selected. |
| QuboAlgebra.PairsOfSelected | src/qubo_formulation.py:23-25 | With k selected entries there are k(k − 1)/2 selected pairs. |
| QuboAlgebra.SelIsCount | src/qubo_formulation.py:21-22 | The real count of selected entries is a whole number. |
| QuboAlgebra.OffByOneSquare | src/qubo_formulation.py:19 | (n − 1)² on a count n is 0 exactly at n = 1 and at least 1 elsewhere. |
| QuboBqm.TouchKeeps | src/qubo_formulation.py:37 | A variable dimod has not seen enters with bias 0 and changes no other bias. |
| QuboBqm.Bqm.constructor | src/qubo_formulation.py:12 | A new model is empty: offset 0, no linear bias, no interaction. |
| QuboBqm.Bqm.AddToOffset | src/qubo_formulation.py:20 | `bqm.offset += c` changes the offset by c and nothing else. |
| QuboBqm.Bqm.AddVariable | src/qubo_formulation.py:22 | `add_variable(v, b)` adds b to the bias of v. |
| QuboBqm.Bqm.AddInteraction | src/qubo_formulation.py:25 | `add_interaction(u, v, b)` adds b to the bias of {u, v} and makes both variables known. u ≠ v is required. |
| QuboBqm.ApplyAllAdds | src/qubo_formulation.py:17-25 | Every bias of the final model is its initial value plus what the changes added to it: nothing is overwritten. |
| QuboBqm.ApplyAllAppend | src/qubo_formulation.py:12-45 | Making two lists of changes is making the first, then the second. |
| QuboBqm.PairKeysDistinct | src/qubo_formulation.py:23-25 | The unordered pairs of distinct variables are listed once each, over the listed variables. |
| QuboBqm.PairKeysHas | src/qubo_formulation.py:25 | Every pair of distinct variables is listed. |
| QuboBqm.ApplyEnergy | src/qubo_formulation.py:20-25 | One change raises the energy by what it adds on the sample, and keeps the model within the variables. |
| QuboBqm.LinearEnergy | src/qubo_formulation.py:22 | A linear change adds its bias when its variable is set. |
| QuboBqm.InteractionEnergy | src/qubo_formulation.py:25 | An interaction adds its bias when both of its variables are set. |
| QuboBqm.ApplyAllEnergy | src/qubo_formulation.py:12-45 | The energy of the model the changes build is the sum of what each change adds. |
| QuboBqm.EnergyOfEmpty | src/qubo_formulation.py:12 | The new model has energy 0 on every sample. |
| QuboPenalties.UniformEnergy | src/qubo_formulation.py:21-25 | Changes that all carry bias b are worth b per change that fires. |
| QuboPenalties.LinearOpsEnergy | src/qubo_formulation.py:21-22 | The linear loop is worth b per set variable. |
| QuboPenalties.PairOpsEnergy | src/qubo_formulation.py:23-25 | The pair loop is worth b per pair of set variables. |
| QuboPenalties.DemandEnergy | src/qubo_formulation.py:15-25 | A demand's changes with k of its variables set are worth α − 2αk + αk(k − 1) as written, and α(k − 1)² corrected. |
| QuboPenalties.DemandAsWrittenTies | src/qubo_formulation.py:20-25 | As written the penalty is α at k = 0, −α at k = 1, and again −α at k = 2. |
| QuboPenalties.DemandCorrectedExactlyOne | src/qubo_formulation.py:19-25 | Corrected, the penalty is never negative and is 0 exactly when one path is chosen. |
| QuboPenalties.UniqueListedOnce | src/qubo_formulation.py:38-39 | In a list with distinct variables, each entry's variable appears nowhere else. |
| QuboPenalties.OthersOfUnique | src/qubo_formulation.py:38-40 | For an entry listed once, the load of the others is the load less the entry's own part. |
| QuboPenalties.InnerOpsEnergy | src/qubo_formulation.py:38-40 | The inner loop of row a is worth pw·c·(L − c) when its variable is set, and 0 otherwise. |
| QuboPenalties.EdgeRowEnergy | src/qubo_formulation.py:36-40 | Row a is worth β·c² + pw·c·(L − c) when its variable is set, and 0 otherwise. |
| QuboPenalties.EdgeRowsEnergy | src/qubo_formulation.py:36-40 | The nested loop over the first r entries is worth the sum of its rows' values. |
| QuboPenalties.RowsSumClosed | src/qubo_formulation.py:36-40 | The first r rows are worth β·S_r + pw·(L_r·L − S_r). |
| QuboPenalties.CapOpsSum | src/qubo_formulation.py:42-43 | The capacity loop is worth the sum of k·coef over its set entries. |
| QuboPenalties.CapSumScaled | src/qubo_formulation.py:42-43 | That sum is k·L. |
| QuboPenalties.EdgeEnergy | src/qubo_formulation.py:35-43 | An edge's changes are worth β(L − cap)² corrected, and β(L − cap)² + β(L² − S) as written (the cross terms counted twice). |
| QuboPenalties.EdgeAtCapacityCharged | src/qubo_formulation.py:36-40 | Two unit demands on one edge of capacity 2 load it exactly to capacity. As written the edge's changes charge 20 at β = 10; corrected they charge 0. |
| QuboBuild.LoadExprHas | src/qubo_formulation.py:30-34 | `x_d_i` enters an edge's load list with the demand of d exactly when the edge tuple is an element of `candidate_lists[d][i]`. |
| QuboBuild.LoadExprUnique | src/qubo_formulation.py:30-34 | No variable is listed twice in a load list, so `v != v2` skips exactly an entry's pairing with itself. |
| QuboBuild.AllVarsHas | src/qubo_formulation.py:17 | The variables are exactly `x_d_i` for a demand d and a candidate index i. |
| QuboBuild.AllVarsDistinct | src/qubo_formulation.py:17 | Names `x_{d}_{i}` are distinct per (d, i). |
| QuboBuild.CapacityOpsOn | src/qubo_formulation.py:28-43 | The capacity changes name only the model's variables, and each interaction names two distinct ones. |
| QuboBuild.ConstraintOpsEnergy | src/qubo_formulation.py:15-25 | The one-path changes are worth the sum over demands of the penalty at each demand's set count. |
| QuboBuild.EdgeOpsEnergy | src/qubo_formulation.py:28-43 | An edge's changes are worth its penalty at the load the sample puts on it. |
| QuboBuild.CapacityOpsEnergy | src/qubo_formulation.py:28-43 | The capacity changes of the first r edges are worth those edges' penalties. |
| QuboBuild.BqmOpsEnergy | src/qubo_formulation.py:4-45 | All changes are worth the one-path penalties plus the capacity penalties. |
| QuboBuild.BqmEnergy | src/qubo_formulation.py:4-45 | The finished model's energy on a sample is the sum of both penalty families, and the model holds no bias outside its variables. |
| QuboBuild.OffsetIsEmptyEnergy | src/qubo_formulation.py:20 | The offset grows by what the changes are worth on the all-zero sample. |
| QuboBuild.ConstraintCostNone | src/qubo_formulation.py:20 | With nothing selected, each demand's penalty is α. |
| QuboBuild.CapacityCostNone | src/qubo_formulation.py:41 | With nothing selected, each edge's penalty is its constant β·cap². |
| QuboBuild.BqmOffset | src/qubo_formulation.py:20-41 | The offset is α per demand plus β·cap² per graph edge, whether or not a path uses the edge. A missing capacity is 1. |
| QuboBuild.CorrectedConstraintCost | src/qubo_formulation.py:15-25 | Corrected, the one-path part is ≥ 0, and is 0 exactly when the sample sets one variable per demand. |
| QuboBuild.CorrectedEnergy | src/qubo_formulation.py:4-45 | Corrected, the energy is never below its capacity part, and equals it exactly when the sample picks one candidate per demand. |
| QuboBuild.AddLinearLoop | src/qubo_formulation.py:21-22 | The linear loop makes one `add_variable` per variable, in order. |
| QuboBuild.AddRowLoop | src/qubo_formulation.py:24-25 | The inner pair loop makes one `add_interaction` per later variable. |
| QuboBuild.AddPairLoop | src/qubo_formulation.py:23-25 | The nested pair loop makes one `add_interaction` per pair i < j. |
| QuboBuild.AddOnePathPenalty | src/qubo_formulation.py:20-25 | One demand's offset, linear loop and pair loop. |
| QuboBuild.DemandSteps | src/qubo_formulation.py:20-25 | The offset, then the linear loop, then the pair loop, make up the demand's changes. |
| QuboBuild.AddConstraints | src/qubo_formulation.py:15-25 | The one-path loop makes each demand's changes, in order. |
| QuboBuild.CollectLoadExpr | src/qubo_formulation.py:30-34 | The load-list loop returns the entries of every demand's candidates holding the edge, in order. |
| QuboBuild.AddInnerLoop | src/qubo_formulation.py:38-40 | The inner loop adds an interaction with every other entry. |
| QuboBuild.AddEdgeRow | src/qubo_formulation.py:37-40 | One outer row: the bias β·coef², then the inner loop. |
| QuboBuild.AddEdgeRows | src/qubo_formulation.py:36-40 | The nested loop over the load list, row by row. |
| QuboBuild.AddCapLoop | src/qubo_formulation.py:42-43 | The capacity loop adds −2β·cap·coef per entry. |
| QuboBuild.AddCapacityPenalty | src/qubo_formulation.py:35-43 | One edge's changes: the nested loop, the constant β·cap², then the capacity loop. |
| QuboBuild.AddEdgeCapacity | src/qubo_formulation.py:29-43 | One turn of the capacity loop: collect edge r's load list, then add its penalty. |
| QuboBuild.AddNextCapacity | src/qubo_formulation.py:28-43 | One turn of the capacity loop keeps its invariant. |
| QuboBuild.CapacityStep | src/qubo_formulation.py:28-43 | Edge r's changes take the capacity changes of the first r edges to the first r + 1. |
| QuboBuild.AddCapacities | src/qubo_formulation.py:28-43 | The capacity loop makes the changes of every edge in `G.edges` order. |
| QuboBuild.BuildQubo | src/qubo_formulation.py:4-45 | `build_qubo` returns a new model holding exactly the encoder's changes, made in order. |
| Baselines.Weights | src/baselines.py:18 | The key of each candidate is its summed hop weight. |
| Baselines.FirstLeastUnique | src/baselines.py:16-19 | There is only one first least index. |
| Baselines.FirstMinIndex | src/baselines.py:16-19 | `min` over the indices returns a least entry, and the first one on ties. |
| Baselines.ShortestIndex | src/baselines.py:16-19 | The picked candidate has least total weight, and no earlier candidate ties it. |
| Baselines.ShortestState | src/baselines.py:13-20 | The loop gives one in-range index per demand, each its demand's lightest candidate. |
| Baselines.ShortestPathBaseline | src/baselines.py:9-27 | The state is the lightest candidates. The cost is `objective_cost` with the given coef and power 2. The loads are that state's loads, and the violations are the violation sum of exactly the chosen paths. |
| Baselines.RandomRoutingBaseline | src/baselines.py:30-42 | The state is a function of the draws alone, one in-range index per candidate list, scored the same way as the other baseline. |
| Annealing.Vehicle | src/annealing.py:19 | The re-routed vehicle is an index into the demand list. |
| Annealing.Proposal | src/annealing.py:18-30 | The proposal has the same length and differs from the current routing at most at the picked vehicle. It is unchanged with at most one alternative; otherwise the new path is among the first five. |
| Annealing.Run | src/annealing.py:16 | The episodes keep the number of vehicles. |
| Annealing.StepTracked | src/annealing.py:32-39 | One episode keeps both costs equal to their routings' costs, with best ≤ current. |
| Annealing.CheaperIsAccepted | src/annealing.py:36-37 | A strictly cheaper proposal is accepted whatever the coin says. |
| Annealing.Metropolis | src/annealing.py:36 | At a positive temperature, `random() < exp((current − new)/temp)` always holds for a proposal that costs no more. For a dearer one it is the draw. |
| Annealing.EqualIsAccepted | src/annealing.py:36-37 | A proposal of equal cost is accepted, since `exp(0)` is 1 and `random()` is below 1. |
| Annealing.RejectedChangesNothing | src/annealing.py:36-39 | A dearer proposal is accepted exactly when the draw says so. Rejected, it leaves everything as it was. |
| Annealing.StepBestNoWorse | src/annealing.py:38-39 | An episode never raises the best cost. |
| Annealing.RunTracked | src/annealing.py:16-41 | Over any run the loop keeps its invariant, and the best cost never rises above its start. |
| Annealing.BestNonIncreasing | src/annealing.py:16-41 | The best cost after j episodes is at most that after i ≤ j. |
| Annealing.SimulatedAnnealing | src/annealing.py:6-46 | With at least one episode (none divides by zero), the loop runs exactly `episodes` episodes. It returns the best routing of that run, whose cost is the returned cost, and that cost is at most the initial cost. |
| Metrics.Max0 | src/metrics.py:6 | `max(0, x)` is at least 0 and at least x, and equals one of them. |
| Metrics.CostFunction | src/metrics.py:1-8 | The loop returns the sum over stored edges of length·load + 5·max(0, load − capacity). |
| Metrics.EdgeCostCases | src/metrics.py:6-7 | Within capacity an edge costs exactly length·load; beyond it, five more per unit of excess. |
| Metrics.CostNonNegative | src/metrics.py:2-8 | With non-negative lengths and loads the cost is ≥ 0. |
| Metrics.CostOfNoLoad | src/metrics.py:2-8 | With every load 0 and no negative capacity, the cost is 0. |
| Metrics.EdgeCostMonotone | src/metrics.py:6-7 | With length ≥ 0, a higher load never costs less on one edge. |
| Metrics.CostMonotone | src/metrics.py:2-8 | With non-negative lengths, raising one edge's load never lowers the cost. |
| TrafficSim.ZeroLoads | src/traffic_sim.py:20 | The initial loads have exactly the stored edges as keys. |
| TrafficSim.ComputeEdgeLoads | src/traffic_sim.py:19-28 | The loop returns the stored-key loads: each hop bumps (u, v) if present, else (v, u). |
| TrafficSim.AddPathLoads | src/traffic_sim.py:22-27 | The inner loop bumps every hop of one path. |
| TrafficSim.BumpIs | src/traffic_sim.py:24-27 | The three branches of the loop body are one bump. |
| TrafficSim.BumpCount | src/traffic_sim.py:24-27 | One hop adds one to its edge's present key and nothing elsewhere. |
| TrafficSim.TallyCount | src/traffic_sim.py:21-27 | Each stored key ends up with its start value plus the hops on its edge, in either direction. |
| TrafficSim.BumpOffGraph | src/traffic_sim.py:24-27 | A hop that is not a graph edge changes nothing. |
| TrafficSim.OffGraphHopsAddNothing | src/traffic_sim.py:21-27 | A path whose hops all leave the graph changes no load. |
| TrafficSim.ShortPathAddsNothing | src/traffic_sim.py:22 | A single-node or empty path changes no load. |
| TrafficSim.EdgeLoadsAreCanonical | src/traffic_sim.py:19-28 | On a valid graph, each stored edge carries the hops whose sorted key is its key, the same numbers as the sorted-key loads of `src/formulation.py`. |
| TrafficSim.EdgeLoadsSumToHops | src/traffic_sim.py:21-27 | On paths that stay on the graph, the loads sum to the number of hops. |
| TrafficSim.GenerateDemand | src/traffic_sim.py:4-10 | `generate_demand` returns `num_vehicles` pairs drawn by `random.sample`, each with distinct endpoints on a valid graph. The graph needs two nodes only when `num_vehicles > 0`. |
| ParamGrid.CapOfKey | src/param_grid.py:24 | `G[u][w]["capacity"]` exists for every edge key. |
| ParamGrid.ViolationAt | src/param_grid.py:25-27 | An edge's violation is ≥ 0, and is positive exactly when it is overloaded. |
| ParamGrid.SumViolations | src/param_grid.py:22-27 | The second loop returns the violation sum over all edges. |
| ParamGrid.FinalViolations | src/param_grid.py:16-27 | `final_violations` returns Σ max(0, load − cap) over the sorted-key usage of the chosen paths. That usage is the same map as `compute_edge_loads_from_state`. |
| ParamGrid.ViolationSumZeroIff | src/param_grid.py:25-27 | The violation sum over the first n edges is ≥ 0, and is 0 exactly when none of them is overloaded. |
| ParamGrid.NoOverloadStep | src/param_grid.py:22-27 | n edges are within capacity exactly when the first n − 1 are and edge n − 1 is. |
| ParamGrid.ViolationsZeroIff | src/param_grid.py:16-27 | The total violation is ≥ 0, and is 0 exactly when no edge is overloaded. |
| QuickSweep.FinalViolations | src/quick_sweep.py:16-29 | This copy returns what the copy in `src/param_grid.py` returns on every input. |
| TinyScenario.TinyOnGraph | tests/test_formulation.py:8-20 | The triangle's candidates are walks, and state [0, 0] picks A–B–C twice. |
| TinyScenario.TinyLoads | tests/test_formulation.py:20-24 | State [0, 0] loads A–B and B–C with 2 and A–C with 0. |
| TinyScenario.TinyTravel | tests/test_formulation.py:26-28 | Both trips together take time 4. |
| TinyScenario.TinyPenalty | tests/test_formulation.py:30-33 | The penalty is the sum of the three edge penalties at loads 2, 2 and 0. |
| TinyScenario.TinyCostLow | tests/test_formulation.py:26-28 | With coef 0 the cost is 4. |
| TinyScenario.TinyCostHigh | tests/test_formulation.py:30-34 | With capacity 1 on A–B and B–C and coef 10 the cost is 24, above the 4 of TinyCostLow. |

## Left out

- `k_shortest_candidates` (src/formulation.py:8-31), `assign_paths_randomly` and the `shortest_simple_paths` call in `src/annealing.py` are networkx path enumeration.
  - Candidate lists are inputs.
  - Annealing alternatives arrive in each episode's `Draw`, in length order.
- The Metropolis test `random.random() < math.exp(...)`, the temperature and its cooling schedule, and the progress `print`:
  - these are floating-point numerics and output;
  - the test becomes `Metropolis`: true for a proposal that costs no more, and the boolean `coin` of each `Draw` otherwise;
  - a temperature of 0 (`temp_start = 0` divides by zero) or below is not modelled.
- Randomness from `random.randrange`, `random.choice`, `random.randint`, `random.sample` and `Random(seed)` becomes explicit draw sequences. A raw draw is reduced into range with `%`. The lemmas `RandomInitialStateReachesAll` and `SampleIndicesReachAll` show that every outcome is reachable, but no distribution is modelled.
- The `power` parameter of `build_qubo` in src/formulation.py is unused there and is not modelled.
- The `time_key` and `capacity_key` parameters are fixed to their defaults: `time` and `capacity`.
- Floats are modelled as follows:
  - edge attributes, loads and counts as integers;
  - costs, coefficients and biases as exact reals;
  - rounding is not modelled;
  - `float('inf')` capacity is a missing capacity (`None`).
- Dictionary iteration order:
  - `loads.items()` and `usage.items()` are visited in `G.edges` order, which is how the dictionaries were filled;
  - `var_idx.items()` in insertion order;
  - the keys of the `defaultdict` in first-append order.
- dimod is not modelled beyond what the encoder uses:
  - the model is an offset, a linear map, and an interaction map keyed by the set {u, v};
  - variable names `x_{d}_{i}` are the datatype value `Var(d, i)`;
  - the sample's energy is summed over the encoder's own variables.
- The `src/qubo_formulation.py` encoder reads paths as lists of edge tuples, as its doc comment says. `e in path` is membership of the stored edge tuple.
- Solver back-ends, graph builders, plotting, CSV output, `main` and the `__main__` blocks are not part of this model.
- TinyScenario.TinyCostHigh: the comparison with TinyCostLow is stated as two values, 24 and 4, rather than as one inequality between two objectives.
- ParamGrid.FinalViolations: does not model the `KeyError` on a state whose path leaves the graph; such a path is excluded by the precondition.
- Formulation.SaNeighbor: states that the changed entry differs and is in range, not that it is uniformly drawn.

## Findings

| source | as written | input that shows it | evidently intended | confidence | as-written member | corrected member |
|---|---|---|---|---|---|---|
| src/formulation.py:152-161 | The one-choice block puts net 0 on the diagonal and −P on each same-demand pair, so selecting two or more candidates lowers the energy. | One demand with two candidates, both selected, P = 50: energy −50 against 0 for one selected. | P·(Σx − 1)² less its constant: −P on the diagonal and +2P per pair. Minimal exactly at one selected candidate. | not executed | FormulationEnergy.ChoiceAsWrittenRewardsSeveral | FormulationEnergy.ChoiceCorrectedExactlyOne |
| src/qubo_formulation.py:20-25 | The linear bias of the one-path penalty is −2α, so the penalty is α − 2αk + αk(k − 1). | One demand, α = 5: both k = 1 and k = 2 give −5, so two chosen paths cost no more than one. | α(1 − Σx)², with linear bias −α since x² = x. Zero exactly at k = 1. | not executed | QuboPenalties.DemandAsWrittenTies | QuboPenalties.DemandCorrectedExactlyOne |
| src/qubo_formulation.py:36-40 | The nested loop visits every ordered pair of distinct entries and adds 2β·c·c' each time, so each unordered pair gets 4β·c·c'. | Two demands of size 1 on one edge of capacity 2, β = 10, both selected: the edge is at capacity, yet its changes are worth 20. | β(Σ dem·x − cap)²: 2β·c·c' per unordered pair, worth 0 at capacity. | not executed | QuboPenalties.EdgeAtCapacityCharged | QuboPenalties.EdgeEnergy |
| src/formulation.py:130-135 | `(u, v) in G.edges()` holds for both directions on an undirected graph, so each hop is filed under its own direction. Paths crossing one edge in opposite directions are never coupled. | Candidates [u, v] and [v, u] of two demands, both selected: the edge carries load 2, yet the QUBO charges two groups of load 1 and drops the coupling 2·coef. | File every hop under the edge's sorted key, as the loads do (src/formulation.py:42). | not executed | FormulationValue.AsWrittenSplitsOpposite | FormulationBuild.CorrectedFilesByLoadKey |
