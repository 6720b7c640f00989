/** The two baselines of src/baselines.py: every demand on its lightest
    candidate, and every demand on a uniformly drawn candidate, each scored
    with the cost model of src/formulation.py and the violation count of
    src/param_grid.py. */
module Baselines {
  import opened Graphs
  import opened Formulation
  import opened ParamGrid

  /** `G[u][v]["weight"]` exists on every edge. */
  predicate HasWeights(g: Graph)
  {
    forall e :: e in g.edges ==> e.attrs.weight.Some?
  }

  /** `G[u][v]["weight"]` for one hop. */
  function HopWeight(g: Graph, h: Pair): int
    requires HasWeights(g) && Adjacent(g, h.0, h.1)
  {
    assert Attrs(g, h.0, h.1).weight.Some? by {
      LookupSpec(g.edges, Canon(h.0, h.1));
    }
    Attrs(g, h.0, h.1).weight.value
  }

  /** Σ of the weights of the hops of a path. */
  function HopsWeight(g: Graph, hs: seq<Pair>): int
    requires HasWeights(g) && HopsOnGraph(g, hs)
  {
    if hs == [] then 0
    else
      assert hs[|hs| - 1] in hs;
      HopsWeight(g, hs[..|hs| - 1]) + HopWeight(g, hs[|hs| - 1])
  }

  /** The key the baseline ranks candidates by. */
  function PathWeight(g: Graph, p: Path): int
    requires HasWeights(g) && OnGraph(g, p)
  {
    HopsWeight(g, Hops(p))
  }

  /** The weight of every candidate, as `min`'s key function computes it. */
  function Weights(g: Graph, ps: seq<Path>): (ws: seq<int>)
    requires HasWeights(g) && forall j :: 0 <= j < |ps| ==> OnGraph(g, ps[j])
    ensures |ws| == |ps|
    ensures forall j :: 0 <= j < |ps| ==> ws[j] == PathWeight(g, ps[j])
  {
    seq(|ps|, j requires 0 <= j < |ps| => PathWeight(g, ps[j]))
  }

  /** idx is a least entry of ws, and the first one. */
  predicate FirstLeast(ws: seq<int>, idx: nat)
  {
    && idx < |ws|
    && (forall j :: 0 <= j < |ws| ==> ws[idx] <= ws[j])
    && (forall j :: 0 <= j < idx ==> ws[j] > ws[idx])
  }

  /** Candidate idx of ps has least weight, and no earlier one ties it. */
  predicate Lightest(g: Graph, ps: seq<Path>, idx: nat)
    requires HasWeights(g) && forall j :: 0 <= j < |ps| ==> OnGraph(g, ps[j])
  {
    FirstLeast(Weights(g, ps), idx)
  }

  /** There is exactly one first least index. */
  lemma FirstLeastUnique(ws: seq<int>, a: nat, b: nat)
    requires FirstLeast(ws, a) && FirstLeast(ws, b)
    ensures a == b
  {
    assert ws[a] <= ws[b] && ws[b] <= ws[a];
  }

  /** `min(range(len(ws)), key=lambda j: ws[j])`: Python's `min` keeps the
      first of equal keys. */
  method FirstMinIndex(ws: seq<int>) returns (best: nat)
    requires |ws| > 0
    ensures FirstLeast(ws, best)
  {
    best := 0;
    var bestWeight := ws[0];
    for j := 1 to |ws|
      invariant best < j && bestWeight == ws[best]
      invariant forall k :: 0 <= k < j ==> bestWeight <= ws[k]
      invariant forall k :: 0 <= k < best ==> ws[k] > bestWeight
    {
      var w := ws[j];
      if w < bestWeight {
        best, bestWeight := j, w;
      }
    }
  }

  /** The index `min` picks over the candidates of one demand. */
  method ShortestIndex(g: Graph, ps: seq<Path>) returns (best: nat)
    requires HasWeights(g) && |ps| > 0
    requires forall j :: 0 <= j < |ps| ==> OnGraph(g, ps[j])
    ensures Lightest(g, ps, best)
  {
    best := FirstMinIndex(Weights(g, ps));
  }

  /** The loop of `shortest_path_baseline` over the first n demands: each
      picks its lightest candidate. */
  method ShortestState(g: Graph, n: nat, cands: Candidates) returns (state: State)
    requires HasWeights(g)
    requires n <= |cands| && AllOnGraph(g, cands)
    requires forall i :: 0 <= i < n ==> |cands[i]| > 0
    ensures |state| == n && ValidState(cands, state)
    ensures forall i :: 0 <= i < n ==> Lightest(g, cands[i], state[i])
  {
    state := [];
    for i := 0 to n
      invariant |state| == i && ValidState(cands, state)
      invariant forall i' :: 0 <= i' < i ==> Lightest(g, cands[i'], state[i'])
    {
      var shortestIdx := ShortestIndex(g, cands[i]);
      state := state + [shortestIdx];
    }
  }

  /** `shortest_path_baseline(G, demands, candidate_lists, coef)` (coef is
      10.0 by default); the objective uses its default power 2. */
  method ShortestPathBaseline(g: Graph, demands: seq<(Node, Node, int)>, cands: Candidates, coef: real)
    returns (state: State, cost: real, loads: map<Pair, int>, violations: int)
    requires HasWeights(g) && HasCapacities(g)
    requires |demands| <= |cands| && AllOnGraph(g, cands)
    requires forall i :: 0 <= i < |demands| ==> |cands[i]| > 0
    ensures |state| == |demands| && ValidState(cands, state)
    ensures forall i :: 0 <= i < |state| ==> Lightest(g, cands[i], state[i])
    ensures ChosenOnGraph(g, cands, state)
    ensures cost == Objective(g, cands, state, coef, 2)
    ensures loads == LoadsOf(g, cands, state)
    ensures violations == Violations(g, ChosenPaths(cands, state))
  {
    state := ShortestState(g, |demands|, cands);
    cost := ObjectiveCost(g, cands, state, coef, 2);
    loads := ComputeEdgeLoadsFromState(g, cands, state);
    violations := FinalViolations(g, cands, state);
  }

  /** `random_routing_baseline(G, demands, candidate_lists, coef, seed)`:
      the i-th draw of `Random(seed)` picks demand i's candidate, so the
      state is determined by the draws alone. */
  method RandomRoutingBaseline(g: Graph, demands: seq<(Node, Node, int)>, cands: Candidates, coef: real, draws: seq<nat>)
    returns (state: State, cost: real, loads: map<Pair, int>, violations: int)
    requires HasCapacities(g) && AllOnGraph(g, cands)
    requires |draws| == |cands| && forall i :: 0 <= i < |cands| ==> |cands[i]| > 0
    ensures state == RandomInitialState(cands, draws)
    ensures |state| == |cands| && ValidState(cands, state) && ChosenOnGraph(g, cands, state)
    ensures cost == Objective(g, cands, state, coef, 2)
    ensures loads == LoadsOf(g, cands, state)
    ensures violations == Violations(g, ChosenPaths(cands, state))
  {
    state := seq(|cands|, i requires 0 <= i < |cands| => draws[i] % |cands[i]|);
    cost := ObjectiveCost(g, cands, state, coef, 2);
    loads := ComputeEdgeLoadsFromState(g, cands, state);
    violations := FinalViolations(g, cands, state);
  }
}
