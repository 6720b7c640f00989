/** The episode loop of `simulated_annealing` (src/annealing.py): propose
    a re-routing of one vehicle, accept it when it is cheaper or when the
    Metropolis coin says so, and keep the best routing seen. The random
    draws and the path enumeration arrive as inputs. */
module Annealing {
  import opened Graphs
  import opened TrafficSim
  import opened Metrics

  /** How many of the shortest simple paths a proposal chooses among. */
  const TopK: nat := 5

  /** `metrics.cost_function(G, traffic_sim.compute_edge_loads(G, paths))` */
  function PathsCost(g: Graph, paths: seq<Path>): int
    requires HasLengthAndCapacity(g)
  {
    Cost(g, EdgeLoads(g, paths))
  }

  /** What one episode draws: the vehicle (`random.randint`), the simple
      paths between its endpoints in order of length (empty when there is
      none), the pick among the first TopK (`random.choice`), and the
      outcome of the Metropolis test at the current temperature. */
  datatype Draw = Draw(vehicle: nat, alternatives: seq<Path>, choice: nat, coin: bool)

  /** The loop variables: current and best routing with their costs. */
  datatype Search = Search(current: seq<Path>, currentCost: int, best: seq<Path>, bestCost: int)

  function Min(a: nat, b: nat): nat
  {
    if a <= b then a else b
  }

  /** The vehicle an episode re-routes: `randint(0, len(demand) - 1)`. */
  function Vehicle(n: nat, d: Draw): (idx: nat)
    requires n > 0
    ensures idx < n
  {
    d.vehicle % n
  }

  /** The proposal: a copy of the routing in which the chosen vehicle takes
      one of the first TopK alternatives, when there are at least two. */
  function Proposal(current: seq<Path>, d: Draw): (p: seq<Path>)
    requires |current| > 0
    ensures |p| == |current|
    ensures forall j :: 0 <= j < |p| && j != Vehicle(|current|, d) ==> p[j] == current[j]
    ensures |d.alternatives| <= 1 ==> p == current
    ensures |d.alternatives| > 1 ==> p[Vehicle(|current|, d)] in d.alternatives[..Min(TopK, |d.alternatives|)]
  {
    var idx := Vehicle(|current|, d);
    if |d.alternatives| > 1 then
      var top := d.alternatives[..Min(TopK, |d.alternatives|)];
      current[idx := top[d.choice % |top|]]
    else
      current
  }

  /** `random.random() < math.exp((current_cost - new_cost) / temp)` at a
      positive temperature: `random()` lies in [0, 1) and the exponential is
      at least 1 when the proposal costs no more (delta <= 0), so only a
      dearer proposal leaves the outcome to the draw. */
  function Metropolis(delta: int, coin: bool): (accept: bool)
    ensures delta <= 0 ==> accept
    ensures delta > 0 ==> accept == coin
  {
    delta <= 0 || coin
  }

  /** One episode. */
  function Step(g: Graph, s: Search, d: Draw): Search
    requires HasLengthAndCapacity(g) && |s.current| > 0
  {
    var newPaths := Proposal(s.current, d);
    var newCost := PathsCost(g, newPaths);
    if newCost < s.currentCost || Metropolis(newCost - s.currentCost, d.coin) then
      if newCost < s.bestCost then Search(newPaths, newCost, newPaths, newCost)
      else Search(newPaths, newCost, s.best, s.bestCost)
    else
      s
  }

  /** The state before the first episode. */
  function Start(g: Graph, paths: seq<Path>): Search
    requires HasLengthAndCapacity(g)
  {
    Search(paths, PathsCost(g, paths), paths, PathsCost(g, paths))
  }

  /** The episodes one after the other. */
  function Run(g: Graph, s: Search, ds: seq<Draw>): (r: Search)
    requires HasLengthAndCapacity(g) && |s.current| > 0
    ensures |r.current| == |s.current|
  {
    if ds == [] then s
    else
      var r := Run(g, s, ds[..|ds| - 1]);
      Step(g, r, ds[|ds| - 1])
  }

  /** What the loop keeps: both costs are the costs of their routings, and
      the best is no worse than the current. */
  predicate Tracked(g: Graph, s: Search)
    requires HasLengthAndCapacity(g)
  {
    && s.currentCost == PathsCost(g, s.current)
    && s.bestCost == PathsCost(g, s.best)
    && s.bestCost <= s.currentCost
    && |s.best| == |s.current|
  }

  lemma StepTracked(g: Graph, s: Search, d: Draw)
    requires HasLengthAndCapacity(g) && |s.current| > 0 && Tracked(g, s)
    ensures Tracked(g, Step(g, s, d))
  {
  }

  /** A strictly cheaper proposal is taken whatever the coin says. */
  lemma CheaperIsAccepted(g: Graph, s: Search, d: Draw)
    requires HasLengthAndCapacity(g) && |s.current| > 0
    requires PathsCost(g, Proposal(s.current, d)) < s.currentCost
    ensures Step(g, s, d).current == Proposal(s.current, d)
    ensures Step(g, s, d).currentCost == PathsCost(g, Proposal(s.current, d))
  {
  }

  /** A proposal that costs the same is taken too, since `exp(0)` is 1. */
  lemma EqualIsAccepted(g: Graph, s: Search, d: Draw)
    requires HasLengthAndCapacity(g) && |s.current| > 0
    requires PathsCost(g, Proposal(s.current, d)) == s.currentCost
    ensures Step(g, s, d).current == Proposal(s.current, d)
    ensures Step(g, s, d).currentCost == s.currentCost
  {
  }

  /** A dearer proposal is taken exactly when the draw says so; rejected,
      it leaves everything as it was. */
  lemma RejectedChangesNothing(g: Graph, s: Search, d: Draw)
    requires HasLengthAndCapacity(g) && |s.current| > 0
    requires PathsCost(g, Proposal(s.current, d)) > s.currentCost
    ensures !d.coin ==> Step(g, s, d) == s
    ensures d.coin ==> Step(g, s, d).current == Proposal(s.current, d)
  {
  }

  /** Over any run the loop keeps its invariant and the best cost never
      rises above where it started. */
  lemma {:induction false} RunTracked(g: Graph, s: Search, ds: seq<Draw>)
    requires HasLengthAndCapacity(g) && |s.current| > 0 && Tracked(g, s)
    ensures Tracked(g, Run(g, s, ds))
    ensures Run(g, s, ds).bestCost <= s.bestCost
    decreases |ds|
  {
    if ds != [] {
      RunTracked(g, s, ds[..|ds| - 1]);
      StepTracked(g, Run(g, s, ds[..|ds| - 1]), ds[|ds| - 1]);
      StepBestNoWorse(g, Run(g, s, ds[..|ds| - 1]), ds[|ds| - 1]);
    }
  }

  /** An episode never raises the best cost. */
  lemma StepBestNoWorse(g: Graph, s: Search, d: Draw)
    requires HasLengthAndCapacity(g) && |s.current| > 0
    ensures Step(g, s, d).bestCost <= s.bestCost
  {
  }

  /** The best cost never increases from one episode to a later one. */
  lemma {:induction false} BestNonIncreasing(g: Graph, s: Search, ds: seq<Draw>, i: nat, j: nat)
    requires HasLengthAndCapacity(g) && |s.current| > 0
    requires i <= j <= |ds|
    ensures Run(g, s, ds[..j]).bestCost <= Run(g, s, ds[..i]).bestCost
    decreases j - i
  {
    if i < j {
      BestNonIncreasing(g, s, ds, i, j - 1);
      RunLast(g, s, ds, j);
      var r := Run(g, s, ds[..j - 1]);
      StepBestNoWorse(g, r, ds[j - 1]);
      var a, b, c := Run(g, s, ds[..j]).bestCost, r.bestCost, Run(g, s, ds[..i]).bestCost;
      assert a <= b;
      assert b <= c;
    } else {
      assert ds[..j] == ds[..i];
    }
  }

  /** The first j episodes are the first j - 1 and then episode j - 1. */
  lemma RunLast(g: Graph, s: Search, ds: seq<Draw>, j: nat)
    requires HasLengthAndCapacity(g) && |s.current| > 0
    requires 0 < j <= |ds|
    ensures Run(g, s, ds[..j]) == Step(g, Run(g, s, ds[..j - 1]), ds[j - 1])
  {
    assert ds[..j][..j - 1] == ds[..j - 1];
  }

  /** The loop's proposal is Proposal. */
  lemma ProposalIs(current: seq<Path>, d: Draw, p: seq<Path>)
    requires |current| > 0
    requires p == if |d.alternatives| > 1 then
        current[d.vehicle % |current| := d.alternatives[..Min(TopK, |d.alternatives|)][d.choice % |d.alternatives[..Min(TopK, |d.alternatives|)]|]]
      else current
    ensures p == Proposal(current, d)
  {
  }

  /** `simulated_annealing(G, demand, ...)` from the routing
      `assign_paths_randomly` produced, over `episodes` episodes. */
  method SimulatedAnnealing(g: Graph, demand: seq<Pair>, initialPaths: seq<Path>, episodes: nat, draws: seq<Draw>)
    returns (bestPaths: seq<Path>, bestCost: int)
    requires HasLengthAndCapacity(g)
    requires |demand| > 0 && |initialPaths| == |demand| && |draws| >= episodes
    requires episodes > 0
    ensures var r := Run(g, Start(g, initialPaths), draws[..episodes]); bestPaths == r.best && bestCost == r.bestCost
    ensures bestCost == PathsCost(g, bestPaths) && |bestPaths| == |demand|
    ensures bestCost <= PathsCost(g, initialPaths)
  {
    var currentPaths := initialPaths;
    var currentLoads := ComputeEdgeLoads(g, currentPaths);
    var currentCost := CostFunction(g, currentLoads);
    bestPaths, bestCost := currentPaths, currentCost;
    ghost var start := Start(g, initialPaths);
    for ep := 0 to episodes
      invariant Search(currentPaths, currentCost, bestPaths, bestCost) == Run(g, start, draws[..ep])
    {
      RunLast(g, start, draws, ep + 1);
      var newPaths := currentPaths;
      var idx := draws[ep].vehicle % |demand|;
      var allPaths := draws[ep].alternatives;
      if |allPaths| > 1 {
        var top := allPaths[..Min(TopK, |allPaths|)];
        var altPath := top[draws[ep].choice % |top|];
        newPaths := newPaths[idx := altPath];
      }
      ProposalIs(currentPaths, draws[ep], newPaths);
      var newLoads := ComputeEdgeLoads(g, newPaths);
      var newCost := CostFunction(g, newLoads);
      if newCost < currentCost || Metropolis(newCost - currentCost, draws[ep].coin) {
        currentPaths, currentCost := newPaths, newCost;
        if newCost < bestCost {
          bestPaths, bestCost := newPaths, newCost;
        }
      }
    }
    RunTracked(g, start, draws[..episodes]);
  }
}
