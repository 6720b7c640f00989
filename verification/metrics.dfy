/** `cost_function` of src/metrics.py: per edge, length times load plus
    five per unit of load beyond the capacity. */
module Metrics {
  import opened Graphs

  /** `G[u][v]['length']` and `G[u][v]['capacity']` exist on every edge. */
  predicate HasLengthAndCapacity(g: Graph)
  {
    forall e :: e in g.edges ==> e.attrs.length.Some? && e.attrs.capacity.Some?
  }

  /** `max(0, x)` */
  function Max0(x: int): (r: int)
    ensures r >= 0 && r >= x
    ensures r == 0 || r == x
  {
    if x > 0 then x else 0
  }

  /** `length * load + max(0, load - capacity) * 5` */
  function EdgeCost(length: int, capacity: int, load: int): int
  {
    length * load + Max0(load - capacity) * 5
  }

  /** The cost of one edge of the graph under the loads. */
  function EdgeCostOf(e: Edge, loads: map<Pair, int>): int
    requires e.attrs.length.Some? && e.attrs.capacity.Some? && Stored(e) in loads
  {
    EdgeCost(e.attrs.length.value, e.attrs.capacity.value, loads[Stored(e)])
  }

  /** Σ of the edge costs over es, in order. */
  function CostOver(es: seq<Edge>, loads: map<Pair, int>): int
    requires forall e :: e in es ==> e.attrs.length.Some? && e.attrs.capacity.Some? && Stored(e) in loads
  {
    if es == [] then 0
    else
      assert es[|es| - 1] in es;
      CostOver(es[..|es| - 1], loads) + EdgeCostOf(es[|es| - 1], loads)
  }

  /** `cost_function(G, loads)` for loads keyed as `compute_edge_loads`
      keys them (one entry per stored edge, in `G.edges` order). An edge
      listed twice in g.edges would be charged twice; a networkx graph never
      lists one twice, and `Valid(g)` rules it out where a lemma needs it. */
  function Cost(g: Graph, loads: map<Pair, int>): int
    requires HasLengthAndCapacity(g) && loads.Keys == StoredOf(g.edges)
  {
    CostOver(g.edges, loads)
  }

  method CostFunction(g: Graph, loads: map<Pair, int>) returns (cost: int)
    requires HasLengthAndCapacity(g) && loads.Keys == StoredOf(g.edges)
    ensures cost == Cost(g, loads)
  {
    cost := 0;
    for j := 0 to |g.edges|
      invariant cost == CostOver(g.edges[..j], loads)
    {
      var e := g.edges[j];
      assert e in g.edges;
      var load := loads[(e.u, e.v)];
      var length := e.attrs.length.value;
      var capacity := e.attrs.capacity.value;
      var congestionPenalty := Max0(load - capacity) * 5;
      cost := cost + length * load + congestionPenalty;
      assert g.edges[..j + 1][..j] == g.edges[..j];
    }
    assert g.edges[..|g.edges|] == g.edges;
  }

  // ---------------------------------------------------------------------
  // Properties

  /** Within capacity an edge costs exactly length times load; beyond it,
      five more per unit of excess. */
  lemma EdgeCostCases(length: int, capacity: int, load: int)
    ensures load <= capacity ==> EdgeCost(length, capacity, load) == length * load
    ensures load > capacity ==> EdgeCost(length, capacity, load) == length * load + 5 * (load - capacity)
  {
  }

  predicate NonNegativeLengths(es: seq<Edge>)
  {
    forall e :: e in es ==> e.attrs.length.Some? && e.attrs.length.value >= 0
  }

  /** With non-negative lengths and loads the cost is never negative. */
  lemma {:induction false} CostNonNegative(es: seq<Edge>, loads: map<Pair, int>)
    requires forall e :: e in es ==> e.attrs.length.Some? && e.attrs.capacity.Some? && Stored(e) in loads
    requires NonNegativeLengths(es)
    requires forall k :: k in loads ==> loads[k] >= 0
    ensures CostOver(es, loads) >= 0
    decreases |es|
  {
    if es != [] {
      var e := es[|es| - 1];
      assert e in es;
      CostNonNegative(es[..|es| - 1], loads);
      assert e.attrs.length.value * loads[Stored(e)] >= 0;
    }
  }

  /** With every load 0 and no capacity negative, the cost is 0. */
  lemma {:induction false} CostOfNoLoad(es: seq<Edge>, loads: map<Pair, int>)
    requires forall e :: e in es ==> e.attrs.length.Some? && e.attrs.capacity.Some? && Stored(e) in loads
    requires forall e :: e in es ==> e.attrs.capacity.value >= 0
    requires forall k :: k in loads ==> loads[k] == 0
    ensures CostOver(es, loads) == 0
    decreases |es|
  {
    if es != [] {
      assert es[|es| - 1] in es;
      CostOfNoLoad(es[..|es| - 1], loads);
    }
  }

  lemma EdgeCostMonotone(length: int, capacity: int, load: int, load': int)
    requires length >= 0 && load <= load'
    ensures EdgeCost(length, capacity, load) <= EdgeCost(length, capacity, load')
  {
    assert length * load' == length * load + length * (load' - load);
    assert length * (load' - load) >= 0;
  }

  /** With non-negative lengths, raising the load of one edge never lowers
      the cost. */
  lemma {:induction false} CostMonotone(es: seq<Edge>, loads: map<Pair, int>, k: Pair, d: nat)
    requires forall e :: e in es ==> e.attrs.length.Some? && e.attrs.capacity.Some? && Stored(e) in loads
    requires NonNegativeLengths(es)
    requires k in loads
    ensures CostOver(es, loads) <= CostOver(es, loads[k := loads[k] + d])
    decreases |es|
  {
    if es != [] {
      var e := es[|es| - 1];
      assert e in es;
      CostMonotone(es[..|es| - 1], loads, k, d);
      var m' := loads[k := loads[k] + d];
      EdgeCostMonotone(e.attrs.length.value, e.attrs.capacity.value, loads[Stored(e)], m'[Stored(e)]);
    }
  }
}
