/** `final_violations` of src/param_grid.py: the total load carried beyond
    capacity, over the sorted-key usage of a state's chosen paths. */
module ParamGrid {
  import opened Graphs
  import opened Formulation

  /** `G[u][w]["capacity"]` exists on every edge. */
  predicate HasCapacities(g: Graph)
  {
    forall e :: e in g.edges ==> e.attrs.capacity.Some?
  }

  /** `G[u][w]["capacity"]` for the edge key (u, w). */
  function CapValue(g: Graph, k: Pair): int
    requires HasCapacities(g) && k in KeysOf(g.edges)
  {
    CapOfKey(g, k);
    CapOf(g, k).value
  }

  /** Every edge key has a capacity. */
  lemma CapOfKey(g: Graph, k: Pair)
    requires HasCapacities(g) && k in KeysOf(g.edges)
    ensures CapOf(g, k).Some?
  {
    var e :| e in g.edges && Key(e) == k;
    LookupSpec(g.edges, Canon(k.0, k.1));
  }

  /** `load - cap` when the j-th edge is overloaded, else 0. */
  function ViolationAt(g: Graph, usage: map<Pair, int>, j: nat): (r: int)
    requires HasCapacities(g) && j < |g.edges| && KeysOf(g.edges) <= usage.Keys
    ensures r >= 0
    ensures r > 0 <==> OverloadedAt(g, usage, j)
  {
    var k := EdgeKeyAt(g, j);
    CapOfKey(g, k);
    if usage[k] > CapValue(g, k) then usage[k] - CapValue(g, k) else 0
  }

  /** Σ of the violations of the first n edges. */
  function ViolationSum(g: Graph, usage: map<Pair, int>, n: nat): int
    requires HasCapacities(g) && n <= |g.edges| && KeysOf(g.edges) <= usage.Keys
  {
    if n == 0 then 0 else ViolationSum(g, usage, n - 1) + ViolationAt(g, usage, n - 1)
  }

  /** The total violation of the paths: Σ over the edges of max(0, load − cap).
      The source sums over the usage dictionary, one entry per edge; an edge
      listed twice in g.edges would count twice, which `Valid(g)` rules out. */
  function Violations(g: Graph, paths: seq<Path>): int
    requires HasCapacities(g)
  {
    ViolationSum(g, Usage(g, paths), |g.edges|)
  }

  method FinalViolations(g: Graph, cands: Candidates, state: State) returns (v: int)
    requires ValidState(cands, state) && ChosenOnGraph(g, cands, state)
    requires HasCapacities(g)
    ensures v == Violations(g, ChosenPaths(cands, state))
  {
    var usage := map k | k in KeysOf(g.edges) :: 0;
    var paths := seq(|state|, i requires 0 <= i < |state| => cands[i][state[i]]);
    assert paths == ChosenPaths(cands, state);
    for i := 0 to |paths|
      invariant usage.Keys == KeysOf(g.edges)
      invariant forall k :: k in usage ==> usage[k] == PathsLoad(paths[..i], k)
    {
      assert OnGraph(g, paths[i]);
      usage := CountPathHops(g, usage, paths[i], paths, i);
    }
    assert paths[..|paths|] == paths;
    assert usage == Usage(g, paths);
    v := SumViolations(g, usage);
  }

  /** The second loop: Σ of `load - cap` over the overloaded edges. */
  method SumViolations(g: Graph, usage: map<Pair, int>) returns (v: int)
    requires HasCapacities(g) && KeysOf(g.edges) <= usage.Keys
    ensures v == ViolationSum(g, usage, |g.edges|)
  {
    v := 0;
    for j := 0 to |g.edges|
      invariant v == ViolationSum(g, usage, j)
    {
      var k := EdgeKeyAt(g, j);
      var load := usage[k];
      var cap := CapValue(g, k);
      if load > cap {
        v := v + load - cap;
      }
    }
  }

  /** None of the first n edges carries more than its capacity. */
  predicate NoneOverloadedBelow(g: Graph, usage: map<Pair, int>, n: nat)
    requires n <= |g.edges| && KeysOf(g.edges) <= usage.Keys
  {
    forall j :: 0 <= j < n ==> !OverloadedAt(g, usage, j)
  }

  /** The violation sum over the first n edges is non-negative, and 0
      exactly when none of them is overloaded. */
  predicate ZeroIffBelow(g: Graph, usage: map<Pair, int>, n: nat)
    requires HasCapacities(g) && n <= |g.edges| && KeysOf(g.edges) <= usage.Keys
  {
    ViolationSum(g, usage, n) >= 0 && (ViolationSum(g, usage, n) == 0 <==> NoneOverloadedBelow(g, usage, n))
  }

  /** The total violation of the first n edges is never negative, and is 0
      exactly when none of them carries more than its capacity. */
  lemma ViolationSumZeroIff(g: Graph, usage: map<Pair, int>, n: nat)
    requires HasCapacities(g) && n <= |g.edges| && KeysOf(g.edges) <= usage.Keys
    ensures ViolationSum(g, usage, n) >= 0
    ensures ViolationSum(g, usage, n) == 0 <==> NoneOverloadedBelow(g, usage, n)
  {
    ZeroIffBy(g, usage, n);
  }

  lemma {:induction false} ZeroIffBy(g: Graph, usage: map<Pair, int>, n: nat)
    requires HasCapacities(g) && n <= |g.edges| && KeysOf(g.edges) <= usage.Keys
    ensures ZeroIffBelow(g, usage, n)
    decreases n
  {
    if n > 0 {
      ZeroIffBy(g, usage, n - 1);
      ZeroIffStep(g, usage, n);
    }
  }

  lemma ZeroIffStep(g: Graph, usage: map<Pair, int>, n: nat)
    requires HasCapacities(g) && 0 < n <= |g.edges| && KeysOf(g.edges) <= usage.Keys
    ensures ZeroIffBelow(g, usage, n - 1) ==> ZeroIffBelow(g, usage, n)
  {
    NoOverloadStep(g, usage, n);
    if ZeroIffBelow(g, usage, n - 1) {
      SumStep(ViolationSum(g, usage, n - 1), ViolationAt(g, usage, n - 1),
        NoneOverloadedBelow(g, usage, n - 1), !OverloadedAt(g, usage, n - 1));
    }
  }

  lemma NoOverloadStep(g: Graph, usage: map<Pair, int>, n: nat)
    requires 0 < n <= |g.edges| && KeysOf(g.edges) <= usage.Keys
    ensures NoneOverloadedBelow(g, usage, n) <==> NoneOverloadedBelow(g, usage, n - 1) && !OverloadedAt(g, usage, n - 1)
  {
  }

  /** A sum of two non-negative terms is 0 exactly when both are. */
  lemma SumStep(rest: int, last: int, restOk: bool, lastOk: bool)
    requires rest >= 0 && (rest == 0 <==> restOk)
    requires last >= 0 && (last > 0 <==> !lastOk)
    ensures rest + last >= 0 && (rest + last == 0 <==> restOk && lastOk)
  {
  }

  lemma ViolationsZeroIff(g: Graph, paths: seq<Path>)
    requires HasCapacities(g)
    ensures Violations(g, paths) >= 0
    ensures Violations(g, paths) == 0 <==> NoOverload(g, Usage(g, paths))
  {
    ViolationSumZeroIff(g, Usage(g, paths), |g.edges|);
  }
}
