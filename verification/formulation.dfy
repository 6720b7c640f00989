/** The cost model of src/formulation.py: per-edge loads of a state, path
    travel time, the congestion-penalised objective, the random initial
    state and the single-demand neighbour move. */
module Formulation {
  import opened Graphs

  /** A state picks one candidate index per demand. */
  type State = seq<nat>
  type Candidates = seq<seq<Path>>

  /** Every entry of the state indexes its demand's candidate list. */
  predicate ValidState(cands: Candidates, state: State)
  {
    |state| <= |cands| && forall i :: 0 <= i < |state| ==> state[i] < |cands[i]|
  }

  /** `[candidate_lists[i][state[i]] for i in range(len(state))]` */
  function ChosenPaths(cands: Candidates, state: State): (paths: seq<Path>)
    requires ValidState(cands, state)
    ensures |paths| == |state|
    ensures forall i :: 0 <= i < |state| ==> paths[i] == cands[i][state[i]]
  {
    seq(|state|, i requires 0 <= i < |state| => cands[i][state[i]])
  }

  /** Every hop of every chosen path is a graph edge (the lookups never fail). */
  predicate ChosenOnGraph(g: Graph, cands: Candidates, state: State)
    requires ValidState(cands, state)
  {
    forall i :: 0 <= i < |state| ==> OnGraph(g, cands[i][state[i]])
  }

  /** Every candidate path of every demand is a walk in the graph. */
  predicate AllOnGraph(g: Graph, cands: Candidates)
  {
    forall i, p :: 0 <= i < |cands| && 0 <= p < |cands[i]| ==> OnGraph(g, cands[i][p])
  }

  /** The loads of a state: each edge key with the number of chosen hops over it. */
  function LoadsOf(g: Graph, cands: Candidates, state: State): map<Pair, int>
    requires ValidState(cands, state)
  {
    Usage(g, ChosenPaths(cands, state))
  }

  // ---------------------------------------------------------------------
  // compute_edge_loads_from_state

  method ComputeEdgeLoadsFromState(g: Graph, cands: Candidates, state: State) returns (loads: map<Pair, int>)
    requires ValidState(cands, state)
    requires ChosenOnGraph(g, cands, state)
    ensures loads == LoadsOf(g, cands, state)
  {
    loads := map k | k in KeysOf(g.edges) :: 0;
    ghost var paths := ChosenPaths(cands, state);
    for i := 0 to |state|
      invariant loads.Keys == KeysOf(g.edges)
      invariant forall k :: k in loads ==> loads[k] == PathsLoad(paths[..i], k)
    {
      var path := cands[i][state[i]];
      loads := CountPathHops(g, loads, path, paths, i);
    }
    assert paths[..|state|] == paths;
  }

  /** The inner loop: one more on the sorted key of every hop of path i. */
  method CountPathHops(g: Graph, loads0: map<Pair, int>, path: Path, ghost paths: seq<Path>, ghost i: nat)
    returns (loads: map<Pair, int>)
    requires i < |paths| && paths[i] == path && OnGraph(g, path)
    requires loads0.Keys == KeysOf(g.edges)
    requires forall k :: k in loads0 ==> loads0[k] == PathsLoad(paths[..i], k)
    ensures loads.Keys == KeysOf(g.edges)
    ensures forall k :: k in loads ==> loads[k] == PathsLoad(paths[..i + 1], k)
  {
    loads := loads0;
    var hops := Hops(path);
    for j := 0 to |hops|
      invariant loads.Keys == loads0.Keys
      invariant forall k :: k in loads ==> loads[k] == loads0[k] + CountKey(hops[..j], k)
    {
      assert hops[j] in hops;
      var edge := Canon(hops[j].0, hops[j].1);
      CountOneMoreHop(loads0, loads, hops, j);
      loads := loads[edge := loads[edge] + 1];
    }
    CountOneMorePath(loads0, loads, paths, i);
  }

  /** The map update of the inner loop counts hop j. */
  lemma CountOneMoreHop(base: map<Pair, int>, m: map<Pair, int>, hs: seq<Pair>, j: nat)
    requires j < |hs| && Canon(hs[j].0, hs[j].1) in m && m.Keys == base.Keys
    requires forall k :: k in m ==> m[k] == base[k] + CountKey(hs[..j], k)
    ensures var m' := m[Canon(hs[j].0, hs[j].1) := m[Canon(hs[j].0, hs[j].1)] + 1];
      m'.Keys == base.Keys && forall k :: k in m' ==> m'[k] == base[k] + CountKey(hs[..j + 1], k)
  {
    forall k | k in m ensures CountKey(hs[..j + 1], k) == CountKey(hs[..j], k) + (if Canon(hs[j].0, hs[j].1) == k then 1 else 0) {
      CountKeySnoc(hs, j, k);
    }
  }

  /** After the inner loop, the loads count path i as well. */
  lemma CountOneMorePath(base: map<Pair, int>, m: map<Pair, int>, paths: seq<Path>, i: nat)
    requires i < |paths|
    requires forall k :: k in base ==> base[k] == PathsLoad(paths[..i], k)
    requires m.Keys == base.Keys
    requires forall k :: k in m ==> m[k] == base[k] + CountKey(Hops(paths[i])[..|Hops(paths[i])|], k)
    ensures forall k :: k in m ==> m[k] == PathsLoad(paths[..i + 1], k)
  {
    assert Hops(paths[i])[..|Hops(paths[i])|] == Hops(paths[i]);
    forall k | k in m ensures m[k] == PathsLoad(paths[..i + 1], k) {
      PathsLoadSnoc(paths, i, k);
    }
  }

  lemma CountKeySnoc(hs: seq<Pair>, j: nat, k: Pair)
    requires j < |hs|
    ensures CountKey(hs[..j + 1], k) == CountKey(hs[..j], k) + (if Canon(hs[j].0, hs[j].1) == k then 1 else 0)
  {
    assert hs[..j + 1][..j] == hs[..j];
  }

  lemma PathsLoadSnoc(paths: seq<Path>, i: nat, k: Pair)
    requires i < |paths|
    ensures PathsLoad(paths[..i + 1], k) == PathsLoad(paths[..i], k) + CountKey(Hops(paths[i]), k)
  {
    assert paths[..i + 1][..i] == paths[..i];
  }

  lemma {:induction false} CountKeyAbsent(hs: seq<Pair>, k: Pair)
    requires forall h :: h in hs ==> Canon(h.0, h.1) != k
    ensures CountKey(hs, k) == 0
    decreases |hs|
  {
    if hs != [] {
      CountKeyAbsent(hs[..|hs| - 1], k);
    }
  }

  lemma {:induction false} PathsLoadAbsent(paths: seq<Path>, k: Pair)
    requires forall p, h :: p in paths && h in Hops(p) ==> Canon(h.0, h.1) != k
    ensures PathsLoad(paths, k) == 0
    decreases |paths|
  {
    if paths != [] {
      PathsLoadAbsent(paths[..|paths| - 1], k);
      CountKeyAbsent(Hops(paths[|paths| - 1]), k);
    }
  }

  /** An edge that no chosen path walks, in either direction, keeps load 0. */
  lemma UnusedEdgeHasZeroLoad(g: Graph, cands: Candidates, state: State, e: Edge)
    requires ValidState(cands, state)
    requires e in g.edges
    requires forall i, h :: 0 <= i < |state| && h in Hops(cands[i][state[i]]) ==> Canon(h.0, h.1) != Key(e)
    ensures Key(e) in LoadsOf(g, cands, state) && LoadsOf(g, cands, state)[Key(e)] == 0
  {
    var paths := ChosenPaths(cands, state);
    forall p, h | p in paths && h in Hops(p) ensures Canon(h.0, h.1) != Key(e) {
      var i :| 0 <= i < |paths| && paths[i] == p;
    }
    PathsLoadAbsent(paths, Key(e));
  }

  /** Reversing a chosen path (walking each hop the other way) changes no load. */
  lemma LoadsIgnoreDirection(g: Graph, cands: Candidates, state: State, i: nat, cands': Candidates)
    requires ValidState(cands, state) && i < |state|
    requires |cands'| == |cands|
    requires forall j :: 0 <= j < |cands| && j != i ==> cands'[j] == cands[j]
    requires cands'[i] == cands[i][state[i] := Reverse(cands[i][state[i]])]
    ensures ValidState(cands', state)
    ensures LoadsOf(g, cands', state) == LoadsOf(g, cands, state)
  {
    var paths, paths' := ChosenPaths(cands, state), ChosenPaths(cands', state);
    HopsOfReverse(paths[i]);
    forall k | k in KeysOf(g.edges) ensures PathsLoad(paths', k) == PathsLoad(paths, k) {
      CountKeySwapRev(Hops(paths[i]), k);
      PathsLoadPointwise(paths, paths', k);
    }
  }

  /** Paths that agree hop count by hop count on key k load k equally. */
  lemma {:induction false} PathsLoadPointwise(paths: seq<Path>, paths': seq<Path>, k: Pair)
    requires |paths'| == |paths|
    requires forall j :: 0 <= j < |paths| ==> CountKey(Hops(paths'[j]), k) == CountKey(Hops(paths[j]), k)
    ensures PathsLoad(paths', k) == PathsLoad(paths, k)
    decreases |paths|
  {
    if paths != [] {
      var n := |paths| - 1;
      PathsLoadPointwise(paths[..n], paths'[..n], k);
    }
  }

  // ---------------------------------------------------------------------
  // The loads add up to the hop count.

  /** Σ over the edges of the number of hops of hs on that edge. */
  function EdgeCountSum(es: seq<Edge>, hs: seq<Pair>): nat
  {
    if es == [] then 0 else EdgeCountSum(es[..|es| - 1], hs) + CountKey(hs, Key(es[|es| - 1]))
  }

  /** Number of edges whose key is k. */
  function EdgeMatches(es: seq<Edge>, k: Pair): nat
  {
    if es == [] then 0 else EdgeMatches(es[..|es| - 1], k) + (if Key(es[|es| - 1]) == k then 1 else 0)
  }

  /** Σ over the edges of the value the map gives their key. */
  function LoadSum(es: seq<Edge>, m: map<Pair, int>): int
    requires KeysOf(es) <= m.Keys
  {
    if es == [] then 0
    else
      assert es[|es| - 1] in es;
      assert KeysOf(es[..|es| - 1]) <= KeysOf(es);
      LoadSum(es[..|es| - 1], m) + m[Key(es[|es| - 1])]
  }

  lemma {:induction false} EdgeMatchesOnce(es: seq<Edge>, k: Pair)
    requires DistinctKeys(es)
    ensures k in KeysOf(es) ==> EdgeMatches(es, k) == 1
    ensures k !in KeysOf(es) ==> EdgeMatches(es, k) == 0
    decreases |es|
  {
    if es != [] {
      var init, e := es[..|es| - 1], es[|es| - 1];
      assert es == init + [e];
      assert KeysOf(es) == KeysOf(init) + {Key(e)};
      EdgeMatchesOnce(init, k);
      assert forall f :: f in init ==> Key(f) != Key(e) by {
        forall f | f in init ensures Key(f) != Key(e) {
          var j :| 0 <= j < |init| && init[j] == f;
          assert Key(es[j]) != Key(es[|es| - 1]);
        }
      }
    }
  }

  lemma {:induction false} EdgeCountSumSnoc(es: seq<Edge>, hs: seq<Pair>, h: Pair)
    ensures EdgeCountSum(es, hs + [h]) == EdgeCountSum(es, hs) + EdgeMatches(es, Canon(h.0, h.1))
    decreases |es|
  {
    assert (hs + [h])[..|hs|] == hs;
    if es != [] {
      EdgeCountSumSnoc(es[..|es| - 1], hs, h);
    }
  }

  lemma {:induction false} EdgeCountSumIsHops(es: seq<Edge>, hs: seq<Pair>)
    requires DistinctKeys(es)
    requires forall h :: h in hs ==> Canon(h.0, h.1) in KeysOf(es)
    ensures EdgeCountSum(es, hs) == |hs|
    decreases |hs|
  {
    if hs == [] {
      EdgeCountSumEmpty(es);
    } else {
      var init, h := hs[..|hs| - 1], hs[|hs| - 1];
      assert hs == init + [h];
      EdgeCountSumIsHops(es, init);
      EdgeCountSumSnoc(es, init, h);
      EdgeMatchesOnce(es, Canon(h.0, h.1));
    }
  }

  lemma {:induction false} EdgeCountSumEmpty(es: seq<Edge>)
    ensures EdgeCountSum(es, []) == 0
    decreases |es|
  {
    if es != [] {
      EdgeCountSumEmpty(es[..|es| - 1]);
    }
  }

  /** Σ over the edges of PathsLoad, split off the last path. */
  lemma {:induction false} UsageSumSnoc(es: seq<Edge>, m: map<Pair, int>, m': map<Pair, int>, paths: seq<Path>, p: Path)
    requires KeysOf(es) <= m.Keys && KeysOf(es) <= m'.Keys
    requires forall k :: k in KeysOf(es) ==> m[k] == PathsLoad(paths, k) && m'[k] == PathsLoad(paths + [p], k)
    ensures LoadSum(es, m') == LoadSum(es, m) + EdgeCountSum(es, Hops(p))
    decreases |es|
  {
    assert (paths + [p])[..|paths|] == paths;
    if es != [] {
      var init := es[..|es| - 1];
      assert es[|es| - 1] in es;
      assert KeysOf(init) <= KeysOf(es);
      UsageSumSnoc(init, m, m', paths, p);
    }
  }

  lemma {:induction false} UsageSumIsTotalHops(g: Graph, paths: seq<Path>)
    requires DistinctKeys(g.edges)
    requires forall p :: p in paths ==> OnGraph(g, p)
    ensures LoadSum(g.edges, Usage(g, paths)) == TotalHops(paths)
    decreases |paths|
  {
    if paths == [] {
      LoadSumZero(g.edges, Usage(g, paths));
    } else {
      var init, p := paths[..|paths| - 1], paths[|paths| - 1];
      assert paths == init + [p];
      UsageSumIsTotalHops(g, init);
      UsageSumSnoc(g.edges, Usage(g, init), Usage(g, paths), init, p);
      assert p in paths;
      EdgeCountSumIsHops(g.edges, Hops(p));
    }
  }

  lemma {:induction false} LoadSumZero(es: seq<Edge>, m: map<Pair, int>)
    requires KeysOf(es) <= m.Keys
    requires forall k :: k in KeysOf(es) ==> m[k] == 0
    ensures LoadSum(es, m) == 0
    decreases |es|
  {
    if es != [] {
      assert es[|es| - 1] in es;
      assert KeysOf(es[..|es| - 1]) <= KeysOf(es);
      LoadSumZero(es[..|es| - 1], m);
    }
  }

  /** Summed over the graph's edges, the loads of a state are its total hop count. */
  lemma LoadsSumToHops(g: Graph, cands: Candidates, state: State)
    requires Valid(g)
    requires ValidState(cands, state) && ChosenOnGraph(g, cands, state)
    ensures LoadSum(g.edges, LoadsOf(g, cands, state)) == TotalHops(ChosenPaths(cands, state))
  {
    var paths := ChosenPaths(cands, state);
    forall p | p in paths ensures OnGraph(g, p) {
      var i :| 0 <= i < |paths| && paths[i] == p;
    }
    UsageSumIsTotalHops(g, paths);
  }

  // ---------------------------------------------------------------------
  // path_travel_time

  /** `attrs.get('time', 1)` */
  function HopTime(a: EdgeAttrs): int
  {
    match a.time
    case Some(t) => t
    case None => 1
  }

  predicate HopsOnGraph(g: Graph, hs: seq<Pair>)
  {
    forall h :: h in hs ==> Adjacent(g, h.0, h.1)
  }

  /** Σ of the time attribute over the hops. */
  function HopsTime(g: Graph, hs: seq<Pair>): int
    requires HopsOnGraph(g, hs)
  {
    if hs == [] then 0
    else
      assert hs[|hs| - 1] in hs;
      HopsTime(g, hs[..|hs| - 1]) + HopTime(Attrs(g, hs[|hs| - 1].0, hs[|hs| - 1].1))
  }

  function TravelTime(g: Graph, p: Path): int
    requires OnGraph(g, p)
  {
    HopsTime(g, Hops(p))
  }

  method PathTravelTime(g: Graph, path: Path) returns (total: int)
    requires OnGraph(g, path)
    ensures total == TravelTime(g, path)
    ensures |path| <= 1 ==> total == 0
  {
    total := 0;
    var hops := Hops(path);
    for j := 0 to |hops|
      invariant total == HopsTime(g, hops[..j])
    {
      assert hops[j] in hops;
      var attrs := Attrs(g, hops[j].0, hops[j].1);
      assert hops[..j + 1][..j] == hops[..j];
      total := total + HopTime(attrs);
    }
    assert hops[..|hops|] == hops;
  }

  lemma {:induction false} HopsTimeAppend(g: Graph, a: seq<Pair>, b: seq<Pair>)
    requires HopsOnGraph(g, a) && HopsOnGraph(g, b)
    ensures HopsOnGraph(g, a + b)
    ensures HopsTime(g, a + b) == HopsTime(g, a) + HopsTime(g, b)
    decreases |b|
  {
    if b == [] {
      assert a + b == a;
    } else {
      var init := b[..|b| - 1];
      assert (a + b)[..|a + b| - 1] == a + init;
      assert b[|b| - 1] in b;
      HopsTimeAppend(g, a, init);
    }
  }

  /** Travel time splits at any node of the path. */
  lemma TravelTimeSplit(g: Graph, p: Path, j: nat)
    requires OnGraph(g, p) && j < |p|
    ensures OnGraph(g, p[..j + 1]) && OnGraph(g, p[j..])
    ensures TravelTime(g, p) == TravelTime(g, p[..j + 1]) + TravelTime(g, p[j..])
  {
    HopsOfSplit(p, j);
    HopsTimeAppend(g, Hops(p[..j + 1]), Hops(p[j..]));
  }

  lemma {:induction false} HopsTimeSwapRev(g: Graph, hs: seq<Pair>)
    requires HopsOnGraph(g, hs)
    ensures HopsOnGraph(g, SwapRev(hs))
    ensures HopsTime(g, SwapRev(hs)) == HopsTime(g, hs)
    decreases |hs|
  {
    if hs != [] {
      var init, h := hs[..|hs| - 1], hs[|hs| - 1];
      assert hs == init + [h];
      assert h in hs;
      SwapRevSnoc(init, h);
      HopsTimeSwapRev(g, init);
      assert Canon(h.1, h.0) == Canon(h.0, h.1);
      HopsTimeAppend(g, [(h.1, h.0)], SwapRev(init));
      assert [(h.1, h.0)][..0] == [];
    }
  }

  /** The graph is undirected: a path costs the same walked backwards. */
  lemma TravelTimeReverse(g: Graph, p: Path)
    requires OnGraph(g, p)
    ensures OnGraph(g, Reverse(p))
    ensures TravelTime(g, Reverse(p)) == TravelTime(g, p)
  {
    HopsOfReverse(p);
    HopsTimeSwapRev(g, Hops(p));
  }

  lemma {:induction false} HopsTimeUnit(g: Graph, hs: seq<Pair>)
    requires HopsOnGraph(g, hs)
    requires forall e :: e in g.edges ==> e.attrs.time.None?
    ensures HopsTime(g, hs) == |hs|
    decreases |hs|
  {
    if hs != [] {
      var h := hs[|hs| - 1];
      assert h in hs;
      LookupSpec(g.edges, Canon(h.0, h.1));
      HopsTimeUnit(g, hs[..|hs| - 1]);
    }
  }

  /** With no time attribute anywhere, every hop counts 1. */
  lemma TravelTimeWithoutTimes(g: Graph, p: Path)
    requires OnGraph(g, p)
    requires forall e :: e in g.edges ==> e.attrs.time.None?
    ensures TravelTime(g, p) == |Hops(p)|
  {
    HopsTimeUnit(g, Hops(p));
  }

  // ---------------------------------------------------------------------
  // objective_cost

  function Pow(x: real, n: nat): real
  {
    if n == 0 then 1.0 else x * Pow(x, n - 1)
  }

  lemma {:induction false} PowSign(x: real, n: nat)
    ensures x >= 0.0 ==> Pow(x, n) >= 0.0
    ensures x > 0.0 ==> Pow(x, n) > 0.0
    ensures x == 0.0 && n > 0 ==> Pow(x, n) == 0.0
  {
    if n > 0 {
      PowSign(x, n - 1);
    }
  }

  /** `max(0.0, load - cap)`; a missing capacity is infinite, so no excess. */
  function Excess(load: int, cap: Option<int>): (r: real)
    ensures r >= 0.0
    ensures r > 0.0 <==> cap.Some? && load > cap.value
  {
    match cap
    case None => 0.0
    case Some(c) => if load - c > 0 then (load - c) as real else 0.0
  }

  /** `coef * max(0, load - cap) ** power` for one edge. */
  function EdgePenalty(coef: real, load: int, cap: Option<int>, power: nat): real
  {
    coef * Pow(Excess(load, cap), power)
  }

  /** The edge penalty is never negative for a non-negative coefficient, is 0
      on an edge without capacity, and with positive coefficient and power
      is 0 exactly when the edge is within its capacity. */
  lemma EdgePenaltySign(coef: real, load: int, cap: Option<int>, power: nat)
    ensures coef >= 0.0 ==> EdgePenalty(coef, load, cap, power) >= 0.0
    ensures cap.None? && power > 0 ==> EdgePenalty(coef, load, cap, power) == 0.0
    ensures coef > 0.0 && power > 0 ==>
              (EdgePenalty(coef, load, cap, power) == 0.0 <==> !(cap.Some? && load > cap.value))
  {
    PowSign(Excess(load, cap), power);
  }

  /** The capacity of the edge with key k, through `G[k[0]][k[1]]`. */
  function CapOf(g: Graph, k: Pair): Option<int>
    requires k in KeysOf(g.edges)
  {
    assert Canon(k.0, k.1) == k by {
      var e :| e in g.edges && Key(e) == k;
    }
    Attrs(g, k.0, k.1).capacity
  }

  /** The key of the j-th edge of `G.edges`. */
  function EdgeKeyAt(g: Graph, j: nat): (k: Pair)
    requires j < |g.edges|
    ensures k in KeysOf(g.edges)
  {
    assert g.edges[j] in g.edges;
    Key(g.edges[j])
  }

  /** The j-th edge carries more than its capacity. */
  predicate OverloadedAt(g: Graph, loads: map<Pair, int>, j: nat)
    requires j < |g.edges| && KeysOf(g.edges) <= loads.Keys
  {
    var k := EdgeKeyAt(g, j);
    CapOf(g, k).Some? && loads[k] > CapOf(g, k).value
  }

  /** The penalty term of the j-th edge. */
  function EdgePenaltyAt(g: Graph, loads: map<Pair, int>, coef: real, power: nat, j: nat): real
    requires j < |g.edges| && KeysOf(g.edges) <= loads.Keys
  {
    var k := EdgeKeyAt(g, j);
    EdgePenalty(coef, loads[k], CapOf(g, k), power)
  }

  /** Σ of a sequence of reals, added left to right. */
  function SumReal(s: seq<real>): real
  {
    if s == [] then 0.0 else SumReal(s[..|s| - 1]) + s[|s| - 1]
  }

  lemma SumRealSnoc(s: seq<real>, j: nat)
    requires j < |s|
    ensures SumReal(s[..j + 1]) == SumReal(s[..j]) + s[j]
  {
    assert s[..j + 1][..j] == s[..j];
  }

  /** The penalty terms of the edges, in `G.edges` order. */
  function PenaltyTerms(g: Graph, loads: map<Pair, int>, coef: real, power: nat): (ts: seq<real>)
    requires KeysOf(g.edges) <= loads.Keys
    ensures |ts| == |g.edges|
    ensures forall j :: 0 <= j < |ts| ==> ts[j] == EdgePenaltyAt(g, loads, coef, power, j)
  {
    seq(|g.edges|, j requires 0 <= j < |g.edges| => EdgePenaltyAt(g, loads, coef, power, j))
  }

  function Penalty(g: Graph, loads: map<Pair, int>, coef: real, power: nat): real
    requires KeysOf(g.edges) <= loads.Keys
  {
    SumReal(PenaltyTerms(g, loads, coef, power))
  }

  /** Σ of the travel times of the paths. */
  function PathsTime(g: Graph, paths: seq<Path>): int
    requires forall p :: p in paths ==> OnGraph(g, p)
  {
    if paths == [] then 0
    else
      assert paths[|paths| - 1] in paths;
      PathsTime(g, paths[..|paths| - 1]) + TravelTime(g, paths[|paths| - 1])
  }

  lemma PathsTimeSnoc(g: Graph, paths: seq<Path>, i: nat)
    requires forall p :: p in paths ==> OnGraph(g, p)
    requires i < |paths|
    ensures PathsTime(g, paths[..i + 1]) == PathsTime(g, paths[..i]) + TravelTime(g, paths[i])
  {
    assert paths[..i + 1][..i] == paths[..i];
  }

  function TravelCost(g: Graph, cands: Candidates, state: State): int
    requires ValidState(cands, state) && ChosenOnGraph(g, cands, state)
  {
    PathsTime(g, ChosenPaths(cands, state))
  }

  function Objective(g: Graph, cands: Candidates, state: State, coef: real, power: nat): real
    requires ValidState(cands, state) && ChosenOnGraph(g, cands, state)
  {
    TravelCost(g, cands, state) as real + Penalty(g, LoadsOf(g, cands, state), coef, power)
  }

  /** The congestion-penalty loop of `objective_cost`, over `loads.items()`,
      which lists the edge keys in `G.edges` order. */
  method CongestionPenalty(g: Graph, loads: map<Pair, int>, coef: real, power: nat) returns (penalty: real)
    requires KeysOf(g.edges) <= loads.Keys
    ensures penalty == Penalty(g, loads, coef, power)
  {
    ghost var terms := PenaltyTerms(g, loads, coef, power);
    penalty := 0.0;
    for j := 0 to |g.edges|
      invariant penalty == SumReal(terms[..j])
    {
      var e := EdgeKeyAt(g, j);
      var cap := CapOf(g, e);
      var excess := Excess(loads[e], cap);
      var term := Pow(excess, power);
      SumRealSnoc(terms, j);
      penalty := penalty + coef * term;
    }
    assert terms[..|g.edges|] == terms;
  }

  method ObjectiveCost(g: Graph, cands: Candidates, state: State, coef: real, power: nat) returns (cost: real)
    requires ValidState(cands, state) && ChosenOnGraph(g, cands, state)
    ensures cost == Objective(g, cands, state, coef, power)
  {
    ghost var paths := ChosenPaths(cands, state);
    assert forall p :: p in paths ==> OnGraph(g, p);
    var travel := 0.0;
    for i := 0 to |state|
      invariant travel == PathsTime(g, paths[..i]) as real
    {
      var t := PathTravelTime(g, cands[i][state[i]]);
      PathsTimeSnoc(g, paths, i);
      travel := travel + t as real;
    }
    assert paths[..|state|] == paths;

    var loads := ComputeEdgeLoadsFromState(g, cands, state);
    assert loads.Keys == KeysOf(g.edges);

    var penalty := CongestionPenalty(g, loads, coef, power);
    cost := travel + penalty;
  }

  lemma EdgePenaltyMonotone(coef: real, coef': real, load: int, cap: Option<int>, power: nat)
    requires 0.0 <= coef <= coef'
    ensures 0.0 <= EdgePenalty(coef, load, cap, power) <= EdgePenalty(coef', load, cap, power)
  {
    var x := Pow(Excess(load, cap), power);
    PowSign(Excess(load, cap), power);
    assert (coef' - coef) * x >= 0.0;
  }

  lemma {:induction false} SumRealMono(s: seq<real>, s': seq<real>)
    requires |s'| == |s|
    requires forall j :: 0 <= j < |s| ==> 0.0 <= s[j] <= s'[j]
    ensures 0.0 <= SumReal(s) <= SumReal(s')
    decreases |s|
  {
    if s != [] {
      SumRealMono(s[..|s| - 1], s'[..|s| - 1]);
    }
  }

  lemma {:induction false} SumRealZeroIff(s: seq<real>)
    requires forall j :: 0 <= j < |s| ==> s[j] >= 0.0
    ensures SumReal(s) >= 0.0
    ensures SumReal(s) == 0.0 <==> forall j :: 0 <= j < |s| ==> s[j] == 0.0
    decreases |s|
  {
    if s != [] {
      var init := s[..|s| - 1];
      SumRealZeroIff(init);
      if forall j :: 0 <= j < |init| ==> init[j] == 0.0 {
        if s[|s| - 1] == 0.0 {
          forall j | 0 <= j < |s| ensures s[j] == 0.0 {
            if j < |init| {
              assert init[j] == 0.0;
            }
          }
        }
      } else {
        var j :| 0 <= j < |init| && init[j] != 0.0;
        assert s[j] != 0.0;
      }
    }
  }

  /** A non-negative coefficient gives a non-negative penalty, which grows
      with the coefficient. */
  lemma PenaltyBounds(g: Graph, loads: map<Pair, int>, coef: real, coef': real, power: nat)
    requires KeysOf(g.edges) <= loads.Keys
    requires 0.0 <= coef <= coef'
    ensures 0.0 <= Penalty(g, loads, coef, power) <= Penalty(g, loads, coef', power)
  {
    var ts, ts' := PenaltyTerms(g, loads, coef, power), PenaltyTerms(g, loads, coef', power);
    forall j | 0 <= j < |ts| ensures 0.0 <= ts[j] <= ts'[j] {
      var k := EdgeKeyAt(g, j);
      EdgePenaltyMonotone(coef, coef', loads[k], CapOf(g, k), power);
    }
    SumRealMono(ts, ts');
  }

  lemma PenaltyZeroCoef(g: Graph, loads: map<Pair, int>, power: nat)
    requires KeysOf(g.edges) <= loads.Keys
    ensures Penalty(g, loads, 0.0, power) == 0.0
  {
    var ts := PenaltyTerms(g, loads, 0.0, power);
    assert forall j :: 0 <= j < |ts| ==> ts[j] == 0.0;
    SumRealZeroIff(ts);
  }

  /** No edge carries more than its capacity. */
  predicate NoOverload(g: Graph, loads: map<Pair, int>)
    requires KeysOf(g.edges) <= loads.Keys
  {
    forall j :: 0 <= j < |g.edges| ==> !OverloadedAt(g, loads, j)
  }

  /** With positive coefficient and power the penalty vanishes exactly when
      no edge is overloaded. */
  lemma PenaltyZeroIff(g: Graph, loads: map<Pair, int>, coef: real, power: nat)
    requires KeysOf(g.edges) <= loads.Keys
    requires coef > 0.0 && power > 0
    ensures Penalty(g, loads, coef, power) == 0.0 <==> NoOverload(g, loads)
  {
    var ts := PenaltyTerms(g, loads, coef, power);
    forall j | 0 <= j < |ts| ensures ts[j] >= 0.0 && (ts[j] == 0.0 <==> !OverloadedAt(g, loads, j)) {
      var k := EdgeKeyAt(g, j);
      EdgePenaltySign(coef, loads[k], CapOf(g, k), power);
    }
    SumRealZeroIff(ts);
  }

  /** With a non-negative coefficient the objective is at least the travel
      cost, and a larger coefficient never lowers it. */
  lemma ObjectiveAtLeastTravel(g: Graph, cands: Candidates, state: State, coef: real, coef': real, power: nat)
    requires ValidState(cands, state) && ChosenOnGraph(g, cands, state)
    requires 0.0 <= coef <= coef'
    ensures TravelCost(g, cands, state) as real <= Objective(g, cands, state, coef, power)
    ensures Objective(g, cands, state, coef, power) <= Objective(g, cands, state, coef', power)
  {
    PenaltyBounds(g, LoadsOf(g, cands, state), coef, coef', power);
  }

  /** With coefficient 0 the objective is the travel cost. */
  lemma ObjectiveZeroCoef(g: Graph, cands: Candidates, state: State, power: nat)
    requires ValidState(cands, state) && ChosenOnGraph(g, cands, state)
    ensures Objective(g, cands, state, 0.0, power) == TravelCost(g, cands, state) as real
  {
    PenaltyZeroCoef(g, LoadsOf(g, cands, state), power);
  }

  /** With a positive coefficient and power, the objective equals the travel
      cost exactly when no edge is loaded beyond its capacity. */
  lemma ObjectiveIsTravelIffNoOverload(g: Graph, cands: Candidates, state: State, coef: real, power: nat)
    requires ValidState(cands, state) && ChosenOnGraph(g, cands, state)
    requires coef > 0.0 && power > 0
    ensures Objective(g, cands, state, coef, power) == TravelCost(g, cands, state) as real
            <==> NoOverload(g, LoadsOf(g, cands, state))
  {
    PenaltyZeroIff(g, LoadsOf(g, cands, state), coef, power);
  }

  // ---------------------------------------------------------------------
  // random_initial_state and sa_neighbor

  /** `[random.randrange(len(P)) for P in candidate_lists]`, where the i-th
      draw of the generator is `draws[i]` reduced into range. */
  function RandomInitialState(cands: Candidates, draws: seq<nat>): (state: State)
    requires |draws| == |cands|
    requires forall i :: 0 <= i < |cands| ==> |cands[i]| > 0
    ensures |state| == |cands| && ValidState(cands, state)
  {
    seq(|cands|, i requires 0 <= i < |cands| => draws[i] % |cands[i]|)
  }

  /** Every full valid state is one the initial draw can produce. */
  lemma RandomInitialStateReachesAll(cands: Candidates, state: State)
    requires |state| == |cands| && ValidState(cands, state)
    ensures RandomInitialState(cands, state) == state
  {
    var r := RandomInitialState(cands, state);
    forall i | 0 <= i < |cands| ensures r[i] == state[i] {
      assert state[i] % |cands[i]| == state[i];
    }
  }

  /** `list(range(n))` with `s` removed. */
  function Alternatives(n: nat, s: nat): (cs: seq<nat>)
    requires s < n
    ensures |cs| == n - 1
    ensures forall j :: 0 <= j < |cs| ==> cs[j] < n && cs[j] != s
    ensures forall c: nat :: c < n && c != s ==> c in cs
    ensures forall j, j' :: 0 <= j < j' < |cs| ==> cs[j] < cs[j']
  {
    var cs := seq(n - 1, j requires 0 <= j < n - 1 => if j < s then j else j + 1);
    forall c: nat | c < n && c != s ensures c in cs {
      var j := if c < s then c else c - 1;
      assert cs[j] == c;
    }
    cs
  }

  /** `sa_neighbor`: `pick` is the raw draw for the demand, `choice` the raw
      draw among the other candidates. */
  method SaNeighbor(state: State, cands: Candidates, pick: nat, choice: nat) returns (newState: State)
    requires |state| > 0 && ValidState(cands, state)
    ensures |newState| == |state| && ValidState(cands, newState)
    ensures forall j :: 0 <= j < |state| && j != pick % |state| ==> newState[j] == state[j]
    ensures |cands[pick % |state|]| <= 1 ==> newState == state
    ensures |cands[pick % |state|]| > 1 ==> newState[pick % |state|] != state[pick % |state|]
  {
    newState := state;
    var i := pick % |state|;
    var n := |cands[i]|;
    if n <= 1 {
      return;
    }
    var choices := Alternatives(n, newState[i]);
    newState := newState[i := choices[choice % |choices|]];
  }
}
