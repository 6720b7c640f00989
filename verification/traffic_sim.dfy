/** The older load counting of src/traffic_sim.py: loads keyed by each
    edge as the graph stores it, and the random demand generator. */
module TrafficSim {
  import opened Graphs
  import opened Formulation

  /** `{edge: 0 for edge in G.edges()}` */
  function ZeroLoads(g: Graph): (m: map<Pair, int>)
    ensures m.Keys == StoredOf(g.edges)
  {
    map k | k in StoredOf(g.edges) :: 0
  }

  /** One hop (u, v): one more on (u, v) if that key is present, else on
      (v, u) if that one is, else nothing. */
  function Bump(m: map<Pair, int>, h: Pair): (m': map<Pair, int>)
    ensures m'.Keys == m.Keys
  {
    if h in m then m[h := m[h] + 1]
    else if (h.1, h.0) in m then m[(h.1, h.0) := m[(h.1, h.0)] + 1]
    else m
  }

  /** The hops applied one after the other. */
  function Tally(m: map<Pair, int>, hs: seq<Pair>): (m': map<Pair, int>)
    ensures m'.Keys == m.Keys
  {
    if hs == [] then m else Bump(Tally(m, hs[..|hs| - 1]), hs[|hs| - 1])
  }

  /** The hops of all paths, path after path. */
  function AllHops(paths: seq<Path>): seq<Pair>
  {
    if paths == [] then [] else AllHops(paths[..|paths| - 1]) + Hops(paths[|paths| - 1])
  }

  /** What `compute_edge_loads(G, paths)` returns. */
  function EdgeLoads(g: Graph, paths: seq<Path>): (m: map<Pair, int>)
    ensures m.Keys == StoredOf(g.edges)
  {
    Tally(ZeroLoads(g), AllHops(paths))
  }

  method ComputeEdgeLoads(g: Graph, paths: seq<Path>) returns (loads: map<Pair, int>)
    ensures loads == EdgeLoads(g, paths)
  {
    loads := map k | k in StoredOf(g.edges) :: 0;
    for i := 0 to |paths|
      invariant loads == Tally(ZeroLoads(g), AllHops(paths[..i]))
    {
      loads := AddPathLoads(loads, paths[i], ZeroLoads(g), AllHops(paths[..i]));
      assert paths[..i + 1][..i] == paths[..i];
    }
    assert paths[..|paths|] == paths;
  }

  /** The inner loop of `compute_edge_loads`: the hops of one path. */
  method AddPathLoads(loads0: map<Pair, int>, path: Path, ghost base: map<Pair, int>, ghost done: seq<Pair>)
    returns (loads: map<Pair, int>)
    requires loads0 == Tally(base, done)
    ensures loads == Tally(base, done + Hops(path))
  {
    loads := loads0;
    var n := if |path| == 0 then 0 else |path| - 1;
    assert done + Hops(path)[..0] == done;
    for j := 0 to n
      invariant loads == Tally(base, done + Hops(path)[..j])
    {
      var u, v := path[j], path[j + 1];
      TallyHopStep(base, done, path, j);
      ghost var prev := loads;
      if (u, v) in loads {
        loads := loads[(u, v) := loads[(u, v)] + 1];
      } else if (v, u) in loads {
        loads := loads[(v, u) := loads[(v, u)] + 1];
      }
      BumpIs(prev, u, v, loads);
    }
    assert Hops(path)[..n] == Hops(path);
  }

  /** The branches of the inner loop's body are one Bump. */
  lemma BumpIs(m: map<Pair, int>, u: Node, v: Node, m': map<Pair, int>)
    requires m' == if (u, v) in m then m[(u, v) := m[(u, v)] + 1] else if (v, u) in m then m[(v, u) := m[(v, u)] + 1] else m
    ensures m' == Bump(m, (u, v))
  {
  }

  lemma TallyHopStep(base: map<Pair, int>, done: seq<Pair>, path: Path, j: nat)
    requires j + 1 < |path|
    ensures Tally(base, done + Hops(path)[..j + 1]) == Bump(Tally(base, done + Hops(path)[..j]), (path[j], path[j + 1]))
  {
    var hs := Hops(path);
    assert hs[..j + 1] == hs[..j] + [hs[j]];
    assert done + hs[..j + 1] == (done + hs[..j]) + [hs[j]];
    TallySnoc(base, done + hs[..j], hs[j]);
  }

  lemma TallySnoc(m: map<Pair, int>, hs: seq<Pair>, h: Pair)
    ensures Tally(m, hs + [h]) == Bump(Tally(m, hs), h)
  {
    assert (hs + [h])[..|hs|] == hs;
  }

  // ---------------------------------------------------------------------
  // What the loads count

  /** No key is present in both orientations (a networkx graph stores each
      undirected edge once). */
  predicate OneOrientation(m: map<Pair, int>)
  {
    forall k :: k in m && (k.1, k.0) in m ==> k.0 == k.1
  }

  /** One hop adds one to the present key of its edge and nothing elsewhere. */
  lemma BumpCount(m: map<Pair, int>, h: Pair, s: Pair)
    requires OneOrientation(m) && s in m
    ensures Bump(m, h)[s] == m[s] + if Canon(h.0, h.1) == Canon(s.0, s.1) then 1 else 0
  {
    if Canon(h.0, h.1) == Canon(s.0, s.1) {
      assert h == s || h == (s.1, s.0);
    }
  }

  lemma {:induction false} TallyCount(m: map<Pair, int>, hs: seq<Pair>, s: Pair)
    requires OneOrientation(m) && s in m
    ensures Tally(m, hs)[s] == m[s] + CountKey(hs, Canon(s.0, s.1))
    decreases |hs|
  {
    if hs != [] {
      var init := hs[..|hs| - 1];
      TallyCount(m, init, s);
      assert OneOrientation(Tally(m, init));
      BumpCount(Tally(m, init), hs[|hs| - 1], s);
    }
  }

  /** A hop that is not a graph edge changes nothing. */
  lemma BumpOffGraph(g: Graph, m: map<Pair, int>, h: Pair)
    requires m.Keys == StoredOf(g.edges)
    requires !Adjacent(g, h.0, h.1)
    ensures Bump(m, h) == m
  {
    forall e | e in g.edges ensures Stored(e) != h && Stored(e) != (h.1, h.0) {
      assert Key(e) in KeysOf(g.edges);
    }
  }

  lemma {:induction false} CountKeyAppend(hs: seq<Pair>, us: seq<Pair>, k: Pair)
    ensures CountKey(hs + us, k) == CountKey(hs, k) + CountKey(us, k)
    decreases |us|
  {
    if us == [] {
      assert hs + us == hs;
    } else {
      assert (hs + us)[..|hs + us| - 1] == hs + us[..|us| - 1];
      CountKeyAppend(hs, us[..|us| - 1], k);
    }
  }

  lemma {:induction false} AllHopsCount(paths: seq<Path>, k: Pair)
    ensures CountKey(AllHops(paths), k) == PathsLoad(paths, k)
    decreases |paths|
  {
    if paths != [] {
      AllHopsCount(paths[..|paths| - 1], k);
      CountKeyAppend(AllHops(paths[..|paths| - 1]), Hops(paths[|paths| - 1]), k);
    }
  }

  lemma ValidOneOrientation(g: Graph)
    requires Valid(g)
    ensures OneOrientation(ZeroLoads(g))
  {
    forall k | k in ZeroLoads(g) && (k.1, k.0) in ZeroLoads(g) ensures k.0 == k.1 {
      var e :| e in g.edges && Stored(e) == k;
      var f :| f in g.edges && Stored(f) == (k.1, k.0);
      var i :| 0 <= i < |g.edges| && g.edges[i] == e;
      var j :| 0 <= j < |g.edges| && g.edges[j] == f;
      assert Key(e) == Key(f);
    }
  }

  /** On a networkx graph each edge, under the orientation it is stored in,
      carries exactly the hops whose sorted key is its key, in either
      direction: the same numbers as the sorted-key loads of
      src/formulation.py. */
  lemma EdgeLoadsAreCanonical(g: Graph, paths: seq<Path>, e: Edge)
    requires Valid(g) && e in g.edges
    ensures Stored(e) in EdgeLoads(g, paths)
    ensures EdgeLoads(g, paths)[Stored(e)] == PathsLoad(paths, Key(e))
    ensures EdgeLoads(g, paths)[Stored(e)] == Usage(g, paths)[Key(e)]
  {
    ValidOneOrientation(g);
    TallyCount(ZeroLoads(g), AllHops(paths), Stored(e));
    AllHopsCount(paths, Key(e));
  }

  /** A path with a single node, or none, changes no load. */
  lemma ShortPathAddsNothing(g: Graph, paths: seq<Path>, p: Path)
    requires |p| <= 1
    ensures EdgeLoads(g, paths + [p]) == EdgeLoads(g, paths)
  {
    assert (paths + [p])[..|paths|] == paths;
    assert AllHops(paths + [p]) == AllHops(paths) + [];
    assert AllHops(paths) + [] == AllHops(paths);
  }

  /** A path whose every hop leaves the graph changes no load. */
  lemma {:induction false} OffGraphHopsAddNothing(g: Graph, m: map<Pair, int>, hs: seq<Pair>)
    requires m.Keys == StoredOf(g.edges)
    requires forall h :: h in hs ==> !Adjacent(g, h.0, h.1)
    ensures Tally(m, hs) == m
    decreases |hs|
  {
    if hs != [] {
      OffGraphHopsAddNothing(g, m, hs[..|hs| - 1]);
      BumpOffGraph(g, m, hs[|hs| - 1]);
    }
  }

  /** Σ of the loads over the edges, each under its stored orientation. */
  function StoredSum(es: seq<Edge>, m: map<Pair, int>): int
    requires StoredOf(es) <= m.Keys
  {
    if es == [] then 0
    else
      assert StoredOf(es[..|es| - 1]) <= StoredOf(es) by {
        forall e | e in es[..|es| - 1] ensures e in es { }
      }
      assert es[|es| - 1] in es;
      StoredSum(es[..|es| - 1], m) + m[Stored(es[|es| - 1])]
  }

  lemma {:induction false} StoredSumIsLoadSum(g: Graph, paths: seq<Path>, es: seq<Edge>)
    requires Valid(g)
    requires forall e :: e in es ==> e in g.edges
    ensures StoredOf(es) <= EdgeLoads(g, paths).Keys && KeysOf(es) <= Usage(g, paths).Keys
    ensures StoredSum(es, EdgeLoads(g, paths)) == LoadSum(es, Usage(g, paths))
    decreases |es|
  {
    if es != [] {
      var e := es[|es| - 1];
      StoredSumIsLoadSum(g, paths, es[..|es| - 1]);
      EdgeLoadsAreCanonical(g, paths, e);
    }
  }

  /** On paths that stay on the graph, the loads add up to the number of hops. */
  lemma EdgeLoadsSumToHops(g: Graph, paths: seq<Path>)
    requires Valid(g)
    requires forall p :: p in paths ==> OnGraph(g, p)
    ensures StoredSum(g.edges, EdgeLoads(g, paths)) == TotalHops(paths)
  {
    StoredSumIsLoadSum(g, paths, g.edges);
    UsageSumIsTotalHops(g, paths);
  }

  // ---------------------------------------------------------------------
  // generate_demand

  /** `generate_demand(G, num_vehicles)`, where the k-th call of
      `random.sample(nodes, 2)` draws `draws[k]`. */
  method GenerateDemand(g: Graph, draws: seq<(nat, nat)>, numVehicles: nat) returns (demand: seq<Pair>)
    requires numVehicles > 0 ==> |g.nodes| >= 2
    requires |draws| >= numVehicles
    ensures demand == SampleDemands(g.nodes, draws[..numVehicles])
    ensures |demand| == numVehicles
    ensures Valid(g) ==> forall k :: 0 <= k < |demand| ==> demand[k].0 != demand[k].1
  {
    var nodes := g.nodes;
    demand := [];
    for k := 0 to numVehicles
      invariant demand == SampleDemands(nodes, draws[..k])
    {
      var (start, end) := SamplePair(nodes, draws[k]);
      demand := demand + [(start, end)];
    }
  }
}
