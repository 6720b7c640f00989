/** The triangle of tests/test_formulation.py: nodes A, B, C as 0, 1, 2,
    edges A–B and B–C of time 1, A–C of time 3, and two demands from A to
    C whose candidates are A–B–C and A–C. */
module TinyScenario {
  import opened Graphs
  import opened Formulation

  function Tiny(capAB: int, capBC: int): Graph
  {
    Graph([0, 1, 2], [
      Edge(0, 1, EdgeAttrs(Some(1), None, None, Some(capAB))),
      Edge(1, 2, EdgeAttrs(Some(1), None, None, Some(capBC))),
      Edge(0, 2, EdgeAttrs(Some(3), None, None, Some(2)))])
  }

  function TinyCands(): Candidates
  {
    [[[0, 1, 2], [0, 2]], [[0, 1, 2], [0, 2]]]
  }

  lemma TinyKeys(capAB: int, capBC: int)
    ensures KeysOf(Tiny(capAB, capBC).edges) == {(0, 1), (1, 2), (0, 2)}
  {
    var es := Tiny(capAB, capBC).edges;
    assert Key(es[0]) == (0, 1) && Key(es[1]) == (1, 2) && Key(es[2]) == (0, 2);
    assert es[0] in es && es[1] in es && es[2] in es;
  }

  /** Both candidates of both demands are walks in the triangle, and
      state [0, 0] picks A–B–C twice. */
  lemma TinyOnGraph(capAB: int, capBC: int)
    ensures AllOnGraph(Tiny(capAB, capBC), TinyCands())
    ensures ValidState(TinyCands(), [0, 0]) && ChosenOnGraph(Tiny(capAB, capBC), TinyCands(), [0, 0])
    ensures ChosenPaths(TinyCands(), [0, 0]) == [[0, 1, 2], [0, 1, 2]]
  {
    TinyKeys(capAB, capBC);
    assert Hops([0, 1, 2]) == [(0, 1), (1, 2)];
    assert Hops([0, 2]) == [(0, 2)];
  }

  /** A–B–C crosses A–B and B–C once each and A–C not at all. */
  lemma TinyCounts()
    ensures CountKey(Hops([0, 1, 2]), (0, 1)) == 1
    ensures CountKey(Hops([0, 1, 2]), (1, 2)) == 1
    ensures CountKey(Hops([0, 1, 2]), (0, 2)) == 0
  {
    var hs := Hops([0, 1, 2]);
    assert hs == [(0, 1), (1, 2)];
    assert hs[..1] == [(0, 1)] && [(0, 1)][..0] == [];
  }

  /** Two trips over A–B–C load each key twice what one trip does. */
  lemma TinyTwice(k: Pair)
    ensures PathsLoad([[0, 1, 2]] + [[0, 1, 2]], k) == 2 * CountKey(Hops([0, 1, 2]), k)
  {
    var one: seq<Path> := [[0, 1, 2]];
    var paths: seq<Path> := one + one;
    assert one[..0] == [] && paths[..1] == one;
    assert PathsLoad(one, k) == CountKey(Hops([0, 1, 2]), k);
  }

  /** `compute_edge_loads_from_state(G, cands, [0, 0])`: A–B and B–C carry
      both trips, A–C none. */
  lemma TinyLoads(capAB: int, capBC: int)
    ensures ValidState(TinyCands(), [0, 0])
    ensures LoadsOf(Tiny(capAB, capBC), TinyCands(), [0, 0]) == map[(0, 1) := 2, (1, 2) := 2, (0, 2) := 0]
  {
    TinyOnGraph(capAB, capBC);
    TinyKeys(capAB, capBC);
    TinyCounts();
    TinyTwice((0, 1));
    TinyTwice((1, 2));
    TinyTwice((0, 2));
    assert ChosenPaths(TinyCands(), [0, 0]) == [[0, 1, 2]] + [[0, 1, 2]];
  }

  /** `G[a][b]` on the three edges. */
  lemma TinyAttrs(capAB: int, capBC: int)
    ensures Adjacent(Tiny(capAB, capBC), 0, 1) && Attrs(Tiny(capAB, capBC), 0, 1) == Tiny(capAB, capBC).edges[0].attrs
    ensures Adjacent(Tiny(capAB, capBC), 1, 2) && Attrs(Tiny(capAB, capBC), 1, 2) == Tiny(capAB, capBC).edges[1].attrs
    ensures Adjacent(Tiny(capAB, capBC), 0, 2) && Attrs(Tiny(capAB, capBC), 0, 2) == Tiny(capAB, capBC).edges[2].attrs
  {
    var es := Tiny(capAB, capBC).edges;
    TinyKeys(capAB, capBC);
    assert es[1..] == [es[1], es[2]] && es[1..][1..] == [es[2]];
    assert Lookup(es[1..][1..], (0, 2)) == Some(es[2].attrs);
    assert Lookup(es[1..], (0, 2)) == Some(es[2].attrs);
    assert Lookup(es[1..], (1, 2)) == Some(es[1].attrs);
  }

  /** Both trips take time 2. */
  lemma TinyTravel(capAB: int, capBC: int)
    ensures ValidState(TinyCands(), [0, 0]) && ChosenOnGraph(Tiny(capAB, capBC), TinyCands(), [0, 0])
    ensures TravelCost(Tiny(capAB, capBC), TinyCands(), [0, 0]) == 4
  {
    TinyOnGraph(capAB, capBC);
    TinyAttrs(capAB, capBC);
    var g := Tiny(capAB, capBC);
    var hs := Hops([0, 1, 2]);
    assert hs == [(0, 1), (1, 2)];
    assert hs[..1] == [(0, 1)] && [(0, 1)][..0] == [];
    assert HopsTime(g, [(0, 1)]) == 1;
    assert TravelTime(g, [0, 1, 2]) == 2;
    var paths := ChosenPaths(TinyCands(), [0, 0]);
    assert forall p :: p in paths ==> OnGraph(g, p);
    assert paths[..0] == [] && paths[..2] == paths;
    PathsTimeSnoc(g, paths, 0);
    PathsTimeSnoc(g, paths, 1);
  }

  /** The penalty over the three edges at loads 2, 2, 0. */
  lemma TinyPenalty(capAB: int, capBC: int, coef: real, power: nat)
    ensures KeysOf(Tiny(capAB, capBC).edges) <= LoadsOf(Tiny(capAB, capBC), TinyCands(), [0, 0]).Keys
    ensures Penalty(Tiny(capAB, capBC), LoadsOf(Tiny(capAB, capBC), TinyCands(), [0, 0]), coef, power)
      == EdgePenalty(coef, 2, Some(capAB), power) + EdgePenalty(coef, 2, Some(capBC), power) + EdgePenalty(coef, 0, Some(2), power)
  {
    var g := Tiny(capAB, capBC);
    TinyKeys(capAB, capBC);
    TinyLoads(capAB, capBC);
    TinyAttrs(capAB, capBC);
    var loads := LoadsOf(g, TinyCands(), [0, 0]);
    var ts := PenaltyTerms(g, loads, coef, power);
    assert ts[0] == EdgePenalty(coef, 2, Some(capAB), power);
    assert ts[1] == EdgePenalty(coef, 2, Some(capBC), power);
    assert ts[2] == EdgePenalty(coef, 0, Some(2), power);
    assert ts[..2][..1] == ts[..1] && ts[..1][..0] == [];
    assert ts[..3] == ts;
    SumRealSnoc(ts, 0);
    SumRealSnoc(ts, 1);
    SumRealSnoc(ts, 2);
  }

  /** With no congestion penalty the cost is the travel time, 4. */
  lemma TinyCostLow()
    ensures ValidState(TinyCands(), [0, 0]) && ChosenOnGraph(Tiny(2, 2), TinyCands(), [0, 0])
    ensures Objective(Tiny(2, 2), TinyCands(), [0, 0], 0.0, 2) == 4.0
  {
    TinyTravel(2, 2);
    TinyPenalty(2, 2, 0.0, 2);
  }

  /** With capacity 1 on A–B and B–C and coefficient 10, each of those
      edges is one over, so the cost grows to 4 + 10 + 10, above the 4 of
      TinyCostLow. */
  lemma TinyCostHigh()
    ensures ValidState(TinyCands(), [0, 0]) && ChosenOnGraph(Tiny(1, 1), TinyCands(), [0, 0])
    ensures Objective(Tiny(1, 1), TinyCands(), [0, 0], 10.0, 2) == 24.0
  {
    TinyTravel(1, 1);
    TinyPenalty(1, 1, 10.0, 2);
    assert Pow(1.0, 2) == 1.0 && Pow(0.0, 2) == 0.0;
    assert EdgePenalty(10.0, 2, Some(1), 2) == 10.0;
    assert EdgePenalty(10.0, 0, Some(2), 2) == 0.0;
  }
}
