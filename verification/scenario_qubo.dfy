/** The corrected QUBO of the triangle of tests/test_formulation.py, with
    every capacity 2: the one-hot vector of state [0, 0] (both trips over
    A–B–C) is charged for loads that stay within capacity, where the
    objective charges nothing. */
module TinyQubo {
  import opened Graphs
  import opened Formulation
  import opened QuboAlgebra
  import opened FormulationQubo
  import opened FormulationBuild
  import opened FormulationEnergy
  import opened FormulationValue
  import opened TinyScenario

  /** The four variables, in `var_idx` order, are A–B–C, A–C, A–B–C, A–C. */
  lemma TinyVariables()
    ensures NumVars(TinyCands()) == 4
    ensures PathOf(TinyCands(), 0) == [0, 1, 2] && PathOf(TinyCands(), 1) == [0, 2]
    ensures PathOf(TinyCands(), 2) == [0, 1, 2] && PathOf(TinyCands(), 3) == [0, 2]
  {
    var c := TinyCands();
    assert BlockStart(c, 1) == 2 && BlockStart(c, 2) == 4;
    PathOfBlock(c, 0, 0);
    PathOfBlock(c, 0, 1);
    PathOfBlock(c, 1, 0);
    PathOfBlock(c, 1, 1);
  }

  /** Corrected, the hops of the four variables file under their own keys. */
  lemma TinyIncidences(capAB: int, capBC: int)
    ensures NumVars(TinyCands()) == 4
    ensures Incidences(Tiny(capAB, capBC), TinyCands(), 4, Corrected)
      == [((0, 1), 0), ((1, 2), 0), ((0, 2), 1), ((0, 1), 2), ((1, 2), 2), ((0, 2), 3)]
  {
    var g, c := Tiny(capAB, capBC), TinyCands();
    TinyVariables();
    assert Hops([0, 1, 2]) == [(0, 1), (1, 2)];
    assert Hops([0, 2]) == [(0, 2)];
    var abc: seq<(Pair, nat)> := [((0, 1), 0), ((1, 2), 0)];
    assert HopIncidences(g, Hops(PathOf(c, 0)), 0, Corrected) == abc;
    assert Incidences(g, c, 1, Corrected) == abc;
    assert Incidences(g, c, 2, Corrected) == abc + [((0, 2), 1)];
    assert Incidences(g, c, 3, Corrected) == abc + [((0, 2), 1), ((0, 1), 2), ((1, 2), 2)];
  }

  /** Appending one filing adds its key to the group keys unless it is
      there already. */
  lemma GroupKeysSnoc(inc: seq<(Pair, nat)>, x: (Pair, nat), ks: seq<Pair>)
    requires GroupKeys(inc) == ks
    ensures GroupKeys(inc + [x]) == if x.0 in ks then ks else ks + [x.0]
  {
    assert (inc + [x])[..|inc + [x]| - 1] == inc;
  }

  /** Every edge of the triangle is crossed by some candidate, first A–B,
      then B–C, then A–C. */
  lemma TinyGroups(capAB: int, capBC: int)
    ensures NumVars(TinyCands()) == 4
    ensures GroupKeys(Incidences(Tiny(capAB, capBC), TinyCands(), 4, Corrected)) == [(0, 1), (1, 2), (0, 2)]
  {
    TinyIncidences(capAB, capBC);
    TinyFilings();
  }

  lemma TinyFilings()
    ensures GroupKeys([((0, 1), 0), ((1, 2), 0), ((0, 2), 1), ((0, 1), 2), ((1, 2), 2), ((0, 2), 3)]) == [(0, 1), (1, 2), (0, 2)]
  {
    var ks: seq<Pair> := [(0, 1), (1, 2), (0, 2)];
    var i3: seq<(Pair, nat)> := [((0, 1), 0), ((1, 2), 0), ((0, 2), 1)];
    var i4 := i3 + [((0, 1), 2)];
    var i5 := i4 + [((1, 2), 2)];
    TinyFirstFilings();
    GroupKeysSnoc(i3, ((0, 1), 2), ks);
    GroupKeysSnoc(i4, ((1, 2), 2), ks);
    GroupKeysSnoc(i5, ((0, 2), 3), ks);
    assert i5 + [((0, 2), 3)] == [((0, 1), 0), ((1, 2), 0), ((0, 2), 1), ((0, 1), 2), ((1, 2), 2), ((0, 2), 3)];
  }

  /** The first candidate's two hops and the second's one hop already
      open all three groups. */
  lemma TinyFirstFilings()
    ensures GroupKeys([((0, 1), 0), ((1, 2), 0), ((0, 2), 1)]) == [(0, 1), (1, 2), (0, 2)]
  {
    var i2: seq<(Pair, nat)> := [((0, 1), 0), ((1, 2), 0)];
    TinyFirstHops();
    GroupKeysSnoc(i2, ((0, 2), 1), [(0, 1), (1, 2)]);
    assert i2 + [((0, 2), 1)] == [((0, 1), 0), ((1, 2), 0), ((0, 2), 1)];
  }

  lemma TinyFirstHops()
    ensures GroupKeys([((0, 1), 0), ((1, 2), 0)]) == [(0, 1), (1, 2)]
  {
    var i1: seq<(Pair, nat)> := [((0, 1), 0)];
    assert i1[..0] == [];
    assert GroupKeys(i1) == [(0, 1)];
    GroupKeysSnoc(i1, ((1, 2), 0), [(0, 1)]);
    assert i1 + [((1, 2), 0)] == [((0, 1), 0), ((1, 2), 0)];
  }

  /** Two trips over A–B–C load A–B and B–C twice and A–C not at all. */
  lemma TinyTripLoads()
    ensures PathsLoad([[0, 1, 2], [0, 1, 2]], (0, 1)) == 2
    ensures PathsLoad([[0, 1, 2], [0, 1, 2]], (1, 2)) == 2
    ensures PathsLoad([[0, 1, 2], [0, 1, 2]], (0, 2)) == 0
  {
    TinyCounts();
    TinyTwice((0, 1));
    TinyTwice((1, 2));
    TinyTwice((0, 2));
    assert [[0, 1, 2]] + [[0, 1, 2]] == [[0, 1, 2], [0, 1, 2]];
  }

  /** At loads 2, 2, 0 against capacity 2 each, the QUBO charges each full
      edge coef·(0 − 4) and the empty one nothing. */
  lemma TinyLoadCongestion(coef: real)
    ensures KeysAdjacent(Tiny(2, 2), [(0, 1), (1, 2), (0, 2)])
    ensures LoadCongestion(Tiny(2, 2), [[0, 1, 2], [0, 1, 2]], [(0, 1), (1, 2), (0, 2)], coef) == -8.0 * coef
  {
    var g := Tiny(2, 2);
    var paths: seq<Path> := [[0, 1, 2], [0, 1, 2]];
    TinyAttrs(2, 2);
    TinyTripLoads();
    var ks: seq<Pair> := [(0, 1), (1, 2), (0, 2)];
    assert KeysAdjacent(g, ks);
    assert ks[..2] == [(0, 1), (1, 2)] && ks[..2][..1] == [(0, 1)] && ks[..2][..1][..0] == [];
    assert CapOrZero(g, (0, 1)) == 2 && CapOrZero(g, (1, 2)) == 2 && CapOrZero(g, (0, 2)) == 2;
    var full := EdgeCost(coef, 2.0, 2.0);
    assert full == -4.0 * coef && EdgeCost(coef, 2.0, 0.0) == 0.0;
    assert LoadCongestion(g, paths, ks[..2][..1], coef) == full;
    assert LoadCongestion(g, paths, ks[..2], coef) == full + full;
  }

  /** State [0, 0] is charged −8·coef of congestion by the corrected QUBO. */
  lemma TinyCongestion(coef: real)
    ensures AllOnGraph(Tiny(2, 2), TinyCands()) && FullState(TinyCands(), [0, 0])
    ensures QuboCongestion(Tiny(2, 2), TinyCands(), [0, 0], coef) == -8.0 * coef
  {
    TinyOnGraph(2, 2);
    TinyGroups(2, 2);
    TinyLoadCongestion(coef);
  }

  /** No edge is over its capacity, so the objective is the travel time 4
      whatever the coefficient. */
  lemma TinyObjective(coef: real)
    ensures ValidState(TinyCands(), [0, 0]) && ChosenOnGraph(Tiny(2, 2), TinyCands(), [0, 0])
    ensures Objective(Tiny(2, 2), TinyCands(), [0, 0], coef, 2) == 4.0
  {
    TinyTravel(2, 2);
    TinyWithinCapacity(coef);
  }

  lemma TinyWithinCapacity(coef: real)
    ensures ValidState(TinyCands(), [0, 0])
    ensures Penalty(Tiny(2, 2), LoadsOf(Tiny(2, 2), TinyCands(), [0, 0]), coef, 2) == 0.0
  {
    TinyPenalty(2, 2, coef, 2);
    assert Excess(2, Some(2)) == 0.0 && Excess(0, Some(2)) == 0.0;
    assert Pow(0.0, 2) == 0.0;
    assert EdgePenalty(coef, 2, Some(2), 2) == 0.0;
    assert EdgePenalty(coef, 0, Some(2), 2) == 0.0;
  }

  /** The corrected QUBO's energy of state [0, 0] is the objective less
      8·coef and less P per demand: it rewards the two edges that are
      exactly full, which the objective does not charge at all. */
  lemma TinyQuboChargesWithinCapacity(penalty: real, coef: real)
    ensures AllOnGraph(Tiny(2, 2), TinyCands()) && FullState(TinyCands(), [0, 0])
    ensures ChosenOnGraph(Tiny(2, 2), TinyCands(), [0, 0])
    ensures Energy(Accumulate(map[], QuboTerms(Tiny(2, 2), TinyCands(), penalty, coef, Corrected)), NumVars(TinyCands()), OneHot(TinyCands(), [0, 0]))
      == Objective(Tiny(2, 2), TinyCands(), [0, 0], coef, 2) - 8.0 * coef - 2.0 * penalty
  {
    TinyCongestion(coef);
    TinyObjective(coef);
    CorrectedOneHotEnergy(Tiny(2, 2), TinyCands(), [0, 0], penalty, coef);
    TinyTravel(2, 2);
  }
}
