/** `final_violations` of src/quick_sweep.py: the same computation as in
    src/param_grid.py, with the chosen paths built first. */
module QuickSweep {
  import opened Graphs
  import opened Formulation
  import ParamGrid

  /** The copy in this file returns what the one of src/param_grid.py
      returns, on every input. */
  method FinalViolations(g: Graph, cands: Candidates, state: State) returns (v: int)
    requires ValidState(cands, state) && ChosenOnGraph(g, cands, state)
    requires ParamGrid.HasCapacities(g)
    ensures v == ParamGrid.Violations(g, ChosenPaths(cands, state))
  {
    var paths := seq(|state|, i requires 0 <= i < |state| => cands[i][state[i]]);
    var usage := map k | k in KeysOf(g.edges) :: 0;
    for i := 0 to |paths|
      invariant usage.Keys == KeysOf(g.edges)
      invariant forall k :: k in usage ==> usage[k] == PathsLoad(paths[..i], k)
    {
      var p := paths[i];
      assert OnGraph(g, p);
      usage := CountPathHops(g, usage, p, paths, i);
    }
    assert paths[..|paths|] == paths;
    assert usage == Usage(g, paths);
    v := ParamGrid.SumViolations(g, usage);
  }
}
