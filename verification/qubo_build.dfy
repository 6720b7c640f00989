/** `build_qubo` of src/qubo_formulation.py as a whole: the load list of
    each graph edge, every change the encoder makes to its model, what the
    finished model is worth on a 0/1 sample, and the nested loops that
    make those changes to a `Bqm` object. */
module QuboBuild {
  import opened Graphs
  import opened QuboAlgebra
  import opened QuboBqm
  import opened QuboPenalties

  /** `(src, dst, demand_val)` */
  type Demand = (Node, Node, real)

  /** A candidate path as the encoder reads it: the list of its edges. */
  type EdgePath = seq<Pair>

  /** `[f"x_{d}_{i}" for i in range(n)]` */
  function Vars(d: nat, n: nat): seq<Var>
  {
    seq(n, i requires 0 <= i < n => Var(d, i))
  }

  // ---------------------------------------------------------------------
  // The changes

  /** The one-path loop over the first r demands. */
  function ConstraintOps(cands: seq<seq<EdgePath>>, alpha: real, variant: Variant, r: nat): seq<Op>
    requires r <= |cands|
  {
    if r == 0 then [] else ConstraintOps(cands, alpha, variant, r - 1) + DemandOps(Vars(r - 1, |cands[r - 1]|), alpha, variant)
  }

  /** `G[e[0]][e[1]].get("capacity", 1)` */
  function Capacity(e: Edge): real
  {
    match e.attrs.capacity
    case Some(c) => c as real
    case None => 1.0
  }

  /** `(dem, x_d_i)` for each of the first i candidates of demand d whose
      edge list holds e. */
  function PathEntries(dem: real, d: nat, paths: seq<EdgePath>, e: Pair, i: nat): seq<Entry>
    requires i <= |paths|
  {
    if i == 0 then []
    else PathEntries(dem, d, paths, e, i - 1) + (if e in paths[i - 1] then [(dem, Var(d, i - 1))] else [])
  }

  /** `load_expr` of edge e after the first r demands. */
  function LoadExprTo(demands: seq<Demand>, cands: seq<seq<EdgePath>>, e: Pair, r: nat): seq<Entry>
    requires r <= |demands| <= |cands|
  {
    if r == 0 then []
    else LoadExprTo(demands, cands, e, r - 1) + PathEntries(demands[r - 1].2, r - 1, cands[r - 1], e, |cands[r - 1]|)
  }

  /** `load_expr` of edge e. */
  function LoadExpr(demands: seq<Demand>, cands: seq<seq<EdgePath>>, e: Pair): seq<Entry>
    requires |demands| <= |cands|
  {
    LoadExprTo(demands, cands, e, |demands|)
  }

  /** The capacity loop over the first r edges of the graph, each edge
      looked up as `G.edges` yields it. */
  function CapacityOps(g: Graph, demands: seq<Demand>, cands: seq<seq<EdgePath>>, beta: real, variant: Variant, r: nat): seq<Op>
    requires r <= |g.edges| && |demands| <= |cands|
  {
    if r == 0 then [] else CapacityOps(g, demands, cands, beta, variant, r - 1) + EdgeOps(LoadExpr(demands, cands, Stored(g.edges[r - 1])), Capacity(g.edges[r - 1]), beta, variant)
  }

  /** Every change `build_qubo` makes, in order. */
  function BqmOps(g: Graph, demands: seq<Demand>, cands: seq<seq<EdgePath>>, alpha: real, beta: real, variant: Variant): seq<Op>
    requires |demands| <= |cands|
  {
    ConstraintOps(cands, alpha, variant, |demands|) + CapacityOps(g, demands, cands, beta, variant, |g.edges|)
  }

  // ---------------------------------------------------------------------
  // The load lists

  /** x_d_i is among the first i entries of demand d with coefficient c
      exactly when its candidate holds e and c is the demand. */
  lemma {:induction false} PathEntriesHas(dem: real, d: nat, paths: seq<EdgePath>, e: Pair, i: nat, c: real, x: Var)
    requires i <= |paths|
    ensures (c, x) in PathEntries(dem, d, paths, e, i) <==> x.d == d && x.i < i && e in paths[x.i] && c == dem
    decreases i
  {
    if i > 0 {
      PathEntriesHas(dem, d, paths, e, i - 1, c, x);
    }
  }

  lemma {:induction false} LoadExprToHas(demands: seq<Demand>, cands: seq<seq<EdgePath>>, e: Pair, r: nat, c: real, x: Var)
    requires r <= |demands| <= |cands|
    ensures (c, x) in LoadExprTo(demands, cands, e, r)
      <==> x.d < r && x.i < |cands[x.d]| && e in cands[x.d][x.i] && c == demands[x.d].2
    decreases r
  {
    if r > 0 {
      LoadExprToHas(demands, cands, e, r - 1, c, x);
      PathEntriesHas(demands[r - 1].2, r - 1, cands[r - 1], e, |cands[r - 1]|, c, x);
    }
  }

  /** `x_d_i` enters the load list of e, with the demand of d as its
      coefficient, exactly when the edge tuple e is an element of the
      candidate `candidate_lists[d][i]`. */
  lemma LoadExprHas(demands: seq<Demand>, cands: seq<seq<EdgePath>>, e: Pair, c: real, x: Var)
    requires |demands| <= |cands|
    ensures (c, x) in LoadExpr(demands, cands, e)
      <==> x.d < |demands| && x.i < |cands[x.d]| && e in cands[x.d][x.i] && c == demands[x.d].2
  {
    LoadExprToHas(demands, cands, e, |demands|, c, x);
  }

  lemma {:induction false} UniqueAppend(ls: seq<Entry>, more: seq<Entry>)
    requires UniqueVars(ls) && UniqueVars(more)
    requires forall a, b :: 0 <= a < |ls| && 0 <= b < |more| ==> ls[a].1 != more[b].1
    ensures UniqueVars(ls + more)
  {
    var all := ls + more;
    forall a, b | 0 <= a < b < |all| ensures all[a].1 != all[b].1 {
      if b < |ls| {
        assert all[a] == ls[a] && all[b] == ls[b];
      } else if a < |ls| {
        assert all[a] == ls[a] && all[b] == more[b - |ls|];
      } else {
        assert all[a] == more[a - |ls|] && all[b] == more[b - |ls|];
      }
    }
  }

  lemma {:induction false} PathEntriesUnique(dem: real, d: nat, paths: seq<EdgePath>, e: Pair, i: nat)
    requires i <= |paths|
    ensures UniqueVars(PathEntries(dem, d, paths, e, i))
    decreases i
  {
    if i > 0 {
      var init := PathEntries(dem, d, paths, e, i - 1);
      PathEntriesUnique(dem, d, paths, e, i - 1);
      if e in paths[i - 1] {
        var last := [(dem, Var(d, i - 1))];
        forall a, b | 0 <= a < |init| && 0 <= b < |last| ensures init[a].1 != last[b].1 {
          assert init[a] in init;
          PathEntriesHas(dem, d, paths, e, i - 1, init[a].0, init[a].1);
        }
        UniqueAppend(init, last);
      } else {
        assert PathEntries(dem, d, paths, e, i) == init + [];
      }
    }
  }

  lemma {:induction false} LoadExprToUnique(demands: seq<Demand>, cands: seq<seq<EdgePath>>, e: Pair, r: nat)
    requires r <= |demands| <= |cands|
    ensures UniqueVars(LoadExprTo(demands, cands, e, r))
    decreases r
  {
    if r > 0 {
      var init := LoadExprTo(demands, cands, e, r - 1);
      var more := PathEntries(demands[r - 1].2, r - 1, cands[r - 1], e, |cands[r - 1]|);
      LoadExprToUnique(demands, cands, e, r - 1);
      PathEntriesUnique(demands[r - 1].2, r - 1, cands[r - 1], e, |cands[r - 1]|);
      forall a, b | 0 <= a < |init| && 0 <= b < |more| ensures init[a].1 != more[b].1 {
        assert init[a] in init && more[b] in more;
        LoadExprToHas(demands, cands, e, r - 1, init[a].0, init[a].1);
        PathEntriesHas(demands[r - 1].2, r - 1, cands[r - 1], e, |cands[r - 1]|, more[b].0, more[b].1);
      }
      UniqueAppend(init, more);
    }
  }

  /** No variable is listed twice in a load list, so the guard `v != v2`
      skips exactly an entry's pairing with itself. */
  lemma LoadExprUnique(demands: seq<Demand>, cands: seq<seq<EdgePath>>, e: Pair)
    requires |demands| <= |cands|
    ensures UniqueVars(LoadExpr(demands, cands, e))
  {
    LoadExprToUnique(demands, cands, e, |demands|);
  }

  // ---------------------------------------------------------------------
  // The variables

  /** The variables of the first r demands, demand by demand. */
  function AllVars(cands: seq<seq<EdgePath>>, r: nat): seq<Var>
    requires r <= |cands|
  {
    if r == 0 then [] else AllVars(cands, r - 1) + Vars(r - 1, |cands[r - 1]|)
  }

  lemma {:induction false} AllVarsHas(cands: seq<seq<EdgePath>>, r: nat, x: Var)
    requires r <= |cands|
    ensures x in AllVars(cands, r) <==> x.d < r && x.i < |cands[x.d]|
    decreases r
  {
    if r > 0 {
      AllVarsHas(cands, r - 1, x);
      var vs := Vars(r - 1, |cands[r - 1]|);
      if x.d == r - 1 && x.i < |cands[r - 1]| {
        assert vs[x.i] == x;
      }
    }
  }

  lemma {:induction false} DistinctAppend(vs: seq<Var>, more: seq<Var>)
    requires Distinct(vs) && Distinct(more)
    requires forall a, b :: 0 <= a < |vs| && 0 <= b < |more| ==> vs[a] != more[b]
    ensures Distinct(vs + more)
  {
    var all := vs + more;
    forall a, b | 0 <= a < b < |all| ensures all[a] != all[b] {
      if b < |vs| {
        assert all[a] == vs[a] && all[b] == vs[b];
      } else if a < |vs| {
        assert all[a] == vs[a] && all[b] == more[b - |vs|];
      } else {
        assert all[a] == more[a - |vs|] && all[b] == more[b - |vs|];
      }
    }
  }

  /** Each variable is listed once. */
  lemma {:induction false} AllVarsDistinct(cands: seq<seq<EdgePath>>, r: nat)
    requires r <= |cands|
    ensures Distinct(AllVars(cands, r))
    decreases r
  {
    if r > 0 {
      var init, vs := AllVars(cands, r - 1), Vars(r - 1, |cands[r - 1]|);
      AllVarsDistinct(cands, r - 1);
      forall a, b | 0 <= a < |init| && 0 <= b < |vs| ensures init[a] != vs[b] {
        assert init[a] in init;
        AllVarsHas(cands, r - 1, init[a]);
      }
      DistinctAppend(init, vs);
    }
  }

  // ---------------------------------------------------------------------
  // The changes name the variables

  lemma {:induction false} OpsOnAppend(ops: seq<Op>, more: seq<Op>, dom: seq<Var>)
    requires OpsOn(ops, dom) && OpsOn(more, dom)
    ensures OpsOn(ops + more, dom)
  {
    var all := ops + more;
    forall j | 0 <= j < |all| ensures OpOn(all[j], dom) {
      if j < |ops| {
        assert all[j] == ops[j];
      } else {
        assert all[j] == more[j - |ops|];
      }
    }
  }

  predicate AllIn(vs: seq<Var>, dom: seq<Var>)
  {
    forall j :: 0 <= j < |vs| ==> vs[j] in dom
  }

  lemma {:induction false} LinearOpsOn(vs: seq<Var>, b: real, dom: seq<Var>)
    requires AllIn(vs, dom)
    ensures OpsOn(LinearOps(vs, b), dom)
    decreases |vs|
  {
    if vs != [] {
      var init := vs[..|vs| - 1];
      assert AllIn(init, dom) by {
        forall j | 0 <= j < |init| ensures init[j] in dom {
          assert init[j] == vs[j];
        }
      }
      LinearOpsOn(init, b, dom);
      OpsOnAppend(LinearOps(init, b), [AddLinear(vs[|vs| - 1], b)], dom);
    }
  }

  lemma {:induction false} RowOpsOn(u: Var, rest: seq<Var>, b: real, dom: seq<Var>)
    requires u in dom && AllIn(rest, dom) && u !in rest
    ensures OpsOn(RowOps(u, rest, b), dom)
    decreases |rest|
  {
    if rest != [] {
      var init := rest[..|rest| - 1];
      assert AllIn(init, dom) && u !in init by {
        forall j | 0 <= j < |init| ensures init[j] in dom && init[j] != u {
          assert init[j] == rest[j];
        }
      }
      RowOpsOn(u, init, b, dom);
      assert rest[|rest| - 1] in rest;
      OpsOnAppend(RowOps(u, init, b), [AddQuad(u, rest[|rest| - 1], b)], dom);
    }
  }

  lemma {:induction false} PairRowsOn(vs: seq<Var>, r: nat, b: real, dom: seq<Var>)
    requires r <= |vs| && Distinct(vs) && AllIn(vs, dom)
    ensures OpsOn(PairRows(vs, r, b), dom)
    decreases r
  {
    if r > 0 {
      PairRowsOn(vs, r - 1, b, dom);
      var u, rest := vs[r - 1], vs[r..];
      assert AllIn(rest, dom) && u !in rest by {
        forall j | 0 <= j < |rest| ensures rest[j] in dom && rest[j] != u {
          assert rest[j] == vs[r + j];
        }
      }
      RowOpsOn(u, rest, b, dom);
      OpsOnAppend(PairRows(vs, r - 1, b), RowOps(u, rest, b), dom);
    }
  }

  lemma DemandOpsOn(vs: seq<Var>, alpha: real, variant: Variant, dom: seq<Var>)
    requires Distinct(vs) && AllIn(vs, dom)
    ensures OpsOn(DemandOps(vs, alpha, variant), dom)
  {
    LinearOpsOn(vs, DemandLinear(alpha, variant), dom);
    PairRowsOn(vs, |vs|, 2.0 * alpha, dom);
    OpsOnAppend([AddOffset(alpha)], LinearOps(vs, DemandLinear(alpha, variant)), dom);
    OpsOnAppend([AddOffset(alpha)] + LinearOps(vs, DemandLinear(alpha, variant)), PairOps(vs, 2.0 * alpha), dom);
  }

  predicate EntriesIn(ls: seq<Entry>, dom: seq<Var>)
  {
    forall j :: 0 <= j < |ls| ==> ls[j].1 in dom
  }

  lemma {:induction false} InnerOpsOn(w: real, v: Var, ls: seq<Entry>, r: nat, dom: seq<Var>)
    requires r <= |ls| && v in dom && EntriesIn(ls, dom)
    ensures OpsOn(InnerOps(w, v, ls, r), dom)
    decreases r
  {
    if r > 0 {
      InnerOpsOn(w, v, ls, r - 1, dom);
      var u := ls[r - 1].1;
      OpsOnAppend(InnerOps(w, v, ls, r - 1), if v != u then [AddQuad(v, u, w * ls[r - 1].0)] else [], dom);
    }
  }

  lemma EdgeRowOn(ls: seq<Entry>, a: nat, beta: real, pw: real, dom: seq<Var>)
    requires a < |ls| && EntriesIn(ls, dom)
    ensures OpsOn(EdgeRow(ls, a, beta, pw), dom)
  {
    InnerOpsOn(pw * ls[a].0, ls[a].1, ls, |ls|, dom);
    OpsOnAppend([AddLinear(ls[a].1, beta * (ls[a].0 * ls[a].0))], InnerOps(pw * ls[a].0, ls[a].1, ls, |ls|), dom);
  }

  /** The first r rows of an edge change only variables of dom. */
  predicate RowsOn(ls: seq<Entry>, beta: real, pw: real, r: nat, dom: seq<Var>)
    requires r <= |ls|
  {
    OpsOn(EdgeRows(ls, beta, pw, r), dom)
  }

  lemma EdgeRowsOn(ls: seq<Entry>, beta: real, pw: real, r: nat, dom: seq<Var>)
    requires r <= |ls| && EntriesIn(ls, dom)
    ensures OpsOn(EdgeRows(ls, beta, pw, r), dom)
  {
    EdgeRowsOnBy(ls, beta, pw, r, dom);
  }

  lemma {:induction false} EdgeRowsOnBy(ls: seq<Entry>, beta: real, pw: real, r: nat, dom: seq<Var>)
    requires r <= |ls| && EntriesIn(ls, dom)
    ensures RowsOn(ls, beta, pw, r, dom)
    decreases r
  {
    if r > 0 {
      EdgeRowsOnBy(ls, beta, pw, r - 1, dom);
      EdgeRowsStepOn(ls, beta, pw, r, dom);
    }
  }

  /** One more row keeps the changes on dom. */
  lemma EdgeRowsStepOn(ls: seq<Entry>, beta: real, pw: real, r: nat, dom: seq<Var>)
    requires 0 < r <= |ls| && EntriesIn(ls, dom)
    ensures RowsOn(ls, beta, pw, r - 1, dom) ==> RowsOn(ls, beta, pw, r, dom)
  {
    if RowsOn(ls, beta, pw, r - 1, dom) {
      EdgeRowOn(ls, r - 1, beta, pw, dom);
      OpsOnAppend(EdgeRows(ls, beta, pw, r - 1), EdgeRow(ls, r - 1, beta, pw), dom);
    }
  }

  lemma {:induction false} CapOpsOn(ls: seq<Entry>, r: nat, k: real, dom: seq<Var>)
    requires r <= |ls| && EntriesIn(ls, dom)
    ensures OpsOn(CapOps(ls, r, k), dom)
    decreases r
  {
    if r > 0 {
      CapOpsOn(ls, r - 1, k, dom);
      OpsOnAppend(CapOps(ls, r - 1, k), [AddLinear(ls[r - 1].1, k * ls[r - 1].0)], dom);
    }
  }

  lemma EdgeOpsOn(ls: seq<Entry>, cap: real, beta: real, variant: Variant, dom: seq<Var>)
    requires EntriesIn(ls, dom)
    ensures OpsOn(EdgeOps(ls, cap, beta, variant), dom)
  {
    var pw, off, k := PairWeight(beta, variant), beta * (cap * cap), -2.0 * beta * cap;
    EdgeRowsOn(ls, beta, pw, |ls|, dom);
    CapOpsOn(ls, |ls|, k, dom);
    OpsOnAppend(EdgeRows(ls, beta, pw, |ls|), [AddOffset(off)], dom);
    OpsOnAppend(EdgeRows(ls, beta, pw, |ls|) + [AddOffset(off)], CapOps(ls, |ls|, k), dom);
  }

  lemma {:induction false} ConstraintOpsOn(cands: seq<seq<EdgePath>>, alpha: real, variant: Variant, r: nat, n: nat)
    requires r <= n <= |cands|
    ensures OpsOn(ConstraintOps(cands, alpha, variant, r), AllVars(cands, n))
    decreases r
  {
    if r > 0 {
      var dom, vs := AllVars(cands, n), Vars(r - 1, |cands[r - 1]|);
      ConstraintOpsOn(cands, alpha, variant, r - 1, n);
      forall j | 0 <= j < |vs| ensures vs[j] in dom {
        AllVarsHas(cands, n, vs[j]);
      }
      DemandOpsOn(vs, alpha, variant, dom);
      OpsOnAppend(ConstraintOps(cands, alpha, variant, r - 1), DemandOps(vs, alpha, variant), dom);
    }
  }

  lemma LoadExprIn(demands: seq<Demand>, cands: seq<seq<EdgePath>>, e: Pair)
    requires |demands| <= |cands|
    ensures EntriesIn(LoadExpr(demands, cands, e), AllVars(cands, |demands|))
  {
    var ls := LoadExpr(demands, cands, e);
    forall j | 0 <= j < |ls| ensures ls[j].1 in AllVars(cands, |demands|) {
      assert ls[j] in ls;
      LoadExprHas(demands, cands, e, ls[j].0, ls[j].1);
      AllVarsHas(cands, |demands|, ls[j].1);
    }
  }

  lemma EdgeLoadOpsOn(demands: seq<Demand>, cands: seq<seq<EdgePath>>, e: Edge, beta: real, variant: Variant)
    requires |demands| <= |cands|
    ensures OpsOn(EdgeOps(LoadExpr(demands, cands, Stored(e)), Capacity(e), beta, variant), AllVars(cands, |demands|))
  {
    LoadExprIn(demands, cands, Stored(e));
    EdgeOpsOn(LoadExpr(demands, cands, Stored(e)), Capacity(e), beta, variant, AllVars(cands, |demands|));
  }

  lemma {:induction false} CapacityOpsOn(g: Graph, demands: seq<Demand>, cands: seq<seq<EdgePath>>, beta: real, variant: Variant, r: nat)
    requires r <= |g.edges| && |demands| <= |cands|
    ensures OpsOn(CapacityOps(g, demands, cands, beta, variant, r), AllVars(cands, |demands|))
    decreases r
  {
    if r > 0 {
      var e := g.edges[r - 1];
      var dom := AllVars(cands, |demands|);
      CapacityOpsOn(g, demands, cands, beta, variant, r - 1);
      EdgeLoadOpsOn(demands, cands, e, beta, variant);
      OpsOnAppend(CapacityOps(g, demands, cands, beta, variant, r - 1),
        EdgeOps(LoadExpr(demands, cands, Stored(e)), Capacity(e), beta, variant), dom);
    }
  }

  // ---------------------------------------------------------------------
  // What the model is worth

  /** Σ over the first r demands of the one-path penalty at the number of
      that demand's variables the sample sets. */
  function ConstraintCost(cands: seq<seq<EdgePath>>, alpha: real, variant: Variant, sel: set<Var>, r: nat): real
    requires r <= |cands|
  {
    if r == 0 then 0.0
    else ConstraintCost(cands, alpha, variant, sel, r - 1) + DemandCost(alpha, variant, Sel(sel, Vars(r - 1, |cands[r - 1]|)))
  }

  /** What edge e's penalty is worth at the load the sample puts on it. */
  function EdgeLoadCost(demands: seq<Demand>, cands: seq<seq<EdgePath>>, beta: real, variant: Variant, sel: set<Var>, e: Edge): real
    requires |demands| <= |cands|
  {
    var ls := LoadExpr(demands, cands, Stored(e));
    EdgeCost(beta, variant, Capacity(e), Load(ls, sel), SqLoad(ls, sel))
  }

  /** Σ over the first r edges of the capacity penalty. */
  function CapacityCost(g: Graph, demands: seq<Demand>, cands: seq<seq<EdgePath>>, beta: real, variant: Variant, sel: set<Var>, r: nat): real
    requires r <= |g.edges| && |demands| <= |cands|
  {
    if r == 0 then 0.0
    else CapacityCost(g, demands, cands, beta, variant, sel, r - 1) + EdgeLoadCost(demands, cands, beta, variant, sel, g.edges[r - 1])
  }

  lemma {:induction false} AppendEnergyAt(ops: seq<Op>, more: seq<Op>, sel: set<Var>, total: real, e0: real, e1: real, c0: real, c1: real)
    requires total == OpsEnergy(ops + more, sel) && e0 == OpsEnergy(ops, sel) && e1 == OpsEnergy(more, sel)
    requires e0 == c0 && e1 == c1
    ensures total == c0 + c1
  {
    OpsEnergyAppend(ops, more, sel);
  }

  lemma {:induction false} ConstraintOpsEnergy(cands: seq<seq<EdgePath>>, alpha: real, variant: Variant, sel: set<Var>, r: nat)
    requires r <= |cands|
    ensures OpsEnergy(ConstraintOps(cands, alpha, variant, r), sel) == ConstraintCost(cands, alpha, variant, sel, r)
    decreases r
  {
    if r > 0 {
      var init, vs := ConstraintOps(cands, alpha, variant, r - 1), Vars(r - 1, |cands[r - 1]|);
      ConstraintOpsEnergy(cands, alpha, variant, sel, r - 1);
      DemandEnergy(vs, alpha, variant, sel);
      AppendEnergyAt(init, DemandOps(vs, alpha, variant), sel, OpsEnergy(ConstraintOps(cands, alpha, variant, r), sel),
        OpsEnergy(init, sel), OpsEnergy(DemandOps(vs, alpha, variant), sel),
        ConstraintCost(cands, alpha, variant, sel, r - 1), DemandCost(alpha, variant, Sel(sel, vs)));
    }
  }

  lemma EdgeOpsEnergy(demands: seq<Demand>, cands: seq<seq<EdgePath>>, beta: real, variant: Variant, sel: set<Var>, e: Edge)
    requires |demands| <= |cands|
    ensures OpsEnergy(EdgeOps(LoadExpr(demands, cands, Stored(e)), Capacity(e), beta, variant), sel)
      == EdgeLoadCost(demands, cands, beta, variant, sel, e)
  {
    LoadExprUnique(demands, cands, Stored(e));
    EdgeEnergy(LoadExpr(demands, cands, Stored(e)), Capacity(e), beta, variant, sel);
  }

  /** The capacity changes of the first r edges are worth the capacity
      penalties of those edges. */
  predicate CapacityWorth(g: Graph, demands: seq<Demand>, cands: seq<seq<EdgePath>>, beta: real, variant: Variant, sel: set<Var>, r: nat)
    requires r <= |g.edges| && |demands| <= |cands|
  {
    OpsEnergy(CapacityOps(g, demands, cands, beta, variant, r), sel) == CapacityCost(g, demands, cands, beta, variant, sel, r)
  }

  lemma CapacityOpsEnergy(g: Graph, demands: seq<Demand>, cands: seq<seq<EdgePath>>, beta: real, variant: Variant, sel: set<Var>, r: nat)
    requires r <= |g.edges| && |demands| <= |cands|
    ensures OpsEnergy(CapacityOps(g, demands, cands, beta, variant, r), sel) == CapacityCost(g, demands, cands, beta, variant, sel, r)
  {
    CapacityWorthBy(g, demands, cands, beta, variant, sel, r);
  }

  lemma {:induction false} CapacityWorthBy(g: Graph, demands: seq<Demand>, cands: seq<seq<EdgePath>>, beta: real, variant: Variant, sel: set<Var>, r: nat)
    requires r <= |g.edges| && |demands| <= |cands|
    ensures CapacityWorth(g, demands, cands, beta, variant, sel, r)
    decreases r
  {
    if r > 0 {
      CapacityWorthBy(g, demands, cands, beta, variant, sel, r - 1);
      CapacityWorthStep(g, demands, cands, beta, variant, sel, r);
    }
  }

  /** Edge r − 1 carries the sum over from r − 1 edges to r. */
  lemma CapacityWorthStep(g: Graph, demands: seq<Demand>, cands: seq<seq<EdgePath>>, beta: real, variant: Variant, sel: set<Var>, r: nat)
    requires 0 < r <= |g.edges| && |demands| <= |cands|
    ensures CapacityWorth(g, demands, cands, beta, variant, sel, r - 1) ==> CapacityWorth(g, demands, cands, beta, variant, sel, r)
  {
    var e := g.edges[r - 1];
    var init := CapacityOps(g, demands, cands, beta, variant, r - 1);
    var more := EdgeOps(LoadExpr(demands, cands, Stored(e)), Capacity(e), beta, variant);
    EdgeOpsEnergy(demands, cands, beta, variant, sel, e);
    OpsEnergyAppend(init, more, sel);
  }

  /** The changes are worth the one-path penalties of all demands plus the
      capacity penalties of all edges. */
  lemma BqmOpsEnergy(g: Graph, demands: seq<Demand>, cands: seq<seq<EdgePath>>, alpha: real, beta: real, variant: Variant, sel: set<Var>)
    requires |demands| <= |cands|
    ensures OpsEnergy(BqmOps(g, demands, cands, alpha, beta, variant), sel)
      == ConstraintCost(cands, alpha, variant, sel, |demands|) + CapacityCost(g, demands, cands, beta, variant, sel, |g.edges|)
  {
    var c, p := ConstraintOps(cands, alpha, variant, |demands|), CapacityOps(g, demands, cands, beta, variant, |g.edges|);
    ConstraintOpsEnergy(cands, alpha, variant, sel, |demands|);
    CapacityOpsEnergy(g, demands, cands, beta, variant, sel, |g.edges|);
    OpsEnergyAppend(c, p, sel);
  }

  /** The energy of the finished model on a sample, over its variables x_d_i:
      Σ_d α(1 − Σ_i x_d_i)² (as written, with −2α in place of −α) plus
      Σ_e β(Σ dem·x − cap)² (as written, with every cross term twice); and
      the model holds no bias on any other variable. */
  lemma BqmEnergy(g: Graph, demands: seq<Demand>, cands: seq<seq<EdgePath>>, alpha: real, beta: real, variant: Variant, sel: set<Var>)
    requires |demands| <= |cands|
    ensures Energy(ApplyAll(Empty, BqmOps(g, demands, cands, alpha, beta, variant)), AllVars(cands, |demands|), sel)
      == ConstraintCost(cands, alpha, variant, sel, |demands|) + CapacityCost(g, demands, cands, beta, variant, sel, |g.edges|)
    ensures Within(ApplyAll(Empty, BqmOps(g, demands, cands, alpha, beta, variant)), AllVars(cands, |demands|))
  {
    var ops, dom := BqmOps(g, demands, cands, alpha, beta, variant), AllVars(cands, |demands|);
    AllVarsDistinct(cands, |demands|);
    ConstraintOpsOn(cands, alpha, variant, |demands|, |demands|);
    CapacityOpsOn(g, demands, cands, beta, variant, |g.edges|);
    OpsOnAppend(ConstraintOps(cands, alpha, variant, |demands|), CapacityOps(g, demands, cands, beta, variant, |g.edges|), dom);
    EnergyOfEmpty(dom, sel);
    ApplyAllEnergy(Empty, ops, dom, sel);
    BqmOpsEnergy(g, demands, cands, alpha, beta, variant, sel);
  }

  // ---------------------------------------------------------------------
  // The offset

  /** The offset grows by what the changes are worth on the empty sample. */
  lemma {:induction false} OffsetIsEmptyEnergy(m: Model, ops: seq<Op>)
    ensures ApplyAll(m, ops).offset == m.offset + OpsEnergy(ops, {})
    decreases |ops|
  {
    if ops != [] {
      OffsetIsEmptyEnergy(m, ops[..|ops| - 1]);
    }
  }

  lemma {:induction false} SelNone(vs: seq<Var>)
    ensures Sel({}, vs) == 0.0
    decreases |vs|
  {
    if vs != [] {
      SelNone(vs[..|vs| - 1]);
    }
  }

  lemma {:induction false} LoadNone(ls: seq<Entry>, r: nat)
    requires r <= |ls|
    ensures LoadTo(ls, r, {}) == 0.0 && SqLoadTo(ls, r, {}) == 0.0
    decreases r
  {
    if r > 0 {
      LoadNone(ls, r - 1);
    }
  }

  /** Σ β·cap² over the first r edges. */
  function CapOffsets(g: Graph, beta: real, r: nat): real
    requires r <= |g.edges|
  {
    if r == 0 then 0.0 else CapOffsets(g, beta, r - 1) + beta * (Capacity(g.edges[r - 1]) * Capacity(g.edges[r - 1]))
  }

  lemma {:induction false} ConstraintCostNone(cands: seq<seq<EdgePath>>, alpha: real, variant: Variant, r: nat)
    requires r <= |cands|
    ensures ConstraintCost(cands, alpha, variant, {}, r) == alpha * r as real
    decreases r
  {
    if r > 0 {
      ConstraintCostNone(cands, alpha, variant, r - 1);
      SelNone(Vars(r - 1, |cands[r - 1]|));
      assert DemandCost(alpha, variant, 0.0) == alpha by {
        assert Square(0.0 - 1.0) == 1.0;
      }
    }
  }

  /** With nothing selected the first r capacity penalties are their
      constants β·cap². */
  predicate CostNoneUpTo(g: Graph, demands: seq<Demand>, cands: seq<seq<EdgePath>>, beta: real, variant: Variant, r: nat)
    requires r <= |g.edges| && |demands| <= |cands|
  {
    CapacityCost(g, demands, cands, beta, variant, {}, r) == CapOffsets(g, beta, r)
  }

  lemma CapacityCostNone(g: Graph, demands: seq<Demand>, cands: seq<seq<EdgePath>>, beta: real, variant: Variant, r: nat)
    requires r <= |g.edges| && |demands| <= |cands|
    ensures CapacityCost(g, demands, cands, beta, variant, {}, r) == CapOffsets(g, beta, r)
  {
    CostNoneBy(g, demands, cands, beta, variant, r);
  }

  lemma {:induction false} CostNoneBy(g: Graph, demands: seq<Demand>, cands: seq<seq<EdgePath>>, beta: real, variant: Variant, r: nat)
    requires r <= |g.edges| && |demands| <= |cands|
    ensures CostNoneUpTo(g, demands, cands, beta, variant, r)
    decreases r
  {
    if r > 0 {
      CostNoneBy(g, demands, cands, beta, variant, r - 1);
      CostNoneStep(g, demands, cands, beta, variant, r);
    }
  }

  lemma CostNoneStep(g: Graph, demands: seq<Demand>, cands: seq<seq<EdgePath>>, beta: real, variant: Variant, r: nat)
    requires 0 < r <= |g.edges| && |demands| <= |cands|
    ensures CostNoneUpTo(g, demands, cands, beta, variant, r - 1) ==> CostNoneUpTo(g, demands, cands, beta, variant, r)
  {
    var e := g.edges[r - 1];
    var ls, cap := LoadExpr(demands, cands, Stored(e)), Capacity(e);
    LoadNone(ls, |ls|);
    assert Square(0.0 - cap) == cap * cap;
    assert EdgeCost(beta, variant, cap, 0.0, 0.0) == beta * (cap * cap);
  }

  /** The offset is α per demand plus β·cap² per graph edge, whether or
      not any candidate uses the edge. */
  lemma BqmOffset(g: Graph, demands: seq<Demand>, cands: seq<seq<EdgePath>>, alpha: real, beta: real, variant: Variant)
    requires |demands| <= |cands|
    ensures ApplyAll(Empty, BqmOps(g, demands, cands, alpha, beta, variant)).offset
      == alpha * |demands| as real + CapOffsets(g, beta, |g.edges|)
  {
    var ops := BqmOps(g, demands, cands, alpha, beta, variant);
    var e := OpsEnergy(ops, {});
    var c, p := ConstraintCost(cands, alpha, variant, {}, |demands|), CapacityCost(g, demands, cands, beta, variant, {}, |g.edges|);
    EmptyOffsetAt(ops, e);
    BqmOpsEnergyAt(g, demands, cands, alpha, beta, variant, e, c, p);
    NoneCostsAt(g, demands, cands, alpha, beta, variant, c, p);
  }

  // NoneCostsAt, EmptyOffsetAt and BqmOpsEnergyAt restate their lemmas
  // about named reals, which keeps BqmOffset to a few real equations.

  lemma NoneCostsAt(g: Graph, demands: seq<Demand>, cands: seq<seq<EdgePath>>, alpha: real, beta: real, variant: Variant, c: real, p: real)
    requires |demands| <= |cands|
    requires c == ConstraintCost(cands, alpha, variant, {}, |demands|) && p == CapacityCost(g, demands, cands, beta, variant, {}, |g.edges|)
    ensures c == alpha * |demands| as real && p == CapOffsets(g, beta, |g.edges|)
  {
    ConstraintCostNone(cands, alpha, variant, |demands|);
    CapacityCostNone(g, demands, cands, beta, variant, |g.edges|);
  }

  lemma EmptyOffsetAt(ops: seq<Op>, e: real)
    requires e == OpsEnergy(ops, {})
    ensures ApplyAll(Empty, ops).offset == e
  {
    OffsetIsEmptyEnergy(Empty, ops);
  }

  lemma BqmOpsEnergyAt(g: Graph, demands: seq<Demand>, cands: seq<seq<EdgePath>>, alpha: real, beta: real, variant: Variant, e: real, c: real, p: real)
    requires |demands| <= |cands|
    requires e == OpsEnergy(BqmOps(g, demands, cands, alpha, beta, variant), {})
    requires c == ConstraintCost(cands, alpha, variant, {}, |demands|) && p == CapacityCost(g, demands, cands, beta, variant, {}, |g.edges|)
    ensures e == c + p
  {
    BqmOpsEnergy(g, demands, cands, alpha, beta, variant, {});
  }

  // ---------------------------------------------------------------------
  // The corrected encoder enforces one path per demand

  /** The sample sets exactly one variable of each of the first r demands. */
  predicate OneHot(cands: seq<seq<EdgePath>>, r: nat, sel: set<Var>)
    requires r <= |cands|
  {
    forall d :: 0 <= d < r ==> Count(sel, Vars(d, |cands[d]|)) == 1
  }

  lemma {:induction false} CorrectedConstraintCost(cands: seq<seq<EdgePath>>, alpha: real, sel: set<Var>, r: nat)
    requires r <= |cands| && alpha > 0.0
    ensures ConstraintCost(cands, alpha, Corrected, sel, r) >= 0.0
    ensures ConstraintCost(cands, alpha, Corrected, sel, r) == 0.0 <==> OneHot(cands, r, sel)
    decreases r
  {
    if r > 0 {
      var vs := Vars(r - 1, |cands[r - 1]|);
      CorrectedConstraintCost(cands, alpha, sel, r - 1);
      SelIsCount(sel, vs);
      DemandCorrectedExactlyOne(alpha, Count(sel, vs));
      if OneHot(cands, r, sel) {
        assert OneHot(cands, r - 1, sel);
      }
    }
  }

  /** Corrected, the model's energy is never below its capacity part
      Σ_e β(load − cap)², and equals it exactly when the sample chooses
      one candidate per demand. */
  lemma CorrectedEnergy(g: Graph, demands: seq<Demand>, cands: seq<seq<EdgePath>>, alpha: real, beta: real, sel: set<Var>)
    requires |demands| <= |cands| && alpha > 0.0
    ensures Energy(ApplyAll(Empty, BqmOps(g, demands, cands, alpha, beta, Corrected)), AllVars(cands, |demands|), sel)
      >= CapacityCost(g, demands, cands, beta, Corrected, sel, |g.edges|)
    ensures (Energy(ApplyAll(Empty, BqmOps(g, demands, cands, alpha, beta, Corrected)), AllVars(cands, |demands|), sel)
      == CapacityCost(g, demands, cands, beta, Corrected, sel, |g.edges|)) <==> OneHot(cands, |demands|, sel)
  {
    BqmEnergy(g, demands, cands, alpha, beta, Corrected, sel);
    CorrectedConstraintCost(cands, alpha, sel, |demands|);
  }

  // ---------------------------------------------------------------------
  // The encoder's loops

  /** `for v in vs: bqm.add_variable(v, b)` */
  method AddLinearLoop(bqm: Bqm, vs: seq<Var>, b: real)
    modifies bqm
    ensures bqm.State() == ApplyAll(old(bqm.State()), LinearOps(vs, b))
  {
    ghost var m0 := bqm.State();
    for j := 0 to |vs|
      invariant bqm.State() == ApplyAll(m0, LinearOps(vs[..j], b))
    {
      bqm.AddVariable(vs[j], b);
      assert vs[..j + 1][..j] == vs[..j];
      ApplyAllSnoc(m0, LinearOps(vs[..j], b), AddLinear(vs[j], b));
    }
    assert vs[..|vs|] == vs;
  }

  /** `for j in range(i + 1, n): bqm.add_interaction(u, vs[j], b)`, where
      rest is vs[i + 1..] and u is vs[i]. */
  method AddRowLoop(bqm: Bqm, u: Var, rest: seq<Var>, b: real)
    requires u !in rest
    modifies bqm
    ensures bqm.State() == ApplyAll(old(bqm.State()), RowOps(u, rest, b))
  {
    ghost var m0 := bqm.State();
    for j := 0 to |rest|
      invariant bqm.State() == ApplyAll(m0, RowOps(u, rest[..j], b))
    {
      bqm.AddInteraction(u, rest[j], b);
      assert rest[..j + 1][..j] == rest[..j];
      ApplyAllSnoc(m0, RowOps(u, rest[..j], b), AddQuad(u, rest[j], b));
    }
    assert rest[..|rest|] == rest;
  }

  /** `for i in range(n): for j in range(i + 1, n): bqm.add_interaction(vs[i], vs[j], b)` */
  method AddPairLoop(bqm: Bqm, vs: seq<Var>, b: real)
    requires Distinct(vs)
    modifies bqm
    ensures bqm.State() == ApplyAll(old(bqm.State()), PairOps(vs, b))
  {
    ghost var m0 := bqm.State();
    for i := 0 to |vs|
      invariant bqm.State() == ApplyAll(m0, PairRows(vs, i, b))
    {
      assert vs[i] !in vs[i + 1..] by {
        forall j | i + 1 <= j < |vs| ensures vs[j] != vs[i] {
        }
      }
      AddRowLoop(bqm, vs[i], vs[i + 1..], b);
      ApplyAllAppend(m0, PairRows(vs, i, b), RowOps(vs[i], vs[i + 1..], b));
    }
  }

  /** The one-path penalty of one demand with variables vs. */
  method AddOnePathPenalty(bqm: Bqm, vs: seq<Var>, alpha: real, variant: Variant)
    requires Distinct(vs)
    modifies bqm
    ensures bqm.State() == ApplyAll(old(bqm.State()), DemandOps(vs, alpha, variant))
  {
    ghost var m0 := bqm.State();
    var lin := DemandLinear(alpha, variant);
    bqm.AddToOffset(alpha);
    ghost var m1 := bqm.State();
    AddLinearLoop(bqm, vs, lin);
    ghost var m2 := bqm.State();
    AddPairLoop(bqm, vs, 2.0 * alpha);
    DemandSteps(m0, m1, m2, bqm.State(), vs, alpha, variant);
  }

  /** The offset, the linear loop and the pair loop make DemandOps. */
  lemma DemandSteps(m0: Model, m1: Model, m2: Model, m3: Model, vs: seq<Var>, alpha: real, variant: Variant)
    requires m1 == Apply(m0, AddOffset(alpha))
    requires m2 == ApplyAll(m1, LinearOps(vs, DemandLinear(alpha, variant)))
    requires m3 == ApplyAll(m2, PairOps(vs, 2.0 * alpha))
    ensures m3 == ApplyAll(m0, DemandOps(vs, alpha, variant))
  {
    var lin := DemandLinear(alpha, variant);
    assert [] + [AddOffset(alpha)] == [AddOffset(alpha)];
    ApplyAllSnoc(m0, [], AddOffset(alpha));
    ApplyAllAppend(m0, [AddOffset(alpha)], LinearOps(vs, lin));
    ApplyAllAppend(m0, [AddOffset(alpha)] + LinearOps(vs, lin), PairOps(vs, 2.0 * alpha));
  }

  /** `for coef2, v2 in load_expr: if v != v2: bqm.add_interaction(v, v2, w * coef2)` */
  method AddInnerLoop(bqm: Bqm, w: real, v: Var, ls: seq<Entry>)
    modifies bqm
    ensures bqm.State() == ApplyAll(old(bqm.State()), InnerOps(w, v, ls, |ls|))
  {
    ghost var m0 := bqm.State();
    for b := 0 to |ls|
      invariant bqm.State() == ApplyAll(m0, InnerOps(w, v, ls, b))
    {
      InnerOpsStep(w, v, ls, b);
      if v != ls[b].1 {
        bqm.AddInteraction(v, ls[b].1, w * ls[b].0);
        ApplyAllSnoc(m0, InnerOps(w, v, ls, b), AddQuad(v, ls[b].1, w * ls[b].0));
      } else {
        assert InnerOps(w, v, ls, b) + [] == InnerOps(w, v, ls, b);
      }
    }
  }

  /** One row of the nested loop over the load list: the variable's own
      bias β·coef², then its interaction with every other entry. */
  method AddEdgeRow(bqm: Bqm, ls: seq<Entry>, a: nat, beta: real, pw: real)
    requires a < |ls|
    modifies bqm
    ensures bqm.State() == ApplyAll(old(bqm.State()), EdgeRow(ls, a, beta, pw))
  {
    ghost var m0 := bqm.State();
    var own := AddLinear(ls[a].1, beta * (ls[a].0 * ls[a].0));
    bqm.AddVariable(ls[a].1, beta * (ls[a].0 * ls[a].0));
    assert [] + [own] == [own];
    ApplyAllSnoc(m0, [], own);
    AddInnerLoop(bqm, pw * ls[a].0, ls[a].1, ls);
    ApplyAllAppend(m0, [own], InnerOps(pw * ls[a].0, ls[a].1, ls, |ls|));
  }

  /** The nested loop over the load list. */
  method AddEdgeRows(bqm: Bqm, ls: seq<Entry>, beta: real, pw: real)
    modifies bqm
    ensures bqm.State() == ApplyAll(old(bqm.State()), EdgeRows(ls, beta, pw, |ls|))
  {
    ghost var m0 := bqm.State();
    for a := 0 to |ls|
      invariant bqm.State() == ApplyAll(m0, EdgeRows(ls, beta, pw, a))
    {
      AddEdgeRow(bqm, ls, a, beta, pw);
      ApplyAllAppend(m0, EdgeRows(ls, beta, pw, a), EdgeRow(ls, a, beta, pw));
    }
  }

  /** `for coef, v in load_expr: bqm.add_variable(v, k * coef)` */
  method AddCapLoop(bqm: Bqm, ls: seq<Entry>, k: real)
    modifies bqm
    ensures bqm.State() == ApplyAll(old(bqm.State()), CapOps(ls, |ls|, k))
  {
    ghost var m0 := bqm.State();
    for a := 0 to |ls|
      invariant bqm.State() == ApplyAll(m0, CapOps(ls, a, k))
    {
      bqm.AddVariable(ls[a].1, k * ls[a].0);
      CapOpsStep(ls, a, k);
      ApplyAllSnoc(m0, CapOps(ls, a, k), AddLinear(ls[a].1, k * ls[a].0));
    }
  }

  lemma CapOpsStep(ls: seq<Entry>, a: nat, k: real)
    requires a < |ls|
    ensures CapOps(ls, a + 1, k) == CapOps(ls, a, k) + [AddLinear(ls[a].1, k * ls[a].0)]
  {
  }

  lemma InnerOpsStep(w: real, v: Var, ls: seq<Entry>, b: nat)
    requires b < |ls|
    ensures InnerOps(w, v, ls, b + 1) == InnerOps(w, v, ls, b) + (if v != ls[b].1 then [AddQuad(v, ls[b].1, w * ls[b].0)] else [])
  {
  }

  /** The capacity penalty of one edge with load list ls. */
  method AddCapacityPenalty(bqm: Bqm, ls: seq<Entry>, cap: real, beta: real, variant: Variant)
    modifies bqm
    ensures bqm.State() == ApplyAll(old(bqm.State()), EdgeOps(ls, cap, beta, variant))
  {
    ghost var m0 := bqm.State();
    var pw, off, k := PairWeight(beta, variant), beta * (cap * cap), -2.0 * beta * cap;
    EdgeOpsParts(ls, cap, beta, variant, pw, off, k);
    AddEdgeRows(bqm, ls, beta, pw);
    ghost var rows := EdgeRows(ls, beta, pw, |ls|);
    bqm.AddToOffset(off);
    ApplyAllSnoc(m0, rows, AddOffset(off));
    AddCapLoop(bqm, ls, k);
    ApplyAllAppend(m0, rows + [AddOffset(off)], CapOps(ls, |ls|, k));
  }

  lemma EdgeOpsParts(ls: seq<Entry>, cap: real, beta: real, variant: Variant, pw: real, off: real, k: real)
    requires pw == PairWeight(beta, variant) && off == beta * (cap * cap) && k == -2.0 * beta * cap
    ensures EdgeOps(ls, cap, beta, variant) == EdgeRows(ls, beta, pw, |ls|) + [AddOffset(off)] + CapOps(ls, |ls|, k)
  {
  }

  /** `load_expr` of edge e: the candidates of every demand, in order. */
  method CollectLoadExpr(demands: seq<Demand>, cands: seq<seq<EdgePath>>, e: Pair) returns (ls: seq<Entry>)
    requires |demands| <= |cands|
    ensures ls == LoadExpr(demands, cands, e)
  {
    ls := [];
    for d := 0 to |demands|
      invariant ls == LoadExprTo(demands, cands, e, d)
    {
      var dem := demands[d].2;
      ghost var done := ls;
      for i := 0 to |cands[d]|
        invariant ls == done + PathEntries(dem, d, cands[d], e, i)
      {
        if e in cands[d][i] {
          ls := ls + [(dem, Var(d, i))];
        }
      }
    }
  }

  /** The one-path loop: `for d, (src, dst, dem) in enumerate(demands)`. */
  method AddConstraints(bqm: Bqm, cands: seq<seq<EdgePath>>, n: nat, alpha: real, variant: Variant)
    requires n <= |cands|
    modifies bqm
    ensures bqm.State() == ApplyAll(old(bqm.State()), ConstraintOps(cands, alpha, variant, n))
  {
    ghost var m0 := bqm.State();
    for d := 0 to n
      invariant bqm.State() == ApplyAll(m0, ConstraintOps(cands, alpha, variant, d))
    {
      var vs := Vars(d, |cands[d]|);
      AddOnePathPenalty(bqm, vs, alpha, variant);
      ApplyAllAppend(m0, ConstraintOps(cands, alpha, variant, d), DemandOps(vs, alpha, variant));
    }
  }

  /** The capacity loop: `for e in G.edges`. */
  method AddCapacities(bqm: Bqm, g: Graph, demands: seq<Demand>, cands: seq<seq<EdgePath>>, beta: real, variant: Variant)
    requires |demands| <= |cands|
    modifies bqm
    ensures bqm.State() == ApplyAll(old(bqm.State()), CapacityOps(g, demands, cands, beta, variant, |g.edges|))
  {
    ghost var m0 := bqm.State();
    var r := 0;
    while r < |g.edges|
      invariant r <= |g.edges|
      invariant CapacityApplied(m0, bqm.State(), g, demands, cands, beta, variant, r)
    {
      AddNextCapacity(bqm, m0, g, demands, cands, beta, variant, r);
      r := r + 1;
    }
  }

  /** One turn of the capacity loop, in terms of the loop's invariant. */
  method AddNextCapacity(bqm: Bqm, ghost m0: Model, g: Graph, demands: seq<Demand>, cands: seq<seq<EdgePath>>, beta: real, variant: Variant, r: nat)
    requires r < |g.edges| && |demands| <= |cands|
    requires CapacityApplied(m0, bqm.State(), g, demands, cands, beta, variant, r)
    modifies bqm
    ensures CapacityApplied(m0, bqm.State(), g, demands, cands, beta, variant, r + 1)
  {
    ghost var m1 := bqm.State();
    AddEdgeCapacity(bqm, g, demands, cands, beta, variant, r);
    CapacityStep(m0, m1, bqm.State(), g, demands, cands, beta, variant, r);
  }

  /** The body of the capacity loop for edge r: collect its load list,
      then add its penalty. */
  method AddEdgeCapacity(bqm: Bqm, g: Graph, demands: seq<Demand>, cands: seq<seq<EdgePath>>, beta: real, variant: Variant, r: nat)
    requires r < |g.edges| && |demands| <= |cands|
    modifies bqm
    ensures bqm.State() == ApplyAll(old(bqm.State()), EdgeOps(LoadExpr(demands, cands, Stored(g.edges[r])), Capacity(g.edges[r]), beta, variant))
  {
    var e := g.edges[r];
    var ls := CollectLoadExpr(demands, cands, (e.u, e.v));
    AddCapacityPenalty(bqm, ls, Capacity(e), beta, variant);
  }

  /** m is m0 with the capacity changes of the first r edges made. */
  predicate CapacityApplied(m0: Model, m: Model, g: Graph, demands: seq<Demand>, cands: seq<seq<EdgePath>>, beta: real, variant: Variant, r: nat)
    requires r <= |g.edges| && |demands| <= |cands|
  {
    m == ApplyAll(m0, CapacityOps(g, demands, cands, beta, variant, r))
  }

  lemma CapacityStep(m0: Model, m1: Model, m2: Model, g: Graph, demands: seq<Demand>, cands: seq<seq<EdgePath>>, beta: real, variant: Variant, r: nat)
    requires r < |g.edges| && |demands| <= |cands|
    requires m2 == ApplyAll(m1, EdgeOps(LoadExpr(demands, cands, Stored(g.edges[r])), Capacity(g.edges[r]), beta, variant))
    ensures CapacityApplied(m0, m1, g, demands, cands, beta, variant, r) ==> CapacityApplied(m0, m2, g, demands, cands, beta, variant, r + 1)
  {
    ApplyAllAppend(m0, CapacityOps(g, demands, cands, beta, variant, r), EdgeOps(LoadExpr(demands, cands, Stored(g.edges[r])), Capacity(g.edges[r]), beta, variant));
  }

  /** `build_qubo(G, demands, candidate_lists, alpha, beta)`: a new model
      holding exactly the changes of BqmOps, made in that order. */
  method BuildQubo(g: Graph, demands: seq<Demand>, cands: seq<seq<EdgePath>>, alpha: real, beta: real, variant: Variant)
    returns (bqm: Bqm)
    requires |demands| <= |cands|
    ensures fresh(bqm)
    ensures bqm.State() == ApplyAll(Empty, BqmOps(g, demands, cands, alpha, beta, variant))
  {
    bqm := new Bqm();
    AddConstraints(bqm, cands, |demands|, alpha, variant);
    AddCapacities(bqm, g, demands, cands, beta, variant);
    ApplyAllAppend(Empty, ConstraintOps(cands, alpha, variant, |demands|), CapacityOps(g, demands, cands, beta, variant, |g.edges|));
  }
}
