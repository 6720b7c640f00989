/** The three phases of `build_qubo` in src/formulation.py (travel times,
    congestion per edge, one choice per demand), the terms each phase hands
    to `q_add`, the loops that add them, and what each block of terms is
    worth on a 0/1 selection. */
module FormulationBuild {
  import opened Graphs
  import opened Formulation
  import opened QuboAlgebra
  import opened FormulationQubo

  /** The (i, p) pair of variable q, in `var_idx` order. */
  function VarAt(cands: Candidates, q: nat): (v: (nat, nat))
    requires q < NumVars(cands)
    ensures IsVar(cands, v)
  {
    Vars(cands, |cands|)[q]
  }

  function PathOf(cands: Candidates, q: nat): Path
    requires q < NumVars(cands)
  {
    var v := VarAt(cands, q);
    cands[v.0][v.1]
  }

  lemma PathOfOnGraph(g: Graph, cands: Candidates, q: nat)
    requires AllOnGraph(g, cands) && q < NumVars(cands)
    ensures OnGraph(g, PathOf(cands, q))
  {
    var v := VarAt(cands, q);
    assert OnGraph(g, cands[v.0][v.1]);
  }

  // ---------------------------------------------------------------------
  // Travel

  /** `path_travel_time(path)` of variable q's path. */
  function VarTime(g: Graph, cands: Candidates, q: nat): real
    requires AllOnGraph(g, cands) && q < NumVars(cands)
  {
    PathOfOnGraph(g, cands, q);
    TravelTime(g, PathOf(cands, q)) as real
  }

  /** `q_add(q, q, path_travel_time(path))` for the first n variables. */
  function TravelTerms(g: Graph, cands: Candidates, n: nat): (ts: seq<QTerm>)
    requires AllOnGraph(g, cands) && n <= NumVars(cands)
    ensures |ts| == n
  {
    seq(n, q requires 0 <= q < n => QTerm(q, q, VarTime(g, cands, q)))
  }

  /** The travel loop, over `var_idx.items()` in insertion order. */
  method AddTravelTerms(g: Graph, cands: Candidates, varIdx: map<(nat, nat), nat>, order: seq<(nat, nat)>, q0: Qubo)
    returns (q: Qubo)
    requires AllOnGraph(g, cands) && order == Vars(cands, |cands|)
    requires forall v :: v in varIdx ==> IsVar(cands, v) && varIdx[v] == BlockStart(cands, v.0) + v.1
    requires forall v: (nat, nat) :: v in varIdx <==> IsVar(cands, v)
    ensures q == Accumulate(q0, TravelTerms(g, cands, NumVars(cands)))
  {
    q := q0;
    for k := 0 to |order|
      invariant q == Accumulate(q0, TravelTerms(g, cands, NumVars(cands))[..k])
    {
      var v := order[k];
      var idx := varIdx[v];
      PathOfOnGraph(g, cands, k);
      var t := PathTravelTime(g, cands[v.0][v.1]);
      TravelStep(g, cands, q0, k);
      q := QAdd(q, idx, idx, t as real);
    }
    assert TravelTerms(g, cands, NumVars(cands))[..|order|] == TravelTerms(g, cands, NumVars(cands));
  }

  /** One turn of the travel loop adds the term of variable k. */
  lemma TravelStep(g: Graph, cands: Candidates, q0: Qubo, k: nat)
    requires AllOnGraph(g, cands) && k < NumVars(cands)
    ensures var v := Vars(cands, |cands|)[k];
      OnGraph(g, cands[v.0][v.1]) && BlockStart(cands, v.0) + v.1 == k &&
      Accumulate(q0, TravelTerms(g, cands, NumVars(cands))[..k + 1]) ==
      QAdd(Accumulate(q0, TravelTerms(g, cands, NumVars(cands))[..k]), k, k, TravelTime(g, cands[v.0][v.1]) as real)
  {
    var ts := TravelTerms(g, cands, NumVars(cands));
    PathOfOnGraph(g, cands, k);
    assert ts[k] == QTerm(k, k, TravelTime(g, PathOf(cands, k)) as real);
    assert ts[..k + 1] == ts[..k] + [ts[k]];
    AccumulateSnoc(q0, ts[..k], ts[k]);
  }

  /** Each diagonal entry gets its path's travel time: the travel phase alone
      puts on (q, q) exactly the time of variable q's path, and nothing off
      the diagonal. */
  lemma TravelCoefficients(g: Graph, cands: Candidates, n: nat, k: QKey)
    requires AllOnGraph(g, cands) && n <= NumVars(cands)
    ensures TermsFor(TravelTerms(g, cands, n), k) ==
      if k.0 == k.1 && k.0 < n then VarTime(g, cands, k.0) else 0.0
  {
    var ts := TravelTerms(g, cands, n);
    assert forall q :: 0 <= q < |ts| ==> ts[q].a == q && ts[q].b == q;
    DiagonalFor(ts, k);
  }

  // ---------------------------------------------------------------------
  // edge_to_vars

  /** The key a hop (u, v) is filed under: as written, `(u, v)` when
      `(u, v) in G.edges()` (which, on an undirected graph, holds for both
      directions of an edge) and `(v, u)` otherwise; corrected, the sorted
      pair that the edge loads use. */
  function HopKey(g: Graph, h: Pair, variant: Variant): Pair
  {
    match variant
    case AsWritten => if Adjacent(g, h.0, h.1) then h else (h.1, h.0)
    case Corrected => Canon(h.0, h.1)
  }

  /** The (key, variable) pairs appended for the hops hs of variable q. */
  function HopIncidences(g: Graph, hs: seq<Pair>, q: nat, variant: Variant): (inc: seq<(Pair, nat)>)
    ensures |inc| == |hs|
    ensures forall j :: 0 <= j < |hs| ==> inc[j] == (HopKey(g, hs[j], variant), q)
  {
    seq(|hs|, j requires 0 <= j < |hs| => (HopKey(g, hs[j], variant), q))
  }

  /** Every `edge_to_vars[e].append(q)` of the first n variables, in order. */
  function Incidences(g: Graph, cands: Candidates, n: nat, variant: Variant): seq<(Pair, nat)>
    requires n <= NumVars(cands)
  {
    if n == 0 then []
    else Incidences(g, cands, n - 1, variant) + HopIncidences(g, Hops(PathOf(cands, n - 1)), n - 1, variant)
  }

  /** The keys of the defaultdict, in the order they were first appended to. */
  function GroupKeys(inc: seq<(Pair, nat)>): (ks: seq<Pair>)
    ensures Distinct(ks)
    ensures forall e :: e in ks <==> exists j :: 0 <= j < |inc| && inc[j].0 == e
  {
    if inc == [] then []
    else
      var init, x := inc[..|inc| - 1], inc[|inc| - 1];
      var ks := GroupKeys(init);
      assert forall j :: 0 <= j < |init| ==> inc[j] == init[j];
      if x.0 in ks then ks else ks + [x.0]
  }

  /** `vars_on_e`: the variables appended under key e, in order. */
  function Members(inc: seq<(Pair, nat)>, e: Pair): seq<nat>
  {
    if inc == [] then []
    else
      var init, x := inc[..|inc| - 1], inc[|inc| - 1];
      Members(init, e) + if x.0 == e then [x.1] else []
  }

  lemma {:induction false} MembersOfAbsent(inc: seq<(Pair, nat)>, e: Pair)
    requires e !in GroupKeys(inc)
    ensures Members(inc, e) == []
    decreases |inc|
  {
    if inc != [] {
      var init := inc[..|inc| - 1];
      assert forall j :: 0 <= j < |init| ==> inc[j] == init[j];
      MembersOfAbsent(init, e);
    }
  }

  /** keys and groups hold the defaultdict after the appends inc. */
  ghost predicate Grouped(inc: seq<(Pair, nat)>, keys: seq<Pair>, groups: map<Pair, seq<nat>>)
  {
    keys == GroupKeys(inc) &&
    (forall e :: e in groups <==> e in keys) &&
    (forall e :: e in groups ==> groups[e] == Members(inc, e))
  }

  /** One append to the defaultdict. */
  lemma GroupStep(inc: seq<(Pair, nat)>, x: (Pair, nat), keys: seq<Pair>, groups: map<Pair, seq<nat>>)
    requires Grouped(inc, keys, groups)
    ensures x.0 in groups ==> Grouped(inc + [x], keys, groups[x.0 := groups[x.0] + [x.1]])
    ensures x.0 !in groups ==> Grouped(inc + [x], keys + [x.0], groups[x.0 := [x.1]])
  {
    assert (inc + [x])[..|inc|] == inc;
    if x.0 !in groups {
      MembersOfAbsent(inc, x.0);
    }
  }

  /** Hop j of variable q extends the appends by its key. */
  lemma IncidenceStep(g: Graph, done: seq<(Pair, nat)>, hs: seq<Pair>, j: nat, q: nat, variant: Variant)
    requires j < |hs|
    ensures done + HopIncidences(g, hs[..j], q, variant) + [(HopKey(g, hs[j], variant), q)] ==
      done + HopIncidences(g, hs[..j + 1], q, variant)
  {
    assert HopIncidences(g, hs[..j + 1], q, variant) == HopIncidences(g, hs[..j], q, variant) + [(HopKey(g, hs[j], variant), q)];
  }

  /** The `edge_to_vars` loop: a key list standing for the defaultdict's
      insertion order, and the lists of variables under each key. */
  method GroupEdgeVars(g: Graph, cands: Candidates, varIdx: map<(nat, nat), nat>, order: seq<(nat, nat)>, variant: Variant)
    returns (keys: seq<Pair>, groups: map<Pair, seq<nat>>)
    requires order == Vars(cands, |cands|)
    requires forall v :: v in varIdx ==> IsVar(cands, v) && varIdx[v] == BlockStart(cands, v.0) + v.1
    requires forall v: (nat, nat) :: v in varIdx <==> IsVar(cands, v)
    ensures keys == GroupKeys(Incidences(g, cands, NumVars(cands), variant))
    ensures forall e :: e in groups <==> e in keys
    ensures forall e :: e in groups ==> groups[e] == Members(Incidences(g, cands, NumVars(cands), variant), e)
  {
    keys, groups := [], map[];
    for k := 0 to |order|
      invariant Grouped(Incidences(g, cands, k, variant), keys, groups)
    {
      keys, groups := FileVariable(g, cands, varIdx, order, k, variant, keys, groups);
    }
    assert |order| == NumVars(cands);
  }

  /** One turn of the outer loop: the hops of variable k. */
  method FileVariable(g: Graph, cands: Candidates, varIdx: map<(nat, nat), nat>, order: seq<(nat, nat)>, k: nat, variant: Variant,
                      keys0: seq<Pair>, groups0: map<Pair, seq<nat>>)
    returns (keys: seq<Pair>, groups: map<Pair, seq<nat>>)
    requires order == Vars(cands, |cands|) && k < |order|
    requires forall v :: v in varIdx ==> IsVar(cands, v) && varIdx[v] == BlockStart(cands, v.0) + v.1
    requires forall v: (nat, nat) :: v in varIdx <==> IsVar(cands, v)
    requires Grouped(Incidences(g, cands, k, variant), keys0, groups0)
    ensures Grouped(Incidences(g, cands, k + 1, variant), keys, groups)
  {
    var v := order[k];
    var q := varIdx[v];
    assert q == k;
    var path := cands[v.0][v.1];
    var hs := Hops(path);
    assert PathOf(cands, k) == path;
    keys, groups := AppendHops(g, hs, q, variant, Incidences(g, cands, k, variant), keys0, groups0);
  }

  /** The inner loop: `edge_to_vars[e].append(q)` for every hop of one path. */
  method AppendHops(g: Graph, hs: seq<Pair>, q: nat, variant: Variant, ghost done: seq<(Pair, nat)>,
                    keys0: seq<Pair>, groups0: map<Pair, seq<nat>>)
    returns (keys: seq<Pair>, groups: map<Pair, seq<nat>>)
    requires Grouped(done, keys0, groups0)
    ensures Grouped(done + HopIncidences(g, hs, q, variant), keys, groups)
  {
    keys, groups := keys0, groups0;
    assert done + HopIncidences(g, hs[..0], q, variant) == done;
    for j := 0 to |hs|
      invariant Grouped(done + HopIncidences(g, hs[..j], q, variant), keys, groups)
    {
      var e := if Adjacent(g, hs[j].0, hs[j].1) then hs[j] else (hs[j].1, hs[j].0);
      if variant.Corrected? {
        e := Canon(hs[j].0, hs[j].1);
      }
      assert e == HopKey(g, hs[j], variant);
      GroupStep(done + HopIncidences(g, hs[..j], q, variant), (e, q), keys, groups);
      IncidenceStep(g, done, hs, j, q, variant);
      if e !in groups {
        keys := keys + [e];
        groups := groups[e := [q]];
      } else {
        groups := groups[e := groups[e] + [q]];
      }
    }
    assert hs[..|hs|] == hs;
  }

  lemma HopKeyAdjacent(g: Graph, h: Pair, variant: Variant)
    requires Adjacent(g, h.0, h.1)
    ensures Adjacent(g, HopKey(g, h, variant).0, HopKey(g, h, variant).1)
  {
    assert Canon(Canon(h.0, h.1).0, Canon(h.0, h.1).1) == Canon(h.0, h.1);
  }

  /** As written, the two directions of a hop over one edge are filed
      under two keys, so paths crossing an edge in opposite directions land
      in different groups and their congestion is never coupled; corrected,
      both directions share the edge's key. */
  lemma HopKeyDirections(g: Graph, u: Node, v: Node)
    requires Adjacent(g, u, v) && u != v
    ensures HopKey(g, (u, v), AsWritten) == (u, v) && HopKey(g, (v, u), AsWritten) == (v, u)
    ensures HopKey(g, (u, v), AsWritten) != HopKey(g, (v, u), AsWritten)
    ensures HopKey(g, (u, v), Corrected) == HopKey(g, (v, u), Corrected) == Canon(u, v)
  {
    assert Canon(v, u) == Canon(u, v);
  }

  /** Corrected, the hops of a path are filed under key k exactly as many
      times as they cross the edge k in the loads, in either direction. */
  lemma {:induction false} CorrectedFilesByLoadKey(g: Graph, hs: seq<Pair>, q: nat, k: Pair)
    ensures |Members(HopIncidences(g, hs, q, Corrected), k)| == CountKey(hs, k)
    decreases |hs|
  {
    if hs != [] {
      var init := hs[..|hs| - 1];
      var inc := HopIncidences(g, hs, q, Corrected);
      assert inc[..|inc| - 1] == HopIncidences(g, init, q, Corrected);
      CorrectedFilesByLoadKey(g, init, q, k);
    }
  }

  /** Every key of edge_to_vars is a graph edge and every variable is below n. */
  lemma IncidencesOnGraph(g: Graph, cands: Candidates, n: nat, variant: Variant)
    requires AllOnGraph(g, cands) && n <= NumVars(cands)
    ensures forall j :: 0 <= j < |Incidences(g, cands, n, variant)| ==>
      Adjacent(g, Incidences(g, cands, n, variant)[j].0.0, Incidences(g, cands, n, variant)[j].0.1) &&
      Incidences(g, cands, n, variant)[j].1 < n
  {
    IncidencesOnGraphBy(g, cands, n, variant);
  }

  /** The appends of the first n variables name graph edges and variables below n. */
  predicate IncidencesOn(g: Graph, cands: Candidates, n: nat, variant: Variant)
    requires n <= NumVars(cands)
  {
    var inc := Incidences(g, cands, n, variant);
    forall j :: 0 <= j < |inc| ==> Adjacent(g, inc[j].0.0, inc[j].0.1) && inc[j].1 < n
  }

  lemma {:induction false} IncidencesOnGraphBy(g: Graph, cands: Candidates, n: nat, variant: Variant)
    requires AllOnGraph(g, cands) && n <= NumVars(cands)
    ensures IncidencesOn(g, cands, n, variant)
    decreases n
  {
    if n > 0 {
      IncidencesOnGraphBy(g, cands, n - 1, variant);
      IncidencesOnStep(g, cands, n, variant);
    }
  }

  /** The hops of variable n - 1 carry the property over from n - 1 variables to n. */
  lemma IncidencesOnStep(g: Graph, cands: Candidates, n: nat, variant: Variant)
    requires AllOnGraph(g, cands) && 0 < n <= NumVars(cands)
    ensures IncidencesOn(g, cands, n - 1, variant) ==> IncidencesOn(g, cands, n, variant)
  {
    if IncidencesOn(g, cands, n - 1, variant) {
      var init := Incidences(g, cands, n - 1, variant);
      PathOfOnGraph(g, cands, n - 1);
      var hs := Hops(PathOf(cands, n - 1));
      var last := HopIncidences(g, hs, n - 1, variant);
      var inc := Incidences(g, cands, n, variant);
      assert inc == init + last;
      forall j | 0 <= j < |inc| ensures Adjacent(g, inc[j].0.0, inc[j].0.1) && inc[j].1 < n {
        if j >= |init| {
          var t := j - |init|;
          assert hs[t] in hs;
          HopKeyAdjacent(g, hs[t], variant);
          assert inc[j] == last[t];
        } else {
          assert inc[j] == init[j];
        }
      }
    }
  }

  /** The keys of edge_to_vars are graph edges, so the capacity lookup succeeds. */
  lemma GroupKeysOnGraph(g: Graph, cands: Candidates, variant: Variant)
    requires AllOnGraph(g, cands)
    ensures KeysAdjacent(g, GroupKeys(Incidences(g, cands, NumVars(cands), variant)))
  {
    IncidencesOnGraph(g, cands, NumVars(cands), variant);
  }

  // ---------------------------------------------------------------------
  // Congestion

  predicate KeysAdjacent(g: Graph, ks: seq<Pair>)
  {
    forall e :: e in ks ==> Adjacent(g, e.0, e.1)
  }

  /** `G[e[0]][e[1]].get(capacity_key, 0)`: a missing capacity counts as 0. */
  function CapOrZero(g: Graph, e: Pair): int
    requires Adjacent(g, e.0, e.1)
  {
    match Attrs(g, e.0, e.1).capacity
    case Some(c) => c
    case None => 0
  }

  /** The two loops for one edge: coef·(1 − 2·cap) on each variable's
      diagonal, 2·coef on each pair. */
  function EdgeTerms(vs: seq<nat>, coef: real, cap: real): seq<QTerm>
  {
    DiagTerms(vs, EdgeLinear(coef, cap)) + PairTerms(vs, 2.0 * coef)
  }

  /** The diagonal weight of an edge block. */
  function EdgeLinear(coef: real, cap: real): real
  {
    coef * (1.0 - 2.0 * cap)
  }

  /** The congestion terms of the first |ks| keys. */
  function CongestionTerms(g: Graph, inc: seq<(Pair, nat)>, ks: seq<Pair>, coef: real): seq<QTerm>
    requires KeysAdjacent(g, ks)
  {
    if ks == [] then []
    else
      var e := ks[|ks| - 1];
      CongestionTerms(g, inc, ks[..|ks| - 1], coef) + EdgeTerms(Members(inc, e), coef, CapOrZero(g, e) as real)
  }

  /** `for q in vs: q_add(q, q, w)` */
  method AddDiag(q0: Qubo, vs: seq<nat>, w: real) returns (q: Qubo)
    ensures q == Accumulate(q0, DiagTerms(vs, w))
  {
    q := q0;
    for j := 0 to |vs|
      invariant q == Accumulate(q0, DiagTerms(vs, w)[..j])
    {
      assert DiagTerms(vs, w)[..j + 1] == DiagTerms(vs, w)[..j] + [QTerm(vs[j], vs[j], w)];
      AccumulateSnoc(q0, DiagTerms(vs, w)[..j], QTerm(vs[j], vs[j], w));
      q := QAdd(q, vs[j], vs[j], w);
    }
    assert DiagTerms(vs, w)[..|vs|] == DiagTerms(vs, w);
  }

  /** `for i1 in range(len(vs)): for i2 in range(i1+1, len(vs)): q_add(vs[i1], vs[i2], w)` */
  method AddPairs(q0: Qubo, vs: seq<nat>, w: real) returns (q: Qubo)
    ensures q == Accumulate(q0, PairTerms(vs, w))
  {
    q := q0;
    for i1 := 0 to |vs|
      invariant q == Accumulate(q0, PairRows(vs, i1, w))
    {
      q := AddPairRow(q0, q, vs, i1, w);
    }
  }

  /** The inner loop of AddPairs: row i1 of the pairs. */
  method AddPairRow(ghost q0: Qubo, q1: Qubo, vs: seq<nat>, i1: nat, w: real) returns (q: Qubo)
    requires i1 < |vs| && q1 == Accumulate(q0, PairRows(vs, i1, w))
    ensures q == Accumulate(q0, PairRows(vs, i1 + 1, w))
  {
    q := q1;
    assert PairRows(vs, i1, w) + PairRowTo(vs, i1, i1 + 1, w) == PairRows(vs, i1, w);
    for i2 := i1 + 1 to |vs|
      invariant q == Accumulate(q0, PairRows(vs, i1, w) + PairRowTo(vs, i1, i2, w))
    {
      PairRowStep(q0, vs, i1, i2, w);
      q := QAdd(q, vs[i1], vs[i2], w);
    }
  }

  /** One pass of the inner loop adds the term (vs[i1], vs[i2]). */
  lemma PairRowStep(q0: Qubo, vs: seq<nat>, i1: nat, i2: nat, w: real)
    requires i1 < i2 < |vs|
    ensures Accumulate(q0, PairRows(vs, i1, w) + PairRowTo(vs, i1, i2 + 1, w))
      == QAdd(Accumulate(q0, PairRows(vs, i1, w) + PairRowTo(vs, i1, i2, w)), vs[i1], vs[i2], w)
  {
    var init, t := PairRows(vs, i1, w) + PairRowTo(vs, i1, i2, w), QTerm(vs[i1], vs[i2], w);
    PairRowToSnoc(vs, i1, i2, w);
    assert PairRows(vs, i1, w) + PairRowTo(vs, i1, i2 + 1, w) == init + [t];
    AccumulateSnoc(q0, init, t);
  }

  lemma PairRowToSnoc(vs: seq<nat>, i1: nat, i2: nat, w: real)
    requires i1 < i2 < |vs|
    ensures PairRowTo(vs, i1, i2 + 1, w) == PairRowTo(vs, i1, i2, w) + [QTerm(vs[i1], vs[i2], w)]
  {
  }

  /** The per-edge loop over `edge_to_vars.items()`. */
  method AddCongestionTerms(g: Graph, keys: seq<Pair>, groups: map<Pair, seq<nat>>, ghost inc: seq<(Pair, nat)>, coef: real, q0: Qubo)
    returns (q: Qubo)
    requires KeysAdjacent(g, keys)
    requires forall e :: e in keys ==> e in groups && groups[e] == Members(inc, e)
    ensures q == Accumulate(q0, CongestionTerms(g, inc, keys, coef))
  {
    q := q0;
    for k := 0 to |keys|
      invariant q == Accumulate(q0, CongestionTerms(g, inc, keys[..k], coef))
    {
      var e := keys[k];
      var varsOnE := groups[e];
      var cap := match Attrs(g, e.0, e.1).capacity case Some(c) => c case None => 0;
      assert cap == CapOrZero(g, e);
      ghost var before := CongestionTerms(g, inc, keys[..k], coef);
      q := AddEdgeTerms(q, varsOnE, coef, cap as real);
      AccumulateAppend(q0, before, EdgeTerms(varsOnE, coef, cap as real));
      CongestionStep(g, inc, keys, k, coef);
    }
    assert keys[..|keys|] == keys;
  }

  lemma CongestionStep(g: Graph, inc: seq<(Pair, nat)>, keys: seq<Pair>, k: nat, coef: real)
    requires KeysAdjacent(g, keys) && k < |keys|
    ensures CongestionTerms(g, inc, keys[..k + 1], coef) ==
      CongestionTerms(g, inc, keys[..k], coef) + EdgeTerms(Members(inc, keys[k]), coef, CapOrZero(g, keys[k]) as real)
  {
    assert keys[..k + 1][..k] == keys[..k];
  }

  /** The two loops of one edge. */
  method AddEdgeTerms(q0: Qubo, varsOnE: seq<nat>, coef: real, cap: real) returns (q: Qubo)
    ensures q == Accumulate(q0, EdgeTerms(varsOnE, coef, cap))
  {
    var linear, coupling := EdgeLinear(coef, cap), 2.0 * coef;
    q := AddDiag(q0, varsOnE, linear);
    q := AddPairs(q, varsOnE, coupling);
    AccumulateAppend(q0, DiagTerms(varsOnE, linear), PairTerms(varsOnE, coupling));
  }

  // ---------------------------------------------------------------------
  // One choice per demand

  /** `vars_i = [var_idx[(i, p_idx)] for p_idx in range(len(P))]` */
  function BlockVars(cands: Candidates, i: nat): (vs: seq<nat>)
    requires i < |cands|
    ensures |vs| == |cands[i]|
  {
    var start := BlockStart(cands, i);
    seq(|cands[i]|, (p: int) requires 0 <= p < |cands[i]| => start + p as nat)
  }

  /** The diagonal, pair and second diagonal weight of a constraint block. */
  function ChoiceWeights(penalty: real, variant: Variant): (real, real, real)
  {
    match variant
    case AsWritten => (penalty * 1.0, 2.0 * penalty * 1.0 * 0.5 * (-1.0), -2.0 * penalty * 0.5)
    case Corrected => (penalty, 2.0 * penalty, -2.0 * penalty)
  }

  /** The three loops of one demand's constraint block. */
  function ChoiceBlock(vs: seq<nat>, penalty: real, variant: Variant): seq<QTerm>
  {
    var (a, b, c) := ChoiceWeights(penalty, variant);
    DiagTerms(vs, a) + PairTerms(vs, b) + DiagTerms(vs, c)
  }

  /** The constraint blocks of the first n demands. */
  function ChoiceTerms(cands: Candidates, n: nat, penalty: real, variant: Variant): seq<QTerm>
    requires n <= |cands|
  {
    if n == 0 then [] else ChoiceTerms(cands, n - 1, penalty, variant) + ChoiceBlock(BlockVars(cands, n - 1), penalty, variant)
  }

  method AddChoiceTerms(cands: Candidates, varIdx: map<(nat, nat), nat>, penalty: real, variant: Variant, q0: Qubo)
    returns (q: Qubo)
    requires forall v :: v in varIdx ==> IsVar(cands, v) && varIdx[v] == BlockStart(cands, v.0) + v.1
    requires forall v: (nat, nat) :: v in varIdx <==> IsVar(cands, v)
    ensures q == Accumulate(q0, ChoiceTerms(cands, |cands|, penalty, variant))
  {
    q := q0;
    for i := 0 to |cands|
      invariant q == Accumulate(q0, ChoiceTerms(cands, i, penalty, variant))
    {
      q := AddDemandBlock(cands, varIdx, penalty, variant, i, q0, q);
    }
  }

  /** One turn of the constraint loop: demand i's block. */
  method AddDemandBlock(cands: Candidates, varIdx: map<(nat, nat), nat>, penalty: real, variant: Variant, i: nat,
                        ghost q0: Qubo, q1: Qubo)
    returns (q: Qubo)
    requires i < |cands|
    requires forall v :: v in varIdx ==> IsVar(cands, v) && varIdx[v] == BlockStart(cands, v.0) + v.1
    requires forall v: (nat, nat) :: v in varIdx <==> IsVar(cands, v)
    requires q1 == Accumulate(q0, ChoiceTerms(cands, i, penalty, variant))
    ensures q == Accumulate(q0, ChoiceTerms(cands, i + 1, penalty, variant))
  {
    var varsI := BlockIndices(cands, varIdx, i);
    var a, b, c := penalty * 1.0, 2.0 * penalty * 1.0 * 0.5 * (-1.0), -2.0 * penalty * 0.5;
    if variant.Corrected? {
      a, b, c := penalty, 2.0 * penalty, -2.0 * penalty;
    }
    assert ChoiceBlock(varsI, penalty, variant) == DiagTerms(varsI, a) + PairTerms(varsI, b) + DiagTerms(varsI, c);
    q := AddChoiceBlock(q1, varsI, a, b, c);
    AccumulateAppend(q0, ChoiceTerms(cands, i, penalty, variant), ChoiceBlock(varsI, penalty, variant));
  }

  /** The three loops of one demand's block. */
  method AddChoiceBlock(q0: Qubo, vs: seq<nat>, a: real, b: real, c: real) returns (q: Qubo)
    ensures q == Accumulate(q0, DiagTerms(vs, a) + PairTerms(vs, b) + DiagTerms(vs, c))
  {
    q := AddDiag(q0, vs, a);
    q := AddPairs(q, vs, b);
    AccumulateAppend(q0, DiagTerms(vs, a), PairTerms(vs, b));
    q := AddDiag(q, vs, c);
    AccumulateAppend(q0, DiagTerms(vs, a) + PairTerms(vs, b), DiagTerms(vs, c));
  }

  /** The list comprehension over `range(len(P))`. */
  method BlockIndices(cands: Candidates, varIdx: map<(nat, nat), nat>, i: nat) returns (vs: seq<nat>)
    requires i < |cands|
    requires forall v :: v in varIdx ==> IsVar(cands, v) && varIdx[v] == BlockStart(cands, v.0) + v.1
    requires forall v: (nat, nat) :: v in varIdx <==> IsVar(cands, v)
    ensures vs == BlockVars(cands, i)
  {
    vs := [];
    for p := 0 to |cands[i]|
      invariant vs == BlockVars(cands, i)[..p]
    {
      assert IsVar(cands, (i, p));
      vs := vs + [varIdx[(i, p)]];
    }
  }

  // ---------------------------------------------------------------------
  // build_qubo

  /** Every q_add call of build_qubo, in order. */
  function QuboTerms(g: Graph, cands: Candidates, penalty: real, coef: real, variant: Variant): seq<QTerm>
    requires AllOnGraph(g, cands)
  {
    var inc := Incidences(g, cands, NumVars(cands), variant);
    GroupKeysOnGraph(g, cands, variant);
    TravelTerms(g, cands, NumVars(cands)) + CongestionTerms(g, inc, GroupKeys(inc), coef) + ChoiceTerms(cands, |cands|, penalty, variant)
  }

  /** build_qubo: Q is what the q_add calls accumulate from the empty map,
      every key (a, b) has a <= b, and var_idx is the dense index. */
  method BuildQubo(g: Graph, cands: Candidates, penalty: real, coef: real, variant: Variant)
    returns (q: Qubo, varIdx: map<(nat, nat), nat>)
    requires AllOnGraph(g, cands)
    ensures q == Accumulate(map[], QuboTerms(g, cands, penalty, coef, variant))
    ensures OrderedKeys(q)
    ensures forall v: (nat, nat) :: v in varIdx <==> IsVar(cands, v)
    ensures forall v :: v in varIdx ==> IsVar(cands, v) && varIdx[v] == BlockStart(cands, v.0) + v.1 && varIdx[v] < NumVars(cands)
  {
    var order, n;
    varIdx, order, n := BuildVarIdx(cands);
    q := map[];
    q := AddTravelTerms(g, cands, varIdx, order, q);
    var keys, groups := GroupEdgeVars(g, cands, varIdx, order, variant);
    ghost var inc := Incidences(g, cands, NumVars(cands), variant);
    GroupKeysOnGraph(g, cands, variant);
    ghost var travel := TravelTerms(g, cands, NumVars(cands));
    ghost var congestion := CongestionTerms(g, inc, keys, coef);
    q := AddCongestionTerms(g, keys, groups, inc, coef, q);
    AccumulateAppend(map[], travel, congestion);
    q := AddChoiceTerms(cands, varIdx, penalty, variant, q);
    AccumulateAppend(map[], travel + congestion, ChoiceTerms(cands, |cands|, penalty, variant));
    AccumulateAdds(map[], QuboTerms(g, cands, penalty, coef, variant));
    forall v | v in varIdx ensures varIdx[v] < NumVars(cands) {
      VarsAt(cands, |cands|, v);
    }
  }
}
