/** What the finished Q of `build_qubo` (src/formulation.py) is worth on a
    0/1 selection: the travel times of the selected variables, plus each
    edge group's congestion block, plus each demand's constraint block; and,
    for the one-hot vector of a state under the corrected encoder, the
    state's travel cost plus coef·((load − cap)² − cap²) per edge group less
    P per demand. */
module FormulationValue {
  import opened Graphs
  import opened Formulation
  import opened QuboAlgebra
  import opened FormulationQubo
  import opened FormulationBuild
  import opened FormulationEnergy

  // ---------------------------------------------------------------------
  // The value of Q on any selection

  /** Σ of w[q] over the selected positions q. */
  function SelSum(sel: set<nat>, w: seq<real>): real
  {
    if w == [] then 0.0 else SelSum(sel, w[..|w| - 1]) + (if |w| - 1 in sel then w[|w| - 1] else 0.0)
  }

  /** The travel time of each of the first n variables' paths. */
  function TravelWeights(g: Graph, cands: Candidates, n: nat): (w: seq<real>)
    requires AllOnGraph(g, cands) && n <= NumVars(cands)
    ensures |w| == n
    ensures forall q :: 0 <= q < n ==> w[q] == VarTime(g, cands, q)
  {
    seq(n, q requires 0 <= q < n => VarTime(g, cands, q))
  }

  /** Σ over the keys ks of the congestion block of each key's group. */
  function CongestionValue(g: Graph, inc: seq<(Pair, nat)>, ks: seq<Pair>, coef: real, sel: set<nat>): real
    requires KeysAdjacent(g, ks)
  {
    if ks == [] then 0.0
    else
      var e := ks[|ks| - 1];
      CongestionValue(g, inc, ks[..|ks| - 1], coef, sel) + EdgeCost(coef, CapOrZero(g, e) as real, Sel(sel, Members(inc, e)))
  }

  /** Σ over the first n demands of the constraint block of each demand. */
  function ChoiceValue(cands: Candidates, n: nat, penalty: real, variant: Variant, sel: set<nat>): real
    requires n <= |cands|
  {
    if n == 0 then 0.0
    else ChoiceValue(cands, n - 1, penalty, variant, sel) + ChoiceCost(penalty, variant, Sel(sel, BlockVars(cands, n - 1)))
  }

  /** Travel, congestion and constraint value of a selection, block by block. */
  function QuboValue(g: Graph, cands: Candidates, penalty: real, coef: real, variant: Variant, sel: set<nat>): real
    requires AllOnGraph(g, cands)
  {
    var inc := Incidences(g, cands, NumVars(cands), variant);
    GroupKeysOnGraph(g, cands, variant);
    SelSum(sel, TravelWeights(g, cands, NumVars(cands))) + CongestionValue(g, inc, GroupKeys(inc), coef, sel)
      + ChoiceValue(cands, |cands|, penalty, variant, sel)
  }

  lemma {:induction false} TravelTermsEnergy(g: Graph, cands: Candidates, n: nat, sel: set<nat>)
    requires AllOnGraph(g, cands) && n <= NumVars(cands)
    ensures TermsEnergy(TravelTerms(g, cands, n), sel) == SelSum(sel, TravelWeights(g, cands, n))
    decreases n
  {
    if n > 0 {
      TravelTermsEnergy(g, cands, n - 1, sel);
      assert TravelTerms(g, cands, n)[..n - 1] == TravelTerms(g, cands, n - 1);
      assert TravelWeights(g, cands, n)[..n - 1] == TravelWeights(g, cands, n - 1);
    }
  }

  lemma {:induction false} CongestionTermsEnergy(g: Graph, inc: seq<(Pair, nat)>, ks: seq<Pair>, coef: real, sel: set<nat>)
    requires KeysAdjacent(g, ks)
    ensures TermsEnergy(CongestionTerms(g, inc, ks, coef), sel) == CongestionValue(g, inc, ks, coef, sel)
    decreases |ks|
  {
    if ks != [] {
      var init, e := ks[..|ks| - 1], ks[|ks| - 1];
      CongestionTermsEnergy(g, inc, init, coef, sel);
      TermsEnergyAppend(CongestionTerms(g, inc, init, coef), EdgeTerms(Members(inc, e), coef, CapOrZero(g, e) as real), sel);
      EdgeEnergy(Members(inc, e), coef, CapOrZero(g, e) as real, sel);
    }
  }

  lemma {:induction false} ChoiceTermsEnergy(cands: Candidates, n: nat, penalty: real, variant: Variant, sel: set<nat>)
    requires n <= |cands|
    ensures TermsEnergy(ChoiceTerms(cands, n, penalty, variant), sel) == ChoiceValue(cands, n, penalty, variant, sel)
    decreases n
  {
    if n > 0 {
      ChoiceTermsEnergy(cands, n - 1, penalty, variant, sel);
      TermsEnergyAppend(ChoiceTerms(cands, n - 1, penalty, variant), ChoiceBlock(BlockVars(cands, n - 1), penalty, variant), sel);
      ChoiceEnergy(BlockVars(cands, n - 1), penalty, variant, sel);
    }
  }

  // ---------------------------------------------------------------------
  // Every q_add names a variable below N

  predicate AllBelow(vs: seq<nat>, n: nat)
  {
    forall j :: 0 <= j < |vs| ==> vs[j] < n
  }

  lemma {:induction false} PairRowsBelow(vs: seq<nat>, r: nat, w: real, n: nat)
    requires r <= |vs| && AllBelow(vs, n)
    ensures TermsBelow(PairRows(vs, r, w), n)
    decreases r
  {
    if r > 0 {
      PairRowsBelow(vs, r - 1, w, n);
    }
  }

  lemma {:induction false} BlockBelow(vs: seq<nat>, n: nat, a: real, b: real, c: real)
    requires AllBelow(vs, n)
    ensures TermsBelow(DiagTerms(vs, a) + PairTerms(vs, b) + DiagTerms(vs, c), n)
  {
    PairRowsBelow(vs, |vs|, b, n);
  }

  lemma {:induction false} MembersBelow(inc: seq<(Pair, nat)>, e: Pair, n: nat)
    requires forall j :: 0 <= j < |inc| ==> inc[j].1 < n
    ensures AllBelow(Members(inc, e), n)
    decreases |inc|
  {
    if inc != [] {
      var init := inc[..|inc| - 1];
      assert forall j :: 0 <= j < |init| ==> init[j] == inc[j];
      MembersBelow(init, e, n);
    }
  }

  lemma {:induction false} CongestionBelow(g: Graph, inc: seq<(Pair, nat)>, ks: seq<Pair>, coef: real, n: nat)
    requires KeysAdjacent(g, ks)
    requires forall j :: 0 <= j < |inc| ==> inc[j].1 < n
    ensures TermsBelow(CongestionTerms(g, inc, ks, coef), n)
    decreases |ks|
  {
    if ks != [] {
      var e := ks[|ks| - 1];
      var vs := Members(inc, e);
      var cap := CapOrZero(g, e) as real;
      CongestionBelow(g, inc, ks[..|ks| - 1], coef, n);
      MembersBelow(inc, e, n);
      PairRowsBelow(vs, |vs|, 2.0 * coef, n);
      assert TermsBelow(DiagTerms(vs, EdgeLinear(coef, cap)), n);
      TermsBelowAppend(DiagTerms(vs, EdgeLinear(coef, cap)), PairTerms(vs, 2.0 * coef), n);
      TermsBelowAppend(CongestionTerms(g, inc, ks[..|ks| - 1], coef), EdgeTerms(vs, coef, cap), n);
    }
  }

  lemma {:induction false} ChoiceBelow(cands: Candidates, i: nat, penalty: real, variant: Variant)
    requires i <= |cands|
    ensures TermsBelow(ChoiceTerms(cands, i, penalty, variant), NumVars(cands))
    decreases i
  {
    if i > 0 {
      ChoiceBelow(cands, i - 1, penalty, variant);
      BlockStartMono(cands, |cands|);
      var vs := BlockVars(cands, i - 1);
      assert BlockStart(cands, i) <= NumVars(cands);
      assert AllBelow(vs, NumVars(cands)) by {
        forall j | 0 <= j < |vs| ensures vs[j] < NumVars(cands) {
          assert vs[j] == BlockStart(cands, i - 1) + j;
        }
      }
      var (a, b, c) := ChoiceWeights(penalty, variant);
      BlockBelow(vs, NumVars(cands), a, b, c);
      TermsBelowAppend(ChoiceTerms(cands, i - 1, penalty, variant), ChoiceBlock(vs, penalty, variant), NumVars(cands));
    }
  }

  lemma {:induction false} TermsBelowAppend(ts: seq<QTerm>, us: seq<QTerm>, n: nat)
    requires TermsBelow(ts, n) && TermsBelow(us, n)
    ensures TermsBelow(ts + us, n)
  {
    forall j | 0 <= j < |ts + us| ensures (ts + us)[j].a < n && (ts + us)[j].b < n {
      if j >= |ts| {
        assert (ts + us)[j] == us[j - |ts|];
      }
    }
  }

  lemma {:induction false} TravelBelow(g: Graph, cands: Candidates)
    requires AllOnGraph(g, cands)
    ensures TermsBelow(TravelTerms(g, cands, NumVars(cands)), NumVars(cands))
  {
    var ts := TravelTerms(g, cands, NumVars(cands));
    forall j | 0 <= j < |ts| ensures ts[j].a < NumVars(cands) && ts[j].b < NumVars(cands) {
      assert ts[j] == QTerm(j, j, VarTime(g, cands, j));
    }
  }

  lemma {:induction false} QuboTermsBelow(g: Graph, cands: Candidates, penalty: real, coef: real, variant: Variant)
    requires AllOnGraph(g, cands)
    ensures TermsBelow(QuboTerms(g, cands, penalty, coef, variant), NumVars(cands))
  {
    var n := NumVars(cands);
    var inc := Incidences(g, cands, n, variant);
    IncidencesOnGraph(g, cands, n, variant);
    GroupKeysOnGraph(g, cands, variant);
    var travel, congestion, choice := TravelTerms(g, cands, n), CongestionTerms(g, inc, GroupKeys(inc), coef), ChoiceTerms(cands, |cands|, penalty, variant);
    assert QuboTerms(g, cands, penalty, coef, variant) == travel + congestion + choice;
    TravelBelow(g, cands);
    CongestionBelow(g, inc, GroupKeys(inc), coef, n);
    ChoiceBelow(cands, |cands|, penalty, variant);
    TermsBelowAppend(travel, congestion, n);
    TermsBelowAppend(travel + congestion, choice, n);
  }

  /** The finished Q of build_qubo, evaluated as Σ_{a <= b < N} Q[(a, b)]·x_a·x_b
      on the selection sel, is the travel time of every selected variable,
      plus for every edge group coef·((k − cap)² − cap²) with k of its
      members selected, plus for every demand its constraint block at the
      number of its variables selected. */
  lemma {:induction false} BuildQuboEnergy(g: Graph, cands: Candidates, penalty: real, coef: real, variant: Variant, sel: set<nat>)
    requires AllOnGraph(g, cands)
    ensures Energy(Accumulate(map[], QuboTerms(g, cands, penalty, coef, variant)), NumVars(cands), sel)
      == QuboValue(g, cands, penalty, coef, variant, sel)
  {
    var n := NumVars(cands);
    var inc := Incidences(g, cands, n, variant);
    GroupKeysOnGraph(g, cands, variant);
    var travel, congestion, choice := TravelTerms(g, cands, n), CongestionTerms(g, inc, GroupKeys(inc), coef), ChoiceTerms(cands, |cands|, penalty, variant);
    QuboTermsBelow(g, cands, penalty, coef, variant);
    AccumulateEnergy(map[], travel + congestion + choice, n, sel);
    EnergyOfEmpty(n, sel);
    TermsEnergyAppend(travel + congestion, choice, sel);
    TermsEnergyAppend(travel, congestion, sel);
    TravelTermsEnergy(g, cands, n, sel);
    CongestionTermsEnergy(g, inc, GroupKeys(inc), coef, sel);
    ChoiceTermsEnergy(cands, |cands|, penalty, variant, sel);
  }

  // ---------------------------------------------------------------------
  // The one-hot vector of a state

  /** A state assigns every demand, each to one of its candidates. */
  predicate FullState(cands: Candidates, state: State)
  {
    ValidState(cands, state) && |state| == |cands|
  }

  /** Variable BlockStart(i) + p is the pair (i, p). */
  lemma {:induction false} VarAtBlock(cands: Candidates, i: nat, p: nat)
    requires i < |cands| && p < |cands[i]|
    ensures BlockStart(cands, i) + p < NumVars(cands) && VarAt(cands, BlockStart(cands, i) + p) == (i, p)
  {
    VarsAt(cands, |cands|, (i, p));
    var q := BlockStart(cands, i) + p;
    assert Vars(cands, |cands|)[q] == (i, p);
    assert VarAt(cands, q) == Vars(cands, |cands|)[q];
  }

  /** The 0/1 vector of a state: x[i, state[i]] is 1 for each demand i. */
  function OneHot(cands: Candidates, state: State): set<nat>
    requires |state| == |cands|
  {
    OneHotUpTo(cands, state, |state|)
  }

  /** The chosen variables of the first n demands. */
  function OneHotUpTo(cands: Candidates, state: State, n: nat): set<nat>
    requires |state| == |cands| && n <= |state|
  {
    if n == 0 then {} else OneHotUpTo(cands, state, n - 1) + {BlockStart(cands, n - 1) + state[n - 1]}
  }

  /** Variable BlockStart(i) + p exists. */
  lemma {:induction false} BlockBound(cands: Candidates, i: nat, p: nat)
    requires i < |cands| && p < |cands[i]|
    ensures BlockStart(cands, i) + p < NumVars(cands)
  {
    BlockStartMono(cands, |cands|);
    assert BlockStart(cands, i + 1) == BlockStart(cands, i) + |cands[i]|;
  }

  /** Every variable of demand i comes before the block of a later demand j. */
  lemma {:induction false} BlockBefore(cands: Candidates, i: nat, p: nat, j: nat)
    requires i < j <= |cands| && p < |cands[i]|
    ensures BlockStart(cands, i) + p < BlockStart(cands, j)
  {
    BlockStartMono(cands, j);
    assert BlockStart(cands, i + 1) == BlockStart(cands, i) + |cands[i]|;
  }

  /** The blocks of the demands do not overlap. */
  lemma {:induction false} BlockDisjoint(cands: Candidates, i: nat, p: nat, j: nat, r: nat)
    requires i < |cands| && p < |cands[i]| && j < |cands| && r < |cands[j]|
    requires BlockStart(cands, i) + p == BlockStart(cands, j) + r
    ensures i == j && p == r
  {
    if i < j {
      BlockBefore(cands, i, p, j);
    } else if j < i {
      BlockBefore(cands, j, r, i);
    }
  }

  lemma {:induction false} OneHotUpToAt(cands: Candidates, state: State, n: nat, i: nat, p: nat)
    requires FullState(cands, state) && n <= |state| && i < |cands| && p < |cands[i]|
    ensures BlockStart(cands, i) + p in OneHotUpTo(cands, state, n) <==> i < n && p == state[i]
    decreases n
  {
    if n > 0 {
      OneHotUpToAt(cands, state, n - 1, i, p);
      if BlockStart(cands, i) + p == BlockStart(cands, n - 1) + state[n - 1] {
        BlockDisjoint(cands, i, p, n - 1, state[n - 1]);
      }
    }
  }

  /** Within demand i's block exactly the chosen candidate is set. */
  lemma {:induction false} OneHotAt(cands: Candidates, state: State, i: nat, p: nat)
    requires FullState(cands, state) && i < |cands| && p < |cands[i]|
    ensures BlockStart(cands, i) + p in OneHot(cands, state) <==> p == state[i]
  {
    OneHotUpToAt(cands, state, |state|, i, p);
  }

  /** Σ over the first i demands of w at each demand's chosen variable. */
  function ChosenSum(cands: Candidates, state: State, w: seq<real>, i: nat): real
    requires FullState(cands, state) && |w| == NumVars(cands) && i <= |cands|
  {
    if i == 0 then 0.0
    else
      BlockBound(cands, i - 1, state[i - 1]);
      ChosenSum(cands, state, w, i - 1) + w[BlockStart(cands, i - 1) + state[i - 1]]
  }

  lemma {:induction false} SelSumInBlock(cands: Candidates, state: State, w: seq<real>, i: nat, p: nat)
    requires FullState(cands, state) && |w| == NumVars(cands) && i < |cands| && p <= |cands[i]|
    ensures BlockStart(cands, i) + p <= |w|
    ensures SelSum(OneHot(cands, state), w[..BlockStart(cands, i) + p]) == SelSum(OneHot(cands, state), w[..BlockStart(cands, i)])
      + (if state[i] < p then w[BlockStart(cands, i) + state[i]] else 0.0)
    decreases p
  {
    BlockStartMono(cands, |cands|);
    assert BlockStart(cands, i + 1) == BlockStart(cands, i) + |cands[i]|;
    if p > 0 {
      var b := BlockStart(cands, i);
      SelSumInBlock(cands, state, w, i, p - 1);
      assert w[..b + p][..b + p - 1] == w[..b + p - 1];
      OneHotAt(cands, state, i, p - 1);
    }
  }

  lemma {:induction false} SelSumOneHot(cands: Candidates, state: State, w: seq<real>, i: nat)
    requires FullState(cands, state) && |w| == NumVars(cands) && i <= |cands|
    ensures BlockStart(cands, i) <= |w|
    ensures SelSum(OneHot(cands, state), w[..BlockStart(cands, i)]) == ChosenSum(cands, state, w, i)
    decreases i
  {
    BlockStartMono(cands, |cands|);
    if i > 0 {
      SelSumOneHot(cands, state, w, i - 1);
      assert BlockStart(cands, i) == BlockStart(cands, i - 1) + |cands[i - 1]|;
      assert state[i - 1] < |cands[i - 1]|;
      SelSumInBlock(cands, state, w, i - 1, |cands[i - 1]|);
    }
  }

  /** The travel part: the chosen variables' times are the chosen paths' times. */
  lemma {:induction false} ChosenTravel(g: Graph, cands: Candidates, state: State)
    requires AllOnGraph(g, cands) && FullState(cands, state)
    ensures ChosenOnGraph(g, cands, state)
    ensures ChosenSum(cands, state, TravelWeights(g, cands, NumVars(cands)), |cands|) == TravelCost(g, cands, state) as real
  {
    var w := TravelWeights(g, cands, NumVars(cands));
    var paths := ChosenPaths(cands, state);
    StateOnGraph(g, cands, state);
    TimedChosen(g, cands, state);
    ChosenSumOfTimes(g, cands, state, w, paths, |cands|);
    assert SumsAgree(g, cands, state, w, paths, |cands|);
    assert paths[..|cands|] == paths;
  }

  lemma {:induction false} StateOnGraph(g: Graph, cands: Candidates, state: State)
    requires AllOnGraph(g, cands) && FullState(cands, state)
    ensures ChosenOnGraph(g, cands, state)
  {
  }

  lemma {:induction false} TimedChosen(g: Graph, cands: Candidates, state: State)
    requires AllOnGraph(g, cands) && FullState(cands, state)
    ensures forall p :: p in ChosenPaths(cands, state) ==> OnGraph(g, p)
    ensures ChosenTimes(g, cands, state, TravelWeights(g, cands, NumVars(cands)), ChosenPaths(cands, state))
  {
    var w := TravelWeights(g, cands, NumVars(cands));
    var paths := ChosenPaths(cands, state);
    forall j | 0 <= j < |cands|
      ensures BlockStart(cands, j) + state[j] < |w| && w[BlockStart(cands, j) + state[j]] == TravelTime(g, paths[j]) as real
    {
      TravelWeightAt(g, cands, j, state[j]);
    }
  }

  lemma {:induction false} ChosenSumOfTimes(g: Graph, cands: Candidates, state: State, w: seq<real>, paths: seq<Path>, i: nat)
    requires FullState(cands, state) && |w| == NumVars(cands) && |paths| == |cands| && i <= |cands|
    requires forall p :: p in paths ==> OnGraph(g, p)
    requires ChosenTimes(g, cands, state, w, paths)
    ensures SumsAgree(g, cands, state, w, paths, i)
    decreases i
  {
    if i > 0 {
      ChosenSumOfTimes(g, cands, state, w, paths, i - 1);
      SumsAgreeStep(g, cands, state, w, paths, i - 1);
    }
  }

  /** The first i chosen weights add up to the first i paths' time. */
  predicate SumsAgree(g: Graph, cands: Candidates, state: State, w: seq<real>, paths: seq<Path>, i: nat)
    requires FullState(cands, state) && |w| == NumVars(cands) && |paths| == |cands| && i <= |cands|
    requires forall p :: p in paths ==> OnGraph(g, p)
  {
    ChosenSum(cands, state, w, i) == PathsTime(g, paths[..i]) as real
  }

  lemma {:induction false} SumsAgreeStep(g: Graph, cands: Candidates, state: State, w: seq<real>, paths: seq<Path>, i: nat)
    requires FullState(cands, state) && |w| == NumVars(cands) && |paths| == |cands| && i < |cands|
    requires forall p :: p in paths ==> OnGraph(g, p)
    requires ChosenTimes(g, cands, state, w, paths)
    ensures SumsAgree(g, cands, state, w, paths, i) ==> SumsAgree(g, cands, state, w, paths, i + 1)
  {
    ChosenTimesStep(g, cands, state, w, paths, i);
    PathsTimeSnoc(g, paths, i);
  }

  lemma {:induction false} ChosenTimesStep(g: Graph, cands: Candidates, state: State, w: seq<real>, paths: seq<Path>, i: nat)
    requires FullState(cands, state) && |w| == NumVars(cands) && |paths| == |cands| && i < |cands|
    requires forall p :: p in paths ==> OnGraph(g, p)
    requires ChosenTimes(g, cands, state, w, paths)
    ensures OnGraph(g, paths[i])
    ensures ChosenSum(cands, state, w, i + 1) == ChosenSum(cands, state, w, i) + TravelTime(g, paths[i]) as real
  {
    assert paths[i] in paths;
    ChosenSumStep(cands, state, w, i);
  }

  /** Each demand's chosen weight in w is the travel time of its path in paths. */
  predicate ChosenTimes(g: Graph, cands: Candidates, state: State, w: seq<real>, paths: seq<Path>)
    requires FullState(cands, state) && |w| == NumVars(cands) && |paths| == |cands|
    requires forall p :: p in paths ==> OnGraph(g, p)
  {
    forall j :: 0 <= j < |cands| ==>
      BlockStart(cands, j) + state[j] < |w| && w[BlockStart(cands, j) + state[j]] == TravelTime(g, paths[j]) as real
  }

  lemma {:induction false} ChosenSumStep(cands: Candidates, state: State, w: seq<real>, i: nat)
    requires FullState(cands, state) && |w| == NumVars(cands) && i < |cands|
    ensures BlockStart(cands, i) + state[i] < |w|
    ensures ChosenSum(cands, state, w, i + 1) == ChosenSum(cands, state, w, i) + w[BlockStart(cands, i) + state[i]]
  {
    BlockBound(cands, i, state[i]);
  }

  /** The travel weight of variable BlockStart(i) + p is the time of candidate p of demand i. */
  lemma {:induction false} TravelWeightAt(g: Graph, cands: Candidates, i: nat, p: nat)
    requires AllOnGraph(g, cands) && i < |cands| && p < |cands[i]|
    ensures BlockStart(cands, i) + p < NumVars(cands) && OnGraph(g, cands[i][p])
    ensures TravelWeights(g, cands, NumVars(cands))[BlockStart(cands, i) + p] == TravelTime(g, cands[i][p]) as real
  {
    VarTimeAt(g, cands, i, p);
  }

  /** Variable BlockStart(i) + p takes the time of candidate p of demand i. */
  lemma {:induction false} VarTimeAt(g: Graph, cands: Candidates, i: nat, p: nat)
    requires AllOnGraph(g, cands) && i < |cands| && p < |cands[i]|
    ensures BlockStart(cands, i) + p < NumVars(cands) && OnGraph(g, cands[i][p])
    ensures VarTime(g, cands, BlockStart(cands, i) + p) == TravelTime(g, cands[i][p]) as real
  {
    PathOfBlock(cands, i, p);
  }

  /** Variable BlockStart(i) + p stands for candidate p of demand i. */
  lemma {:induction false} PathOfBlock(cands: Candidates, i: nat, p: nat)
    requires i < |cands| && p < |cands[i]|
    ensures BlockStart(cands, i) + p < NumVars(cands) && PathOf(cands, BlockStart(cands, i) + p) == cands[i][p]
  {
    VarAtBlock(cands, i, p);
  }

  /** How often each of the first n variables' paths crosses the edge e. */
  function LoadWeights(cands: Candidates, e: Pair, n: nat): (w: seq<real>)
    requires n <= NumVars(cands)
    ensures |w| == n
    ensures forall q :: 0 <= q < n ==> w[q] == CountKey(Hops(PathOf(cands, q)), e) as real
  {
    seq(n, q requires 0 <= q < n => CountKey(Hops(PathOf(cands, q)), e) as real)
  }

  lemma {:induction false} MembersAppend(a: seq<(Pair, nat)>, b: seq<(Pair, nat)>, e: Pair)
    ensures Members(a + b, e) == Members(a, e) + Members(b, e)
    decreases |b|
  {
    if b == [] {
      assert a + b == a;
    } else {
      assert (a + b)[..|a + b| - 1] == a + b[..|b| - 1];
      MembersAppend(a, b[..|b| - 1], e);
    }
  }

  lemma {:induction false} SelAppend(sel: set<nat>, x: seq<nat>, y: seq<nat>)
    ensures Sel(sel, x + y) == Sel(sel, x) + Sel(sel, y)
    decreases |y|
  {
    if y == [] {
      assert x + y == x;
    } else {
      assert (x + y)[..|x + y| - 1] == x + y[..|y| - 1];
      SelAppend(sel, x, y[..|y| - 1]);
    }
  }

  /** Corrected, the hops of variable q put q under the key e once per
      crossing of e, so they count CountKey(hs, e) when q is selected. */
  lemma {:induction false} CorrectedHopsSel(g: Graph, hs: seq<Pair>, q: nat, e: Pair, sel: set<nat>)
    ensures Sel(sel, Members(HopIncidences(g, hs, q, Corrected), e)) == if q in sel then CountKey(hs, e) as real else 0.0
    decreases |hs|
  {
    if hs != [] {
      var init := hs[..|hs| - 1];
      var inc := HopIncidences(g, hs, q, Corrected);
      assert inc[..|inc| - 1] == HopIncidences(g, init, q, Corrected);
      CorrectedHopsSel(g, init, q, e, sel);
      var last: seq<nat> := if inc[|inc| - 1].0 == e then [q] else [];
      SelAppend(sel, Members(inc[..|inc| - 1], e), last);
      assert last == [] || last[..0] == [];
    }
  }

  /** Corrected, the selected members of e's group count the selected
      variables' crossings of e. */
  lemma {:induction false} MembersLoad(g: Graph, cands: Candidates, e: Pair, n: nat, sel: set<nat>)
    requires n <= NumVars(cands)
    ensures Sel(sel, Members(Incidences(g, cands, n, Corrected), e)) == SelSum(sel, LoadWeights(cands, e, n))
    decreases n
  {
    if n > 0 {
      MembersLoad(g, cands, e, n - 1, sel);
      MembersLoadStep(g, cands, e, n, sel);
    }
  }

  lemma {:induction false} MembersLoadStep(g: Graph, cands: Candidates, e: Pair, n: nat, sel: set<nat>)
    requires 0 < n <= NumVars(cands)
    ensures Sel(sel, Members(Incidences(g, cands, n - 1, Corrected), e)) == SelSum(sel, LoadWeights(cands, e, n - 1))
      ==> Sel(sel, Members(Incidences(g, cands, n, Corrected), e)) == SelSum(sel, LoadWeights(cands, e, n))
  {
    var hs := Hops(PathOf(cands, n - 1));
    MembersAppend(Incidences(g, cands, n - 1, Corrected), HopIncidences(g, hs, n - 1, Corrected), e);
    SelAppend(sel, Members(Incidences(g, cands, n - 1, Corrected), e), Members(HopIncidences(g, hs, n - 1, Corrected), e));
    CorrectedHopsSel(g, hs, n - 1, e, sel);
    assert LoadWeights(cands, e, n)[..n - 1] == LoadWeights(cands, e, n - 1);
  }

  /** Each demand's chosen weight in w is how often its path in paths crosses e. */
  predicate ChosenCounts(cands: Candidates, state: State, e: Pair, w: seq<real>, paths: seq<Path>)
    requires FullState(cands, state) && |w| == NumVars(cands) && |paths| == |cands|
  {
    forall j :: 0 <= j < |cands| ==>
      BlockStart(cands, j) + state[j] < |w| && w[BlockStart(cands, j) + state[j]] == CountKey(Hops(paths[j]), e) as real
  }

  lemma {:induction false} CountedChosen(cands: Candidates, state: State, e: Pair)
    requires FullState(cands, state)
    ensures ChosenCounts(cands, state, e, LoadWeights(cands, e, NumVars(cands)), ChosenPaths(cands, state))
  {
    var w := LoadWeights(cands, e, NumVars(cands));
    var paths := ChosenPaths(cands, state);
    forall j | 0 <= j < |cands|
      ensures BlockStart(cands, j) + state[j] < |w| && w[BlockStart(cands, j) + state[j]] == CountKey(Hops(paths[j]), e) as real
    {
      LoadWeightAt(cands, e, j, state[j]);
    }
  }

  lemma {:induction false} LoadWeightAt(cands: Candidates, e: Pair, i: nat, p: nat)
    requires i < |cands| && p < |cands[i]|
    ensures BlockStart(cands, i) + p < NumVars(cands)
    ensures LoadWeights(cands, e, NumVars(cands))[BlockStart(cands, i) + p] == CountKey(Hops(cands[i][p]), e) as real
  {
    PathOfBlock(cands, i, p);
  }

  lemma {:induction false} ChosenLoad(cands: Candidates, state: State, e: Pair, w: seq<real>, paths: seq<Path>, i: nat)
    requires FullState(cands, state) && |w| == NumVars(cands) && |paths| == |cands| && i <= |cands|
    requires ChosenCounts(cands, state, e, w, paths)
    ensures LoadsAgree(cands, state, e, w, paths, i)
    decreases i
  {
    if i > 0 {
      ChosenLoad(cands, state, e, w, paths, i - 1);
      LoadsAgreeStep(cands, state, e, w, paths, i - 1);
    }
  }

  /** The first i chosen weights add up to the first i paths' load on e. */
  predicate LoadsAgree(cands: Candidates, state: State, e: Pair, w: seq<real>, paths: seq<Path>, i: nat)
    requires FullState(cands, state) && |w| == NumVars(cands) && |paths| == |cands| && i <= |cands|
  {
    ChosenSum(cands, state, w, i) == PathsLoad(paths[..i], e) as real
  }

  lemma {:induction false} LoadsAgreeStep(cands: Candidates, state: State, e: Pair, w: seq<real>, paths: seq<Path>, i: nat)
    requires FullState(cands, state) && |w| == NumVars(cands) && |paths| == |cands| && i < |cands|
    requires ChosenCounts(cands, state, e, w, paths)
    ensures LoadsAgree(cands, state, e, w, paths, i) ==> LoadsAgree(cands, state, e, w, paths, i + 1)
  {
    ChosenSumStep(cands, state, w, i);
    PathsLoadSnoc(paths, i, e);
  }

  /** Corrected, a state's one-hot vector selects, in every edge group, as
      many members as the state's paths cross that edge. */
  lemma {:induction false} GroupLoad(g: Graph, cands: Candidates, state: State, e: Pair)
    requires FullState(cands, state)
    ensures Sel(OneHot(cands, state), Members(Incidences(g, cands, NumVars(cands), Corrected), e))
      == PathsLoad(ChosenPaths(cands, state), e) as real
  {
    var n := NumVars(cands);
    var w := LoadWeights(cands, e, n);
    MembersLoad(g, cands, e, n, OneHot(cands, state));
    SelSumOneHot(cands, state, w, |cands|);
    assert w[..n] == w;
    ChosenLoadTotal(cands, state, e);
  }

  lemma {:induction false} ChosenLoadTotal(cands: Candidates, state: State, e: Pair)
    requires FullState(cands, state)
    ensures ChosenSum(cands, state, LoadWeights(cands, e, NumVars(cands)), |cands|) == PathsLoad(ChosenPaths(cands, state), e) as real
  {
    var w := LoadWeights(cands, e, NumVars(cands));
    var paths := ChosenPaths(cands, state);
    CountedChosen(cands, state, e);
    ChosenLoad(cands, state, e, w, paths, |cands|);
    assert LoadsAgree(cands, state, e, w, paths, |cands|);
    assert paths[..|cands|] == paths;
  }

  /** A state's one-hot vector selects exactly one variable of every block. */
  lemma {:induction false} BlockSelected(cands: Candidates, state: State, i: nat, p: nat)
    requires FullState(cands, state) && i < |cands| && p <= |cands[i]|
    ensures Sel(OneHot(cands, state), BlockVars(cands, i)[..p]) == if state[i] < p then 1.0 else 0.0
    decreases p
  {
    var vs := BlockVars(cands, i);
    if p > 0 {
      BlockSelected(cands, state, i, p - 1);
      assert vs[..p][..p - 1] == vs[..p - 1];
      assert vs[p - 1] == BlockStart(cands, i) + (p - 1);
      OneHotAt(cands, state, i, p - 1);
    }
  }

  /** On a state's one-hot vector every corrected constraint block is worth
      −P, the least it can be worth. */
  lemma {:induction false} ChoiceOneHot(cands: Candidates, state: State, n: nat, penalty: real)
    requires FullState(cands, state) && n <= |cands|
    ensures ChoiceValue(cands, n, penalty, Corrected, OneHot(cands, state)) == -(penalty * n as real)
    decreases n
  {
    if n > 0 {
      ChoiceOneHot(cands, state, n - 1, penalty);
      ChoiceOneHotStep(cands, state, n, penalty);
      assert -(penalty * (n - 1) as real) - penalty == -(penalty * n as real);
    }
  }

  lemma {:induction false} ChoiceOneHotStep(cands: Candidates, state: State, n: nat, penalty: real)
    requires FullState(cands, state) && 0 < n <= |cands|
    ensures ChoiceValue(cands, n, penalty, Corrected, OneHot(cands, state))
      == ChoiceValue(cands, n - 1, penalty, Corrected, OneHot(cands, state)) - penalty
  {
    BlockSelected(cands, state, n - 1, |cands[n - 1]|);
    assert BlockVars(cands, n - 1)[..|cands[n - 1]|] == BlockVars(cands, n - 1);
    assert ChoiceCost(penalty, Corrected, 1.0) == -penalty;
  }

  /** As written, the constraint blocks are worth nothing on a state's one-hot vector. */
  lemma {:induction false} AsWrittenChoiceOneHot(cands: Candidates, state: State, n: nat, penalty: real)
    requires FullState(cands, state) && n <= |cands|
    ensures ChoiceValue(cands, n, penalty, AsWritten, OneHot(cands, state)) == 0.0
    decreases n
  {
    if n > 0 {
      AsWrittenChoiceOneHot(cands, state, n - 1, penalty);
      BlockSelected(cands, state, n - 1, |cands[n - 1]|);
      assert BlockVars(cands, n - 1)[..|cands[n - 1]|] == BlockVars(cands, n - 1);
    }
  }

  /** Σ over the keys ks of coef·((load − cap)² − cap²), the load of e being
      how often the paths cross it. */
  function LoadCongestion(g: Graph, paths: seq<Path>, ks: seq<Pair>, coef: real): real
    requires KeysAdjacent(g, ks)
  {
    if ks == [] then 0.0
    else
      var e := ks[|ks| - 1];
      LoadCongestion(g, paths, ks[..|ks| - 1], coef) + EdgeCost(coef, CapOrZero(g, e) as real, PathsLoad(paths, e) as real)
  }

  /** Corrected, on a state's one-hot vector each group's block is charged
      at the load the state's paths put on its key. */
  lemma {:induction false} CongestionOneHot(g: Graph, cands: Candidates, state: State, ks: seq<Pair>, coef: real)
    requires FullState(cands, state) && KeysAdjacent(g, ks)
    ensures CongestionValue(g, Incidences(g, cands, NumVars(cands), Corrected), ks, coef, OneHot(cands, state))
      == LoadCongestion(g, ChosenPaths(cands, state), ks, coef)
    decreases |ks|
  {
    if ks != [] {
      var e := ks[|ks| - 1];
      assert e in ks;
      CongestionOneHot(g, cands, state, ks[..|ks| - 1], coef);
      GroupLoad(g, cands, state, e);
    }
  }

  /** The congestion charged to a state by the corrected QUBO: one term per
      edge some candidate crosses. */
  function QuboCongestion(g: Graph, cands: Candidates, state: State, coef: real): real
    requires AllOnGraph(g, cands) && FullState(cands, state)
  {
    GroupKeysOnGraph(g, cands, Corrected);
    LoadCongestion(g, ChosenPaths(cands, state), GroupKeys(Incidences(g, cands, NumVars(cands), Corrected)), coef)
  }

  /** The corrected QUBO's energy of a state's one-hot vector: the state's
      travel cost, plus coef·((load − cap)² − cap²) for every edge some
      candidate crosses, minus P for every demand. */
  lemma {:induction false} CorrectedOneHotEnergy(g: Graph, cands: Candidates, state: State, penalty: real, coef: real)
    requires AllOnGraph(g, cands) && FullState(cands, state)
    ensures ChosenOnGraph(g, cands, state)
    ensures Energy(Accumulate(map[], QuboTerms(g, cands, penalty, coef, Corrected)), NumVars(cands), OneHot(cands, state))
      == TravelCost(g, cands, state) as real + QuboCongestion(g, cands, state, coef) - penalty * |cands| as real
  {
    BuildQuboEnergy(g, cands, penalty, coef, Corrected, OneHot(cands, state));
    QuboValueOneHot(g, cands, state, penalty, coef);
  }

  lemma {:induction false} QuboValueOneHot(g: Graph, cands: Candidates, state: State, penalty: real, coef: real)
    requires AllOnGraph(g, cands) && FullState(cands, state)
    ensures ChosenOnGraph(g, cands, state)
    ensures QuboValue(g, cands, penalty, coef, Corrected, OneHot(cands, state))
      == TravelCost(g, cands, state) as real + QuboCongestion(g, cands, state, coef) - penalty * |cands| as real
  {
    ChoiceOneHot(cands, state, |cands|, penalty);
    QuboValueSplit(g, cands, state, penalty, coef, penalty * |cands| as real);
  }

  /** The same with the constraint blocks' total −m given. */
  lemma {:induction false} QuboValueSplit(g: Graph, cands: Candidates, state: State, penalty: real, coef: real, m: real)
    requires AllOnGraph(g, cands) && FullState(cands, state)
    requires ChoiceValue(cands, |cands|, penalty, Corrected, OneHot(cands, state)) == -m
    ensures ChosenOnGraph(g, cands, state)
    ensures QuboValue(g, cands, penalty, coef, Corrected, OneHot(cands, state))
      == TravelCost(g, cands, state) as real + QuboCongestion(g, cands, state, coef) - m
  {
    QuboValueTravel(g, cands, state, penalty, coef);
    QuboCongestionOneHot(g, cands, state, coef);
  }

  /** The first step: the travel part of a one-hot vector is the travel cost. */
  lemma {:induction false} QuboValueTravel(g: Graph, cands: Candidates, state: State, penalty: real, coef: real)
    requires AllOnGraph(g, cands) && FullState(cands, state)
    ensures ChosenOnGraph(g, cands, state)
    ensures KeysAdjacent(g, GroupKeys(Incidences(g, cands, NumVars(cands), Corrected)))
    ensures QuboValue(g, cands, penalty, coef, Corrected, OneHot(cands, state))
      == TravelCost(g, cands, state) as real
        + CongestionValue(g, Incidences(g, cands, NumVars(cands), Corrected), GroupKeys(Incidences(g, cands, NumVars(cands), Corrected)), coef, OneHot(cands, state))
        + ChoiceValue(cands, |cands|, penalty, Corrected, OneHot(cands, state))
  {
    QuboValueParts(g, cands, penalty, coef, Corrected, OneHot(cands, state));
    TravelOneHot(g, cands, state);
  }

  lemma {:induction false} QuboValueParts(g: Graph, cands: Candidates, penalty: real, coef: real, variant: Variant, sel: set<nat>)
    requires AllOnGraph(g, cands)
    ensures KeysAdjacent(g, GroupKeys(Incidences(g, cands, NumVars(cands), variant)))
    ensures QuboValue(g, cands, penalty, coef, variant, sel)
      == SelSum(sel, TravelWeights(g, cands, NumVars(cands)))
        + CongestionValue(g, Incidences(g, cands, NumVars(cands), variant), GroupKeys(Incidences(g, cands, NumVars(cands), variant)), coef, sel)
        + ChoiceValue(cands, |cands|, penalty, variant, sel)
  {
    GroupKeysOnGraph(g, cands, variant);
  }

  lemma {:induction false} QuboCongestionOneHot(g: Graph, cands: Candidates, state: State, coef: real)
    requires AllOnGraph(g, cands) && FullState(cands, state)
    ensures KeysAdjacent(g, GroupKeys(Incidences(g, cands, NumVars(cands), Corrected)))
    ensures CongestionValue(g, Incidences(g, cands, NumVars(cands), Corrected), GroupKeys(Incidences(g, cands, NumVars(cands), Corrected)), coef, OneHot(cands, state))
      == QuboCongestion(g, cands, state, coef)
  {
    GroupKeysOnGraph(g, cands, Corrected);
    CongestionOneHot(g, cands, state, GroupKeys(Incidences(g, cands, NumVars(cands), Corrected)), coef);
  }

  /** The travel diagonal of a state's one-hot vector is the state's travel cost. */
  lemma {:induction false} TravelOneHot(g: Graph, cands: Candidates, state: State)
    requires AllOnGraph(g, cands) && FullState(cands, state)
    ensures ChosenOnGraph(g, cands, state)
    ensures SelSum(OneHot(cands, state), TravelWeights(g, cands, NumVars(cands))) == TravelCost(g, cands, state) as real
  {
    var n := NumVars(cands);
    var w := TravelWeights(g, cands, n);
    SelSumOneHot(cands, state, w, |cands|);
    assert w[..n] == w;
    ChosenTravel(g, cands, state);
  }

  // ---------------------------------------------------------------------
  // Opposite directions

  /** Two demands whose only candidates cross edge u–v in opposite
      directions, both selected. As written their hops open two groups
      of one member each, so the pair is never charged; corrected they share
      one group, whose coupling term adds 2·coef. */
  lemma AsWrittenSplitsOpposite(g: Graph, u: Node, v: Node, coef: real)
    requires Adjacent(g, u, v) && u != v
    ensures NumVars([[[u, v]], [[v, u]]]) == 2
    ensures KeysAdjacent(g, [(u, v), (v, u)]) && KeysAdjacent(g, [Canon(u, v)])
    ensures GroupKeys(Incidences(g, [[[u, v]], [[v, u]]], 2, AsWritten)) == [(u, v), (v, u)]
    ensures GroupKeys(Incidences(g, [[[u, v]], [[v, u]]], 2, Corrected)) == [Canon(u, v)]
    ensures CongestionValue(g, Incidences(g, [[[u, v]], [[v, u]]], 2, AsWritten), [(u, v), (v, u)], coef, {0, 1})
      == 2.0 * EdgeCost(coef, CapOrZero(g, (u, v)) as real, 1.0)
    ensures CongestionValue(g, Incidences(g, [[[u, v]], [[v, u]]], 2, Corrected), [Canon(u, v)], coef, {0, 1})
      == EdgeCost(coef, CapOrZero(g, (u, v)) as real, 2.0)
    ensures EdgeCost(coef, CapOrZero(g, (u, v)) as real, 2.0) - 2.0 * EdgeCost(coef, CapOrZero(g, (u, v)) as real, 1.0) == 2.0 * coef
  {
    OppositeIncidences(g, u, v);
    OppositeAsWritten(g, u, v, coef);
    OppositeCorrected(g, u, v, coef);
    CouplingGain(coef, CapOrZero(g, (u, v)) as real);
  }

  /** Sharing one group instead of two singleton groups adds the one
      coupling term 2·coef, whatever the capacity. */
  lemma CouplingGain(coef: real, cap: real)
    ensures EdgeCost(coef, cap, 2.0) - 2.0 * EdgeCost(coef, cap, 1.0) == 2.0 * coef
  {
    calc {
      EdgeCost(coef, cap, 2.0) - 2.0 * EdgeCost(coef, cap, 1.0);
      coef * ((2.0 - cap) * (2.0 - cap) - cap * cap) - 2.0 * coef * ((1.0 - cap) * (1.0 - cap) - cap * cap);
      coef * (4.0 - 4.0 * cap) - coef * (2.0 - 4.0 * cap);
      2.0 * coef;
    }
  }

  /** The filings of the two opposite crossings, in both variants. */
  lemma OppositeIncidences(g: Graph, u: Node, v: Node)
    requires Adjacent(g, u, v) && u != v
    ensures NumVars([[[u, v]], [[v, u]]]) == 2
    ensures Incidences(g, [[[u, v]], [[v, u]]], 2, AsWritten) == [((u, v), 0), ((v, u), 1)]
    ensures Incidences(g, [[[u, v]], [[v, u]]], 2, Corrected) == [(Canon(u, v), 0), (Canon(u, v), 1)]
  {
    var cands: Candidates := [[[u, v]], [[v, u]]];
    assert Canon(v, u) == Canon(u, v);
    assert BlockStart(cands, 1) == 1 && BlockStart(cands, 2) == 2;
    PathOfBlock(cands, 0, 0);
    PathOfBlock(cands, 1, 0);
    assert Hops([u, v]) == [(u, v)] && Hops([v, u]) == [(v, u)];
    assert Incidences(g, cands, 1, AsWritten) == [((u, v), 0)];
    assert Incidences(g, cands, 1, Corrected) == [(Canon(u, v), 0)];
  }

  /** As written, each crossing is alone in its group. */
  lemma OppositeAsWritten(g: Graph, u: Node, v: Node, coef: real)
    requires Adjacent(g, u, v) && u != v
    ensures KeysAdjacent(g, [(u, v), (v, u)])
    ensures GroupKeys([((u, v), 0), ((v, u), 1)]) == [(u, v), (v, u)]
    ensures CongestionValue(g, [((u, v), 0), ((v, u), 1)], [(u, v), (v, u)], coef, {0, 1})
      == 2.0 * EdgeCost(coef, CapOrZero(g, (u, v)) as real, 1.0)
  {
    assert Canon(v, u) == Canon(u, v);
    assert CapOrZero(g, (v, u)) == CapOrZero(g, (u, v));
    OppositeMembers(u, v);
    SingletonGroups(g, [((u, v), 0), ((v, u), 1)], (u, v), (v, u), coef);
  }

  lemma OppositeMembers(u: Node, v: Node)
    requires u != v
    ensures GroupKeys([((u, v), 0), ((v, u), 1)]) == [(u, v), (v, u)]
    ensures Members([((u, v), 0), ((v, u), 1)], (u, v)) == [0]
    ensures Members([((u, v), 0), ((v, u), 1)], (v, u)) == [1]
  {
    var inc: seq<(Pair, nat)> := [((u, v), 0), ((v, u), 1)];
    assert inc[..1] == [((u, v), 0)] && inc[..1][..0] == [];
    assert GroupKeys(inc[..1]) == [(u, v)];
    assert (u, v) != (v, u);
    assert Members(inc[..1], (u, v)) == [0] && Members(inc[..1], (v, u)) == [];
  }

  /** Two equal-capacity groups holding one selected variable each. */
  lemma SingletonGroups(g: Graph, inc: seq<(Pair, nat)>, a: Pair, b: Pair, coef: real)
    requires KeysAdjacent(g, [a, b]) && CapOrZero(g, a) == CapOrZero(g, b)
    requires Members(inc, a) == [0] && Members(inc, b) == [1]
    ensures CongestionValue(g, inc, [a, b], coef, {0, 1}) == 2.0 * EdgeCost(coef, CapOrZero(g, a) as real, 1.0)
  {
    var ks := [a, b];
    assert ks[..1] == [a] && ks[..1][..0] == [];
    assert Sel({0, 1}, [0]) == 1.0 && Sel({0, 1}, [1]) == 1.0;
    var one := EdgeCost(coef, CapOrZero(g, a) as real, 1.0);
    assert CongestionValue(g, inc, ks[..1], coef, {0, 1}) == one;
    assert CongestionValue(g, inc, ks, coef, {0, 1}) == one + one;
  }

  /** Corrected, both crossings share the group of the canonical key. */
  lemma OppositeCorrected(g: Graph, u: Node, v: Node, coef: real)
    requires Adjacent(g, u, v)
    ensures KeysAdjacent(g, [Canon(u, v)])
    ensures GroupKeys([(Canon(u, v), 0), (Canon(u, v), 1)]) == [Canon(u, v)]
    ensures CongestionValue(g, [(Canon(u, v), 0), (Canon(u, v), 1)], [Canon(u, v)], coef, {0, 1})
      == EdgeCost(coef, CapOrZero(g, (u, v)) as real, 2.0)
  {
    var k := Canon(u, v);
    var inc: seq<(Pair, nat)> := [(k, 0), (k, 1)];
    assert Canon(k.0, k.1) == k;
    assert CapOrZero(g, k) == CapOrZero(g, (u, v));
    assert inc[..1] == [(k, 0)] && inc[..1][..0] == [];
    assert GroupKeys(inc[..1]) == [k];
    assert Members(inc[..1], k) == [0];
    assert Members(inc, k) == [0, 1];
    assert [k][..0] == [];
    assert [0, 1][..1] == [0] && [0][..0] == [];
    assert Sel({0, 1}, [0, 1]) == 2.0;
  }
}
