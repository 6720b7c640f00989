/** The two penalties `build_qubo` of src/qubo_formulation.py adds to its
    model, as the changes each makes and what they are worth on a 0/1
    sample: α(1 − Σx)² per demand and β(Σ dem·x − cap)² per edge. */
module QuboPenalties {
  import opened QuboAlgebra
  import opened QuboBqm

  // ---------------------------------------------------------------------
  // Changes that all carry one bias

  /** The change adds its bias on the sample: all its variables are set. */
  predicate Fires(op: Op, sel: set<Var>)
  {
    match op
    case AddOffset(_) => true
    case AddLinear(v, _) => v in sel
    case AddQuad(u, v, _) => u in sel && v in sel
  }

  /** How many of the changes fire on the sample. */
  function FireCount(ops: seq<Op>, sel: set<Var>): real
  {
    if ops == [] then 0.0 else FireCount(ops[..|ops| - 1], sel) + (if Fires(ops[|ops| - 1], sel) then 1.0 else 0.0)
  }

  lemma {:induction false} FireCountAppend(ops: seq<Op>, more: seq<Op>, sel: set<Var>)
    ensures FireCount(ops + more, sel) == FireCount(ops, sel) + FireCount(more, sel)
    decreases |more|
  {
    if more == [] {
      assert ops + more == ops;
    } else {
      assert (ops + more)[..|ops + more| - 1] == ops + more[..|more| - 1];
      FireCountAppend(ops, more[..|more| - 1], sel);
    }
  }

  /** Every change is a bias b on variables. */
  predicate AllBias(ops: seq<Op>, b: real)
  {
    forall j :: 0 <= j < |ops| ==> !ops[j].AddOffset? && ops[j].bias == b
  }

  lemma {:induction false} ScaleStep(b: real, c: real, p: bool)
    ensures b * c + (if p then b else 0.0) == b * (c + if p then 1.0 else 0.0)
  {
  }

  /** Changes that all carry the bias b are worth b per change that fires. */
  lemma {:induction false} UniformEnergy(ops: seq<Op>, b: real, sel: set<Var>)
    requires AllBias(ops, b)
    ensures OpsEnergy(ops, sel) == b * FireCount(ops, sel)
    decreases |ops|
  {
    if ops != [] {
      var init := ops[..|ops| - 1];
      UniformEnergy(init, b, sel);
      ScaleStep(b, FireCount(init, sel), Fires(ops[|ops| - 1], sel));
    }
  }

  // ---------------------------------------------------------------------
  // One path per demand

  /** `for v in vs: bqm.add_variable(v, b)` */
  function LinearOps(vs: seq<Var>, b: real): seq<Op>
  {
    if vs == [] then [] else LinearOps(vs[..|vs| - 1], b) + [AddLinear(vs[|vs| - 1], b)]
  }

  lemma {:induction false} LinearOpsCount(vs: seq<Var>, b: real, sel: set<Var>)
    ensures FireCount(LinearOps(vs, b), sel) == Sel(sel, vs)
    decreases |vs|
  {
    if vs != [] {
      var init, last := vs[..|vs| - 1], vs[|vs| - 1];
      LinearOpsCount(init, b, sel);
      assert (LinearOps(init, b) + [AddLinear(last, b)])[..|LinearOps(init, b)|] == LinearOps(init, b);
    }
  }

  lemma {:induction false} LinearOpsUniform(vs: seq<Var>, b: real)
    ensures AllBias(LinearOps(vs, b), b)
    decreases |vs|
  {
    if vs != [] {
      LinearOpsUniform(vs[..|vs| - 1], b);
    }
  }

  /** The linear loop is worth b per set variable: e is its energy and k
      the number of set variables. */
  lemma {:induction false} LinearOpsEnergy(vs: seq<Var>, b: real, sel: set<Var>, e: real, k: real)
    requires e == OpsEnergy(LinearOps(vs, b), sel) && k == Sel(sel, vs)
    ensures e == b * k
  {
    var f := FireCount(LinearOps(vs, b), sel);
    LinearOpsUniformEnergy(vs, b, sel, e, f);
    LinearOpsCount(vs, b, sel);
  }

  lemma LinearOpsUniformEnergy(vs: seq<Var>, b: real, sel: set<Var>, e: real, f: real)
    requires e == OpsEnergy(LinearOps(vs, b), sel) && f == FireCount(LinearOps(vs, b), sel)
    ensures e == b * f
  {
    LinearOpsUniform(vs, b);
    UniformEnergy(LinearOps(vs, b), b, sel);
  }

  /** `for j in range(i + 1, n): bqm.add_interaction(vs[i], vs[j], b)`,
      where rest is vs[i + 1..]. */
  function RowOps(u: Var, rest: seq<Var>, b: real): seq<Op>
  {
    if rest == [] then [] else RowOps(u, rest[..|rest| - 1], b) + [AddQuad(u, rest[|rest| - 1], b)]
  }

  /** Whether u is set, times the number of set entries of rest. */
  function RowSel(sel: set<Var>, u: Var, rest: seq<Var>): real
  {
    if u in sel then Sel(sel, rest) else 0.0
  }

  lemma {:induction false} RowOpsCount(u: Var, rest: seq<Var>, b: real, sel: set<Var>)
    ensures FireCount(RowOps(u, rest, b), sel) == RowSel(sel, u, rest)
    decreases |rest|
  {
    if rest != [] {
      var init, last := rest[..|rest| - 1], rest[|rest| - 1];
      RowOpsCount(u, init, b, sel);
      assert (RowOps(u, init, b) + [AddQuad(u, last, b)])[..|RowOps(u, init, b)|] == RowOps(u, init, b);
    }
  }

  /** The first r rows of the pair loop. */
  function PairRows(vs: seq<Var>, r: nat, b: real): seq<Op>
    requires r <= |vs|
  {
    if r == 0 then [] else PairRows(vs, r - 1, b) + RowOps(vs[r - 1], vs[r..], b)
  }

  /** `for i in range(n): for j in range(i + 1, n): add_interaction(vs[i], vs[j], b)` */
  function PairOps(vs: seq<Var>, b: real): seq<Op>
  {
    PairRows(vs, |vs|, b)
  }

  lemma {:induction false} PairRowsCount(vs: seq<Var>, r: nat, b: real, sel: set<Var>)
    requires r <= |vs|
    ensures FireCount(PairRows(vs, r, b), sel) + SelPairs(sel, vs[r..]) == SelPairs(sel, vs)
    decreases r
  {
    if r == 0 {
      assert vs[0..] == vs;
    } else {
      PairRowsCount(vs, r - 1, b, sel);
      FireCountAppend(PairRows(vs, r - 1, b), RowOps(vs[r - 1], vs[r..], b), sel);
      RowOpsCount(vs[r - 1], vs[r..], b, sel);
      assert vs[r - 1..][1..] == vs[r..];
    }
  }

  lemma {:induction false} RowOpsUniform(u: Var, rest: seq<Var>, b: real)
    ensures AllBias(RowOps(u, rest, b), b)
    decreases |rest|
  {
    if rest != [] {
      RowOpsUniform(u, rest[..|rest| - 1], b);
    }
  }

  lemma {:induction false} PairRowsUniform(vs: seq<Var>, r: nat, b: real)
    requires r <= |vs|
    ensures AllBias(PairRows(vs, r, b), b)
    decreases r
  {
    if r > 0 {
      PairRowsUniform(vs, r - 1, b);
      RowOpsUniform(vs[r - 1], vs[r..], b);
    }
  }

  /** The pair loop is worth b per pair of set variables: e is its energy
      and pairs the number of set pairs. */
  lemma {:induction false} PairOpsEnergy(vs: seq<Var>, b: real, sel: set<Var>, e: real, pairs: real)
    requires e == OpsEnergy(PairOps(vs, b), sel) && pairs == SelPairs(sel, vs)
    ensures e == b * pairs
  {
    PairRowsUniform(vs, |vs|, b);
    PairRowsCount(vs, |vs|, b, sel);
    assert vs[|vs|..] == [];
    UniformEnergy(PairOps(vs, b), b, sel);
  }

  /** The linear bias of the one-path penalty: −2α as written; −α
      corrected, since x² = x for a binary x folds α·Σx² into the linear
      part. */
  function DemandLinear(alpha: real, variant: Variant): real
  {
    match variant
    case AsWritten => -2.0 * alpha
    case Corrected => -alpha
  }

  /** The changes for one demand with variables vs: offset α, linear bias
      DemandLinear per variable, 2α per unordered pair. */
  function DemandOps(vs: seq<Var>, alpha: real, variant: Variant): seq<Op>
  {
    [AddOffset(alpha)] + LinearOps(vs, DemandLinear(alpha, variant)) + PairOps(vs, 2.0 * alpha)
  }

  /** What a demand's changes are worth with k of its variables set: as
      written α − 2αk + αk(k − 1); corrected α(k − 1)². */
  function DemandCost(alpha: real, variant: Variant, k: real): real
  {
    match variant
    case AsWritten => alpha - 2.0 * alpha * k + alpha * k * (k - 1.0)
    case Corrected => alpha * Square(k - 1.0)
  }

  lemma {:induction false} DemandAlgebra(total: real, alpha: real, variant: Variant, k: real, pairs: real, lin: real, b: real, el: real, ep: real)
    requires lin == DemandLinear(alpha, variant) && b == 2.0 * alpha
    requires total == alpha + el + ep && el == lin * k && ep == b * pairs
    requires 2.0 * pairs == k * k - k
    ensures total == DemandCost(alpha, variant, k)
  {
    calc {
      2.0 * alpha * pairs;
      alpha * (2.0 * pairs);
      alpha * (k * k - k);
    }
  }

  lemma {:induction false} DemandSplit(vs: seq<Var>, alpha: real, lin: real, sel: set<Var>)
    ensures OpsEnergy([AddOffset(alpha)] + LinearOps(vs, lin) + PairOps(vs, 2.0 * alpha), sel)
      == alpha + OpsEnergy(LinearOps(vs, lin), sel) + OpsEnergy(PairOps(vs, 2.0 * alpha), sel)
  {
    OpsEnergyAppend([AddOffset(alpha)], LinearOps(vs, lin), sel);
    OpsEnergyAppend([AddOffset(alpha)] + LinearOps(vs, lin), PairOps(vs, 2.0 * alpha), sel);
    assert [AddOffset(alpha)][..0] == [];
  }

  lemma {:induction false} DemandEnergyAt(vs: seq<Var>, alpha: real, variant: Variant, sel: set<Var>, total: real, k: real, pairs: real)
    requires total == OpsEnergy(DemandOps(vs, alpha, variant), sel)
    requires k == Sel(sel, vs) && pairs == SelPairs(sel, vs)
    ensures total == DemandCost(alpha, variant, k)
  {
    var lin := DemandLinear(alpha, variant);
    var el := OpsEnergy(LinearOps(vs, lin), sel);
    var b := 2.0 * alpha;
    var ep := OpsEnergy(PairOps(vs, b), sel);
    DemandSplit(vs, alpha, lin, sel);
    LinearOpsEnergy(vs, lin, sel, el, k);
    PairOpsEnergy(vs, b, sel, ep, pairs);
    PairsOfSelected(sel, vs);
    DemandAlgebra(total, alpha, variant, k, pairs, lin, b, el, ep);
  }

  /** A demand's changes with k of its variables set are worth
      DemandCost(α, variant, k). */
  lemma {:induction false} DemandEnergy(vs: seq<Var>, alpha: real, variant: Variant, sel: set<Var>)
    ensures OpsEnergy(DemandOps(vs, alpha, variant), sel) == DemandCost(alpha, variant, Sel(sel, vs))
  {
    DemandEnergyAt(vs, alpha, variant, sel, OpsEnergy(DemandOps(vs, alpha, variant), sel), Sel(sel, vs), SelPairs(sel, vs));
  }

  /** As written, the penalty is α with no path chosen and −α with one, but
      also −α with two: it does not tell one path from two. */
  lemma {:induction false} DemandAsWrittenTies(alpha: real)
    ensures DemandCost(alpha, AsWritten, 0.0) == alpha
    ensures DemandCost(alpha, AsWritten, 1.0) == -alpha
    ensures DemandCost(alpha, AsWritten, 2.0) == -alpha
  {
  }

  /** Corrected, the penalty is never negative and is 0 exactly when one
      path is chosen. */
  lemma {:induction false} DemandCorrectedExactlyOne(alpha: real, n: nat)
    requires alpha > 0.0
    ensures DemandCost(alpha, Corrected, n as real) >= 0.0
    ensures DemandCost(alpha, Corrected, n as real) == 0.0 <==> n == 1
  {
    OffByOneSquare(n);
    if n != 1 {
      assert alpha * Square(n as real - 1.0) > 0.0;
    }
  }

  // ---------------------------------------------------------------------
  // Capacity of one edge

  /** One entry `(dem, x_d_i)` of `load_expr`. */
  type Entry = (real, Var)

  /** The variables of the entries are pairwise distinct. */
  predicate UniqueVars(ls: seq<Entry>)
  {
    forall a, b :: 0 <= a < b < |ls| ==> ls[a].1 != ls[b].1
  }

  /** The coefficient of entry a where its variable is set, 0 elsewhere. */
  function Part(ls: seq<Entry>, a: nat, sel: set<Var>): real
    requires a < |ls|
  {
    if ls[a].1 in sel then ls[a].0 else 0.0
  }

  /** Σ dem·x over the first r entries. */
  function LoadTo(ls: seq<Entry>, r: nat, sel: set<Var>): real
    requires r <= |ls|
  {
    if r == 0 then 0.0 else LoadTo(ls, r - 1, sel) + Part(ls, r - 1, sel)
  }

  /** Σ dem²·x over the first r entries. */
  function SqLoadTo(ls: seq<Entry>, r: nat, sel: set<Var>): real
    requires r <= |ls|
  {
    if r == 0 then 0.0 else SqLoadTo(ls, r - 1, sel) + (if ls[r - 1].1 in sel then ls[r - 1].0 * ls[r - 1].0 else 0.0)
  }

  /** The load the sample puts on the edge: Σ dem·x over all entries. */
  function Load(ls: seq<Entry>, sel: set<Var>): real
  {
    LoadTo(ls, |ls|, sel)
  }

  /** Σ dem²·x over all entries. */
  function SqLoad(ls: seq<Entry>, sel: set<Var>): real
  {
    SqLoadTo(ls, |ls|, sel)
  }

  /** Σ dem·x over the first r entries whose variable is not v. */
  function OthersTo(ls: seq<Entry>, r: nat, v: Var, sel: set<Var>): real
    requires r <= |ls|
  {
    if r == 0 then 0.0 else OthersTo(ls, r - 1, v, sel) + (if ls[r - 1].1 != v then Part(ls, r - 1, sel) else 0.0)
  }

  /** The variable of entry a is listed nowhere else. */
  predicate ListedOnce(ls: seq<Entry>, a: nat)
    requires a < |ls|
  {
    forall b :: 0 <= b < |ls| && b != a ==> ls[b].1 != ls[a].1
  }

  lemma {:induction false} UniqueListedOnce(ls: seq<Entry>, a: nat)
    requires UniqueVars(ls) && a < |ls|
    ensures ListedOnce(ls, a)
  {
    forall b | 0 <= b < |ls| && b != a
      ensures ls[b].1 != ls[a].1
    {
      if b < a {
        assert ls[b].1 != ls[a].1;
      } else {
        assert ls[a].1 != ls[b].1;
      }
    }
  }

  /** For a variable listed once, at a, the others are the load less its own part. */
  lemma {:induction false} OthersOfUnique(ls: seq<Entry>, r: nat, a: nat, sel: set<Var>)
    requires r <= |ls| && a < |ls| && ListedOnce(ls, a)
    ensures OthersTo(ls, r, ls[a].1, sel) == LoadTo(ls, r, sel) - (if a < r then Part(ls, a, sel) else 0.0)
    decreases r
  {
    if r > 0 {
      OthersOfUnique(ls, r - 1, a, sel);
      assert r - 1 != a ==> ls[r - 1].1 != ls[a].1;
    }
  }

  /** `for coef2, v2 in load_expr: if v != v2: add_interaction(v, v2, w·coef2)`
      over the first r entries, where w = pw·coef is the part of the bias
      fixed by the outer entry. */
  function InnerOps(w: real, v: Var, ls: seq<Entry>, r: nat): seq<Op>
    requires r <= |ls|
  {
    if r == 0 then []
    else InnerOps(w, v, ls, r - 1) + (if v != ls[r - 1].1 then [AddQuad(v, ls[r - 1].1, w * ls[r - 1].0)] else [])
  }

  /** Σ w·dem·x over the first r entries whose variable is not v. */
  function InnerSum(w: real, v: Var, ls: seq<Entry>, r: nat, sel: set<Var>): real
    requires r <= |ls|
  {
    if r == 0 then 0.0
    else InnerSum(w, v, ls, r - 1, sel) + (if ls[r - 1].1 != v && ls[r - 1].1 in sel then w * ls[r - 1].0 else 0.0)
  }

  lemma {:induction false} InnerOpsValue(w: real, v: Var, ls: seq<Entry>, r: nat, sel: set<Var>)
    requires r <= |ls| && v in sel
    ensures OpsEnergy(InnerOps(w, v, ls, r), sel) == InnerSum(w, v, ls, r, sel)
    decreases r
  {
    if r > 0 {
      InnerOpsValue(w, v, ls, r - 1, sel);
      var u := ls[r - 1].1;
      var tail := if v != u then [AddQuad(v, u, w * ls[r - 1].0)] else [];
      OpsEnergyAppend(InnerOps(w, v, ls, r - 1), tail, sel);
      if v != u {
        assert tail[..0] == [];
      }
    }
  }

  lemma {:induction false} InnerOpsUnset(w: real, v: Var, ls: seq<Entry>, r: nat, sel: set<Var>)
    requires r <= |ls| && v !in sel
    ensures OpsEnergy(InnerOps(w, v, ls, r), sel) == 0.0
    decreases r
  {
    if r > 0 {
      InnerOpsUnset(w, v, ls, r - 1, sel);
      var u := ls[r - 1].1;
      var tail := if v != u then [AddQuad(v, u, w * ls[r - 1].0)] else [];
      OpsEnergyAppend(InnerOps(w, v, ls, r - 1), tail, sel);
      if v != u {
        assert tail[..0] == [];
      }
    }
  }

  lemma {:induction false} CondFactor(w: real, a: real, y: real, p: bool)
    ensures w * a + (if p then w * y else 0.0) == w * (a + if p then y else 0.0)
  {
  }

  lemma {:induction false} InnerSumScaled(w: real, v: Var, ls: seq<Entry>, r: nat, sel: set<Var>)
    requires r <= |ls|
    ensures InnerSum(w, v, ls, r, sel) == w * OthersTo(ls, r, v, sel)
    decreases r
  {
    if r > 0 {
      InnerSumScaled(w, v, ls, r - 1, sel);
      var e := ls[r - 1];
      CondFactor(w, OthersTo(ls, r - 1, v, sel), e.0, e.1 != v && e.1 in sel);
    }
  }

  /** Row a of the outer loop: `add_variable(v, β·coef²)`, then the inner
      loop. */
  function EdgeRow(ls: seq<Entry>, a: nat, beta: real, pw: real): seq<Op>
    requires a < |ls|
  {
    [AddLinear(ls[a].1, beta * (ls[a].0 * ls[a].0))] + InnerOps(pw * ls[a].0, ls[a].1, ls, |ls|)
  }

  /** What row a is worth with load L: β·c² + pw·c·(L − c) when its
      variable is set, c its coefficient, and nothing otherwise. */
  function RowValue(ls: seq<Entry>, a: nat, beta: real, pw: real, l: real, sel: set<Var>): real
    requires a < |ls|
  {
    (if ls[a].1 in sel then beta * (ls[a].0 * ls[a].0) else 0.0) + (if ls[a].1 in sel then pw * ls[a].0 * (l - ls[a].0) else 0.0)
  }

  lemma {:induction false} OneOpEnergy(op: Op, sel: set<Var>)
    ensures OpsEnergy([op], sel) == OpEnergy(op, sel)
  {
    assert [op][..0] == [];
  }

  /** The head of a row, then its inner loop. */
  lemma {:induction false} EdgeRowSplit(ls: seq<Entry>, a: nat, beta: real, pw: real, sel: set<Var>)
    requires a < |ls|
    ensures OpsEnergy(EdgeRow(ls, a, beta, pw), sel)
      == (if ls[a].1 in sel then beta * (ls[a].0 * ls[a].0) else 0.0) + OpsEnergy(InnerOps(pw * ls[a].0, ls[a].1, ls, |ls|), sel)
  {
    var head := [AddLinear(ls[a].1, beta * (ls[a].0 * ls[a].0))];
    OpsEnergyAppend(head, InnerOps(pw * ls[a].0, ls[a].1, ls, |ls|), sel);
    OneOpEnergy(AddLinear(ls[a].1, beta * (ls[a].0 * ls[a].0)), sel);
  }

  /** The inner loop of row a is worth pw·c·(L − c) when its variable is set, else 0. */
  lemma {:induction false} InnerOpsEnergy(ls: seq<Entry>, a: nat, pw: real, sel: set<Var>)
    requires a < |ls| && ListedOnce(ls, a)
    ensures OpsEnergy(InnerOps(pw * ls[a].0, ls[a].1, ls, |ls|), sel)
      == if ls[a].1 in sel then pw * ls[a].0 * (Load(ls, sel) - ls[a].0) else 0.0
  {
    var v, w := ls[a].1, pw * ls[a].0;
    if v in sel {
      InnerOpsValue(w, v, ls, |ls|, sel);
      InnerSumScaled(w, v, ls, |ls|, sel);
      OthersOfUnique(ls, |ls|, a, sel);
      assert w * OthersTo(ls, |ls|, v, sel) == w * (Load(ls, sel) - ls[a].0);
    } else {
      InnerOpsUnset(w, v, ls, |ls|, sel);
    }
  }

  /** Row a is worth RowValue at the edge's load. */
  lemma {:induction false} EdgeRowEnergy(ls: seq<Entry>, a: nat, beta: real, pw: real, sel: set<Var>)
    requires a < |ls| && ListedOnce(ls, a)
    ensures OpsEnergy(EdgeRow(ls, a, beta, pw), sel) == RowValue(ls, a, beta, pw, Load(ls, sel), sel)
  {
    EdgeRowSplit(ls, a, beta, pw, sel);
    InnerOpsEnergy(ls, a, pw, sel);
  }

  /** Rows 0, …, r − 1 of an edge's nested loop, one after the other. */
  function EdgeRows(ls: seq<Entry>, beta: real, pw: real, r: nat): seq<Op>
    requires r <= |ls|
  {
    if r == 0 then [] else EdgeRows(ls, beta, pw, r - 1) + EdgeRow(ls, r - 1, beta, pw)
  }

  /** Σ RowValue over the first r rows. */
  function RowsSum(ls: seq<Entry>, r: nat, beta: real, pw: real, l: real, sel: set<Var>): real
    requires r <= |ls|
  {
    if r == 0 then 0.0 else RowsSum(ls, r - 1, beta, pw, l, sel) + RowValue(ls, r - 1, beta, pw, l, sel)
  }

  /** The first r rows of an edge's nested loop are worth Σ RowValue. */
  predicate RowsWorth(ls: seq<Entry>, beta: real, pw: real, r: nat, sel: set<Var>)
    requires r <= |ls|
  {
    OpsEnergy(EdgeRows(ls, beta, pw, r), sel) == RowsSum(ls, r, beta, pw, Load(ls, sel), sel)
  }

  lemma EdgeRowsEnergy(ls: seq<Entry>, beta: real, pw: real, r: nat, sel: set<Var>)
    requires r <= |ls| && UniqueVars(ls)
    ensures OpsEnergy(EdgeRows(ls, beta, pw, r), sel) == RowsSum(ls, r, beta, pw, Load(ls, sel), sel)
  {
    EdgeRowsWorth(ls, beta, pw, r, sel);
  }

  lemma {:induction false} EdgeRowsWorth(ls: seq<Entry>, beta: real, pw: real, r: nat, sel: set<Var>)
    requires r <= |ls| && UniqueVars(ls)
    ensures RowsWorth(ls, beta, pw, r, sel)
    decreases r
  {
    if r > 0 {
      EdgeRowsWorth(ls, beta, pw, r - 1, sel);
      EdgeRowsEnergyStep(ls, beta, pw, r, sel);
    }
  }

  /** Row r − 1 carries the sum over from r − 1 rows to r. */
  lemma EdgeRowsEnergyStep(ls: seq<Entry>, beta: real, pw: real, r: nat, sel: set<Var>)
    requires 0 < r <= |ls| && UniqueVars(ls)
    ensures RowsWorth(ls, beta, pw, r - 1, sel) ==> RowsWorth(ls, beta, pw, r, sel)
  {
    UniqueRowEnergy(ls, r - 1, beta, pw, sel);
    OpsEnergyAppend(EdgeRows(ls, beta, pw, r - 1), EdgeRow(ls, r - 1, beta, pw), sel);
  }

  /** EdgeRowEnergy for a list whose variables are pairwise distinct. */
  lemma UniqueRowEnergy(ls: seq<Entry>, a: nat, beta: real, pw: real, sel: set<Var>)
    requires a < |ls| && UniqueVars(ls)
    ensures OpsEnergy(EdgeRow(ls, a, beta, pw), sel) == RowValue(ls, a, beta, pw, Load(ls, sel), sel)
  {
    UniqueListedOnce(ls, a);
    EdgeRowEnergy(ls, a, beta, pw, sel);
  }

  lemma {:induction false} RowAlgebra(s: real, w: real, l: real, beta: real, pw: real, c: real, on: bool)
    ensures beta * s + pw * (w * l - s) + ((if on then beta * (c * c) else 0.0) + (if on then pw * c * (l - c) else 0.0))
      == beta * (s + if on then c * c else 0.0) + pw * ((w + if on then c else 0.0) * l - (s + if on then c * c else 0.0))
  {
    if on {
      calc {
        pw * ((w + c) * l - (s + c * c));
        pw * ((w * l - s) + (c * l - c * c));
        pw * (w * l - s) + pw * (c * l - c * c);
        { assert pw * (c * l - c * c) == pw * c * (l - c); }
        pw * (w * l - s) + pw * c * (l - c);
      }
    }
  }

  /** The first r rows are worth β·S_r + pw·(L_r·L − S_r), where L_r and S_r
      are the load and squared load of the first r entries. */
  lemma {:induction false} RowsSumClosed(ls: seq<Entry>, r: nat, beta: real, pw: real, l: real, sel: set<Var>)
    requires r <= |ls|
    ensures RowsSum(ls, r, beta, pw, l, sel) == beta * SqLoadTo(ls, r, sel) + pw * (LoadTo(ls, r, sel) * l - SqLoadTo(ls, r, sel))
    decreases r
  {
    if r > 0 {
      RowsSumClosed(ls, r - 1, beta, pw, l, sel);
      RowAlgebra(SqLoadTo(ls, r - 1, sel), LoadTo(ls, r - 1, sel), l, beta, pw, ls[r - 1].0, ls[r - 1].1 in sel);
    }
  }

  /** `for coef, v in load_expr: add_variable(v, k·coef)` over the first r entries. */
  function CapOps(ls: seq<Entry>, r: nat, k: real): seq<Op>
    requires r <= |ls|
  {
    if r == 0 then [] else CapOps(ls, r - 1, k) + [AddLinear(ls[r - 1].1, k * ls[r - 1].0)]
  }

  /** Σ k·coef over the selected entries among the first r. */
  function CapSum(ls: seq<Entry>, r: nat, k: real, sel: set<Var>): real
    requires r <= |ls|
  {
    if r == 0 then 0.0 else CapSum(ls, r - 1, k, sel) + (if ls[r - 1].1 in sel then k * ls[r - 1].0 else 0.0)
  }

  lemma {:induction false} CapOpsSum(ls: seq<Entry>, r: nat, k: real, sel: set<Var>)
    requires r <= |ls|
    ensures OpsEnergy(CapOps(ls, r, k), sel) == CapSum(ls, r, k, sel)
    decreases r
  {
    if r > 0 {
      CapOpsSum(ls, r - 1, k, sel);
      var op := AddLinear(ls[r - 1].1, k * ls[r - 1].0);
      OpsEnergyAppend(CapOps(ls, r - 1, k), [op], sel);
      OneOpEnergy(op, sel);
    }
  }

  /** The capacity loop is worth k·L. */
  lemma {:induction false} CapSumScaled(ls: seq<Entry>, r: nat, k: real, sel: set<Var>)
    requires r <= |ls|
    ensures CapSum(ls, r, k, sel) == k * LoadTo(ls, r, sel)
    decreases r
  {
    if r > 0 {
      CapSumScaled(ls, r - 1, k, sel);
      assert k * LoadTo(ls, r - 1, sel) + k * Part(ls, r - 1, sel) == k * (LoadTo(ls, r - 1, sel) + Part(ls, r - 1, sel));
    }
  }

  /** The bias per ordered pair of distinct entries: 2β·c·c' as written,
      β·c·c' corrected, so each unordered pair totals 4β·c·c' as written
      and 2β·c·c' corrected. */
  function PairWeight(beta: real, variant: Variant): real
  {
    match variant
    case AsWritten => 2.0 * beta
    case Corrected => beta
  }

  /** The changes for one edge of capacity cap with load list ls: the
      nested loop, the constant β·cap², then the capacity loop. */
  function EdgeOps(ls: seq<Entry>, cap: real, beta: real, variant: Variant): seq<Op>
  {
    EdgeOpsWith(ls, beta, PairWeight(beta, variant), beta * (cap * cap), -2.0 * beta * cap)
  }

  /** The nested loop with pair weight pw, the constant off, then the
      capacity loop with factor k. */
  function EdgeOpsWith(ls: seq<Entry>, beta: real, pw: real, off: real, k: real): seq<Op>
  {
    EdgeRows(ls, beta, pw, |ls|) + [AddOffset(off)] + CapOps(ls, |ls|, k)
  }

  /** What an edge's changes are worth with load L = Σ dem·x and
      S = Σ dem²·x: corrected β(L − cap)²; as written β(L − cap)² plus
      β(L² − S), the cross terms counted a second time. */
  function EdgeCost(beta: real, variant: Variant, cap: real, load: real, sq: real): real
  {
    match variant
    case AsWritten => beta * Square(load - cap) + beta * (load * load - sq)
    case Corrected => beta * Square(load - cap)
  }

  lemma {:induction false} EdgeAlgebra(total: real, beta: real, pw: real, variant: Variant, cap: real, l: real, s: real, er: real, ec: real, k: real)
    requires pw == PairWeight(beta, variant) && k == -2.0 * beta * cap
    requires total == er + beta * (cap * cap) + ec
    requires er == beta * s + pw * (l * l - s) && ec == k * l
    ensures total == EdgeCost(beta, variant, cap, l, s)
  {
    assert Square(l - cap) == l * l - 2.0 * cap * l + cap * cap;
    match variant
    case AsWritten =>
      calc {
        beta * Square(l - cap) + beta * (l * l - s);
        beta * (l * l - 2.0 * cap * l + cap * cap) + beta * (l * l - s);
      }
    case Corrected =>
      calc {
        beta * Square(l - cap);
        beta * (l * l - 2.0 * cap * l + cap * cap);
      }
  }

  /** Rows, then a constant, then more changes. */
  lemma {:induction false} PartsEnergy(rows: seq<Op>, off: real, tail: seq<Op>, sel: set<Var>)
    ensures OpsEnergy(rows + [AddOffset(off)] + tail, sel) == OpsEnergy(rows, sel) + off + OpsEnergy(tail, sel)
  {
    OpsEnergyAppend(rows, [AddOffset(off)], sel);
    OpsEnergyAppend(rows + [AddOffset(off)], tail, sel);
    OneOpEnergy(AddOffset(off), sel);
  }

  /** The parts of an edge's changes, the capacity loop as a sum over its entries. */
  lemma {:induction false} EdgeSplit(ls: seq<Entry>, beta: real, pw: real, off: real, k: real, sel: set<Var>)
    ensures OpsEnergy(EdgeOpsWith(ls, beta, pw, off, k), sel) == OpsEnergy(EdgeRows(ls, beta, pw, |ls|), sel) + off + CapSum(ls, |ls|, k, sel)
  {
    PartsEnergy(EdgeRows(ls, beta, pw, |ls|), off, CapOps(ls, |ls|, k), sel);
    CapOpsSum(ls, |ls|, k, sel);
  }

  /** RowsSumClosed over all of ls, in terms of L and S. */
  lemma {:induction false} RowsSumWhole(ls: seq<Entry>, beta: real, pw: real, l: real, sel: set<Var>)
    ensures RowsSum(ls, |ls|, beta, pw, l, sel) == beta * SqLoad(ls, sel) + pw * (Load(ls, sel) * l - SqLoad(ls, sel))
  {
    RowsSumClosed(ls, |ls|, beta, pw, l, sel);
  }

  /** CapSumScaled over all of ls, in terms of L. */
  lemma {:induction false} CapSumWhole(ls: seq<Entry>, k: real, sel: set<Var>)
    ensures CapSum(ls, |ls|, k, sel) == k * Load(ls, sel)
  {
    CapSumScaled(ls, |ls|, k, sel);
  }

  /** The sums of an edge's parts add up to EdgeCost. */
  lemma {:induction false} EdgeSums(ls: seq<Entry>, cap: real, beta: real, variant: Variant, sel: set<Var>)
    ensures RowsSum(ls, |ls|, beta, PairWeight(beta, variant), Load(ls, sel), sel) + beta * (cap * cap) + CapSum(ls, |ls|, -2.0 * beta * cap, sel)
      == EdgeCost(beta, variant, cap, Load(ls, sel), SqLoad(ls, sel))
  {
    var pw, k := PairWeight(beta, variant), -2.0 * beta * cap;
    RowsSumWhole(ls, beta, pw, Load(ls, sel), sel);
    CapSumWhole(ls, k, sel);
    EdgeAlgebra(RowsSum(ls, |ls|, beta, pw, Load(ls, sel), sel) + beta * (cap * cap) + CapSum(ls, |ls|, k, sel),
      beta, pw, variant, cap, Load(ls, sel), SqLoad(ls, sel), RowsSum(ls, |ls|, beta, pw, Load(ls, sel), sel), CapSum(ls, |ls|, k, sel), k);
  }

  /** An edge's changes are worth EdgeCost at its load L and squared load S. */
  lemma {:induction false} EdgeEnergy(ls: seq<Entry>, cap: real, beta: real, variant: Variant, sel: set<Var>)
    requires UniqueVars(ls)
    ensures OpsEnergy(EdgeOps(ls, cap, beta, variant), sel) == EdgeCost(beta, variant, cap, Load(ls, sel), SqLoad(ls, sel))
  {
    EdgeSplit(ls, beta, PairWeight(beta, variant), beta * (cap * cap), -2.0 * beta * cap, sel);
    EdgeRowsEnergy(ls, beta, PairWeight(beta, variant), |ls|, sel);
    EdgeSums(ls, cap, beta, variant, sel);
  }

  /** Two demands of size 1 routed over one edge of capacity 2 load it
      exactly to capacity, so the penalty β(L − cap)² is 0; as written the
      edge's changes charge 2β for it all the same. */
  lemma {:induction false} EdgeAtCapacityCharged()
    ensures OpsEnergy(EdgeOps([(1.0, Var(0, 0)), (1.0, Var(1, 0))], 2.0, 10.0, AsWritten), {Var(0, 0), Var(1, 0)}) == 20.0
    ensures OpsEnergy(EdgeOps([(1.0, Var(0, 0)), (1.0, Var(1, 0))], 2.0, 10.0, Corrected), {Var(0, 0), Var(1, 0)}) == 0.0
  {
    var ls: seq<Entry> := [(1.0, Var(0, 0)), (1.0, Var(1, 0))];
    var sel := {Var(0, 0), Var(1, 0)};
    assert UniqueVars(ls);
    assert Load(ls, sel) == 2.0 by {
      assert LoadTo(ls, 1, sel) == 1.0;
    }
    assert SqLoad(ls, sel) == 2.0 by {
      assert SqLoadTo(ls, 1, sel) == 1.0;
    }
    EdgeEnergy(ls, 2.0, 10.0, AsWritten, sel);
    EdgeEnergy(ls, 2.0, 10.0, Corrected, sel);
  }
}
