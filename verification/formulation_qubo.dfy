/** `build_qubo` of src/formulation.py: the dense variable index x[i,p], the
    additive upper-triangular map Q built by `q_add`, and the three
    contributions (travel, congestion, one choice per demand), with what each
    evaluates to on a 0/1 selection. */
module FormulationQubo {
  import opened Graphs
  import opened Formulation
  import opened QuboAlgebra

  type QKey = (nat, nat)
  type Qubo = map<QKey, real>

  // ---------------------------------------------------------------------
  // var_idx

  /** Σ_{j<i} len(P_j): the index of the first variable of demand i. */
  function BlockStart(cands: Candidates, i: nat): nat
    requires i <= |cands|
  {
    if i == 0 then 0 else BlockStart(cands, i - 1) + |cands[i - 1]|
  }

  function NumVars(cands: Candidates): nat
  {
    BlockStart(cands, |cands|)
  }

  predicate IsVar(cands: Candidates, v: (nat, nat))
  {
    v.0 < |cands| && v.1 < |cands[v.0]|
  }

  /** The pairs (i, p) of the first n demands, in the order the loop visits them. */
  function Vars(cands: Candidates, n: nat): (vs: seq<(nat, nat)>)
    requires n <= |cands|
    ensures |vs| == BlockStart(cands, n)
    ensures forall q :: 0 <= q < |vs| ==> vs[q].0 < n && IsVar(cands, vs[q])
    ensures forall q :: 0 <= q < |vs| ==> BlockStart(cands, vs[q].0) + vs[q].1 == q
  {
    if n == 0 then []
    else
      var init := Vars(cands, n - 1);
      BlockStartMono(cands, n - 1);
      init + seq(|cands[n - 1]|, p requires 0 <= p < |cands[n - 1]| => (n - 1, p))
  }

  lemma {:induction false} BlockStartMono(cands: Candidates, n: nat)
    requires n <= |cands|
    ensures forall j :: 0 <= j <= n ==> BlockStart(cands, j) <= BlockStart(cands, n)
    decreases n
  {
    if n > 0 {
      BlockStartMono(cands, n - 1);
    }
  }

  /** `var_idx[(i, p)] = Σ_{j<i} len(P_j) + p` is a bijection from the
      pairs onto 0..N-1: each pair's index is below N and the visiting order
      holds the pair there (so no two pairs share an index), while the
      contract of `Vars` says every index below N is the index of its entry. */
  lemma {:induction false} VarsAt(cands: Candidates, n: nat, v: (nat, nat))
    requires n <= |cands| && IsVar(cands, v) && v.0 < n
    ensures BlockStart(cands, v.0) + v.1 < BlockStart(cands, n)
    ensures Vars(cands, n)[BlockStart(cands, v.0) + v.1] == v
    decreases n
  {
    if v.0 < n - 1 {
      VarsAt(cands, n - 1, v);
    }
  }

  /** The var_idx loop: the index map, its insertion order, and the count. */
  method BuildVarIdx(cands: Candidates) returns (varIdx: map<(nat, nat), nat>, order: seq<(nat, nat)>, idx: nat)
    ensures idx == NumVars(cands) && order == Vars(cands, |cands|)
    ensures forall v: (nat, nat) :: v in varIdx <==> IsVar(cands, v)
    ensures forall v :: v in varIdx ==> IsVar(cands, v) && varIdx[v] == BlockStart(cands, v.0) + v.1
  {
    varIdx, order, idx := map[], [], 0;
    for i := 0 to |cands|
      invariant idx == BlockStart(cands, i) && order == Vars(cands, i)
      invariant forall v: (nat, nat) :: v in varIdx <==> IsVar(cands, v) && v.0 < i
      invariant forall v :: v in varIdx ==> IsVar(cands, v) && varIdx[v] == BlockStart(cands, v.0) + v.1
    {
      for p := 0 to |cands[i]|
        invariant idx == BlockStart(cands, i) + p
        invariant order == Vars(cands, i) + seq(p, p' requires 0 <= p' < p => (i, p'))
        invariant forall v: (nat, nat) :: v in varIdx <==> IsVar(cands, v) && (v.0 < i || (v.0 == i && v.1 < p))
        invariant forall v :: v in varIdx ==> IsVar(cands, v) && varIdx[v] == BlockStart(cands, v.0) + v.1
      {
        varIdx := varIdx[(i, p) := idx];
        order := order + [(i, p)];
        idx := idx + 1;
      }
    }
  }

  // ---------------------------------------------------------------------
  // q_add and the accumulated map

  /** `if a > b: a, b = b, a` */
  function Ordered(a: nat, b: nat): (k: QKey)
    ensures k.0 <= k.1 && (k == (a, b) || k == (b, a))
  {
    if a > b then (b, a) else (a, b)
  }

  /** `q_add(a, b, val)`: adds val to the entry of the ordered pair. */
  function QAdd(q: Qubo, a: nat, b: nat, val: real): Qubo
  {
    q[Ordered(a, b) := Get(q, Ordered(a, b)) + val]
  }

  /** One `q_add(a, b, val)` call. */
  datatype QTerm = QTerm(a: nat, b: nat, val: real)

  /** The map after the q_add calls of ts, in order. */
  function Accumulate(q: Qubo, ts: seq<QTerm>): Qubo
  {
    if ts == [] then q
    else
      var t := ts[|ts| - 1];
      QAdd(Accumulate(q, ts[..|ts| - 1]), t.a, t.b, t.val)
  }

  lemma {:induction false} AccumulateAppend(q: Qubo, ts: seq<QTerm>, us: seq<QTerm>)
    ensures Accumulate(q, ts + us) == Accumulate(Accumulate(q, ts), us)
    decreases |us|
  {
    if us == [] {
      assert ts + us == ts;
    } else {
      assert (ts + us)[..|ts + us| - 1] == ts + us[..|us| - 1];
      AccumulateAppend(q, ts, us[..|us| - 1]);
    }
  }

  /** Terms where term q sits on the diagonal entry (q, q) put on key k the
      value of term k.0 when k is a diagonal key in range, and nothing
      otherwise. */
  lemma {:induction false} DiagonalFor(ts: seq<QTerm>, k: QKey)
    requires forall q :: 0 <= q < |ts| ==> ts[q].a == q && ts[q].b == q
    ensures TermsFor(ts, k) == if k.0 == k.1 && k.0 < |ts| then ts[k.0].val else 0.0
    decreases |ts|
  {
    if ts != [] {
      var n := |ts|;
      var init := ts[..n - 1];
      DiagonalFor(init, k);
      assert Ordered(ts[n - 1].a, ts[n - 1].b) == (n - 1, n - 1);
      if k.0 == k.1 && k.0 < n - 1 {
        assert init[k.0] == ts[k.0];
      }
    }
  }

  lemma AccumulateSnoc(q: Qubo, ts: seq<QTerm>, t: QTerm)
    ensures Accumulate(q, ts + [t]) == QAdd(Accumulate(q, ts), t.a, t.b, t.val)
  {
    assert (ts + [t])[..|ts|] == ts;
  }

  predicate OrderedKeys(q: Qubo)
  {
    forall k :: k in q ==> k.0 <= k.1
  }

  /** Σ of the values of the terms that land on key k. */
  function TermsFor(ts: seq<QTerm>, k: QKey): real
  {
    if ts == [] then 0.0
    else
      var t := ts[|ts| - 1];
      TermsFor(ts[..|ts| - 1], k) + (if Ordered(t.a, t.b) == k then t.val else 0.0)
  }

  /** q_add only ever adds: every entry is its initial value plus the values
      of the terms for its key, every key is ordered, and exactly the keys
      some term lands on are added. */
  lemma {:induction false} AccumulateAdds(q: Qubo, ts: seq<QTerm>)
    requires OrderedKeys(q)
    ensures OrderedKeys(Accumulate(q, ts))
    ensures forall k :: Get(Accumulate(q, ts), k) == Get(q, k) + TermsFor(ts, k)
    ensures forall k :: k in Accumulate(q, ts) <==> k in q || exists j :: 0 <= j < |ts| && Ordered(ts[j].a, ts[j].b) == k
    decreases |ts|
  {
    if ts != [] {
      var init, t := ts[..|ts| - 1], ts[|ts| - 1];
      AccumulateAdds(q, init);
      forall k | k in Accumulate(q, ts)
        ensures k in q || exists j :: 0 <= j < |ts| && Ordered(ts[j].a, ts[j].b) == k
      {
        if k !in q && k != Ordered(t.a, t.b) {
          var j :| 0 <= j < |init| && Ordered(init[j].a, init[j].b) == k;
          assert ts[j] == init[j];
        }
      }
      forall k | k in q || exists j :: 0 <= j < |ts| && Ordered(ts[j].a, ts[j].b) == k
        ensures k in Accumulate(q, ts)
      {
        if k !in q && k != Ordered(t.a, t.b) {
          var j :| 0 <= j < |ts| && Ordered(ts[j].a, ts[j].b) == k;
          assert j < |init| && init[j] == ts[j];
        }
      }
    }
  }

  // ---------------------------------------------------------------------
  // The value of Q on a selection

  /** All keys (a, b) with a <= b < n, column by column. */
  function GridKeys(n: nat): (ks: seq<QKey>)
    ensures forall t :: 0 <= t < |ks| ==> ks[t].0 <= ks[t].1 < n
  {
    if n == 0 then [] else GridKeys(n - 1) + seq(n, a requires 0 <= a < n => (a, n - 1))
  }

  lemma {:induction false} GridKeysComplete(n: nat)
    ensures Distinct(GridKeys(n))
    ensures forall a: nat, b: nat :: a <= b < n ==> (a, b) in GridKeys(n)
    decreases n
  {
    if n > 0 {
      GridKeysComplete(n - 1);
      var init, col := GridKeys(n - 1), seq(n, a requires 0 <= a < n => (a, n - 1));
      assert GridKeys(n) == init + col;
      forall a: nat, b: nat | a <= b < n ensures (a, b) in GridKeys(n) {
        if b == n - 1 {
          assert col[a] == (a, b);
        } else {
          assert (a, b) in init;
        }
      }
    }
  }

  /** x_a·x_b for the key (a, b), where x is 1 on the selected indices. */
  function Pick(sel: set<nat>): QKey -> real
  {
    (k: QKey) => Bit(sel, k.0) * Bit(sel, k.1)
  }

  /** Σ_{a <= b < n} Q[(a, b)]·x_a·x_b */
  function Energy(q: Qubo, n: nat, sel: set<nat>): real
  {
    KSum(q, GridKeys(n), Pick(sel))
  }

  /** val·x_a·x_b, written without the product: val when both are selected. */
  function TermEnergy(t: QTerm, sel: set<nat>): real
  {
    if t.a in sel && t.b in sel then t.val else 0.0
  }

  function TermsEnergy(ts: seq<QTerm>, sel: set<nat>): real
  {
    if ts == [] then 0.0 else TermsEnergy(ts[..|ts| - 1], sel) + TermEnergy(ts[|ts| - 1], sel)
  }

  lemma {:induction false} TermsEnergyAppend(ts: seq<QTerm>, us: seq<QTerm>, sel: set<nat>)
    ensures TermsEnergy(ts + us, sel) == TermsEnergy(ts, sel) + TermsEnergy(us, sel)
    decreases |us|
  {
    if us == [] {
      assert ts + us == ts;
    } else {
      assert (ts + us)[..|ts + us| - 1] == ts + us[..|us| - 1];
      TermsEnergyAppend(ts, us[..|us| - 1], sel);
    }
  }

  /** One q_add(a, b, val) raises the value by val·x_a·x_b. */
  lemma QAddEnergy(q: Qubo, n: nat, sel: set<nat>, a: nat, b: nat, val: real)
    requires a < n && b < n
    ensures Energy(QAdd(q, a, b, val), n, sel) == Energy(q, n, sel) + TermEnergy(QTerm(a, b, val), sel)
  {
    var k, ks, y := Ordered(a, b), GridKeys(n), Pick(sel);
    var q' := q[k := Get(q, k) + val];
    assert QAdd(q, a, b, val) == q';
    GridKeysComplete(n);
    assert k in ks;
    KSumBump(q, ks, y, k, val);
    PickOrdered(sel, a, b);
    ScaleBit(val, y(k), a in sel && b in sel);
    assert Energy(q', n, sel) == KSum(q', ks, y);
    assert Energy(q, n, sel) == KSum(q, ks, y);
    assert TermEnergy(QTerm(a, b, val), sel) == if a in sel && b in sel then val else 0.0;
  }

  lemma PickOrdered(sel: set<nat>, a: nat, b: nat)
    ensures Pick(sel)(Ordered(a, b)) == if a in sel && b in sel then 1.0 else 0.0
  {
  }

  lemma ScaleBit(w: real, p: real, c: bool)
    requires p == if c then 1.0 else 0.0
    ensures w * p == if c then w else 0.0
  {
  }

  predicate TermsBelow(ts: seq<QTerm>, n: nat)
  {
    forall j :: 0 <= j < |ts| ==> ts[j].a < n && ts[j].b < n
  }

  /** The value of the accumulated map is the sum of the terms' values. */
  lemma {:induction false} AccumulateEnergy(q: Qubo, ts: seq<QTerm>, n: nat, sel: set<nat>)
    requires TermsBelow(ts, n)
    ensures Energy(Accumulate(q, ts), n, sel) == Energy(q, n, sel) + TermsEnergy(ts, sel)
    decreases |ts|
  {
    if ts != [] {
      var init, t := ts[..|ts| - 1], ts[|ts| - 1];
      AccumulateEnergy(q, init, n, sel);
      QAddEnergy(Accumulate(q, init), n, sel, t.a, t.b, t.val);
    }
  }

  lemma EnergyOfEmpty(n: nat, sel: set<nat>)
    ensures Energy(map[], n, sel) == 0.0
  {
    KSumEmpty(GridKeys(n), Pick(sel));
  }

  // ---------------------------------------------------------------------
  // Blocks of terms over a list of variables

  /** `for q in vs: q_add(q, q, w)` */
  function DiagTerms(vs: seq<nat>, w: real): (ts: seq<QTerm>)
    ensures |ts| == |vs|
    ensures forall j :: 0 <= j < |vs| ==> ts[j] == QTerm(vs[j], vs[j], w)
  {
    seq(|vs|, j requires 0 <= j < |vs| => QTerm(vs[j], vs[j], w))
  }

  /** `for i2 in range(i1+1, e): q_add(vs[i1], vs[i2], w)` */
  function PairRowTo(vs: seq<nat>, i1: nat, e: nat, w: real): (ts: seq<QTerm>)
    requires i1 < e <= |vs|
    ensures |ts| == e - i1 - 1
    ensures forall k :: 0 <= k < |ts| ==> ts[k] == QTerm(vs[i1], vs[i1 + 1 + k], w)
  {
    seq(e - i1 - 1, k requires 0 <= k < e - i1 - 1 => QTerm(vs[i1], vs[i1 + 1 + k], w))
  }

  /** Row i1 of the pair loop, which runs i2 up to len(vs). */
  function PairRow(vs: seq<nat>, i1: nat, w: real): seq<QTerm>
    requires i1 < |vs|
  {
    PairRowTo(vs, i1, |vs|, w)
  }

  /** The first r rows of the pair loop. */
  function PairRows(vs: seq<nat>, r: nat, w: real): seq<QTerm>
    requires r <= |vs|
  {
    if r == 0 then [] else PairRows(vs, r - 1, w) + PairRow(vs, r - 1, w)
  }

  function PairTerms(vs: seq<nat>, w: real): seq<QTerm>
  {
    PairRows(vs, |vs|, w)
  }

  /** How many of the terms have both variables selected. */
  function SelCount(ts: seq<QTerm>, sel: set<nat>): real
  {
    if ts == [] then 0.0
    else
      var t := ts[|ts| - 1];
      SelCount(ts[..|ts| - 1], sel) + (if t.a in sel && t.b in sel then 1.0 else 0.0)
  }

  lemma {:induction false} SelCountAppend(ts: seq<QTerm>, us: seq<QTerm>, sel: set<nat>)
    ensures SelCount(ts + us, sel) == SelCount(ts, sel) + SelCount(us, sel)
    decreases |us|
  {
    if us == [] {
      assert ts + us == ts;
    } else {
      assert (ts + us)[..|ts + us| - 1] == ts + us[..|us| - 1];
      SelCountAppend(ts, us[..|us| - 1], sel);
    }
  }

  lemma ScaleStep(w: real, c: real, p: bool)
    ensures w * c + (if p then w else 0.0) == w * (c + if p then 1.0 else 0.0)
  {
  }

  /** Terms that all carry the value w are worth w per selected term. */
  lemma {:induction false} UniformEnergy(ts: seq<QTerm>, w: real, sel: set<nat>)
    requires forall j :: 0 <= j < |ts| ==> ts[j].val == w
    ensures TermsEnergy(ts, sel) == w * SelCount(ts, sel)
    decreases |ts|
  {
    if ts != [] {
      var init, t := ts[..|ts| - 1], ts[|ts| - 1];
      UniformEnergy(init, w, sel);
      ScaleStep(w, SelCount(init, sel), t.a in sel && t.b in sel);
    }
  }

  lemma {:induction false} DiagCountUpTo(vs: seq<nat>, w: real, sel: set<nat>, r: nat)
    requires r <= |vs|
    ensures SelCount(DiagTerms(vs, w)[..r], sel) == Sel(sel, vs[..r])
    decreases r
  {
    if r > 0 {
      var ts := DiagTerms(vs, w);
      DiagCountUpTo(vs, w, sel, r - 1);
      assert ts[..r][..r - 1] == ts[..r - 1];
      assert vs[..r][..r - 1] == vs[..r - 1];
    }
  }

  /** The diagonal block is w times the number of selected variables. */
  lemma DiagEnergy(vs: seq<nat>, w: real, sel: set<nat>)
    ensures TermsEnergy(DiagTerms(vs, w), sel) == w * Sel(sel, vs)
  {
    var ts := DiagTerms(vs, w);
    DiagCountUpTo(vs, w, sel, |vs|);
    assert ts[..|vs|] == ts;
    assert vs[..|vs|] == vs;
    UniformEnergy(ts, w, sel);
  }

  /** Row i1 up to e holds the selected pairs (vs[i1], vs[k]), i1 < k < e. */
  lemma {:induction false} PairRowToCount(vs: seq<nat>, i1: nat, e: nat, w: real, sel: set<nat>)
    requires i1 < e <= |vs|
    ensures SelCount(PairRowTo(vs, i1, e, w), sel) == if vs[i1] in sel then Sel(sel, vs[i1 + 1..e]) else 0.0
    decreases e
  {
    var ts := PairRowTo(vs, i1, e, w);
    if e > i1 + 1 {
      PairRowToCount(vs, i1, e - 1, w, sel);
      assert ts[..|ts| - 1] == PairRowTo(vs, i1, e - 1, w);
      assert ts[|ts| - 1] == QTerm(vs[i1], vs[e - 1], w);
      assert vs[i1 + 1..e][..e - i1 - 2] == vs[i1 + 1..e - 1];
    }
  }

  /** Row r - 1 of the pair loop pairs a selected vs[r - 1] with the selected entries after it. */
  lemma PairRowCount(vs: seq<nat>, r: nat, w: real, sel: set<nat>)
    requires 0 < r <= |vs|
    ensures SelCount(PairRow(vs, r - 1, w), sel) == if vs[r - 1] in sel then Sel(sel, vs[r..]) else 0.0
  {
    PairRowToCount(vs, r - 1, |vs|, w, sel);
    assert vs[r..|vs|] == vs[r..];
  }

  lemma {:induction false} PairRowsCount(vs: seq<nat>, r: nat, w: real, sel: set<nat>)
    requires r <= |vs|
    ensures SelCount(PairRows(vs, r, w), sel) + SelPairs(sel, vs[r..]) == SelPairs(sel, vs)
    decreases r
  {
    if r > 0 {
      PairRowsCount(vs, r - 1, w, sel);
      SelCountAppend(PairRows(vs, r - 1, w), PairRow(vs, r - 1, w), sel);
      PairRowCount(vs, r, w, sel);
      assert vs[r - 1..][1..] == vs[r..];
    } else {
      assert vs[0..] == vs;
    }
  }

  lemma {:induction false} PairRowsUniform(vs: seq<nat>, r: nat, w: real)
    requires r <= |vs|
    ensures forall j :: 0 <= j < |PairRows(vs, r, w)| ==> PairRows(vs, r, w)[j].val == w
    decreases r
  {
    if r > 0 {
      PairRowsUniform(vs, r - 1, w);
    }
  }

  /** The pair block is w times the number of selected pairs. */
  lemma PairEnergy(vs: seq<nat>, w: real, sel: set<nat>)
    ensures TermsEnergy(PairTerms(vs, w), sel) == w * SelPairs(sel, vs)
  {
    PairRowsCount(vs, |vs|, w, sel);
    assert vs[|vs|..] == [];
    PairRowsUniform(vs, |vs|, w);
    UniformEnergy(PairTerms(vs, w), w, sel);
  }
}
