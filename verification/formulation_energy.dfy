/** What the Q of `build_qubo` (src/formulation.py) is worth on a 0/1
    selection: the block of each edge and the block of each demand. */
module FormulationEnergy {
  import opened Graphs
  import opened Formulation
  import opened QuboAlgebra
  import opened FormulationQubo
  import opened FormulationBuild

  // ---------------------------------------------------------------------
  // Blocks in terms of their counts

  // The three lemmas below restate DiagEnergy, PairEnergy and
  // PairsOfSelected about named reals, so that the block lemmas that use
  // them reason about a few real variables instead of unfolding the sums.

  lemma DiagEnergyAt(vs: seq<nat>, w: real, sel: set<nat>, e: real, k: real)
    requires e == TermsEnergy(DiagTerms(vs, w), sel) && k == Sel(sel, vs)
    ensures e == w * k
  {
    DiagEnergy(vs, w, sel);
  }

  lemma PairEnergyAt(vs: seq<nat>, w: real, sel: set<nat>, e: real, pairs: real)
    requires e == TermsEnergy(PairTerms(vs, w), sel) && pairs == SelPairs(sel, vs)
    ensures e == w * pairs
  {
    PairEnergy(vs, w, sel);
  }

  lemma PairsOfSelectedAt(sel: set<nat>, vs: seq<nat>, k: real, pairs: real)
    requires k == Sel(sel, vs) && pairs == SelPairs(sel, vs)
    ensures 2.0 * pairs == k * k - k
  {
    PairsOfSelected(sel, vs);
  }

  // ---------------------------------------------------------------------
  // One edge

  /** coef·((k − cap)² − cap²): the congestion term coef·(k − cap)² of an
      edge carrying k selected paths, less its constant coef·cap². */
  function EdgeCost(coef: real, cap: real, k: real): real
  {
    coef * ((k - cap) * (k - cap) - cap * cap)
  }

  lemma EdgeAlgebra(total: real, coef: real, cap: real, k: real, pairs: real, lin: real, cpl: real, ed: real, ep: real)
    requires lin == EdgeLinear(coef, cap) && cpl == 2.0 * coef
    requires total == ed + ep && ed == lin * k && ep == cpl * pairs
    requires 2.0 * pairs == k * k - k
    ensures total == EdgeCost(coef, cap, k)
  {
    calc {
      2.0 * coef * pairs;
      coef * (2.0 * pairs);
      coef * (k * k - k);
    }
  }

  lemma EdgeEnergyAt(vs: seq<nat>, coef: real, cap: real, sel: set<nat>, total: real, k: real, pairs: real)
    requires total == TermsEnergy(EdgeTerms(vs, coef, cap), sel)
    requires k == Sel(sel, vs) && pairs == SelPairs(sel, vs)
    ensures total == EdgeCost(coef, cap, k)
  {
    var lin, cpl := EdgeLinear(coef, cap), 2.0 * coef;
    var ds, ps := DiagTerms(vs, lin), PairTerms(vs, cpl);
    var ed, ep := TermsEnergy(ds, sel), TermsEnergy(ps, sel);
    assert EdgeTerms(vs, coef, cap) == ds + ps;
    TermsEnergyAppend(ds, ps, sel);
    DiagEnergyAt(vs, lin, sel, ed, k);
    PairEnergyAt(vs, cpl, sel, ep, pairs);
    PairsOfSelectedAt(sel, vs, k, pairs);
    EdgeAlgebra(total, coef, cap, k, pairs, lin, cpl, ed, ep);
  }

  /** The block of an edge with k of its entries selected is worth
      EdgeCost(coef, cap, k). */
  lemma EdgeEnergy(vs: seq<nat>, coef: real, cap: real, sel: set<nat>)
    ensures TermsEnergy(EdgeTerms(vs, coef, cap), sel) == EdgeCost(coef, cap, Sel(sel, vs))
  {
    EdgeEnergyAt(vs, coef, cap, sel, TermsEnergy(EdgeTerms(vs, coef, cap), sel), Sel(sel, vs), SelPairs(sel, vs));
  }

  // ---------------------------------------------------------------------
  // One demand

  /** What a demand's block is worth with k of its variables selected: as
      written −P·k(k − 1)/2; corrected P·((k − 1)² − 1), the penalty
      P·(k − 1)² less its constant P. */
  function ChoiceCost(penalty: real, variant: Variant, k: real): real
  {
    match variant
    case AsWritten => -penalty * k * (k - 1.0) / 2.0
    case Corrected => penalty * (Square(k - 1.0) - 1.0)
  }

  lemma ChoiceAlgebra(total: real, penalty: real, variant: Variant, k: real, pairs: real, a: real, b: real, c: real, ea: real, eb: real, ec: real)
    requires (a, b, c) == ChoiceWeights(penalty, variant)
    requires total == ea + eb + ec && ea == a * k && eb == b * pairs && ec == c * k
    requires 2.0 * pairs == k * k - k
    ensures total == ChoiceCost(penalty, variant, k)
  {
    match variant
    case AsWritten =>
      calc {
        (2.0 * penalty * 1.0 * 0.5 * (-1.0)) * pairs;
        -penalty * pairs;
        -penalty * ((k * k - k) / 2.0);
      }
    case Corrected =>
      calc {
        (2.0 * penalty) * pairs;
        penalty * (2.0 * pairs);
        penalty * (k * k - k);
      }
  }

  lemma ChoiceEnergyAt(vs: seq<nat>, penalty: real, variant: Variant, sel: set<nat>, total: real, k: real, pairs: real)
    requires total == TermsEnergy(ChoiceBlock(vs, penalty, variant), sel)
    requires k == Sel(sel, vs) && pairs == SelPairs(sel, vs)
    ensures total == ChoiceCost(penalty, variant, k)
  {
    var (a, b, c) := ChoiceWeights(penalty, variant);
    var da, pb, dc := DiagTerms(vs, a), PairTerms(vs, b), DiagTerms(vs, c);
    var ea, eb, ec := TermsEnergy(da, sel), TermsEnergy(pb, sel), TermsEnergy(dc, sel);
    assert ChoiceBlock(vs, penalty, variant) == da + pb + dc;
    TermsEnergyAppend(da, pb, sel);
    TermsEnergyAppend(da + pb, dc, sel);
    DiagEnergyAt(vs, a, sel, ea, k);
    PairEnergyAt(vs, b, sel, eb, pairs);
    DiagEnergyAt(vs, c, sel, ec, k);
    PairsOfSelectedAt(sel, vs, k, pairs);
    ChoiceAlgebra(total, penalty, variant, k, pairs, a, b, c, ea, eb, ec);
  }

  /** A demand's block with k of its variables selected is worth
      ChoiceCost(penalty, variant, k). */
  lemma ChoiceEnergy(vs: seq<nat>, penalty: real, variant: Variant, sel: set<nat>)
    ensures TermsEnergy(ChoiceBlock(vs, penalty, variant), sel) == ChoiceCost(penalty, variant, Sel(sel, vs))
  {
    ChoiceEnergyAt(vs, penalty, variant, sel, TermsEnergy(ChoiceBlock(vs, penalty, variant), sel), Sel(sel, vs), SelPairs(sel, vs));
  }

  /** As written, the block does not enforce one choice: one selected
      variable is worth 0 and two or more are worth at most −P, so with
      P > 0 selecting several candidates lowers the energy. */
  lemma AsWrittenRewardsSeveral(penalty: real, k: real)
    requires penalty > 0.0
    ensures k == 1.0 ==> ChoiceCost(penalty, AsWritten, k) == 0.0
    ensures k >= 2.0 ==> ChoiceCost(penalty, AsWritten, k) <= -penalty < 0.0
  {
    if k >= 2.0 {
      assert k * (k - 1.0) >= 2.0 by {
        assert k - 1.0 >= 1.0;
        assert k * (k - 1.0) >= k * 1.0;
      }
      assert penalty * (k * (k - 1.0)) >= penalty * 2.0;
    }
  }

  /** Corrected, the block is smallest, −P, exactly when one of its n
      variables is selected. */
  lemma CorrectedExactlyOne(penalty: real, n: nat)
    requires penalty > 0.0
    ensures ChoiceCost(penalty, Corrected, n as real) >= -penalty
    ensures ChoiceCost(penalty, Corrected, n as real) == -penalty <==> n == 1
  {
    OffByOneSquare(n);
    if n != 1 {
      assert penalty * Square(n as real - 1.0) > 0.0;
    }
  }

  lemma ChoiceAsWrittenRewardsSeveral(vs: seq<nat>, penalty: real, sel: set<nat>)
    requires penalty > 0.0
    ensures Sel(sel, vs) == 1.0 ==> TermsEnergy(ChoiceBlock(vs, penalty, AsWritten), sel) == 0.0
    ensures Sel(sel, vs) >= 2.0 ==> TermsEnergy(ChoiceBlock(vs, penalty, AsWritten), sel) <= -penalty < 0.0
  {
    ChoiceEnergy(vs, penalty, AsWritten, sel);
    AsWrittenRewardsSeveral(penalty, Sel(sel, vs));
  }

  lemma ChoiceCorrectedExactlyOne(vs: seq<nat>, penalty: real, sel: set<nat>)
    requires penalty > 0.0
    ensures TermsEnergy(ChoiceBlock(vs, penalty, Corrected), sel) >= -penalty
    ensures TermsEnergy(ChoiceBlock(vs, penalty, Corrected), sel) == -penalty <==> Sel(sel, vs) == 1.0
  {
    ChoiceEnergy(vs, penalty, Corrected, sel);
    SelIsCount(sel, vs);
    CorrectedExactlyOne(penalty, Count(sel, vs));
  }
}
