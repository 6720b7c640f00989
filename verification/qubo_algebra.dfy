/** The algebra both QUBO encoders rest on: 0/1 selection values, counts of
    selected variables and selected pairs (k·(k − 1)/2 of them), and the sum
    of a sparse coefficient map over a list of keys. */
module QuboAlgebra {

  /** An encoder as its code is written, or with the corrections of the
      findings applied. */
  datatype Variant = AsWritten | Corrected

  /** The value of variable v under the selection sel: 1 when selected. */
  function Bit<V>(sel: set<V>, v: V): (b: real)
    ensures b == 0.0 || b == 1.0
    ensures b == 1.0 <==> v in sel
  {
    if v in sel then 1.0 else 0.0
  }

  /** A sparse coefficient, 0 when absent: `Q.get(k, 0.0)`. */
  function Get<K>(m: map<K, real>, k: K): real
  {
    if k in m then m[k] else 0.0
  }

  /** How many entries of vs are selected (with repetitions), as a real:
      the energies multiply it with real coefficients. */
  function Sel<V>(sel: set<V>, vs: seq<V>): real
  {
    if vs == [] then 0.0 else Sel(sel, vs[..|vs| - 1]) + Bit(sel, vs[|vs| - 1])
  }

  /** How many index pairs i < j of vs have both entries selected, row by
      row: entry i pairs with the selected entries after it. */
  function SelPairs<V>(sel: set<V>, vs: seq<V>): real
  {
    if vs == [] then 0.0 else (if vs[0] in sel then Sel(sel, vs[1..]) else 0.0) + SelPairs(sel, vs[1..])
  }

  lemma {:induction false} SelCons<V>(sel: set<V>, v: V, vs: seq<V>)
    ensures Sel(sel, [v] + vs) == Bit(sel, v) + Sel(sel, vs)
    decreases |vs|
  {
    if vs != [] {
      assert ([v] + vs)[..|[v] + vs| - 1] == [v] + vs[..|vs| - 1];
      SelCons(sel, v, vs[..|vs| - 1]);
    }
  }

  /** With k selected entries there are k·(k − 1)/2 selected pairs (stated
      over the reals, where the energies use it). */
  lemma {:induction false} PairsOfSelected<V>(sel: set<V>, vs: seq<V>)
    ensures 2.0 * SelPairs(sel, vs) == Sel(sel, vs) * Sel(sel, vs) - Sel(sel, vs)
    decreases |vs|
  {
    if vs != [] {
      PairsOfSelected(sel, vs[1..]);
      assert vs == [vs[0]] + vs[1..];
      SelCons(sel, vs[0], vs[1..]);
      var k := Sel(sel, vs[1..]);
      if vs[0] in sel {
        assert (k + 1.0) * (k + 1.0) - (k + 1.0) == k * k - k + 2.0 * k;
      }
    }
  }

  /** How many entries of vs are selected, as a natural number. */
  function Count<V>(sel: set<V>, vs: seq<V>): nat
  {
    if vs == [] then 0 else Count(sel, vs[..|vs| - 1]) + (if vs[|vs| - 1] in sel then 1 else 0)
  }

  /** Sel is always a whole number of entries. */
  lemma {:induction false} SelIsCount<V>(sel: set<V>, vs: seq<V>)
    ensures Sel(sel, vs) == Count(sel, vs) as real
    decreases |vs|
  {
    if vs != [] {
      SelIsCount(sel, vs[..|vs| - 1]);
    }
  }

  function Square(x: real): real
  {
    x * x
  }

  lemma {:induction false} SquareStep(x: real)
    ensures Square(x + 1.0) == Square(x) + 2.0 * x + 1.0
  {
  }

  /** n² ≥ n on the natural numbers. */
  lemma {:induction false} SquareAtLeast(n: nat)
    ensures Square(n as real) >= n as real
  {
    if n > 0 {
      SquareAtLeast(n - 1);
      SquareStep((n - 1) as real);
    }
  }

  /** (n − 1)² on a count n is 0 exactly at n = 1 and at least 1 elsewhere. */
  lemma {:induction false} OffByOneSquare(n: nat)
    ensures n == 1 ==> Square(n as real - 1.0) == 0.0
    ensures n != 1 ==> Square(n as real - 1.0) >= 1.0
  {
    if n == 0 {
      assert Square(-1.0) == 1.0;
    } else if n >= 2 {
      SquareAtLeast(n - 1);
    }
  }

  // ---------------------------------------------------------------------
  // A sparse coefficient map summed over a list of keys.

  predicate Distinct<K(==)>(ks: seq<K>)
  {
    forall i, j :: 0 <= i < j < |ks| ==> ks[i] != ks[j]
  }

  /** One cell of the sum: coefficient times value. */
  function Cell<K>(m: map<K, real>, k: K, y: K -> real): real
  {
    Get(m, k) * y(k)
  }

  /** Σ_t Get(m, ks[t])·y(ks[t]) */
  function KSum<K>(m: map<K, real>, ks: seq<K>, y: K -> real): real
  {
    if ks == [] then 0.0 else KSum(m, ks[..|ks| - 1], y) + Cell(m, ks[|ks| - 1], y)
  }

  /** Adding w to the coefficient of k, a key listed once, adds w·y(k). */
  lemma KSumBump<K>(m: map<K, real>, ks: seq<K>, y: K -> real, k: K, w: real)
    requires Distinct(ks) && k in ks
    ensures KSum(m[k := Get(m, k) + w], ks, y) == KSum(m, ks, y) + w * y(k)
  {
    var m' := m[k := Get(m, k) + w];
    forall x | x != k ensures Cell(m', x, y) == Cell(m, x, y) {
    }
    assert Cell(m', k, y) == Cell(m, k, y) + w * y(k) by {
      assert (Get(m, k) + w) * y(k) == Get(m, k) * y(k) + w * y(k);
    }
    KSumShift(m, m', ks, y, k, w * y(k));
  }

  lemma {:induction false} KSumShift<K>(m: map<K, real>, m': map<K, real>, ks: seq<K>, y: K -> real, k: K, d: real)
    requires forall x :: x != k ==> Cell(m', x, y) == Cell(m, x, y)
    requires Cell(m', k, y) == Cell(m, k, y) + d
    requires Distinct(ks) && k in ks
    ensures KSum(m', ks, y) == KSum(m, ks, y) + d
    decreases |ks|
  {
    var init, last := ks[..|ks| - 1], ks[|ks| - 1];
    assert ks == init + [last];
    if last == k {
      forall t | 0 <= t < |init| ensures init[t] != k {
        assert ks[t] != ks[|ks| - 1];
      }
      KSumSame(m, m', init, y, k);
    } else {
      KSumShift(m, m', init, y, k, d);
    }
  }

  lemma {:induction false} KSumSame<K>(m: map<K, real>, m': map<K, real>, ks: seq<K>, y: K -> real, k: K)
    requires forall x :: x != k ==> Cell(m', x, y) == Cell(m, x, y)
    requires k !in ks
    ensures KSum(m', ks, y) == KSum(m, ks, y)
    decreases |ks|
  {
    if ks != [] {
      KSumSame(m, m', ks[..|ks| - 1], y, k);
    }
  }

  lemma {:induction false} KSumEmpty<K>(ks: seq<K>, y: K -> real)
    ensures KSum(map[], ks, y) == 0.0
    decreases |ks|
  {
    if ks != [] {
      KSumEmpty(ks[..|ks| - 1], y);
    }
  }
}
