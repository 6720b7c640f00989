/** The dimod binary quadratic model that `build_qubo` of
    src/qubo_formulation.py fills: an offset, a linear bias per variable and
    an interaction bias per unordered pair of distinct variables, the three
    ways the encoder changes it, and its energy on a 0/1 sample. */
module QuboBqm {
  import opened QuboAlgebra

  /** The binary variable named `x_{d}_{i}`: demand d takes its candidate i. */
  datatype Var = Var(d: nat, i: nat)

  /** An interaction is keyed by the set {u, v}: dimod does not order its
      two variables. */
  type Interaction = set<Var>

  /** What a binary quadratic model holds. */
  datatype Model = Model(offset: real, linear: map<Var, real>, quadratic: map<Interaction, real>)

  /** `dimod.BinaryQuadraticModel('BINARY')` before anything is added. */
  const Empty := Model(0.0, map[], map[])

  /** One change the encoder makes: `bqm.offset += c`,
      `bqm.add_variable(v, bias)` or `bqm.add_interaction(u, v, bias)`. */
  datatype Op = AddOffset(c: real) | AddLinear(v: Var, bias: real) | AddQuad(u: Var, v: Var, bias: real)

  /** A variable dimod has not seen yet enters with bias 0. */
  function Touch(lin: map<Var, real>, v: Var): map<Var, real>
  {
    if v in lin then lin else lin[v := 0.0]
  }

  /** Touch adds v to the keys and changes no bias. */
  lemma TouchKeeps(lin: map<Var, real>, v: Var)
    ensures Touch(lin, v).Keys == lin.Keys + {v}
    ensures forall x :: Get(Touch(lin, v), x) == Get(lin, x)
  {
  }

  /** The model after one change: biases are added to, never overwritten,
      and an interaction also adds both of its variables. */
  function Apply(m: Model, op: Op): Model
  {
    match op
    case AddOffset(c) => m.(offset := m.offset + c)
    case AddLinear(v, b) => m.(linear := m.linear[v := Get(m.linear, v) + b])
    case AddQuad(u, v, b) =>
      m.(linear := Touch(Touch(m.linear, u), v), quadratic := m.quadratic[{u, v} := Get(m.quadratic, {u, v}) + b])
  }

  /** The model after the changes of ops, in order. */
  function ApplyAll(m: Model, ops: seq<Op>): Model
  {
    if ops == [] then m else Apply(ApplyAll(m, ops[..|ops| - 1]), ops[|ops| - 1])
  }

  lemma ApplyAllSnoc(m: Model, ops: seq<Op>, op: Op)
    ensures ApplyAll(m, ops + [op]) == Apply(ApplyAll(m, ops), op)
  {
    assert (ops + [op])[..|ops|] == ops;
  }

  lemma {:induction false} ApplyAllAppend(m: Model, ops: seq<Op>, more: seq<Op>)
    ensures ApplyAll(m, ops + more) == ApplyAll(ApplyAll(m, ops), more)
    decreases |more|
  {
    if more == [] {
      assert ops + more == ops;
    } else {
      assert (ops + more)[..|ops + more| - 1] == ops + more[..|more| - 1];
      ApplyAllAppend(m, ops, more[..|more| - 1]);
    }
  }

  /** The model object; its methods are the dimod calls the encoder makes. */
  class Bqm {
    var offset: real
    var linear: map<Var, real>
    var quadratic: map<Interaction, real>

    function State(): Model
      reads this
    {
      Model(offset, linear, quadratic)
    }

    /** `dimod.BinaryQuadraticModel('BINARY')` */
    constructor ()
      ensures State() == Empty
    {
      offset, linear, quadratic := 0.0, map[], map[];
    }

    /** `bqm.offset += c` */
    method AddToOffset(c: real)
      modifies this
      ensures State() == Apply(old(State()), AddOffset(c))
    {
      offset := offset + c;
    }

    /** `add_variable(v, bias)`: adds bias to the linear bias of v. */
    method AddVariable(v: Var, bias: real)
      modifies this
      ensures State() == Apply(old(State()), AddLinear(v, bias))
    {
      linear := linear[v := Get(linear, v) + bias];
    }

    /** `add_interaction(u, v, bias)`: dimod refuses u == v. */
    method AddInteraction(u: Var, v: Var, bias: real)
      requires u != v
      modifies this
      ensures State() == Apply(old(State()), AddQuad(u, v, bias))
    {
      linear := Touch(Touch(linear, u), v);
      quadratic := quadratic[{u, v} := Get(quadratic, {u, v}) + bias];
    }
  }

  // ---------------------------------------------------------------------
  // Additivity

  /** Σ of the offsets the changes add. */
  function OffsetSum(ops: seq<Op>): real
  {
    if ops == [] then 0.0
    else OffsetSum(ops[..|ops| - 1]) + (match ops[|ops| - 1] case AddOffset(c) => c case _ => 0.0)
  }

  /** Σ of the linear biases the changes add to v. */
  function LinearFor(ops: seq<Op>, v: Var): real
  {
    if ops == [] then 0.0
    else LinearFor(ops[..|ops| - 1], v) + (match ops[|ops| - 1] case AddLinear(x, b) => if x == v then b else 0.0 case _ => 0.0)
  }

  /** Σ of the interaction biases the changes add to the key k. */
  function QuadFor(ops: seq<Op>, k: Interaction): real
  {
    if ops == [] then 0.0
    else QuadFor(ops[..|ops| - 1], k) + (match ops[|ops| - 1] case AddQuad(x, y, b) => if {x, y} == k then b else 0.0 case _ => 0.0)
  }

  /** Every bias of the final model is its initial value plus what the
      changes added to it: nothing is overwritten. */
  lemma {:induction false} ApplyAllAdds(m: Model, ops: seq<Op>)
    ensures ApplyAll(m, ops).offset == m.offset + OffsetSum(ops)
    ensures forall v :: Get(ApplyAll(m, ops).linear, v) == Get(m.linear, v) + LinearFor(ops, v)
    ensures forall k :: Get(ApplyAll(m, ops).quadratic, k) == Get(m.quadratic, k) + QuadFor(ops, k)
    decreases |ops|
  {
    if ops != [] {
      var prev := ApplyAll(m, ops[..|ops| - 1]);
      ApplyAllAdds(m, ops[..|ops| - 1]);
      match ops[|ops| - 1]
      case AddQuad(u, v, _) =>
        TouchKeeps(prev.linear, u);
        TouchKeeps(Touch(prev.linear, u), v);
      case _ =>
    }
  }

  // ---------------------------------------------------------------------
  // Energy on a 0/1 sample

  /** The unordered pairs of distinct entries of dom, column by column. */
  function PairKeys(dom: seq<Var>): seq<Interaction>
  {
    if dom == [] then []
    else
      var init := dom[..|dom| - 1];
      PairKeys(init) + seq(|init|, a requires 0 <= a < |init| => {init[a], dom[|dom| - 1]})
  }

  lemma {:induction false} PairKeysDistinct(dom: seq<Var>)
    requires Distinct(dom)
    ensures Distinct(PairKeys(dom))
    ensures forall t, x :: 0 <= t < |PairKeys(dom)| && x in PairKeys(dom)[t] ==> x in dom
    decreases |dom|
  {
    if dom != [] {
      var init, last := dom[..|dom| - 1], dom[|dom| - 1];
      PairKeysDistinct(init);
      var col := seq(|init|, a requires 0 <= a < |init| => {init[a], last});
      var ks := PairKeys(dom);
      assert ks == PairKeys(init) + col;
      assert dom == init + [last];
      forall t, x | 0 <= t < |ks| && x in ks[t] ensures x in dom {
        if t < |PairKeys(init)| {
          assert x in PairKeys(init)[t];
        } else {
          assert x == init[t - |PairKeys(init)|] || x == last;
        }
      }
      assert last !in init by {
        forall t | 0 <= t < |init| ensures init[t] != last {
          assert dom[t] != dom[|dom| - 1];
        }
      }
      forall s, t | 0 <= s < t < |ks| ensures ks[s] != ks[t] {
        if t >= |PairKeys(init)| {
          assert last in ks[t];
          if s < |PairKeys(init)| {
            assert last !in ks[s];
          } else {
            var a, b := s - |PairKeys(init)|, t - |PairKeys(init)|;
            assert init[a] != init[b] by {
              assert dom[a] != dom[b];
            }
            assert init[a] in ks[s] && init[a] !in ks[t];
          }
        }
      }
    }
  }

  /** Every pair of distinct variables of dom has its key in PairKeys(dom). */
  lemma {:induction false} PairKeysHas(dom: seq<Var>, u: Var, v: Var)
    requires u in dom && v in dom && u != v
    ensures {u, v} in PairKeys(dom)
    decreases |dom|
  {
    var init, last := dom[..|dom| - 1], dom[|dom| - 1];
    assert dom == init + [last];
    var col := seq(|init|, a requires 0 <= a < |init| => {init[a], last});
    assert PairKeys(dom) == PairKeys(init) + col;
    if u == last {
      var a :| 0 <= a < |init| && init[a] == v;
      assert col[a] == {u, v};
    } else if v == last {
      var a :| 0 <= a < |init| && init[a] == u;
      assert col[a] == {u, v};
    } else {
      PairKeysHas(init, u, v);
    }
  }

  /** x_v under the sample sel. */
  function LinBit(sel: set<Var>): Var -> real
  {
    (v: Var) => Bit(sel, v)
  }

  /** x_u·x_v for the key {u, v} under the sample sel. */
  function QuadBit(sel: set<Var>): Interaction -> real
  {
    (k: Interaction) => if k <= sel then 1.0 else 0.0
  }

  /** `bqm.energy(sample)` over the variables dom, where the sample sets
      exactly the variables of sel to 1. */
  function Energy(m: Model, dom: seq<Var>, sel: set<Var>): real
  {
    m.offset + KSum(m.linear, dom, LinBit(sel)) + KSum(m.quadratic, PairKeys(dom), QuadBit(sel))
  }

  /** The energy one change adds on the sample sel. */
  function OpEnergy(op: Op, sel: set<Var>): real
  {
    match op
    case AddOffset(c) => c
    case AddLinear(v, b) => if v in sel then b else 0.0
    case AddQuad(u, v, b) => if u in sel && v in sel then b else 0.0
  }

  function OpsEnergy(ops: seq<Op>, sel: set<Var>): real
  {
    if ops == [] then 0.0 else OpsEnergy(ops[..|ops| - 1], sel) + OpEnergy(ops[|ops| - 1], sel)
  }

  lemma {:induction false} OpsEnergyAppend(ops: seq<Op>, more: seq<Op>, sel: set<Var>)
    ensures OpsEnergy(ops + more, sel) == OpsEnergy(ops, sel) + OpsEnergy(more, sel)
    decreases |more|
  {
    if more == [] {
      assert ops + more == ops;
    } else {
      assert (ops + more)[..|ops + more| - 1] == ops + more[..|more| - 1];
      OpsEnergyAppend(ops, more[..|more| - 1], sel);
    }
  }

  /** The change names variables of dom, and an interaction two distinct ones. */
  predicate OpOn(op: Op, dom: seq<Var>)
  {
    match op
    case AddOffset(_) => true
    case AddLinear(v, _) => v in dom
    case AddQuad(u, v, _) => u in dom && v in dom && u != v
  }

  predicate OpsOn(ops: seq<Op>, dom: seq<Var>)
  {
    forall j :: 0 <= j < |ops| ==> OpOn(ops[j], dom)
  }

  /** The model keeps its biases on the variables of dom and their pairs,
      so Energy sums every bias it has. */
  predicate Within(m: Model, dom: seq<Var>)
  {
    && (forall v :: v in m.linear ==> v in dom)
    && (forall k :: k in m.quadratic ==> k in PairKeys(dom))
  }

  /** One change raises the energy by what it adds on the sample. */
  lemma ApplyEnergy(m: Model, op: Op, dom: seq<Var>, sel: set<Var>)
    requires Distinct(dom) && OpOn(op, dom)
    ensures Energy(Apply(m, op), dom, sel) == Energy(m, dom, sel) + OpEnergy(op, sel)
    ensures Within(m, dom) ==> Within(Apply(m, op), dom)
  {
    match op
    case AddOffset(c) =>
    case AddLinear(v, b) =>
      LinearEnergy(m, v, b, dom, sel);
    case AddQuad(u, v, b) =>
      InteractionEnergy(m, u, v, b, dom, sel);
  }

  lemma LinearEnergy(m: Model, v: Var, b: real, dom: seq<Var>, sel: set<Var>)
    requires Distinct(dom) && v in dom
    ensures Energy(Apply(m, AddLinear(v, b)), dom, sel) == Energy(m, dom, sel) + (if v in sel then b else 0.0)
  {
    KSumBump(m.linear, dom, LinBit(sel), v, b);
    assert LinBit(sel)(v) == Bit(sel, v);
  }

  lemma InteractionEnergy(m: Model, u: Var, v: Var, b: real, dom: seq<Var>, sel: set<Var>)
    requires Distinct(dom) && u in dom && v in dom && u != v
    ensures Energy(Apply(m, AddQuad(u, v, b)), dom, sel) == Energy(m, dom, sel) + (if u in sel && v in sel then b else 0.0)
    ensures {u, v} in PairKeys(dom)
  {
    var lin1 := Touch(m.linear, u);
    var lin2 := Touch(lin1, v);
    var quad := m.quadratic[{u, v} := Get(m.quadratic, {u, v}) + b];
    var m' := Apply(m, AddQuad(u, v, b));
    assert m' == m.(linear := lin2, quadratic := quad);
    TouchEnergy(m.linear, u, dom, sel);
    TouchEnergy(lin1, v, dom, sel);
    QuadEnergy(m.quadratic, dom, sel, u, v, b);
    EnergySplit(m, m', dom, sel, 0.0, 0.0, if u in sel && v in sel then b else 0.0);
  }

  /** What each part of the model gains, the energy gains. */
  lemma EnergySplit(m: Model, m': Model, dom: seq<Var>, sel: set<Var>, d0: real, d1: real, d2: real)
    requires m'.offset == m.offset + d0
    requires KSum(m'.linear, dom, LinBit(sel)) == KSum(m.linear, dom, LinBit(sel)) + d1
    requires KSum(m'.quadratic, PairKeys(dom), QuadBit(sel)) == KSum(m.quadratic, PairKeys(dom), QuadBit(sel)) + d2
    ensures Energy(m', dom, sel) == Energy(m, dom, sel) + d0 + d1 + d2
  {
  }

  /** A variable entering with bias 0 adds nothing. */
  lemma TouchEnergy(lin: map<Var, real>, v: Var, dom: seq<Var>, sel: set<Var>)
    requires Distinct(dom) && v in dom
    ensures KSum(Touch(lin, v), dom, LinBit(sel)) == KSum(lin, dom, LinBit(sel))
  {
    TouchKeeps(lin, v);
    KSumShift(lin, Touch(lin, v), dom, LinBit(sel), v, 0.0);
  }

  lemma QuadEnergy(q: map<Interaction, real>, dom: seq<Var>, sel: set<Var>, u: Var, v: Var, b: real)
    requires Distinct(dom) && u in dom && v in dom && u != v
    ensures KSum(q[{u, v} := Get(q, {u, v}) + b], PairKeys(dom), QuadBit(sel))
      == KSum(q, PairKeys(dom), QuadBit(sel)) + (if u in sel && v in sel then b else 0.0)
    ensures {u, v} in PairKeys(dom)
  {
    PairKeysDistinct(dom);
    PairKeysHas(dom, u, v);
    KSumBump(q, PairKeys(dom), QuadBit(sel), {u, v}, b);
    if u in sel && v in sel {
      assert QuadBit(sel)({u, v}) == 1.0;
    } else {
      assert QuadBit(sel)({u, v}) == 0.0;
    }
  }

  /** The energy of the model the changes build is the sum of what each adds. */
  lemma {:induction false} ApplyAllEnergy(m: Model, ops: seq<Op>, dom: seq<Var>, sel: set<Var>)
    requires Distinct(dom) && OpsOn(ops, dom)
    ensures Energy(ApplyAll(m, ops), dom, sel) == Energy(m, dom, sel) + OpsEnergy(ops, sel)
    ensures Within(m, dom) ==> Within(ApplyAll(m, ops), dom)
    decreases |ops|
  {
    if ops != [] {
      var init := ops[..|ops| - 1];
      ApplyAllEnergy(m, init, dom, sel);
      ApplyEnergy(ApplyAll(m, init), ops[|ops| - 1], dom, sel);
    }
  }

  lemma EnergyOfEmpty(dom: seq<Var>, sel: set<Var>)
    ensures Energy(Empty, dom, sel) == 0.0 && Within(Empty, dom)
  {
    KSumEmpty(dom, LinBit(sel));
    KSumEmpty(PairKeys(dom), QuadBit(sel));
  }
}
