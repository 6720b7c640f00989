/** The undirected, attributed graph the route-assignment code reads (a
    networkx `Graph`), candidate paths as node sequences, and hop counting
    over canonical (sorted) edge keys. */
module Graphs {

  type Node = int
  type Pair = (Node, Node)
  type Path = seq<Node>

  datatype Option<T> = None | Some(value: T)

  /** The edge attributes the code reads; an attribute the edge lacks is None. */
  datatype EdgeAttrs = EdgeAttrs(time: Option<int>, weight: Option<int>, length: Option<int>, capacity: Option<int>)

  /** One edge as `G.edges` yields it: endpoints in stored orientation, and its data. */
  datatype Edge = Edge(u: Node, v: Node, attrs: EdgeAttrs)

  /** `G.nodes` and `G.edges`, in iteration order. */
  datatype Graph = Graph(nodes: seq<Node>, edges: seq<Edge>)

  /** `tuple(sorted((a, b)))`: the orientation-free key of a hop. */
  function Canon(a: Node, b: Node): (k: Pair)
    ensures k.0 <= k.1
    ensures k == (a, b) || k == (b, a)
  {
    if a <= b then (a, b) else (b, a)
  }

  function Key(e: Edge): Pair
  {
    Canon(e.u, e.v)
  }

  function Stored(e: Edge): Pair
  {
    (e.u, e.v)
  }

  function KeysOf(es: seq<Edge>): set<Pair>
  {
    set e | e in es :: Key(e)
  }

  function StoredOf(es: seq<Edge>): set<Pair>
  {
    set e | e in es :: Stored(e)
  }

  predicate DistinctKeys(es: seq<Edge>)
  {
    forall i, j :: 0 <= i < j < |es| ==> Key(es[i]) != Key(es[j])
  }

  /** What a networkx `Graph` guarantees: distinct nodes, edges between
      nodes, and each undirected edge stored once. */
  predicate Valid(g: Graph)
  {
    && DistinctNodes(g.nodes)
    && (forall e :: e in g.edges ==> e.u in g.nodes && e.v in g.nodes)
    && DistinctKeys(g.edges)
  }

  /** `b in G[a]`, which for an undirected graph does not depend on the order. */
  predicate Adjacent(g: Graph, a: Node, b: Node)
  {
    Canon(a, b) in KeysOf(g.edges)
  }

  /** The data of the first edge whose key is k, if any. */
  function Lookup(es: seq<Edge>, k: Pair): Option<EdgeAttrs>
  {
    if es == [] then None
    else if Key(es[0]) == k then Some(es[0].attrs) else Lookup(es[1..], k)
  }

  /** Lookup finds a key exactly when some edge has it, and then returns
      that edge's data. */
  lemma {:induction false} LookupSpec(es: seq<Edge>, k: Pair)
    ensures Lookup(es, k).Some? <==> k in KeysOf(es)
    ensures Lookup(es, k).Some? ==> exists e :: e in es && Key(e) == k && e.attrs == Lookup(es, k).value
    decreases |es|
  {
    if es != [] {
      assert KeysOf(es) == {Key(es[0])} + KeysOf(es[1..]) by {
        assert forall e :: e in es <==> e == es[0] || e in es[1..];
      }
      if Key(es[0]) != k {
        LookupSpec(es[1..], k);
        if Lookup(es, k).Some? {
          var e :| e in es[1..] && Key(e) == k && e.attrs == Lookup(es, k).value;
          assert e in es;
        }
      } else {
        assert es[0] in es;
      }
    }
  }

  /** `G[a][b]` for adjacent a and b. */
  function Attrs(g: Graph, a: Node, b: Node): EdgeAttrs
    requires Adjacent(g, a, b)
  {
    LookupSpec(g.edges, Canon(a, b));
    Lookup(g.edges, Canon(a, b)).value
  }

  /** `zip(p[:-1], p[1:])`: the consecutive node pairs of a path. */
  function Hops(p: Path): (hs: seq<Pair>)
    ensures |hs| == if |p| == 0 then 0 else |p| - 1
    ensures forall j :: 0 <= j < |hs| ==> hs[j] == (p[j], p[j + 1])
  {
    if |p| < 2 then [] else seq(|p| - 1, j requires 0 <= j < |p| - 1 => (p[j], p[j + 1]))
  }

  /** Every hop of p joins two adjacent nodes. */
  predicate OnGraph(g: Graph, p: Path)
  {
    forall h :: h in Hops(p) ==> Adjacent(g, h.0, h.1)
  }

  /** Number of hops in hs whose canonical key is k. */
  function CountKey(hs: seq<Pair>, k: Pair): nat
  {
    if hs == [] then 0
    else CountKey(hs[..|hs| - 1], k) + (if Canon(hs[|hs| - 1].0, hs[|hs| - 1].1) == k then 1 else 0)
  }

  /** Number of hops over all paths whose canonical key is k. */
  function PathsLoad(paths: seq<Path>, k: Pair): nat
  {
    if paths == [] then 0
    else PathsLoad(paths[..|paths| - 1], k) + CountKey(Hops(paths[|paths| - 1]), k)
  }

  /** The usage dictionary: every edge key, with the number of hops over it. */
  function Usage(g: Graph, paths: seq<Path>): (m: map<Pair, int>)
    ensures m.Keys == KeysOf(g.edges)
  {
    map k | k in KeysOf(g.edges) :: PathsLoad(paths, k)
  }

  /** Total number of hops of all paths. */
  function TotalHops(paths: seq<Path>): nat
  {
    if paths == [] then 0 else TotalHops(paths[..|paths| - 1]) + |Hops(paths[|paths| - 1])|
  }

  function Reverse<T>(s: seq<T>): (r: seq<T>)
    ensures |r| == |s|
    ensures forall j :: 0 <= j < |s| ==> r[j] == s[|s| - 1 - j]
  {
    seq(|s|, j requires 0 <= j < |s| => s[|s| - 1 - j])
  }

  /** The hops of a path walked backwards: reversed, each one turned round. */
  function SwapRev(hs: seq<Pair>): (r: seq<Pair>)
    ensures |r| == |hs|
    ensures forall j :: 0 <= j < |hs| ==> r[j] == (hs[|hs| - 1 - j].1, hs[|hs| - 1 - j].0)
  {
    seq(|hs|, j requires 0 <= j < |hs| => (hs[|hs| - 1 - j].1, hs[|hs| - 1 - j].0))
  }

  lemma HopsOfReverse(p: Path)
    ensures Hops(Reverse(p)) == SwapRev(Hops(p))
  {
  }

  lemma SwapRevSnoc(hs: seq<Pair>, h: Pair)
    ensures SwapRev(hs + [h]) == [(h.1, h.0)] + SwapRev(hs)
  {
  }

  lemma {:induction false} CountKeyCons(h: Pair, hs: seq<Pair>, k: Pair)
    ensures CountKey([h] + hs, k) == (if Canon(h.0, h.1) == k then 1 else 0) + CountKey(hs, k)
    decreases |hs|
  {
    if hs != [] {
      assert ([h] + hs)[..|hs|] == [h] + hs[..|hs| - 1];
      CountKeyCons(h, hs[..|hs| - 1], k);
    }
  }

  /** Walking every hop the other way leaves each key's count unchanged. */
  lemma {:induction false} CountKeySwapRev(hs: seq<Pair>, k: Pair)
    ensures CountKey(SwapRev(hs), k) == CountKey(hs, k)
    decreases |hs|
  {
    if hs != [] {
      var init, h := hs[..|hs| - 1], hs[|hs| - 1];
      assert hs == init + [h];
      SwapRevSnoc(init, h);
      CountKeyCons((h.1, h.0), SwapRev(init), k);
      CountKeySwapRev(init, k);
    }
  }

  lemma HopsOfSplit(p: Path, j: nat)
    requires j < |p|
    ensures Hops(p) == Hops(p[..j + 1]) + Hops(p[j..])
  {
    var a, b := Hops(p[..j + 1]), Hops(p[j..]);
    forall k | 0 <= k < |p| - 1
      ensures (a + b)[k] == Hops(p)[k]
    {
      if k < j {
        assert a[k] == (p[..j + 1][k], p[..j + 1][k + 1]);
      } else {
        assert b[k - j] == (p[j..][k - j], p[j..][k - j + 1]);
      }
    }
  }

  // ---------------------------------------------------------------------
  // random.sample(nodes, 2), with the generator's draws as inputs

  /** Two distinct positions below n: the first is draw.0 reduced into
      range, the second draw.1 reduced into the n - 1 positions left. */
  function SampleIndices(n: nat, draw: (nat, nat)): (r: (nat, nat))
    requires n >= 2
    ensures r.0 < n && r.1 < n && r.0 != r.1
  {
    var i := draw.0 % n;
    var j := draw.1 % (n - 1);
    (i, if j < i then j else j + 1)
  }

  /** Every ordered pair of distinct positions is drawn by some draw. */
  lemma SampleIndicesReachAll(n: nat, i: nat, j: nat)
    requires n >= 2 && i < n && j < n && i != j
    ensures SampleIndices(n, (i, if j < i then j else j - 1)) == (i, j)
  {
    var j' := if j < i then j else j - 1;
    ModSmall(i, n);
    ModSmall(j', n - 1);
  }

  lemma ModSmall(a: nat, m: nat)
    requires a < m
    ensures a % m == a
  {
  }

  predicate DistinctNodes(nodes: seq<Node>)
  {
    forall a, b :: 0 <= a < b < |nodes| ==> nodes[a] != nodes[b]
  }

  /** `random.sample(nodes, 2)`: two entries at distinct positions, so two
      different nodes when the nodes are distinct (as `G.nodes` is). */
  function SamplePair(nodes: seq<Node>, draw: (nat, nat)): (r: Pair)
    requires |nodes| >= 2
    ensures var (i, j) := SampleIndices(|nodes|, draw); r == (nodes[i], nodes[j])
    ensures DistinctNodes(nodes) ==> r.0 != r.1
  {
    var (i, j) := SampleIndices(|nodes|, draw);
    assert DistinctNodes(nodes) ==> nodes[i] != nodes[j] by {
      if DistinctNodes(nodes) {
        if i < j { assert nodes[i] != nodes[j]; } else { assert nodes[j] != nodes[i]; }
      }
    }
    (nodes[i], nodes[j])
  }

  /** `[tuple(rnd.sample(nodes, 2)) for _ in range(n)]` with one draw per
      demand: n origin-destination pairs, each with distinct endpoints.
      With n = 0 `sample` is never called, so any node list will do. */
  function SampleDemands(nodes: seq<Node>, draws: seq<(nat, nat)>): (ds: seq<Pair>)
    requires |draws| > 0 ==> |nodes| >= 2
    ensures |ds| == |draws|
    ensures forall k :: 0 <= k < |ds| ==> ds[k] == SamplePair(nodes, draws[k])
    ensures DistinctNodes(nodes) ==> forall k :: 0 <= k < |ds| ==> ds[k].0 != ds[k].1
  {
    seq(|draws|, k requires 0 <= k < |draws| => SamplePair(nodes, draws[k]))
  }
}
