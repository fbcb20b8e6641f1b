/** The part of a networkx `MultiDiGraph` that the perturbator relies on:
    nodes in insertion order with an attribute dict each, and edges
    `(u, v, key)` with an attribute dict each. `GraphValue` is the state as a
    value and the functions on it give the effect of each graph operation;
    `MultiDiGraph` is the mutable graph whose methods have those effects. */
module Graph {

  import opened Wrappers
  import opened Json
  import opened Seqs

  /** An edge key: any hashable Python value; the model has the integers
      (`True` and `False` hash as `1` and `0`) and the strings. */
  datatype EdgeKey = IntKey(i: int) | StrKey(s: string)

  datatype Edge = Edge(src: string, tgt: string, key: EdgeKey)

  datatype GraphValue = GraphValue(
    nodes: seq<string>,
    nodeAttrs: map<string, Dict>,
    edges: seq<Edge>,
    edgeAttrs: map<Edge, Dict>)

  const EmptyGraph := GraphValue([], map[], [], map[])

  /** The invariant networkx keeps: each node and each edge once, the node
      order and the edge order listing exactly the stored ones, every edge
      endpoint a node (no dangling edge), and dicts with distinct keys. */
  ghost predicate WellFormed(g: GraphValue) {
    && Distinct(g.nodes)
    && (forall x :: x in g.nodes <==> x in g.nodeAttrs)
    && Distinct(g.edges)
    && (forall e :: e in g.edges <==> e in g.edgeAttrs)
    && (forall e | e in g.edgeAttrs :: e.src in g.nodeAttrs && e.tgt in g.nodeAttrs)
    && (forall x | x in g.nodeAttrs :: WfDict(g.nodeAttrs[x]))
    && (forall e | e in g.edgeAttrs :: WfDict(g.edgeAttrs[e]))
  }

  /** `s` without the members of `xs`, order kept. */
  function Omit<T(!new)>(s: seq<T>, xs: set<T>): (r: seq<T>)
    ensures forall x :: x in r <==> x in s && x !in xs
    ensures Distinct(s) ==> Distinct(r)
    ensures |r| <= |s|
  {
    if s == [] then []
    else
      var rest := Omit(s[..|s| - 1], xs);
      var last := s[|s| - 1];
      assert s == s[..|s| - 1] + [last];
      if last in xs then rest
      else
        assert Distinct(s) ==> last !in s[..|s| - 1];
        rest + [last]
  }

  predicate Touches(e: Edge, xs: set<string>) {
    e.src in xs || e.tgt in xs
  }

  /** The edges of `es` with no endpoint in `xs`, order kept. */
  function Avoiding(es: seq<Edge>, xs: set<string>): (r: seq<Edge>)
    ensures forall e :: e in r <==> e in es && !Touches(e, xs)
    ensures Distinct(es) ==> Distinct(r)
  {
    if es == [] then []
    else
      var rest := Avoiding(es[..|es| - 1], xs);
      var last := es[|es| - 1];
      assert es == es[..|es| - 1] + [last];
      if Touches(last, xs) then rest
      else
        assert Distinct(es) ==> last !in es[..|es| - 1];
        rest + [last]
  }

  /** `G.add_node(x, **a)`: a new node goes last with a copy of `a`; an
      existing node keeps its place and has its dict updated with `a`. */
  function AddNodeTo(g: GraphValue, x: string, a: Dict): GraphValue {
    if x in g.nodeAttrs then g.(nodeAttrs := g.nodeAttrs[x := Update(g.nodeAttrs[x], a)])
    else g.(nodes := g.nodes + [x], nodeAttrs := g.nodeAttrs[x := Update([], a)])
  }

  /** One step of `G.remove_nodes_from(xs)`: the node and every edge
      incident to it go, and a node that is absent is skipped. On a present
      node this is also `G.remove_node(x)`, which raises for an absent one. */
  function RemoveNodeFrom(g: GraphValue, x: string): GraphValue {
    if x !in g.nodeAttrs then g
    else GraphValue(
      Omit(g.nodes, {x}),
      g.nodeAttrs - {x},
      Avoiding(g.edges, {x}),
      map e | e in g.edgeAttrs && !Touches(e, {x}) :: g.edgeAttrs[e])
  }

  /** The keys of the edges from `u` to `v`. */
  function KeysBetween(g: GraphValue, u: string, v: string): set<EdgeKey> {
    set e | e in g.edgeAttrs && e.src == u && e.tgt == v :: e.key
  }

  /** The integer keys of `keys` at or above `k`. */
  function IntKeysFrom(keys: set<EdgeKey>, k: int): set<EdgeKey> {
    set e | e in keys && e.IntKey? && e.i >= k
  }

  /** The first integer at or above `k` that is not a key in `keys`. */
  function FirstFreeKey(keys: set<EdgeKey>, k: nat): (r: nat)
    ensures k <= r && IntKey(r) !in keys
    ensures forall j | k <= j < r :: IntKey(j) in keys
    decreases |IntKeysFrom(keys, k)|
  {
    if IntKey(k) !in keys then k
    else
      assert IntKeysFrom(keys, k) == IntKeysFrom(keys, k + 1) + {IntKey(k)};
      FirstFreeKey(keys, k + 1)
  }

  /** networkx `new_edge_key(u, v)`: start at the number of edges from `u`
      to `v` and count up to the first unused key. */
  function NewEdgeKey(g: GraphValue, u: string, v: string): (k: EdgeKey)
    ensures k.IntKey? && k.i >= |KeysBetween(g, u, v)|
    ensures Edge(u, v, k) !in g.edgeAttrs
  {
    var keys := KeysBetween(g, u, v);
    var k := IntKey(FirstFreeKey(keys, |keys|));
    assert Edge(u, v, k) in g.edgeAttrs ==> k in keys;
    k
  }

  /** The key `add_edge(u, v, key)` uses: the one given, or `new_edge_key`. */
  function KeyOr(key: Option<EdgeKey>, g: GraphValue, u: string, v: string): EdgeKey {
    if key.Some? then key.value else NewEdgeKey(g, u, v)
  }

  /** Adds `x` with an empty dict unless it is already a node. */
  function EnsureNode(g: GraphValue, x: string): GraphValue {
    if x in g.nodeAttrs then g else g.(nodes := g.nodes + [x], nodeAttrs := g.nodeAttrs[x := []])
  }

  /** `G.add_edge(u, v, key, **a)`: missing endpoints become nodes with
      empty dicts (`u` first); an existing edge has its dict updated with
      `a`, a new one goes last with a copy of `a`. */
  function AddEdgeTo(g: GraphValue, u: string, v: string, key: EdgeKey, a: Dict): GraphValue {
    var g2 := EnsureNode(EnsureNode(g, u), v);
    var e := Edge(u, v, key);
    if e in g2.edgeAttrs then g2.(edgeAttrs := g2.edgeAttrs[e := Update(g2.edgeAttrs[e], a)])
    else g2.(edges := g2.edges + [e], edgeAttrs := g2.edgeAttrs[e := Update([], a)])
  }

  /** `G.add_edge(u, v, **a)` without a key. */
  function AddEdgeAutoTo(g: GraphValue, u: string, v: string, a: Dict): GraphValue {
    AddEdgeTo(g, u, v, NewEdgeKey(g, u, v), a)
  }

  /** `G.remove_edge(u, v, key)`; an edge that is not there is ignored, as
      `remove_edges_from` does. */
  function RemoveEdgeFrom(g: GraphValue, e: Edge): GraphValue {
    if e !in g.edgeAttrs then g
    else g.(edges := Omit(g.edges, {e}), edgeAttrs := g.edgeAttrs - {e})
  }

  /** Replaces the dict of node `x`. */
  function SetNodeAttrsIn(g: GraphValue, x: string, a: Dict): GraphValue
    requires x in g.nodeAttrs
  {
    g.(nodeAttrs := g.nodeAttrs[x := a])
  }

  /** Replaces the dict of edge `e`. */
  function SetEdgeAttrsIn(g: GraphValue, e: Edge, a: Dict): GraphValue
    requires e in g.edgeAttrs
  {
    g.(edgeAttrs := g.edgeAttrs[e := a])
  }

  lemma AddNodeWellFormed(g: GraphValue, x: string, a: Dict)
    requires WellFormed(g) && WfDict(a)
    ensures WellFormed(AddNodeTo(g, x, a))
  {
    if x !in g.nodeAttrs {
      DistinctAppend(g.nodes, x);
    }
  }

  lemma RemoveNodeWellFormed(g: GraphValue, x: string)
    requires WellFormed(g)
    ensures WellFormed(RemoveNodeFrom(g, x))
  {
  }

  lemma EnsureNodeWellFormed(g: GraphValue, x: string)
    requires WellFormed(g)
    ensures WellFormed(EnsureNode(g, x))
    ensures EnsureNode(g, x).edges == g.edges && EnsureNode(g, x).edgeAttrs == g.edgeAttrs
    ensures forall y | y in g.nodeAttrs ::
      y in EnsureNode(g, x).nodeAttrs && EnsureNode(g, x).nodeAttrs[y] == g.nodeAttrs[y]
  {
    if x !in g.nodeAttrs {
      DistinctAppend(g.nodes, x);
      assert Keys([]) == [];
    }
  }

  lemma AddEdgeWellFormed(g: GraphValue, u: string, v: string, key: EdgeKey, a: Dict)
    requires WellFormed(g) && WfDict(a)
    ensures WellFormed(AddEdgeTo(g, u, v, key, a))
  {
    EnsureNodeWellFormed(g, u);
    EnsureNodeWellFormed(EnsureNode(g, u), v);
    var g2 := EnsureNode(EnsureNode(g, u), v);
    var e := Edge(u, v, key);
    if e !in g2.edgeAttrs {
      DistinctAppend(g2.edges, e);
    }
  }

  /** `add_edge(u, v, key, **a)` a second time changes nothing. */
  lemma AddEdgeTwice(g: GraphValue, u: string, v: string, key: EdgeKey, a: Dict)
    requires WellFormed(g) && WfDict(a)
    ensures AddEdgeTo(AddEdgeTo(g, u, v, key, a), u, v, key, a) == AddEdgeTo(g, u, v, key, a)
  {
    var e := Edge(u, v, key);
    var d := if e in g.edgeAttrs then g.edgeAttrs[e] else [];
    assert WfDict(d) by {
      assert Keys([]) == [];
    }
    UpdateTwice(d, a);
    var r1 := AddEdgeTo(g, u, v, key, a);
    AddEdgeFacts(g, u, v, key, a);
    var d1 := r1.edgeAttrs[e];
    assert Update(d1, a) == d1;
    AddExistingEdge(r1, u, v, key, a);
    assert r1.edgeAttrs[e := d1] == r1.edgeAttrs;
  }

  /** After `add_edge(u, v, key, **a)` both endpoints are nodes and the edge
      holds its old dict, or an empty one, updated with `a`. */
  lemma AddEdgeFacts(g: GraphValue, u: string, v: string, key: EdgeKey, a: Dict)
    ensures var r, e := AddEdgeTo(g, u, v, key, a), Edge(u, v, key);
      && u in r.nodeAttrs && v in r.nodeAttrs && e in r.edgeAttrs
      && r.edgeAttrs[e] == Update(if e in g.edgeAttrs then g.edgeAttrs[e] else [], a)
  {
    assert EnsureNode(EnsureNode(g, u), v).edgeAttrs == g.edgeAttrs;
  }

  /** Creating the endpoints first does not change what `add_edge` does. */
  lemma AddEdgeEnsured(g: GraphValue, u: string, v: string, key: EdgeKey, a: Dict)
    ensures AddEdgeTo(EnsureNode(EnsureNode(g, u), v), u, v, key, a) == AddEdgeTo(g, u, v, key, a)
  {
    var g2 := EnsureNode(EnsureNode(g, u), v);
    assert u in g2.nodeAttrs && v in g2.nodeAttrs;
    assert EnsureNode(EnsureNode(g2, u), v) == g2;
  }

  /** `add_edge` on an edge that is there only updates its dict. */
  lemma AddExistingEdge(g: GraphValue, u: string, v: string, key: EdgeKey, a: Dict)
    requires u in g.nodeAttrs && v in g.nodeAttrs && Edge(u, v, key) in g.edgeAttrs
    ensures AddEdgeTo(g, u, v, key, a)
         == g.(edgeAttrs := g.edgeAttrs[Edge(u, v, key) := Update(g.edgeAttrs[Edge(u, v, key)], a)])
  {
  }

  lemma RemoveEdgeWellFormed(g: GraphValue, e: Edge)
    requires WellFormed(g)
    ensures WellFormed(RemoveEdgeFrom(g, e))
  {
  }

  /** Adding a node that is not there appends it with a copy of its dict. */
  lemma AddFreshNode(g: GraphValue, x: string, a: Dict)
    requires WellFormed(g) && WfDict(a) && x !in g.nodeAttrs
    ensures AddNodeTo(g, x, a) == g.(nodes := g.nodes + [x], nodeAttrs := g.nodeAttrs[x := a])
    ensures WellFormed(AddNodeTo(g, x, a))
  {
    UpdateEmpty(a);
    AddNodeWellFormed(g, x, a);
  }

  /** Adding an edge without a key between existing nodes appends a new edge
      with a copy of its dict. */
  lemma AddFreshEdge(g: GraphValue, u: string, v: string, a: Dict)
    requires WellFormed(g) && WfDict(a) && u in g.nodeAttrs && v in g.nodeAttrs
    ensures Edge(u, v, NewEdgeKey(g, u, v)) !in g.edgeAttrs
    ensures AddEdgeAutoTo(g, u, v, a) == g.(
      edges := g.edges + [Edge(u, v, NewEdgeKey(g, u, v))],
      edgeAttrs := g.edgeAttrs[Edge(u, v, NewEdgeKey(g, u, v)) := a])
    ensures WellFormed(AddEdgeAutoTo(g, u, v, a))
  {
    UpdateEmpty(a);
    AddEdgeWellFormed(g, u, v, NewEdgeKey(g, u, v), a);
  }

  /** Adding an edge without a key always appends a new edge, creating
      missing endpoints with empty dicts. */
  lemma AddAutoEdgeAppends(g: GraphValue, u: string, v: string, a: Dict)
    requires WellFormed(g) && WfDict(a)
    ensures var r, e := AddEdgeAutoTo(g, u, v, a), Edge(u, v, NewEdgeKey(g, u, v));
      && WellFormed(r)
      && r.edges == g.edges + [e] && r.edgeAttrs == g.edgeAttrs[e := a]
      && r.nodes == EnsureNode(EnsureNode(g, u), v).nodes
      && r.nodeAttrs == EnsureNode(EnsureNode(g, u), v).nodeAttrs
  {
    UpdateEmpty(a);
    EnsureNodeWellFormed(g, u);
    EnsureNodeWellFormed(EnsureNode(g, u), v);
    AddEdgeWellFormed(g, u, v, NewEdgeKey(g, u, v), a);
  }

  /** `EnsureNode` appends a missing node with an empty dict. */
  lemma EnsureNodeNodes(g: GraphValue, x: string)
    requires WellFormed(g)
    ensures EnsureNode(g, x).nodes == g.nodes + (if x in g.nodeAttrs then [] else [x])
    ensures forall y :: y in EnsureNode(g, x).nodeAttrs <==> y in g.nodeAttrs || y == x
    ensures forall y | y in EnsureNode(g, x).nodeAttrs ::
      EnsureNode(g, x).nodeAttrs[y] == if y in g.nodeAttrs then g.nodeAttrs[y] else []
  {
  }

  /** The nodes `G.add_edge(u, v)` creates: `u`, then `v`, each with an
      empty dict, when it is not a node yet. */
  lemma AddEdgeNodes(g: GraphValue, u: string, v: string, key: EdgeKey, a: Dict)
    requires WellFormed(g) && WfDict(a)
    ensures var r := AddEdgeTo(g, u, v, key, a);
      && r.nodes == g.nodes + (if u in g.nodeAttrs then [] else [u])
                            + (if v in g.nodeAttrs || v == u then [] else [v])
      && forall x | x in r.nodeAttrs :: r.nodeAttrs[x] == if x in g.nodeAttrs then g.nodeAttrs[x] else []
  {
    AddEdgeToNodes(g, u, v, key, a);
    var g1 := EnsureNode(g, u);
    var g2 := EnsureNode(g1, v);
    EnsureNodeWellFormed(g, u);
    EnsureNodeNodes(g, u);
    EnsureNodeNodes(g1, v);
    assert v in g1.nodeAttrs <==> v in g.nodeAttrs || v == u;
    forall x | x in g2.nodeAttrs
      ensures g2.nodeAttrs[x] == if x in g.nodeAttrs then g.nodeAttrs[x] else []
    {
      if x in g.nodeAttrs {
        assert x in g1.nodeAttrs && g1.nodeAttrs[x] == g.nodeAttrs[x];
      } else if x in g1.nodeAttrs {
        assert g1.nodeAttrs[x] == [];
      }
    }
  }

  /** `add_edge` changes the nodes only by creating its endpoints. */
  lemma AddEdgeToNodes(g: GraphValue, u: string, v: string, key: EdgeKey, a: Dict)
    ensures AddEdgeTo(g, u, v, key, a).nodes == EnsureNode(EnsureNode(g, u), v).nodes
    ensures AddEdgeTo(g, u, v, key, a).nodeAttrs == EnsureNode(EnsureNode(g, u), v).nodeAttrs
  {
  }

  // ---- Batches of additions ----

  /** `add_node(xs[i], **ds[i])` for each `i` in turn. */
  function AddNodesTo(g: GraphValue, xs: seq<string>, ds: seq<Dict>): GraphValue
    requires |xs| == |ds|
    decreases |xs|
  {
    if xs == [] then g
    else AddNodeTo(AddNodesTo(g, xs[..|xs| - 1], ds[..|ds| - 1]), xs[|xs| - 1], ds[|ds| - 1])
  }

  /** `add_edge(ends[i].0, ends[i].1, **ds[i])` for each `i` in turn. */
  function AddAutoEdgesTo(g: GraphValue, ends: seq<(string, string)>, ds: seq<Dict>): GraphValue
    requires |ends| == |ds|
    decreases |ends|
  {
    if ends == [] then g
    else
      var (u, v) := ends[|ends| - 1];
      AddEdgeAutoTo(AddAutoEdgesTo(g, ends[..|ends| - 1], ds[..|ds| - 1]), u, v, ds[|ds| - 1])
  }

  lemma AddAutoEdgesSnoc(g: GraphValue, ends: seq<(string, string)>, ds: seq<Dict>, n: nat)
    requires |ends| == |ds| && n < |ends|
    ensures AddAutoEdgesTo(g, ends[..n + 1], ds[..n + 1])
         == AddEdgeAutoTo(AddAutoEdgesTo(g, ends[..n], ds[..n]), ends[n].0, ends[n].1, ds[n])
  {
    assert ends[..n + 1][..n] == ends[..n] && ds[..n + 1][..n] == ds[..n];
  }

  ghost predicate AllWf(ds: seq<Dict>) {
    forall i | 0 <= i < |ds| :: WfDict(ds[i])
  }

  /** Adding nodes adds exactly their ids and no edge. */
  lemma {:induction false} AddNodesKeys(g: GraphValue, xs: seq<string>, ds: seq<Dict>)
    requires WellFormed(g) && |xs| == |ds| && AllWf(ds)
    ensures var r := AddNodesTo(g, xs, ds);
      && WellFormed(r) && r.edges == g.edges && r.edgeAttrs == g.edgeAttrs
      && forall x :: x in r.nodeAttrs <==> x in g.nodeAttrs || x in xs
    decreases |xs|
  {
    if xs != [] {
      var n := |xs| - 1;
      var r0 := AddNodesTo(g, xs[..n], ds[..n]);
      AddNodesKeys(g, xs[..n], ds[..n]);
      assert WfDict(ds[n]);
      AddNodeWellFormed(r0, xs[n], ds[n]);
      var r := AddNodeTo(r0, xs[n], ds[n]);
      assert r == AddNodesTo(g, xs, ds);
      assert xs == xs[..n] + [xs[n]];
      forall x
        ensures x in r.nodeAttrs <==> x in g.nodeAttrs || x in xs
      {
        assert x in r.nodeAttrs <==> x in r0.nodeAttrs || x == xs[n];
        assert x in xs <==> x in xs[..n] || x == xs[n];
      }
    }
  }

  /** `r` is `g` with the new nodes `xs` appended in order, holding `ds`. */
  ghost predicate NodesAppended(g: GraphValue, r: GraphValue, xs: seq<string>, ds: seq<Dict>) {
    && |xs| == |ds|
    && WellFormed(r)
    && r.nodes == g.nodes + xs && r.edges == g.edges && r.edgeAttrs == g.edgeAttrs
    && (forall x | x in g.nodeAttrs :: x in r.nodeAttrs && r.nodeAttrs[x] == g.nodeAttrs[x])
    && (forall i | 0 <= i < |xs| :: xs[i] in r.nodeAttrs && r.nodeAttrs[xs[i]] == ds[i])
  }

  lemma NodesAppendedSnoc(g: GraphValue, h: GraphValue, xs: seq<string>, ds: seq<Dict>, x: string, a: Dict)
    requires WellFormed(g) && NodesAppended(g, h, xs, ds)
    requires x !in g.nodeAttrs && x !in xs && WfDict(a)
    ensures NodesAppended(g, AddNodeTo(h, x, a), xs + [x], ds + [a])
  {
    assert x !in h.nodes;
    AddFreshNode(h, x, a);
  }

  lemma AddNodesSnoc(g: GraphValue, xs: seq<string>, ds: seq<Dict>, n: nat)
    requires |xs| == |ds| && n < |xs|
    ensures AddNodesTo(g, xs[..n + 1], ds[..n + 1]) == AddNodeTo(AddNodesTo(g, xs[..n], ds[..n]), xs[n], ds[n])
  {
    assert xs[..n + 1][..n] == xs[..n] && ds[..n + 1][..n] == ds[..n];
  }

  /** Distinct new ids become nodes in their order, each with its own dict:
      this holds after the first `i` of them. */
  lemma {:induction false} AddNodesFreshUpTo(g: GraphValue, xs: seq<string>, ds: seq<Dict>, i: nat)
    requires WellFormed(g) && |xs| == |ds| && AllWf(ds) && Distinct(xs) && i <= |xs|
    requires forall j | 0 <= j < |xs| :: xs[j] !in g.nodeAttrs
    ensures NodesAppended(g, AddNodesTo(g, xs[..i], ds[..i]), xs[..i], ds[..i])
  {
    if i == 0 {
      assert xs[..0] == [] && ds[..0] == [];
      assert g.nodes + [] == g.nodes;
    } else {
      var n := i - 1;
      SliceSnoc(xs, n);
      SliceSnoc(ds, n);
      AddNodesFreshUpTo(g, xs, ds, n);
      AddNodesSnoc(g, xs, ds, n);
      DistinctNotEarlier(xs, n);
      assert WfDict(ds[n]);
      NodesAppendedSnoc(g, AddNodesTo(g, xs[..n], ds[..n]), xs[..n], ds[..n], xs[n], ds[n]);
    }
  }

  /** Distinct new ids become nodes in their order, each with its own dict. */
  lemma AddNodesFresh(g: GraphValue, xs: seq<string>, ds: seq<Dict>)
    requires WellFormed(g) && |xs| == |ds| && AllWf(ds) && Distinct(xs)
    requires forall i | 0 <= i < |xs| :: xs[i] !in g.nodeAttrs
    ensures NodesAppended(g, AddNodesTo(g, xs, ds), xs, ds)
  {
    AddNodesFreshUpTo(g, xs, ds, |xs|);
    SliceAll(xs);
    SliceAll(ds);
  }

  /** `r` is `g` with one new edge per pair of `ends` appended in order,
      holding `ds`; the nodes of `g` keep their dicts. */
  ghost predicate EdgesAppended(g: GraphValue, r: GraphValue, ends: seq<(string, string)>, ds: seq<Dict>) {
    && |ends| == |ds|
    && WellFormed(r)
    && |r.edges| == |g.edges| + |ends| && r.edges[..|g.edges|] == g.edges
    && (forall e | e in g.edgeAttrs :: e in r.edgeAttrs && r.edgeAttrs[e] == g.edgeAttrs[e])
    && (forall x | x in g.nodeAttrs :: x in r.nodeAttrs && r.nodeAttrs[x] == g.nodeAttrs[x])
    && (forall i | |g.edges| <= i < |r.edges| ::
          && r.edges[i].src == ends[i - |g.edges|].0 && r.edges[i].tgt == ends[i - |g.edges|].1
          && r.edges[i] in r.edgeAttrs && r.edgeAttrs[r.edges[i]] == ds[i - |g.edges|])
  }

  lemma EdgesAppendedSnoc(g: GraphValue, h: GraphValue, ends: seq<(string, string)>, ds: seq<Dict>,
                          r: GraphValue, e: Edge, a: Dict)
    requires EdgesAppended(g, h, ends, ds) && WellFormed(r) && e !in h.edgeAttrs
    requires r.edges == h.edges + [e] && r.edgeAttrs == h.edgeAttrs[e := a]
    requires forall x | x in h.nodeAttrs :: x in r.nodeAttrs && r.nodeAttrs[x] == h.nodeAttrs[x]
    ensures EdgesAppended(g, r, ends + [(e.src, e.tgt)], ds + [a])
  {
    assert r.edges[..|g.edges|] == h.edges[..|g.edges|];
    NewEdgesSnoc(g, h, ends, ds, r, e, a);
  }

  lemma NewEdgesSnoc(g: GraphValue, h: GraphValue, ends: seq<(string, string)>, ds: seq<Dict>,
                     r: GraphValue, e: Edge, a: Dict)
    requires EdgesAppended(g, h, ends, ds) && e !in h.edgeAttrs
    requires r.edges == h.edges + [e] && r.edgeAttrs == h.edgeAttrs[e := a]
    ensures forall i | |g.edges| <= i < |r.edges| ::
      && r.edges[i].src == (ends + [(e.src, e.tgt)])[i - |g.edges|].0
      && r.edges[i].tgt == (ends + [(e.src, e.tgt)])[i - |g.edges|].1
      && r.edges[i] in r.edgeAttrs && r.edgeAttrs[r.edges[i]] == (ds + [a])[i - |g.edges|]
  {
    var n := |g.edges|;
    forall i | n <= i < |r.edges|
      ensures r.edges[i].src == (ends + [(e.src, e.tgt)])[i - n].0
      ensures r.edges[i].tgt == (ends + [(e.src, e.tgt)])[i - n].1
      ensures r.edges[i] in r.edgeAttrs && r.edgeAttrs[r.edges[i]] == (ds + [a])[i - n]
    {
      if i < |h.edges| {
        assert r.edges[i] == h.edges[i];
        assert h.edges[i] in h.edgeAttrs;
      } else {
        assert r.edges[i] == e;
      }
    }
  }

  /** One `add_edge` keeps `EdgesAppended`. */
  lemma EdgesAppendedAuto(g: GraphValue, h: GraphValue, ends: seq<(string, string)>, ds: seq<Dict>,
                          u: string, v: string, a: Dict)
    requires EdgesAppended(g, h, ends, ds) && WfDict(a)
    ensures EdgesAppended(g, AddEdgeAutoTo(h, u, v, a), ends + [(u, v)], ds + [a])
  {
    AddAutoEdgeAppends(h, u, v, a);
    EnsureNodeWellFormed(h, u);
    EnsureNodeWellFormed(EnsureNode(h, u), v);
    EdgesAppendedSnoc(g, h, ends, ds, AddEdgeAutoTo(h, u, v, a), Edge(u, v, NewEdgeKey(h, u, v)), a);
  }

  /** Every pair becomes a new edge, even between nodes already joined,
      carrying its dict; old nodes keep their dicts. This holds after the
      first `i` pairs. */
  lemma {:induction false} AddAutoEdgesUpTo(g: GraphValue, ends: seq<(string, string)>, ds: seq<Dict>, i: nat)
    requires WellFormed(g) && |ends| == |ds| && AllWf(ds) && i <= |ends|
    ensures EdgesAppended(g, AddAutoEdgesTo(g, ends[..i], ds[..i]), ends[..i], ds[..i])
  {
    if i == 0 {
      assert ends[..0] == [] && ds[..0] == [];
      assert g.edges[..|g.edges|] == g.edges;
    } else {
      var n := i - 1;
      SliceSnoc(ends, n);
      SliceSnoc(ds, n);
      AddAutoEdgesUpTo(g, ends, ds, n);
      AddAutoEdgesSnoc(g, ends, ds, n);
      assert WfDict(ds[n]);
      EdgesAppendedAuto(g, AddAutoEdgesTo(g, ends[..n], ds[..n]), ends[..n], ds[..n], ends[n].0, ends[n].1, ds[n]);
    }
  }

  /** Every pair becomes a new edge, even between nodes already joined,
      carrying its dict; old nodes keep their dicts. */
  lemma AddAutoEdgesAppended(g: GraphValue, ends: seq<(string, string)>, ds: seq<Dict>)
    requires WellFormed(g) && |ends| == |ds| && AllWf(ds)
    ensures EdgesAppended(g, AddAutoEdgesTo(g, ends, ds), ends, ds)
  {
    AddAutoEdgesUpTo(g, ends, ds, |ends|);
    SliceAll(ends);
    SliceAll(ds);
  }

  /** Edges between existing nodes add no node. */
  lemma {:induction false} AddAutoEdgesDeclared(g: GraphValue, ends: seq<(string, string)>, ds: seq<Dict>)
    requires WellFormed(g) && |ends| == |ds| && AllWf(ds)
    requires forall i | 0 <= i < |ends| :: ends[i].0 in g.nodeAttrs && ends[i].1 in g.nodeAttrs
    ensures var r := AddAutoEdgesTo(g, ends, ds);
      WellFormed(r) && r.nodes == g.nodes && r.nodeAttrs == g.nodeAttrs
    decreases |ends|
  {
    if ends != [] {
      var n := |ends| - 1;
      AddAutoEdgesDeclared(g, ends[..n], ds[..n]);
      assert WfDict(ds[n]);
      AddAutoEdgeAppends(AddAutoEdgesTo(g, ends[..n], ds[..n]), ends[n].0, ends[n].1, ds[n]);
    }
  }

  // ---- Filtering lemmas ----

  lemma {:induction false} OmitUnion<T(!new)>(s: seq<T>, a: set<T>, b: set<T>)
    ensures Omit(Omit(s, a), b) == Omit(s, a + b)
    decreases |s|
  {
    if s != [] {
      OmitUnion(s[..|s| - 1], a, b);
    }
  }

  lemma {:induction false} OmitConcat<T(!new)>(s: seq<T>, t: seq<T>, xs: set<T>)
    ensures Omit(s + t, xs) == Omit(s, xs) + Omit(t, xs)
    decreases |t|
  {
    if t == [] {
      assert s + t == s;
    } else {
      var t' := t[..|t| - 1];
      assert (s + t)[..|s + t| - 1] == s + t';
      OmitConcat(s, t', xs);
    }
  }

  lemma {:induction false} OmitNothing<T(!new)>(s: seq<T>, xs: set<T>)
    requires forall x | x in s :: x !in xs
    ensures Omit(s, xs) == s
    decreases |s|
  {
    if s != [] {
      OmitNothing(s[..|s| - 1], xs);
      assert s == s[..|s| - 1] + [s[|s| - 1]];
    }
  }

  /** Filtering a list of distinct elements drops exactly the members of the filter set. */
  lemma {:induction false} OmitCount<T(!new)>(s: seq<T>, xs: set<T>)
    requires Distinct(s)
    ensures |Omit(s, xs)| + |Elems(s) * xs| == |s|
    decreases |s|
  {
    if s != [] {
      var s' := s[..|s| - 1];
      var last := s[|s| - 1];
      assert s == s' + [last];
      DistinctPrefix(s, |s| - 1);
      OmitCount(s', xs);
      ElemsSnoc(s', last);
      assert last !in Elems(s');
      if last in xs {
        assert |Omit(s, xs)| == |Omit(s', xs)|;
        assert Elems(s) * xs == (Elems(s') * xs) + {last};
      } else {
        assert |Omit(s, xs)| == |Omit(s', xs)| + 1;
        assert Elems(s) * xs == Elems(s') * xs;
      }
    }
  }

  lemma {:induction false} AvoidingUnion(es: seq<Edge>, a: set<string>, b: set<string>)
    ensures Avoiding(Avoiding(es, a), b) == Avoiding(es, a + b)
    decreases |es|
  {
    if es != [] {
      AvoidingUnion(es[..|es| - 1], a, b);
    }
  }

  lemma {:induction false} AvoidingNothing(es: seq<Edge>, xs: set<string>)
    requires forall e | e in es :: !Touches(e, xs)
    ensures Avoiding(es, xs) == es
    decreases |es|
  {
    if es != [] {
      AvoidingNothing(es[..|es| - 1], xs);
      assert es == es[..|es| - 1] + [es[|es| - 1]];
    }
  }

  // ---- Removing several nodes or edges ----

  /** The graph without the nodes in `xs` and without every edge touching one of them. */
  function Restrict(g: GraphValue, xs: set<string>): GraphValue {
    GraphValue(
      Omit(g.nodes, xs),
      g.nodeAttrs - xs,
      Avoiding(g.edges, xs),
      map e | e in g.edgeAttrs && !Touches(e, xs) :: g.edgeAttrs[e])
  }

  lemma RestrictWellFormed(g: GraphValue, xs: set<string>)
    requires WellFormed(g)
    ensures WellFormed(Restrict(g, xs))
  {
  }

  /** In a well-formed graph removing a node is restriction to the other
      nodes. For an absent node both sides are the graph itself; only
      `remove_nodes_from` reaches that case, since `remove_node` raises. */
  lemma RemoveNodeIsRestrict(g: GraphValue, x: string)
    requires WellFormed(g)
    ensures RemoveNodeFrom(g, x) == Restrict(g, {x})
  {
    if x !in g.nodeAttrs {
      RestrictAbsent(g, {x});
    }
  }

  /** Restricting away nodes the graph does not have changes nothing. */
  lemma RestrictAbsent(g: GraphValue, xs: set<string>)
    requires WellFormed(g) && forall x | x in xs :: x !in g.nodeAttrs
    ensures Restrict(g, xs) == g
  {
    OmitNothing(g.nodes, xs);
    forall e | e in g.edges
      ensures !Touches(e, xs)
    {
      assert e in g.edgeAttrs;
    }
    AvoidingNothing(g.edges, xs);
    KeepAllEdges(g, xs);
    assert g.nodeAttrs - xs == g.nodeAttrs;
  }

  lemma KeepAllEdges(g: GraphValue, xs: set<string>)
    requires forall e | e in g.edgeAttrs :: !Touches(e, xs)
    ensures (map e | e in g.edgeAttrs && !Touches(e, xs) :: g.edgeAttrs[e]) == g.edgeAttrs
  {
  }

  lemma RestrictRestrict(g: GraphValue, a: set<string>, b: set<string>)
    ensures Restrict(Restrict(g, a), b) == Restrict(g, a + b)
  {
    OmitUnion(g.nodes, a, b);
    AvoidingUnion(g.edges, a, b);
    assert (g.nodeAttrs - a) - b == g.nodeAttrs - (a + b);
  }

  /** `G.remove_nodes_from(xs)`: removes each listed node that is present. */
  function RemoveNodesFrom(g: GraphValue, xs: seq<string>): GraphValue
    decreases |xs|
  {
    if xs == [] then g else RemoveNodeFrom(RemoveNodesFrom(g, xs[..|xs| - 1]), xs[|xs| - 1])
  }

  lemma RestrictNothing(g: GraphValue)
    requires WellFormed(g)
    ensures Restrict(g, {}) == g
  {
    RestrictAbsent(g, {});
  }

  /** Removing a list of nodes one by one is restriction to the nodes not listed. */
  lemma {:induction false} RemoveNodesIsRestrict(g: GraphValue, xs: seq<string>)
    requires WellFormed(g)
    ensures RemoveNodesFrom(g, xs) == Restrict(g, Elems(xs))
    decreases |xs|
  {
    if xs == [] {
      assert Elems(xs) == {};
      RestrictNothing(g);
    } else {
      var xs' := xs[..|xs| - 1];
      var x := xs[|xs| - 1];
      assert xs == xs' + [x];
      ElemsSnoc(xs', x);
      calc {
        RemoveNodesFrom(g, xs);
        RemoveNodeFrom(RemoveNodesFrom(g, xs'), x);
        { RemoveNodesIsRestrict(g, xs'); }
        RemoveNodeFrom(Restrict(g, Elems(xs')), x);
        { RemoveNodesStep(g, Elems(xs'), x); }
        Restrict(g, Elems(xs') + {x});
      }
    }
  }

  lemma RemoveNodesStep(g: GraphValue, a: set<string>, x: string)
    requires WellFormed(g)
    ensures RemoveNodeFrom(Restrict(g, a), x) == Restrict(g, a + {x})
  {
    RestrictWellFormed(g, a);
    RemoveNodeIsRestrict(Restrict(g, a), x);
    RestrictRestrict(g, a, {x});
  }

  /** `G.remove_edges_from(es)`: removes each listed edge that is present. */
  function RemoveEdgesFrom(g: GraphValue, es: seq<Edge>): GraphValue
    decreases |es|
  {
    if es == [] then g else RemoveEdgeFrom(RemoveEdgesFrom(g, es[..|es| - 1]), es[|es| - 1])
  }

  /** Removing a list of edges one by one leaves the nodes and every other edge. */
  lemma {:induction false} RemoveEdgesIsOmit(g: GraphValue, es: seq<Edge>)
    requires WellFormed(g)
    ensures RemoveEdgesFrom(g, es) == WithoutEdges(g, Elems(es))
    decreases |es|
  {
    if es == [] {
      assert Elems(es) == {};
      OmitNothing(g.edges, {});
      assert g.edgeAttrs - {} == g.edgeAttrs;
    } else {
      var es' := es[..|es| - 1];
      var e := es[|es| - 1];
      assert es == es' + [e];
      ElemsSnoc(es', e);
      RemoveEdgesIsOmit(g, es');
      assert RemoveEdgesFrom(g, es) == RemoveEdgeFrom(WithoutEdges(g, Elems(es')), e);
      RemoveEdgesStep(g, Elems(es'), e);
    }
  }

  /** The graph without the edges in `rs`. */
  function WithoutEdges(g: GraphValue, rs: set<Edge>): GraphValue {
    g.(edges := Omit(g.edges, rs), edgeAttrs := g.edgeAttrs - rs)
  }

  lemma RemoveEdgesStep(g: GraphValue, a: set<Edge>, e: Edge)
    requires WellFormed(g)
    ensures RemoveEdgeFrom(WithoutEdges(g, a), e) == WithoutEdges(g, a + {e})
  {
    var h := WithoutEdges(g, a);
    OmitUnion(g.edges, a, {e});
    MapMinusUnion(g.edgeAttrs, a, {e});
    if e !in h.edgeAttrs {
      assert e !in h.edges;
      OmitNothing(h.edges, {e});
      MapMinusNothing(h.edgeAttrs, {e});
    }
  }

  lemma MapMinusUnion<K, V>(m: map<K, V>, a: set<K>, b: set<K>)
    ensures (m - a) - b == m - (a + b)
  {
  }

  lemma MapMinusNothing<K, V>(m: map<K, V>, b: set<K>)
    requires forall k | k in b :: k !in m
    ensures m - b == m
  {
  }

  /** The edges of a graph paired with their dicts, as
      `list(G.edges(keys=True, data=True))` lists them, but in insertion
      order rather than networkx's grouping by source node. */
  function EdgesWithData(g: GraphValue): (r: seq<(Edge, Dict)>)
    requires forall i | 0 <= i < |g.edges| :: g.edges[i] in g.edgeAttrs
    ensures |r| == |g.edges|
    ensures forall i | 0 <= i < |r| :: r[i] == (g.edges[i], g.edgeAttrs[g.edges[i]])
  {
    seq(|g.edges|, i requires 0 <= i < |g.edges| => (g.edges[i], g.edgeAttrs[g.edges[i]]))
  }

  /** The mutable graph. */
  class MultiDiGraph {
    var nodes: seq<string>
    var nodeAttrs: map<string, Dict>
    var edges: seq<Edge>
    var edgeAttrs: map<Edge, Dict>

    function Value(): GraphValue
      reads this
    {
      GraphValue(nodes, nodeAttrs, edges, edgeAttrs)
    }

    ghost predicate Valid()
      reads this
    {
      WellFormed(Value())
    }

    /** `nx.MultiDiGraph()`. */
    constructor ()
      ensures Valid() && Value() == EmptyGraph
    {
      nodes, nodeAttrs, edges, edgeAttrs := [], map[], [], map[];
    }

    /** `x in G`. */
    function HasNode(x: string): (b: bool)
      reads this
      requires Valid()
      ensures b <==> x in nodes
    {
      x in nodeAttrs
    }

    method AddNode(x: string, a: Dict)
      requires Valid() && WfDict(a)
      modifies this
      ensures Valid() && Value() == AddNodeTo(old(Value()), x, a)
    {
      AddNodeWellFormed(Value(), x, a);
      if x in nodeAttrs {
        nodeAttrs := nodeAttrs[x := Update(nodeAttrs[x], a)];
      } else {
        nodes := nodes + [x];
        nodeAttrs := nodeAttrs[x := Update([], a)];
      }
    }

    /** `G.remove_node(x)`; networkx raises for a missing node, and every
        caller checks membership first. */
    method RemoveNode(x: string)
      requires Valid() && x in nodeAttrs
      modifies this
      ensures Valid() && Value() == RemoveNodeFrom(old(Value()), x)
    {
      RemoveNodeWellFormed(Value(), x);
      nodes := Omit(nodes, {x});
      edges := Avoiding(edges, {x});
      edgeAttrs := map e | e in edgeAttrs && !Touches(e, {x}) :: edgeAttrs[e];
      nodeAttrs := nodeAttrs - {x};
    }

    /** The first step of `add_edge`: an endpoint that is not a node yet
        becomes one with an empty dict. */
    method AddMissingNode(x: string)
      requires Valid()
      modifies this
      ensures Valid() && Value() == EnsureNode(old(Value()), x)
    {
      EnsureNodeWellFormed(Value(), x);
      if x !in nodeAttrs {
        nodes := nodes + [x];
        nodeAttrs := nodeAttrs[x := []];
      }
    }

    /** `G.add_edge(u, v, key, **a)`, with `key == None` choosing
        `new_edge_key(u, v)`; returns the key used. */
    method AddEdge(u: string, v: string, key: Option<EdgeKey>, a: Dict) returns (k: EdgeKey)
      requires Valid() && WfDict(a)
      modifies this
      ensures Valid()
      ensures k == KeyOr(key, old(Value()), u, v)
      ensures Value() == AddEdgeTo(old(Value()), u, v, k, a)
    {
      ghost var g0 := Value();
      k := KeyOr(key, Value(), u, v);
      AddMissingNode(u);
      AddMissingNode(v);
      PutEdge(Edge(u, v, k), a);
      AddEdgeEnsured(g0, u, v, k, a);
    }

    /** The second step of `add_edge`, once both endpoints are nodes: the
        edge's dict is updated, or a new edge goes last with a copy of `a`. */
    method PutEdge(e: Edge, a: Dict)
      requires Valid() && WfDict(a) && e.src in nodeAttrs && e.tgt in nodeAttrs
      modifies this
      ensures Valid() && Value() == AddEdgeTo(old(Value()), e.src, e.tgt, e.key, a)
    {
      AddEdgeWellFormed(Value(), e.src, e.tgt, e.key, a);
      if e in edgeAttrs {
        edgeAttrs := edgeAttrs[e := Update(edgeAttrs[e], a)];
      } else {
        edges := edges + [e];
        edgeAttrs := edgeAttrs[e := Update([], a)];
      }
    }

    /** `G.remove_nodes_from(xs)`: nodes that are not there are skipped. */
    method RemoveNodes(xs: seq<string>)
      requires Valid()
      modifies this
      ensures Valid() && Value() == RemoveNodesFrom(old(Value()), xs)
    {
      ghost var g0 := Value();
      for i := 0 to |xs|
        invariant Valid() && Value() == RemoveNodesFrom(g0, xs[..i])
      {
        assert xs[..i + 1][..i] == xs[..i];
        if xs[i] in nodeAttrs {
          RemoveNode(xs[i]);
        }
      }
      assert xs[..|xs|] == xs;
    }

    /** `G.remove_edge(u, v, key)`; an absent edge is ignored, as in
        `remove_edges_from`. */
    method RemoveEdge(e: Edge)
      requires Valid()
      modifies this
      ensures Valid() && Value() == RemoveEdgeFrom(old(Value()), e)
    {
      RemoveEdgeWellFormed(Value(), e);
      if e in edgeAttrs {
        edges := Omit(edges, {e});
        edgeAttrs := edgeAttrs - {e};
      }
    }

    /** `G.remove_edges_from(es)`. */
    method RemoveEdges(es: seq<Edge>)
      requires Valid()
      modifies this
      ensures Valid() && Value() == RemoveEdgesFrom(old(Value()), es)
    {
      ghost var g0 := Value();
      for i := 0 to |es|
        invariant Valid() && Value() == RemoveEdgesFrom(g0, es[..i])
      {
        assert es[..i + 1][..i] == es[..i];
        RemoveEdge(es[i]);
      }
      assert es[..|es|] == es;
    }

    /** Writes a node's dict back, as `G.nodes[x][k] = v` does in place. */
    method SetNodeAttrs(x: string, a: Dict)
      requires Valid() && x in nodeAttrs && WfDict(a)
      modifies this
      ensures Valid() && Value() == SetNodeAttrsIn(old(Value()), x, a)
    {
      nodeAttrs := nodeAttrs[x := a];
    }

    /** Writes an edge's dict back, as `G.edges[u, v, key][k] = v` does in place. */
    method SetEdgeAttrs(e: Edge, a: Dict)
      requires Valid() && e in edgeAttrs && WfDict(a)
      modifies this
      ensures Valid() && Value() == SetEdgeAttrsIn(old(Value()), e, a)
    {
      edgeAttrs := edgeAttrs[e := a];
    }
  }
}
