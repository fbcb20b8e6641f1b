/** The structural mutation operators of `kg_perturbator/utils.py`: fresh
    `rand_i` identifiers, adding and removing random entities, adding and
    removing random relations. Random choices come from a `Sampler` the
    caller supplies; it is only assumed to honour the contract of
    `random.sample` (distinct positions, as many as asked for). */
module Utils {

  import opened Wrappers
  import opened Text
  import opened Seqs
  import opened Json
  import opened Graph

  /** `f"rand_{i}"`. */
  function RandId(i: nat): string {
    "rand_" + NatToString(i)
  }

  /** `f"e{k}"`. */
  function EntityId(k: nat): string {
    "e" + NatToString(k)
  }

  lemma RandIdInjective(i: nat, j: nat)
    requires RandId(i) == RandId(j)
    ensures i == j
  {
    assert RandId(i)[5..] == NatToString(i);
    assert RandId(j)[5..] == NatToString(j);
    NatToStringInjective(i, j);
  }

  lemma EntityIdInjective(i: nat, j: nat)
    requires EntityId(i) == EntityId(j)
    ensures i == j
  {
    assert EntityId(i)[1..] == NatToString(i);
    assert EntityId(j)[1..] == NatToString(j);
    NatToStringInjective(i, j);
  }

  /** A `rand_i` identifier never has the form `e{k}`. */
  lemma RandIdIsNotEntityId(i: nat, k: nat)
    ensures RandId(i) != EntityId(k)
  {
    assert RandId(i)[0] == 'r' && EntityId(k)[0] == 'e';
  }

  // ---- generate_unique_node_id ----

  lemma {:induction false} SubsetCard<T>(a: set<T>, b: set<T>)
    requires a <= b
    ensures |a| <= |b|
    decreases |a|
  {
    if a != {} {
      var x :| x in a;
      SubsetCard(a - {x}, b - {x});
    }
  }

  function RandIdsBelow(i: nat): set<string> {
    set j: nat | 1 <= j < i :: RandId(j)
  }

  lemma RandIdsBelowSnoc(i: nat)
    requires 1 < i
    ensures RandIdsBelow(i) == RandIdsBelow(i - 1) + {RandId(i - 1)}
  {
  }

  lemma RandIdNotBelow(i: nat)
    ensures RandId(i) !in RandIdsBelow(i)
  {
    if RandId(i) in RandIdsBelow(i) {
      var j: nat :| 1 <= j < i && RandId(j) == RandId(i);
      RandIdInjective(j, i);
    }
  }

  lemma {:induction false} RandIdsBelowCard(i: nat)
    requires 1 <= i
    ensures |RandIdsBelow(i)| == i - 1
    decreases i
  {
    if i > 1 {
      RandIdsBelowCard(i - 1);
      RandIdsBelowSnoc(i);
      RandIdNotBelow(i - 1);
    } else {
      assert RandIdsBelow(i) == {};
    }
  }

  /** When `rand_1 … rand_{i-1}` are all taken, there are at least `i - 1` ids. */
  lemma RandIdsFit(keys: set<string>, i: nat)
    requires 1 <= i
    requires forall j | 1 <= j < i :: RandId(j) in keys
    ensures i - 1 <= |keys|
  {
    RandIdsBelowCard(i);
    SubsetCard(RandIdsBelow(i), keys);
  }

  /** The least `r >= i` with `rand_r` unused, given that `rand_1 … rand_{i-1}` are used. */
  function LeastFreeRandIndex(keys: set<string>, i: nat): (r: nat)
    requires 1 <= i
    requires forall j | 1 <= j < i :: RandId(j) in keys
    ensures i <= r && RandId(r) !in keys
    ensures forall j | 1 <= j < r :: RandId(j) in keys
    decreases |keys| + 1 - i
  {
    if RandId(i) !in keys then i
    else
      RandIdsFit(keys, i + 1);
      LeastFreeRandIndex(keys, i + 1)
  }

  /** The id that `generate_unique_node_id` picks for a graph. */
  function FreshRandId(g: GraphValue): string {
    RandId(LeastFreeRandIndex(g.nodeAttrs.Keys, 1))
  }

  /** `generate_unique_node_id(G)`: tries `rand_1`, `rand_2`, … and returns
      the first that is not a node; the graph is left as it is. */
  method GenerateUniqueNodeId(g: MultiDiGraph) returns (id: string)
    requires g.Valid()
    ensures id == FreshRandId(g.Value())
  {
    var i := 1;
    while true
      invariant 1 <= i
      invariant forall j | 1 <= j < i :: RandId(j) in g.nodeAttrs
      invariant LeastFreeRandIndex(g.nodeAttrs.Keys, i) == LeastFreeRandIndex(g.nodeAttrs.Keys, 1)
      decreases |g.nodeAttrs.Keys| + 1 - i
    {
      var candidate := RandId(i);
      if !g.HasNode(candidate) {
        return candidate;
      }
      RandIdsFit(g.nodeAttrs.Keys, i + 1);
      i := i + 1;
    }
  }

  /** The id picked is `rand_r` for the least `r >= 1` not in use. */
  lemma FreshRandIdIsLeast(g: GraphValue)
    ensures exists r: nat :: (1 <= r && FreshRandId(g) == RandId(r) && RandId(r) !in g.nodeAttrs &&
                               forall j | 1 <= j < r :: RandId(j) in g.nodeAttrs)
  {
    var r := LeastFreeRandIndex(g.nodeAttrs.Keys, 1);
    assert FreshRandId(g) == RandId(r);
  }

  // ---- add_random_entities ----

  const RandomEntityAttrs: Dict := [("type", Str("RandomEntity"))]

  /** The graph after `add_random_entities(G, n)`. */
  function AddRandomEntitiesTo(g: GraphValue, n: nat): GraphValue
    decreases n
  {
    if n == 0 then g
    else
      var g' := AddRandomEntitiesTo(g, n - 1);
      AddNodeTo(g', FreshRandId(g'), RandomEntityAttrs)
  }

  lemma RandomEntityAttrsWf()
    ensures WfDict(RandomEntityAttrs)
  {
    assert Keys(RandomEntityAttrs) == ["type"];
  }

  /** `r` is `g` with `n` fresh nodes appended, each with the dict
      `{"type": "RandomEntity"}` and no edge. */
  ghost predicate ExtendsWithRandomEntities(g: GraphValue, r: GraphValue, n: nat) {
    && WellFormed(r)
    && |r.nodes| == |g.nodes| + n
    && r.nodes[..|g.nodes|] == g.nodes
    && (forall i | |g.nodes| <= i < |r.nodes| ::
          r.nodes[i] !in g.nodeAttrs && r.nodeAttrs[r.nodes[i]] == RandomEntityAttrs)
    && (forall x | x in g.nodeAttrs :: x in r.nodeAttrs && r.nodeAttrs[x] == g.nodeAttrs[x])
    && r.edges == g.edges
    && r.edgeAttrs == g.edgeAttrs
  }

  /** `add_random_entities(G, n)` appends exactly `n` fresh nodes, each with
      the dict `{"type": "RandomEntity"}` and no edge; nothing else changes. */
  lemma {:induction false} AddRandomEntitiesFacts(g: GraphValue, n: nat)
    requires WellFormed(g)
    ensures ExtendsWithRandomEntities(g, AddRandomEntitiesTo(g, n), n)
    decreases n
  {
    if n > 0 {
      AddRandomEntitiesFacts(g, n - 1);
      AddRandomEntityStep(g, AddRandomEntitiesTo(g, n - 1), n - 1);
    } else {
      assert g.nodes[..|g.nodes|] == g.nodes;
    }
  }

  /** One more iteration appends the id `generate_unique_node_id` picks. */
  lemma AddRandomEntityStep(g: GraphValue, g': GraphValue, n: nat)
    requires WellFormed(g) && ExtendsWithRandomEntities(g, g', n)
    ensures ExtendsWithRandomEntities(g, AddNodeTo(g', FreshRandId(g'), RandomEntityAttrs), n + 1)
    ensures AddNodeTo(g', FreshRandId(g'), RandomEntityAttrs).nodes == g'.nodes + [FreshRandId(g')]
    ensures FreshRandId(g') !in g.nodeAttrs
  {
    var x := FreshRandId(g');
    assert x !in g'.nodeAttrs;
    RandomEntityAttrsWf();
    AddFreshNode(g', x, RandomEntityAttrs);
    var r := AddNodeTo(g', x, RandomEntityAttrs);
    assert r.nodes[..|g.nodes|] == g'.nodes[..|g.nodes|];
    forall i | |g.nodes| <= i < |r.nodes|
      ensures r.nodes[i] !in g.nodeAttrs && r.nodeAttrs[r.nodes[i]] == RandomEntityAttrs
    {
      if i < |g'.nodes| {
        assert r.nodes[i] == g'.nodes[i];
        assert g'.nodes[i] in g'.nodeAttrs;
      }
    }
  }

  /** The id the `n`-th iteration of `add_random_entities` adds, the only
      one its result keeps. */
  function LastAdded(g: GraphValue, n: nat): Option<string> {
    if n == 0 then None else Some(FreshRandId(AddRandomEntitiesTo(g, n - 1)))
  }

  /** The id kept is the last node of the new graph and was not a node before. */
  lemma LastAddedIsLastNode(g: GraphValue, n: nat)
    requires WellFormed(g) && n > 0
    ensures var r := AddRandomEntitiesTo(g, n);
      |r.nodes| > 0 && LastAdded(g, n) == Some(r.nodes[|r.nodes| - 1]) &&
      LastAdded(g, n).value !in g.nodeAttrs
  {
    AddRandomEntitiesFacts(g, n - 1);
    AddRandomEntityStep(g, AddRandomEntitiesTo(g, n - 1), n - 1);
  }

  /** `add_random_entities(G, n)`. The Python result is a dict whose only
      possible key is `None`, each new id overwriting the previous one, so
      it is either empty (`n == 0`) or holds the last id added. */
  method AddRandomEntities(g: MultiDiGraph, n: nat) returns (added: Option<string>)
    requires g.Valid()
    modifies g
    ensures g.Valid() && g.Value() == AddRandomEntitiesTo(old(g.Value()), n)
    ensures added == LastAdded(old(g.Value()), n)
  {
    ghost var g0 := g.Value();
    RandomEntityAttrsWf();
    added := None;
    for i := 0 to n
      invariant g.Valid() && g.Value() == AddRandomEntitiesTo(g0, i)
      invariant added == LastAdded(g0, i)
    {
      var id := GenerateUniqueNodeId(g);
      g.AddNode(id, RandomEntityAttrs);
      added := Some(id);
    }
  }

  // ---- random.sample ----

  /** `random.sample` on a population of size `pop`, call number `call`,
      asked for `k` elements: the positions of the chosen elements. */
  type Sampler = (nat, nat, nat) -> seq<nat>

  ghost predicate IsSample(idx: seq<nat>, pop: nat, k: nat) {
    |idx| == k && Distinct(idx) && forall i | 0 <= i < |idx| :: idx[i] < pop
  }

  /** What `random.sample` guarantees whenever `k <= pop`. */
  ghost predicate ValidSampler(sample: Sampler) {
    forall call: nat, pop: nat, k: nat | k <= pop :: IsSample(sample(call, pop, k), pop, k)
  }

  /** The elements of `pop` at the positions `idx`. */
  function Pick<T>(pop: seq<T>, idx: seq<nat>): (r: seq<T>)
    requires forall i | 0 <= i < |idx| :: idx[i] < |pop|
    ensures |r| == |idx|
    ensures forall i | 0 <= i < |idx| :: r[i] == pop[idx[i]]
  {
    seq(|idx|, i requires 0 <= i < |idx| => pop[idx[i]])
  }

  /** Distinct positions in a list without repeats pick distinct elements. */
  lemma PickDistinct<T>(pop: seq<T>, idx: seq<nat>, k: nat)
    requires Distinct(pop) && IsSample(idx, |pop|, k)
    ensures Distinct(Pick(pop, idx))
  {
    var r := Pick(pop, idx);
    forall i, j | 0 <= i < |r| && 0 <= j < |r| && i != j
      ensures r[i] != r[j]
    {
      assert idx[i] != idx[j];
    }
  }

  function Min(a: nat, b: nat): nat {
    if a <= b then a else b
  }

  // ---- remove_random_entities ----

  /** The nodes `random.sample(list(G.nodes), min(n, len(nodes)))` chooses. */
  function ChosenNodes(g: GraphValue, n: nat, sample: Sampler, call: nat): seq<string>
    requires ValidSampler(sample)
  {
    Pick(g.nodes, sample(call, |g.nodes|, Min(n, |g.nodes|)))
  }

  /** `remove_random_entities` removes `min(n, |V|)` distinct existing nodes,
      every edge touching them and nothing else. */
  lemma RemoveRandomEntitiesFacts(g: GraphValue, n: nat, sample: Sampler, call: nat)
    requires WellFormed(g) && ValidSampler(sample)
    ensures Distinct(ChosenNodes(g, n, sample, call))
    ensures |ChosenNodes(g, n, sample, call)| == Min(n, |g.nodes|)
    ensures forall x | x in ChosenNodes(g, n, sample, call) :: x in g.nodeAttrs
    ensures WellFormed(Restrict(g, Elems(ChosenNodes(g, n, sample, call))))
    ensures |Restrict(g, Elems(ChosenNodes(g, n, sample, call))).nodes| == |g.nodes| - Min(n, |g.nodes|)
  {
    var idx := sample(call, |g.nodes|, Min(n, |g.nodes|));
    var xs := ChosenNodes(g, n, sample, call);
    PickDistinct(g.nodes, idx, Min(n, |g.nodes|));
    RestrictWellFormed(g, Elems(xs));
    OmitCount(g.nodes, Elems(xs));
    DistinctCard(xs);
    assert Elems(g.nodes) * Elems(xs) == Elems(xs);
  }

  /** `remove_random_entities(G, n)`; the Python result maps each removed id
      to `None`, so it is represented by its keys, in sample order. */
  method RemoveRandomEntities(g: MultiDiGraph, n: nat, sample: Sampler, call: nat)
    returns (removed: seq<string>)
    requires g.Valid() && ValidSampler(sample)
    modifies g
    ensures removed == ChosenNodes(old(g.Value()), n, sample, call)
    ensures g.Valid() && g.Value() == Restrict(old(g.Value()), Elems(removed))
  {
    var nodes := g.nodes;
    var idx := sample(call, |nodes|, Min(n, |nodes|));
    removed := Pick(nodes, idx);
    RemoveNodesIsRestrict(g.Value(), removed);
    g.RemoveNodes(removed);
  }

  // ---- remove_random_edges ----

  /** The edges `random.sample(list(G.edges), min(n, len(edges)))` chooses.
      The sampled positions index the insertion-ordered edge list, not
      networkx's list grouped by source node. */
  function ChosenEdges(g: GraphValue, n: nat, sample: Sampler, call: nat): seq<Edge>
    requires ValidSampler(sample)
  {
    Pick(g.edges, sample(call, |g.edges|, Min(n, |g.edges|)))
  }

  /** `remove_random_edges` removes `min(n, |E|)` distinct existing edges and
      leaves the nodes and all other edges as they were. */
  lemma RemoveRandomEdgesFacts(g: GraphValue, n: nat, sample: Sampler, call: nat)
    requires WellFormed(g) && ValidSampler(sample)
    ensures Distinct(ChosenEdges(g, n, sample, call))
    ensures forall e | e in ChosenEdges(g, n, sample, call) :: e in g.edgeAttrs
    ensures WellFormed(WithoutEdges(g, Elems(ChosenEdges(g, n, sample, call))))
    ensures |WithoutEdges(g, Elems(ChosenEdges(g, n, sample, call))).edges| == |g.edges| - Min(n, |g.edges|)
  {
    var idx := sample(call, |g.edges|, Min(n, |g.edges|));
    PickDistinct(g.edges, idx, Min(n, |g.edges|));
    RemoveDistinctEdges(g, ChosenEdges(g, n, sample, call));
  }

  /** Removing distinct existing edges removes exactly that many. */
  lemma RemoveDistinctEdges(g: GraphValue, es: seq<Edge>)
    requires WellFormed(g) && Distinct(es) && forall e | e in es :: e in g.edgeAttrs
    ensures WellFormed(WithoutEdges(g, Elems(es)))
    ensures |WithoutEdges(g, Elems(es)).edges| == |g.edges| - |es|
  {
    RemoveEdgesIsOmit(g, es);
    RemoveEdgesWellFormed(g, es);
    OmitCount(g.edges, Elems(es));
    DistinctCard(es);
    assert Elems(g.edges) * Elems(es) == Elems(es);
  }

  lemma {:induction false} RemoveEdgesWellFormed(g: GraphValue, es: seq<Edge>)
    requires WellFormed(g)
    ensures WellFormed(RemoveEdgesFrom(g, es))
    decreases |es|
  {
    if es != [] {
      RemoveEdgesWellFormed(g, es[..|es| - 1]);
      RemoveEdgeWellFormed(RemoveEdgesFrom(g, es[..|es| - 1]), es[|es| - 1]);
    }
  }

  /** `remove_random_edges(G, n)`. */
  method RemoveRandomEdges(g: MultiDiGraph, n: nat, sample: Sampler, call: nat)
    requires g.Valid() && ValidSampler(sample)
    modifies g
    ensures g.Valid()
    ensures g.Value() == WithoutEdges(old(g.Value()), Elems(ChosenEdges(old(g.Value()), n, sample, call)))
  {
    var edges := g.edges;
    var idx := sample(call, |edges|, Min(n, |edges|));
    var chosen := Pick(edges, idx);
    RemoveEdgesIsOmit(g.Value(), chosen);
    g.RemoveEdges(chosen);
  }

  // ---- add_random_edges ----

  const RandomRelationAttrs: Dict := [("type", Str("randomRelation"))]

  /** The endpoints `random.sample(nodes, 2)` chooses on call number `call`. */
  function RandomEnds(nodes: seq<string>, sample: Sampler, call: nat): (string, string)
    requires ValidSampler(sample) && |nodes| >= 2
  {
    var idx := sample(call, |nodes|, 2);
    (nodes[idx[0]], nodes[idx[1]])
  }

  /** The endpoints of the `n` edges `add_random_edges` adds, the `i`-th drawn
      by sampler call `call0 + i`. */
  function RandomEdgeEnds(nodes: seq<string>, n: nat, sample: Sampler, call0: nat): (r: seq<(string, string)>)
    requires ValidSampler(sample) && (n > 0 ==> |nodes| >= 2)
    ensures |r| == n
    ensures forall i | 0 <= i < n :: r[i] == RandomEnds(nodes, sample, call0 + i)
  {
    seq(n, i requires 0 <= i < n => RandomEnds(nodes, sample, call0 + i))
  }

  /** The two positions `random.sample(nodes, 2)` returns differ, so every
      edge drawn joins two different nodes of the list. */
  lemma RandomEdgeEndsDiffer(nodes: seq<string>, n: nat, sample: Sampler, call0: nat)
    requires ValidSampler(sample) && (n > 0 ==> |nodes| >= 2) && Distinct(nodes)
    ensures forall i | 0 <= i < n ::
      var ends := RandomEdgeEnds(nodes, n, sample, call0)[i];
      ends.0 != ends.1 && ends.0 in nodes && ends.1 in nodes
  {
    forall i | 0 <= i < n
      ensures var ends := RandomEdgeEnds(nodes, n, sample, call0)[i];
        ends.0 != ends.1 && ends.0 in nodes && ends.1 in nodes
    {
      var idx := sample(call0 + i, |nodes|, 2);
      assert IsSample(idx, |nodes|, 2);
      assert idx[0] != idx[1];
    }
  }

  /** The graph after keyless `add_edge(u, v, type="randomRelation")` calls
      for the listed endpoint pairs, in order. */
  function AddRandomEdgesTo(g: GraphValue, ends: seq<(string, string)>): GraphValue
    decreases |ends|
  {
    if ends == [] then g
    else
      var last := ends[|ends| - 1];
      AddEdgeAutoTo(AddRandomEdgesTo(g, ends[..|ends| - 1]), last.0, last.1, RandomRelationAttrs)
  }

  lemma RandomRelationAttrsWf()
    ensures WfDict(RandomRelationAttrs)
  {
    assert Keys(RandomRelationAttrs) == ["type"];
  }

  /** `r` is `g` with `n` edges appended, each between two different nodes
      of `g` and with the dict `{"type": "randomRelation"}`; the nodes and the
      edges already there are as they were. */
  ghost predicate ExtendsWithRandomEdges(g: GraphValue, r: GraphValue, n: nat) {
    && WellFormed(r)
    && r.nodes == g.nodes
    && r.nodeAttrs == g.nodeAttrs
    && |r.edges| == |g.edges| + n
    && r.edges[..|g.edges|] == g.edges
    && (forall e | e in g.edgeAttrs :: e in r.edgeAttrs && r.edgeAttrs[e] == g.edgeAttrs[e])
    && (forall i | |g.edges| <= i < |r.edges| ::
          && r.edges[i].src != r.edges[i].tgt
          && r.edges[i].src in g.nodeAttrs
          && r.edges[i].tgt in g.nodeAttrs
          && r.edgeAttrs[r.edges[i]] == RandomRelationAttrs)
  }

  /** Adding a keyless random edge for each pair of different existing nodes
      appends exactly one new edge per pair; nothing else changes. */
  lemma {:induction false} AddRandomEdgesFacts(g: GraphValue, ends: seq<(string, string)>)
    requires WellFormed(g)
    requires forall i | 0 <= i < |ends| ::
      ends[i].0 != ends[i].1 && ends[i].0 in g.nodeAttrs && ends[i].1 in g.nodeAttrs
    ensures ExtendsWithRandomEdges(g, AddRandomEdgesTo(g, ends), |ends|)
    decreases |ends|
  {
    if ends != [] {
      var ends' := ends[..|ends| - 1];
      AddRandomEdgesFacts(g, ends');
      var g' := AddRandomEdgesTo(g, ends');
      var last := ends[|ends| - 1];
      var r := AddRandomEdgesTo(g, ends);
      assert r == AddEdgeAutoTo(g', last.0, last.1, RandomRelationAttrs);
      AddRandomEdgeStep(g, g', |ends'|, last);
      assert ExtendsWithRandomEdges(g, AddEdgeAutoTo(g', last.0, last.1, RandomRelationAttrs), |ends|);
    } else {
      assert g.edges[..|g.edges|] == g.edges;
    }
  }

  /** Adding one more keyless edge between two different nodes of `g`. */
  lemma AddRandomEdgeStep(g: GraphValue, g': GraphValue, n: nat, ends: (string, string))
    requires WellFormed(g) && ExtendsWithRandomEdges(g, g', n)
    requires ends.0 != ends.1 && ends.0 in g.nodeAttrs && ends.1 in g.nodeAttrs
    ensures ExtendsWithRandomEdges(g, AddEdgeAutoTo(g', ends.0, ends.1, RandomRelationAttrs), n + 1)
  {
    RandomRelationAttrsWf();
    AddFreshEdge(g', ends.0, ends.1, RandomRelationAttrs);
    ExtendsSnoc(g, g', AddEdgeAutoTo(g', ends.0, ends.1, RandomRelationAttrs), n,
      Edge(ends.0, ends.1, NewEdgeKey(g', ends.0, ends.1)));
  }

  /** Appending one fresh random edge between different nodes of `g`. */
  lemma ExtendsSnoc(g: GraphValue, g': GraphValue, r: GraphValue, n: nat, e: Edge)
    requires ExtendsWithRandomEdges(g, g', n) && WellFormed(r)
    requires e.src != e.tgt && e.src in g.nodeAttrs && e.tgt in g.nodeAttrs && e !in g'.edgeAttrs
    requires r == g'.(edges := g'.edges + [e], edgeAttrs := g'.edgeAttrs[e := RandomRelationAttrs])
    ensures ExtendsWithRandomEdges(g, r, n + 1)
  {
    assert r.edges[..|g.edges|] == g'.edges[..|g.edges|];
    forall i | |g.edges| <= i < |r.edges|
      ensures r.edges[i].src != r.edges[i].tgt && r.edges[i].src in g.nodeAttrs &&
        r.edges[i].tgt in g.nodeAttrs && r.edgeAttrs[r.edges[i]] == RandomRelationAttrs
    {
      if i < |g'.edges| {
        assert r.edges[i] == g'.edges[i];
        assert g'.edges[i] in g'.edgeAttrs;
      }
    }
  }

  /** What `random.sample` raises when asked for more elements than there are. */
  const SampleTooLarge := ValueError("Sample larger than population")

  /** One iteration: `G.add_edge(src, tgt, type="randomRelation")`. */
  method AddRandomEdge(g: MultiDiGraph, src: string, tgt: string)
    requires g.Valid()
    modifies g
    ensures g.Valid() && g.Value() == AddEdgeAutoTo(old(g.Value()), src, tgt, RandomRelationAttrs)
  {
    RandomRelationAttrsWf();
    var _ := g.AddEdge(src, tgt, None, RandomRelationAttrs);
  }

  lemma AddRandomEdgesSnoc(g: GraphValue, ends: seq<(string, string)>, i: nat)
    requires i < |ends|
    ensures AddRandomEdgesTo(g, ends[..i + 1])
         == AddEdgeAutoTo(AddRandomEdgesTo(g, ends[..i]), ends[i].0, ends[i].1, RandomRelationAttrs)
  {
    assert ends[..i + 1][..i] == ends[..i];
  }

  /** `add_random_edges(G, n)`. `random.sample(nodes, 2)` raises ValueError
      when there are fewer than two nodes, before anything is added. */
  method AddRandomEdges(g: MultiDiGraph, n: nat, sample: Sampler, call0: nat) returns (r: Result<()>)
    requires g.Valid() && ValidSampler(sample)
    modifies g
    ensures g.Valid()
    ensures r.Err? <==> n > 0 && |old(g.nodes)| < 2
    ensures r.Err? ==> r.error == SampleTooLarge && g.Value() == old(g.Value())
    ensures r.Ok? ==> g.Value() == AddRandomEdgesTo(old(g.Value()), RandomEdgeEnds(old(g.nodes), n, sample, call0))
  {
    var nodes := g.nodes;
    if n > 0 && |nodes| < 2 {
      return Err(SampleTooLarge);
    }
    ghost var g0 := g.Value();
    ghost var ends := RandomEdgeEnds(nodes, n, sample, call0);
    RandomRelationAttrsWf();
    for i := 0 to n
      invariant g.Valid() && g.Value() == AddRandomEdgesTo(g0, ends[..i])
    {
      var idx := sample(call0 + i, |nodes|, 2);
      var src, tgt := nodes[idx[0]], nodes[idx[1]];
      assert ends[i] == (src, tgt);
      AddRandomEdgesSnoc(g0, ends, i);
      AddRandomEdge(g, src, tgt);
    }
    assert ends[..n] == ends;
    return Ok(());
  }
}
