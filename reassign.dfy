/** `reassign_entity_ids` of `kg_perturbator/utils.py`: every node that was
    neither removed nor added is renamed `e{n_nodes+1}`, `e{n_nodes+2}`, …
    in node order; the new node gets a copy of the old one's dict, the old
    node is deleted, and every saved edge is added again with its endpoints
    looked up in the mapping. */
module Reassign {

  import opened Wrappers
  import opened Text
  import opened Seqs
  import opened Json
  import opened Graph
  import opened Utils

  /** `entity_mapping`: original id to new id, in insertion order. */
  type IdMap = seq<(string, string)>

  function Originals(m: IdMap): (r: seq<string>)
    ensures |r| == |m| && forall i | 0 <= i < |m| :: r[i] == m[i].0
  {
    seq(|m|, i requires 0 <= i < |m| => m[i].0)
  }

  function NewIds(m: IdMap): (r: seq<string>)
    ensures |r| == |m| && forall i | 0 <= i < |m| :: r[i] == m[i].1
  {
    seq(|m|, i requires 0 <= i < |m| => m[i].1)
  }

  /** `entity_mapping.get(x, x)`. */
  function Lookup(m: IdMap, x: string): string {
    if m == [] then x else if m[0].0 == x then m[0].1 else Lookup(m[1..], x)
  }

  lemma {:induction false} LookupUnmapped(m: IdMap, x: string)
    requires x !in Originals(m)
    ensures Lookup(m, x) == x
  {
    if m != [] {
      assert m[0].0 == Originals(m)[0];
      assert Originals(m[1..]) == Originals(m)[1..];
      LookupUnmapped(m[1..], x);
    }
  }

  lemma {:induction false} LookupMapped(m: IdMap, i: nat)
    requires i < |m| && Distinct(Originals(m))
    ensures Lookup(m, m[i].0) == m[i].1
  {
    if i > 0 {
      assert Originals(m)[0] != Originals(m)[i];
      assert Originals(m[1..]) == Originals(m)[1..];
      LookupMapped(m[1..], i - 1);
    }
  }

  /** `[x for x in G.nodes() if x not in removed and x not in added]`. */
  function Survivors(nodes: seq<string>, removed: set<string>, added: set<string>): seq<string> {
    Omit(nodes, removed + added)
  }

  /** The mapping the first loop builds: the `i`-th survivor to `e{start+i}`. */
  function MappingFrom(survivors: seq<string>, start: nat): (m: IdMap)
    ensures |m| == |survivors|
    ensures forall i | 0 <= i < |m| :: m[i] == (survivors[i], EntityId(start + i))
  {
    seq(|survivors|, i requires 0 <= i < |survivors| => (survivors[i], EntityId(start + i)))
  }

  /** The mapping's keys are exactly the nodes that are neither removed nor
      added, in node order and each once; its values are `e{n_nodes+1}`,
      `e{n_nodes+2}`, … in that order, so different keys get different ids. */
  lemma MappingFacts(g: GraphValue, removed: set<string>, added: set<string>, nNodes: nat)
    requires WellFormed(g)
    ensures var m := MappingFrom(Survivors(g.nodes, removed, added), nNodes + 1);
      && Originals(m) == Survivors(g.nodes, removed, added)
      && (forall x :: x in Originals(m) <==> x in g.nodes && x !in removed && x !in added)
      && Distinct(Originals(m))
      && (forall i | 0 <= i < |m| :: m[i].1 == EntityId(nNodes + 1 + i))
      && Distinct(NewIds(m))
  {
    var m := MappingFrom(Survivors(g.nodes, removed, added), nNodes + 1);
    forall i, j | 0 <= i < |m| && 0 <= j < |m| && i != j
      ensures NewIds(m)[i] != NewIds(m)[j]
    {
      if NewIds(m)[i] == NewIds(m)[j] {
        EntityIdInjective(nNodes + 1 + i, nNodes + 1 + j);
      }
    }
  }

  /** The renaming of an edge's endpoints the last loop applies. */
  function Rewire(m: IdMap, e: Edge): Edge {
    Edge(Lookup(m, e.src), Lookup(m, e.tgt), e.key)
  }

  // ---- The three loops as folds ----

  /** The first graph loop: `G.add_node(new_id, **G.nodes[original_id])` for
      each mapped node still present. */
  function CopyNodes(g: GraphValue, m: IdMap): GraphValue
    decreases |m|
  {
    if m == [] then g
    else
      var g' := CopyNodes(g, m[..|m| - 1]);
      var p := m[|m| - 1];
      if p.0 in g'.nodeAttrs then AddNodeTo(g', p.1, g'.nodeAttrs[p.0]) else g'
  }

  /** The dict `**data` unpacks in one iteration of the last loop. The saved
      list holds networkx's own edge dicts, not copies. The dict of an edge
      that touches no original is still the graph's, and an earlier
      iteration may have merged into it, so it is read as it is now. The
      dict of an edge the second loop removed is no longer reachable from
      the graph, so it is as it was saved. */
  function SavedData(g: GraphValue, m: IdMap, e: Edge, d: Dict): Dict {
    if !Touches(e, Elems(Originals(m))) && e in g.edgeAttrs then g.edgeAttrs[e] else d
  }

  /** One iteration of the last loop. */
  function RewireStepOf(g: GraphValue, m: IdMap, e: Edge, d: Dict): GraphValue {
    var u, v := Lookup(m, e.src), Lookup(m, e.tgt);
    if u in g.nodeAttrs && v in g.nodeAttrs then AddEdgeTo(g, u, v, e.key, SavedData(g, m, e, d)) else g
  }

  /** The last loop: each saved edge is added again, with the same key and
      dict, between the looked-up endpoints when both are nodes. */
  function RewireEdges(g: GraphValue, all: seq<(Edge, Dict)>, m: IdMap): GraphValue
    decreases |all|
  {
    if all == [] then g
    else
      RewireStepOf(RewireEdges(g, all[..|all| - 1], m), m, all[|all| - 1].0, all[|all| - 1].1)
  }

  /** The graph after the three graph loops run with mapping `m`. */
  function Renumbered(g: GraphValue, m: IdMap): GraphValue
    requires forall i | 0 <= i < |g.edges| :: g.edges[i] in g.edgeAttrs
  {
    RewireEdges(RemoveNodesFrom(CopyNodes(g, m), Originals(m)), EdgesWithData(g), m)
  }

  /** The graph after `reassign_entity_ids(G, removed, added, n_nodes)`. */
  function ReassignSpec(g: GraphValue, removed: set<string>, added: set<string>, nNodes: nat): GraphValue
    requires forall i | 0 <= i < |g.edges| :: g.edges[i] in g.edgeAttrs
  {
    Renumbered(g, MappingFrom(Survivors(g.nodes, removed, added), nNodes + 1))
  }

  // ---- The collision-free case ----

  /** No node of `g` is already called `e{k}` for a `k` above `n_nodes`: the
      condition under which the renumbering cannot clash with an existing id. */
  ghost predicate NoIdInNewRange(g: GraphValue, nNodes: nat) {
    forall k: nat | nNodes < k :: EntityId(k) !in g.nodeAttrs
  }

  /** What the proofs below need of the mapping: it maps distinct nodes of
      `g` to distinct ids that are not nodes of `g`. */
  ghost predicate Renumberable(g: GraphValue, m: IdMap) {
    && WellFormed(g)
    && (forall i | 0 <= i < |m| :: m[i].0 in g.nodeAttrs && m[i].1 !in g.nodeAttrs)
    && Distinct(Originals(m))
    && Distinct(NewIds(m))
  }

  lemma MappingRenumberable(g: GraphValue, removed: set<string>, added: set<string>, nNodes: nat)
    requires WellFormed(g) && NoIdInNewRange(g, nNodes)
    ensures Renumberable(g, MappingFrom(Survivors(g.nodes, removed, added), nNodes + 1))
  {
    MappingFacts(g, removed, added, nNodes);
    var m := MappingFrom(Survivors(g.nodes, removed, added), nNodes + 1);
    forall i | 0 <= i < |m|
      ensures m[i].0 in g.nodeAttrs && m[i].1 !in g.nodeAttrs
    {
      assert m[i].0 in Originals(m);
      assert m[i].1 == EntityId(nNodes + 1 + i);
    }
  }

  lemma RenumberablePrefix(g: GraphValue, m: IdMap, k: nat)
    requires Renumberable(g, m) && k <= |m|
    ensures Renumberable(g, m[..k])
  {
    assert Originals(m[..k]) == Originals(m)[..k];
    assert NewIds(m[..k]) == NewIds(m)[..k];
    DistinctPrefix(Originals(m), k);
    DistinctPrefix(NewIds(m), k);
  }

  lemma RenumberableSides(g: GraphValue, m: IdMap)
    requires Renumberable(g, m)
    ensures forall x | x in Originals(m) :: x in g.nodeAttrs
    ensures forall x | x in NewIds(m) :: x !in g.nodeAttrs
  {
    forall x | x in Originals(m)
      ensures x in g.nodeAttrs
    {
      var i :| 0 <= i < |m| && Originals(m)[i] == x;
      assert m[i].0 in g.nodeAttrs;
    }
    forall x | x in NewIds(m)
      ensures x !in g.nodeAttrs
    {
      var i :| 0 <= i < |m| && NewIds(m)[i] == x;
      assert m[i].1 !in g.nodeAttrs;
    }
  }

  /** Looking up a node of `g` gives a new id when the node is mapped and
      the node itself otherwise. */
  lemma LookupNode(g: GraphValue, m: IdMap, x: string)
    requires Renumberable(g, m) && x in g.nodeAttrs
    ensures x in Originals(m) ==> Lookup(m, x) in NewIds(m)
    ensures x !in Originals(m) ==> Lookup(m, x) == x
    ensures Lookup(m, x) in g.nodeAttrs <==> x !in Originals(m)
  {
    RenumberableSides(g, m);
    if x in Originals(m) {
      var i :| 0 <= i < |m| && Originals(m)[i] == x;
      LookupMapped(m, i);
      assert NewIds(m)[i] == m[i].1;
    } else {
      LookupUnmapped(m, x);
    }
  }

  /** Different nodes of `g` are looked up to different ids. */
  lemma LookupInjective(g: GraphValue, m: IdMap, x: string, y: string)
    requires Renumberable(g, m) && x in g.nodeAttrs && y in g.nodeAttrs
    ensures Lookup(m, x) == Lookup(m, y) ==> x == y
  {
    LookupNode(g, m, x);
    LookupNode(g, m, y);
    if x in Originals(m) && y in Originals(m) {
      var i :| 0 <= i < |m| && Originals(m)[i] == x;
      var j :| 0 <= j < |m| && Originals(m)[j] == y;
      LookupMapped(m, i);
      LookupMapped(m, j);
      assert NewIds(m)[i] == m[i].1 && NewIds(m)[j] == m[j].1;
    }
  }

  /** Different edges of `g` are rewired to different edges. */
  lemma RewireInjective(g: GraphValue, m: IdMap, e1: Edge, e2: Edge)
    requires Renumberable(g, m) && e1 in g.edgeAttrs && e2 in g.edgeAttrs
    ensures Rewire(m, e1) == Rewire(m, e2) ==> e1 == e2
  {
    LookupInjective(g, m, e1.src, e2.src);
    LookupInjective(g, m, e1.tgt, e2.tgt);
  }

  /** An edge with a mapped endpoint is rewired to an edge `g` does not have. */
  lemma RewireTouching(g: GraphValue, m: IdMap, e: Edge)
    requires Renumberable(g, m) && e in g.edgeAttrs && Touches(e, Elems(Originals(m)))
    ensures Rewire(m, e) !in g.edgeAttrs
    ensures Rewire(m, e).src in NewIds(m) || Rewire(m, e).tgt in NewIds(m)
  {
    LookupNode(g, m, e.src);
    LookupNode(g, m, e.tgt);
  }

  /** An edge with no mapped endpoint is rewired to itself. */
  lemma RewireAvoiding(g: GraphValue, m: IdMap, e: Edge)
    requires !Touches(e, Elems(Originals(m)))
    ensures Rewire(m, e) == e
  {
    LookupUnmapped(m, e.src);
    LookupUnmapped(m, e.tgt);
  }

  // -- first loop --

  /** The node dicts after the first loop: every new id holds its original's dict. */
  function CopiedAttrs(na: map<string, Dict>, m: IdMap): map<string, Dict>
    decreases |m|
  {
    if m == [] then na
    else
      var ca := CopiedAttrs(na, m[..|m| - 1]);
      var p := m[|m| - 1];
      if p.0 in na then ca[p.1 := na[p.0]] else ca
  }

  /** `CopiedAttrs` adds the new ids and keeps every other dict. */
  lemma {:induction false} CopiedAttrsFacts(na: map<string, Dict>, m: IdMap)
    requires forall i | 0 <= i < |m| :: m[i].0 in na
    requires Distinct(NewIds(m))
    ensures forall x :: x in CopiedAttrs(na, m) <==> x in na || x in NewIds(m)
    ensures forall x | x in na && x !in NewIds(m) :: CopiedAttrs(na, m)[x] == na[x]
    ensures forall i | 0 <= i < |m| :: CopiedAttrs(na, m)[m[i].1] == na[m[i].0]
    decreases |m|
  {
    if m != [] {
      var m' := m[..|m| - 1];
      assert NewIds(m) == NewIds(m') + [m[|m| - 1].1];
      assert NewIds(m') == NewIds(m)[..|m| - 1];
      DistinctPrefix(NewIds(m), |m| - 1);
      CopiedAttrsFacts(na, m');
      forall i | 0 <= i < |m| - 1
        ensures CopiedAttrs(na, m)[m[i].1] == na[m[i].0]
      {
        assert m'[i] == m[i];
        assert NewIds(m)[i] != NewIds(m)[|m| - 1];
      }
    }
  }

  /** The first loop in closed form: the new ids are appended in mapping order. */
  lemma {:induction false} CopyNodesClosed(g: GraphValue, m: IdMap)
    requires Renumberable(g, m)
    ensures CopyNodes(g, m) == g.(nodes := g.nodes + NewIds(m), nodeAttrs := CopiedAttrs(g.nodeAttrs, m))
    decreases |m|
  {
    if m == [] {
      assert NewIds(m) == [];
      assert g.nodes + [] == g.nodes;
    } else {
      var m' := m[..|m| - 1];
      var o, n := m[|m| - 1].0, m[|m| - 1].1;
      RenumberablePrefix(g, m, |m| - 1);
      CopyNodesClosed(g, m');
      CopyNodeStep(g, m);
    }
  }

  lemma CopyNodeStep(g: GraphValue, m: IdMap)
    requires Renumberable(g, m) && m != []
    ensures var m', o, n := m[..|m| - 1], m[|m| - 1].0, m[|m| - 1].1;
      var g' := g.(nodes := g.nodes + NewIds(m'), nodeAttrs := CopiedAttrs(g.nodeAttrs, m'));
      && o in g'.nodeAttrs
      && AddNodeTo(g', n, g'.nodeAttrs[o]) == g.(nodes := g.nodes + NewIds(m), nodeAttrs := CopiedAttrs(g.nodeAttrs, m))
  {
    var m', o, n := m[..|m| - 1], m[|m| - 1].0, m[|m| - 1].1;
    var na := CopiedAttrs(g.nodeAttrs, m');
    RenumberablePrefix(g, m, |m| - 1);
    RenumberableSides(g, m');
    CopiedAttrsFacts(g.nodeAttrs, m');
    assert n !in NewIds(m') by {
      forall j | 0 <= j < |m'|
        ensures NewIds(m')[j] != n
      {
        assert NewIds(m)[j] != NewIds(m)[|m| - 1];
      }
    }
    assert na[o] == g.nodeAttrs[o];
    UpdateEmpty(g.nodeAttrs[o]);
    assert NewIds(m) == NewIds(m') + [n];
    assert g.nodes + NewIds(m') + [n] == g.nodes + NewIds(m);
  }

  lemma {:induction false} CopyNodesWellFormed(g: GraphValue, m: IdMap)
    requires WellFormed(g)
    ensures WellFormed(CopyNodes(g, m))
    decreases |m|
  {
    if m != [] {
      var m' := m[..|m| - 1];
      CopyNodesWellFormed(g, m');
      var g' := CopyNodes(g, m');
      var p := m[|m| - 1];
      if p.0 in g'.nodeAttrs {
        AddNodeWellFormed(g', p.1, g'.nodeAttrs[p.0]);
      }
    }
  }

  // -- second loop --

  /** The dicts of the edges that touch none of `xs`. */
  function KeptEdgeAttrs(g: GraphValue, xs: set<string>): map<Edge, Dict> {
    map e | e in g.edgeAttrs && !Touches(e, xs) :: g.edgeAttrs[e]
  }

  /** The graph after the second loop: the originals and every edge
      touching one are gone. */
  function Dropped(g: GraphValue, m: IdMap): GraphValue {
    var xs := Elems(Originals(m));
    GraphValue(Omit(g.nodes, xs) + NewIds(m), CopiedAttrs(g.nodeAttrs, m) - xs,
               Avoiding(g.edges, xs), KeptEdgeAttrs(g, xs))
  }

  lemma DroppedClosed(g: GraphValue, m: IdMap)
    requires Renumberable(g, m)
    ensures RemoveNodesFrom(CopyNodes(g, m), Originals(m)) == Dropped(g, m)
    ensures WellFormed(Dropped(g, m))
  {
    var xs := Elems(Originals(m));
    CopyNodesClosed(g, m);
    CopyNodesWellFormed(g, m);
    RenumberableSides(g, m);
    RemoveNodesIsRestrict(CopyNodes(g, m), Originals(m));
    RestrictWellFormed(CopyNodes(g, m), xs);
    OmitConcat(g.nodes, NewIds(m), xs);
    OmitNothing(NewIds(m), xs);
  }

  /** A node of `g` is looked up to a node present after the second loop. */
  lemma LookupPresent(g: GraphValue, m: IdMap, x: string)
    requires Renumberable(g, m) && x in g.nodeAttrs
    ensures Lookup(m, x) in Dropped(g, m).nodeAttrs
  {
    RenumberableSides(g, m);
    LookupNode(g, m, x);
    CopiedAttrsFacts(g.nodeAttrs, m);
  }

  // -- last loop --

  /** The edges of `es` touching `xs`, order kept. */
  function Touching(es: seq<Edge>, xs: set<string>): (r: seq<Edge>)
    ensures forall e :: e in r <==> e in es && Touches(e, xs)
    ensures Distinct(es) ==> Distinct(r)
  {
    if es == [] then []
    else
      var rest := Touching(es[..|es| - 1], xs);
      var last := es[|es| - 1];
      assert es == es[..|es| - 1] + [last];
      if !Touches(last, xs) then rest
      else
        assert Distinct(es) ==> last !in es[..|es| - 1];
        rest + [last]
  }

  /** Every edge either touches `xs` or avoids it. */
  lemma {:induction false} TouchingAvoidingCount(es: seq<Edge>, xs: set<string>)
    ensures |Avoiding(es, xs)| + |Touching(es, xs)| == |es|
    decreases |es|
  {
    if es != [] {
      TouchingAvoidingCount(es[..|es| - 1], xs);
    }
  }

  function RewireAll(m: IdMap, es: seq<Edge>): (r: seq<Edge>)
    ensures |r| == |es| && forall i | 0 <= i < |es| :: r[i] == Rewire(m, es[i])
  {
    seq(|es|, i requires 0 <= i < |es| => Rewire(m, es[i]))
  }

  /** The dicts of the rewired copies of those of the first `k` edges of `g`
      that touch `xs`. */
  function RewiredAttrs(g: GraphValue, m: IdMap, xs: set<string>, k: nat): map<Edge, Dict>
    requires k <= |g.edges| && forall i | 0 <= i < |g.edges| :: g.edges[i] in g.edgeAttrs
  {
    if k == 0 then map[]
    else
      var ra := RewiredAttrs(g, m, xs, k - 1);
      var e := g.edges[k - 1];
      if Touches(e, xs) then ra[Rewire(m, e) := g.edgeAttrs[e]] else ra
  }

  /** `h`, the graph before the last loop, has every looked-up node, no edge
      `g` lacks and every edge of `g` touching no original, with its dict. */
  ghost predicate ReadyToRewire(g: GraphValue, m: IdMap, h: GraphValue) {
    && (forall x | x in g.nodeAttrs :: Lookup(m, x) in h.nodeAttrs)
    && (forall e | e in h.edgeAttrs :: e in g.edgeAttrs && !Touches(e, Elems(Originals(m))))
    && (forall e | e in g.edgeAttrs && !Touches(e, Elems(Originals(m))) ::
          e in h.edgeAttrs && h.edgeAttrs[e] == g.edgeAttrs[e])
  }

  lemma DroppedReady(g: GraphValue, m: IdMap)
    requires Renumberable(g, m)
    ensures ReadyToRewire(g, m, Dropped(g, m))
  {
    forall x | x in g.nodeAttrs
      ensures Lookup(m, x) in Dropped(g, m).nodeAttrs
    {
      LookupPresent(g, m, x);
    }
  }

  /** `h` after the first `k` iterations of the last loop: the edges
      touching an original come back, rewired, after those that did not
      touch one. */
  function Rewired(h: GraphValue, g: GraphValue, m: IdMap, k: nat): GraphValue
    requires k <= |g.edges| && forall i | 0 <= i < |g.edges| :: g.edges[i] in g.edgeAttrs
  {
    var xs := Elems(Originals(m));
    h.(edges := h.edges + RewireAll(m, Touching(g.edges[..k], xs)),
       edgeAttrs := h.edgeAttrs + RewiredAttrs(g, m, xs, k))
  }

  lemma TouchingSnoc(g: GraphValue, xs: set<string>, k: nat)
    requires k < |g.edges|
    ensures Touching(g.edges[..k + 1], xs) ==
      Touching(g.edges[..k], xs) + (if Touches(g.edges[k], xs) then [g.edges[k]] else [])
  {
    assert g.edges[..k + 1][..k] == g.edges[..k];
  }

  lemma RewireAllSnoc(m: IdMap, es: seq<Edge>, e: Edge)
    ensures RewireAll(m, es + [e]) == RewireAll(m, es) + [Rewire(m, e)]
  {
  }

  /** The keys of `RewiredAttrs` are the rewired edges. */
  lemma {:induction false} RewiredKeys(g: GraphValue, m: IdMap, xs: set<string>, k: nat)
    requires k <= |g.edges| && forall i | 0 <= i < |g.edges| :: g.edges[i] in g.edgeAttrs
    ensures forall e :: e in RewiredAttrs(g, m, xs, k) <==> e in RewireAll(m, Touching(g.edges[..k], xs))
    decreases k
  {
    if k > 0 {
      RewiredKeys(g, m, xs, k - 1);
      TouchingSnoc(g, xs, k - 1);
      var e := g.edges[k - 1];
      if Touches(e, xs) {
        RewireAllSnoc(m, Touching(g.edges[..k - 1], xs), e);
        assert Touching(g.edges[..k], xs) == Touching(g.edges[..k - 1], xs) + [e];
        assert RewiredAttrs(g, m, xs, k) == RewiredAttrs(g, m, xs, k - 1)[Rewire(m, e) := g.edgeAttrs[e]];
      } else {
        assert Touching(g.edges[..k], xs) == Touching(g.edges[..k - 1], xs);
        assert RewiredAttrs(g, m, xs, k) == RewiredAttrs(g, m, xs, k - 1);
      }
    }
  }

  /** Each rewired edge comes from an edge of `g` touching an original. */
  lemma RewiredOrigin(g: GraphValue, m: IdMap, k: nat, e: Edge)
    requires WellFormed(g) && k <= |g.edges|
    requires e in RewireAll(m, Touching(g.edges[..k], Elems(Originals(m))))
    ensures exists j :: 0 <= j < k && Touches(g.edges[j], Elems(Originals(m))) && e == Rewire(m, g.edges[j])
  {
    var ts := Touching(g.edges[..k], Elems(Originals(m)));
    var i :| 0 <= i < |ts| && RewireAll(m, ts)[i] == e;
    assert ts[i] in g.edges[..k];
    var j :| 0 <= j < k && g.edges[..k][j] == ts[i];
    assert g.edges[j] == ts[i];
  }

  /** The rewired edges are new edges with a renamed endpoint. */
  lemma RewiredFresh(g: GraphValue, m: IdMap, k: nat, e: Edge)
    requires Renumberable(g, m) && k <= |g.edges|
    requires e in RewireAll(m, Touching(g.edges[..k], Elems(Originals(m))))
    ensures e !in g.edgeAttrs && (e.src in NewIds(m) || e.tgt in NewIds(m))
  {
    RewiredOrigin(g, m, k, e);
    var j :| 0 <= j < k && Touches(g.edges[j], Elems(Originals(m))) && e == Rewire(m, g.edges[j]);
    RewireTouching(g, m, g.edges[j]);
  }

  /** The rewired copy of an edge differs from those of all earlier edges. */
  lemma RewiredNew(g: GraphValue, m: IdMap, k: nat)
    requires Renumberable(g, m) && k < |g.edges|
    ensures Rewire(m, g.edges[k]) !in RewireAll(m, Touching(g.edges[..k], Elems(Originals(m))))
  {
    if Rewire(m, g.edges[k]) in RewireAll(m, Touching(g.edges[..k], Elems(Originals(m)))) {
      RewiredOrigin(g, m, k, Rewire(m, g.edges[k]));
      var j :| 0 <= j < k && Touches(g.edges[j], Elems(Originals(m))) &&
        Rewire(m, g.edges[k]) == Rewire(m, g.edges[j]);
      RewireInjective(g, m, g.edges[j], g.edges[k]);
    }
  }

  /** Rewiring keeps a sequence of edges distinct when it is injective on them. */
  lemma RewireAllDistinct(m: IdMap, es: seq<Edge>)
    requires Distinct(es)
    requires forall e1, e2 | e1 in es && e2 in es :: Rewire(m, e1) == Rewire(m, e2) ==> e1 == e2
    ensures Distinct(RewireAll(m, es))
  {
  }

  lemma RewiredDistinct(g: GraphValue, m: IdMap, k: nat)
    requires Renumberable(g, m) && k <= |g.edges|
    ensures Distinct(RewireAll(m, Touching(g.edges[..k], Elems(Originals(m)))))
  {
    var ts := Touching(g.edges[..k], Elems(Originals(m)));
    DistinctPrefix(g.edges, k);
    forall e1, e2 | e1 in ts && e2 in ts
      ensures Rewire(m, e1) == Rewire(m, e2) ==> e1 == e2
    {
      RewireInjective(g, m, e1, e2);
    }
    RewireAllDistinct(m, ts);
  }

  /** The rewired copy of an edge holds that edge's dict. */
  lemma {:induction false} RewiredValue(g: GraphValue, m: IdMap, k: nat, j: nat)
    requires Renumberable(g, m) && j < k <= |g.edges| && Touches(g.edges[j], Elems(Originals(m)))
    ensures Rewire(m, g.edges[j]) in RewiredAttrs(g, m, Elems(Originals(m)), k)
    ensures RewiredAttrs(g, m, Elems(Originals(m)), k)[Rewire(m, g.edges[j])] == g.edgeAttrs[g.edges[j]]
    decreases k
  {
    if j < k - 1 {
      RewiredValue(g, m, k - 1, j);
      RewireInjective(g, m, g.edges[j], g.edges[k - 1]);
    }
  }

  /** One more edge that touches no original leaves `Rewired` as it was. */
  lemma RewiredSnocKept(h: GraphValue, g: GraphValue, m: IdMap, k: nat)
    requires k < |g.edges| && forall i | 0 <= i < |g.edges| :: g.edges[i] in g.edgeAttrs
    requires !Touches(g.edges[k], Elems(Originals(m)))
    ensures Rewired(h, g, m, k + 1) == Rewired(h, g, m, k)
  {
    TouchingSnoc(g, Elems(Originals(m)), k);
  }

  /** One more edge that touches an original appends its rewired copy to `Rewired`. */
  lemma RewiredSnocMoved(h: GraphValue, g: GraphValue, m: IdMap, k: nat)
    requires k < |g.edges| && forall i | 0 <= i < |g.edges| :: g.edges[i] in g.edgeAttrs
    requires Touches(g.edges[k], Elems(Originals(m)))
    ensures var cur, e' := Rewired(h, g, m, k), Rewire(m, g.edges[k]);
      Rewired(h, g, m, k + 1) ==
        cur.(edges := cur.edges + [e'], edgeAttrs := cur.edgeAttrs[e' := g.edgeAttrs[g.edges[k]]])
  {
    var xs := Elems(Originals(m));
    TouchingSnoc(g, xs, k);
    RewireAllSnoc(m, Touching(g.edges[..k], xs), g.edges[k]);
    MapUnionUpdate(h.edgeAttrs, RewiredAttrs(g, m, xs, k), Rewire(m, g.edges[k]), g.edgeAttrs[g.edges[k]]);
  }

  /** An iteration for an edge that touches no original adds it back as it was. */
  lemma RewireKept(h: GraphValue, g: GraphValue, m: IdMap, k: nat)
    requires Renumberable(g, m) && ReadyToRewire(g, m, h)
    requires k < |g.edges| && !Touches(g.edges[k], Elems(Originals(m)))
    ensures RewireStepOf(Rewired(h, g, m, k), m, g.edges[k], g.edgeAttrs[g.edges[k]]) == Rewired(h, g, m, k + 1)
  {
    var e := g.edges[k];
    RewireAvoiding(g, m, e);
    RewiredKeys(g, m, Elems(Originals(m)), k);
    if e in RewireAll(m, Touching(g.edges[..k], Elems(Originals(m)))) {
      RewiredFresh(g, m, k, e);
    }
    ReAddSame(Rewired(h, g, m, k), m, e, g.edgeAttrs[e]);
    RewiredSnocKept(h, g, m, k);
  }

  /** Adding an edge again with the dict it already has changes nothing. */
  lemma ReAddSame(cur: GraphValue, m: IdMap, e: Edge, d: Dict)
    requires Rewire(m, e) == e && e.src in cur.nodeAttrs && e.tgt in cur.nodeAttrs
    requires e in cur.edgeAttrs && cur.edgeAttrs[e] == d && WfDict(d)
    ensures RewireStepOf(cur, m, e, d) == cur
  {
    UpdateIdempotent(d, d);
    assert cur.edgeAttrs[e := d] == cur.edgeAttrs;
  }

  /** Adding a rewired edge that is not there yet appends it with a copy of its dict. */
  lemma AddFresh(cur: GraphValue, m: IdMap, e: Edge, d: Dict)
    requires Rewire(m, e).src in cur.nodeAttrs && Rewire(m, e).tgt in cur.nodeAttrs
    requires Rewire(m, e) !in cur.edgeAttrs && WfDict(d) && Touches(e, Elems(Originals(m)))
    ensures RewireStepOf(cur, m, e, d) ==
      cur.(edges := cur.edges + [Rewire(m, e)], edgeAttrs := cur.edgeAttrs[Rewire(m, e) := d])
  {
    UpdateEmpty(d);
  }

  /** An iteration for an edge that touches an original adds its rewired copy last. */
  lemma RewireMoved(h: GraphValue, g: GraphValue, m: IdMap, k: nat)
    requires Renumberable(g, m) && ReadyToRewire(g, m, h)
    requires k < |g.edges| && Touches(g.edges[k], Elems(Originals(m)))
    ensures RewireStepOf(Rewired(h, g, m, k), m, g.edges[k], g.edgeAttrs[g.edges[k]]) == Rewired(h, g, m, k + 1)
  {
    var e := g.edges[k];
    RewireTouching(g, m, e);
    RewiredKeys(g, m, Elems(Originals(m)), k);
    RewiredNew(g, m, k);
    AddFresh(Rewired(h, g, m, k), m, e, g.edgeAttrs[e]);
    RewiredSnocMoved(h, g, m, k);
  }

  lemma MapUnionUpdate<K, V>(a: map<K, V>, b: map<K, V>, k: K, v: V)
    ensures (a + b)[k := v] == a + b[k := v]
  {
  }

  /** The last loop in closed form. */
  lemma {:induction false} RewireEdgesClosed(h: GraphValue, g: GraphValue, m: IdMap, k: nat)
    requires Renumberable(g, m) && ReadyToRewire(g, m, h) && k <= |g.edges|
    ensures RewireEdges(h, EdgesWithData(g)[..k], m) == Rewired(h, g, m, k)
    decreases k
  {
    if k == 0 {
      RewiredZero(h, g, m);
    } else {
      RewireEdgesClosed(h, g, m, k - 1);
      RewireEdgesSnoc(h, EdgesWithData(g), m, k);
      RewireEdgeStep(h, g, m, k - 1);
    }
  }

  lemma RewiredZero(h: GraphValue, g: GraphValue, m: IdMap)
    requires forall i | 0 <= i < |g.edges| :: g.edges[i] in g.edgeAttrs
    ensures RewireEdges(h, EdgesWithData(g)[..0], m) == Rewired(h, g, m, 0) == h
  {
    assert EdgesWithData(g)[..0] == [];
    assert g.edges[..0] == [];
    assert h.edges + [] == h.edges;
    assert h.edgeAttrs + map[] == h.edgeAttrs;
  }

  /** One iteration of the last loop, whichever kind of edge it meets. */
  lemma RewireEdgeStep(h: GraphValue, g: GraphValue, m: IdMap, k: nat)
    requires Renumberable(g, m) && ReadyToRewire(g, m, h) && k < |g.edges|
    ensures RewireStepOf(Rewired(h, g, m, k), m, EdgesWithData(g)[k].0, EdgesWithData(g)[k].1) ==
      Rewired(h, g, m, k + 1)
  {
    if Touches(g.edges[k], Elems(Originals(m))) {
      RewireMoved(h, g, m, k);
    } else {
      RewireKept(h, g, m, k);
    }
  }

  lemma RewireEdgesSnoc(h: GraphValue, all: seq<(Edge, Dict)>, m: IdMap, k: nat)
    requires 0 < k <= |all|
    ensures RewireEdges(h, all[..k], m) ==
      RewireStepOf(RewireEdges(h, all[..k - 1], m), m, all[k - 1].0, all[k - 1].1)
  {
    assert all[..k][..k - 1] == all[..k - 1];
  }

  lemma {:induction false} RewireEdgesWellFormed(h: GraphValue, all: seq<(Edge, Dict)>, m: IdMap)
    requires WellFormed(h) && forall i | 0 <= i < |all| :: WfDict(all[i].1)
    ensures WellFormed(RewireEdges(h, all, m))
    decreases |all|
  {
    if all != [] {
      RewireEdgesWellFormed(h, all[..|all| - 1], m);
      var g' := RewireEdges(h, all[..|all| - 1], m);
      var (e, d) := all[|all| - 1];
      AddEdgeWellFormed(g', Lookup(m, e.src), Lookup(m, e.tgt), e.key, SavedData(g', m, e, d));
    }
  }

  // ---- What renumbering guarantees ----

  /** The three loops in closed form, for a collision-free mapping. */
  lemma RenumberedClosed(g: GraphValue, m: IdMap)
    requires Renumberable(g, m)
    ensures Renumbered(g, m) == Rewired(Dropped(g, m), g, m, |g.edges|)
  {
    DroppedClosed(g, m);
    RewireDropped(g, m);
  }

  lemma RewireDropped(g: GraphValue, m: IdMap)
    requires Renumberable(g, m)
    ensures RewireEdges(Dropped(g, m), EdgesWithData(g), m) == Rewired(Dropped(g, m), g, m, |g.edges|)
  {
    DroppedReady(g, m);
    RewireEdgesClosed(Dropped(g, m), g, m, |g.edges|);
    TakeAll(EdgesWithData(g));
  }

  lemma TakeAll<T>(s: seq<T>)
    ensures s[..|s|] == s
  {
  }

  /** Whatever the mapping, every edge endpoint is a node afterwards, no
      edge occurs twice and every dict is a Python dict. */
  lemma RenumberedWellFormed(g: GraphValue, m: IdMap)
    requires WellFormed(g)
    ensures WellFormed(Renumbered(g, m))
  {
    CopyNodesWellFormed(g, m);
    RemoveNodesIsRestrict(CopyNodes(g, m), Originals(m));
    RestrictWellFormed(CopyNodes(g, m), Elems(Originals(m)));
    RewireEdgesWellFormed(RemoveNodesFrom(CopyNodes(g, m), Originals(m)), EdgesWithData(g), m);
  }

  /** The unmapped nodes stay in order, followed by the new ids in mapping
      order: as many nodes as before. */
  lemma DroppedNodes(g: GraphValue, m: IdMap)
    requires Renumberable(g, m)
    ensures Dropped(g, m).nodes == Omit(g.nodes, Elems(Originals(m))) + NewIds(m)
    ensures |Dropped(g, m).nodes| == |g.nodes|
  {
    var xs := Elems(Originals(m));
    RenumberableSides(g, m);
    OmitCount(g.nodes, xs);
    assert Elems(g.nodes) * xs == xs;
    DistinctCard(Originals(m));
  }

  /** Each new id holds its original's dict, no original is left, and every
      unmapped node keeps its dict. */
  lemma DroppedNodeAttrs(g: GraphValue, m: IdMap)
    requires Renumberable(g, m)
    ensures forall i | 0 <= i < |m| :: m[i].0 !in Dropped(g, m).nodeAttrs
    ensures forall i | 0 <= i < |m| ::
      m[i].1 in Dropped(g, m).nodeAttrs && Dropped(g, m).nodeAttrs[m[i].1] == g.nodeAttrs[m[i].0]
    ensures forall x | x in g.nodeAttrs && x !in Originals(m) ::
      x in Dropped(g, m).nodeAttrs && Dropped(g, m).nodeAttrs[x] == g.nodeAttrs[x]
  {
    RenumberableSides(g, m);
    CopiedAttrsFacts(g.nodeAttrs, m);
  }

  /** Every edge of `g` comes back with its endpoints looked up, holding its
      old dict. */
  lemma RewiredEdgeAttrs(h: GraphValue, g: GraphValue, m: IdMap, e: Edge)
    requires Renumberable(g, m) && ReadyToRewire(g, m, h) && e in g.edgeAttrs
    ensures var r := Rewired(h, g, m, |g.edges|);
      Rewire(m, e) in r.edgeAttrs && r.edgeAttrs[Rewire(m, e)] == g.edgeAttrs[e]
  {
    var xs := Elems(Originals(m));
    var n := |g.edges|;
    var j :| 0 <= j < n && g.edges[j] == e;
    if Touches(e, xs) {
      RewiredValue(g, m, n, j);
    } else {
      RewireAvoiding(g, m, e);
      RewiredKeys(g, m, Elems(Originals(m)), n);
      if e in RewireAll(m, Touching(g.edges[..n], xs)) {
        RewiredFresh(g, m, n, e);
      }
    }
  }

  /** Every edge afterwards is the rewired copy of an edge of `g`. */
  lemma RewiredEdgeOrigin(h: GraphValue, g: GraphValue, m: IdMap, e': Edge)
    requires WellFormed(g) && ReadyToRewire(g, m, h)
    requires e' in Rewired(h, g, m, |g.edges|).edgeAttrs
    ensures exists e :: e in g.edgeAttrs && e' == Rewire(m, e)
  {
    var n := |g.edges|;
    RewiredKeys(g, m, Elems(Originals(m)), n);
    if e' in RewiredAttrs(g, m, Elems(Originals(m)), n) {
      RewiredOrigin(g, m, n, e');
    } else {
      RewireAvoiding(g, m, e');
    }
  }

  /** The edges touching no original stay in order, followed by the
      rewired copies of the others: as many edges as before. */
  lemma RewiredEdgeOrder(g: GraphValue, m: IdMap)
    requires WellFormed(g)
    ensures var xs := Elems(Originals(m));
      && Rewired(Dropped(g, m), g, m, |g.edges|).edges == Avoiding(g.edges, xs) + RewireAll(m, Touching(g.edges, xs))
      && |Rewired(Dropped(g, m), g, m, |g.edges|).edges| == |g.edges|
  {
    TakeAll(g.edges);
    TouchingAvoidingCount(g.edges, Elems(Originals(m)));
  }

  // ---- What reassignment guarantees ----

  /** After reassignment every edge endpoint is a node and no edge occurs
      twice, even when the new ids collide with existing ones. */
  lemma ReassignWellFormed(g: GraphValue, removed: set<string>, added: set<string>, nNodes: nat)
    requires WellFormed(g)
    ensures WellFormed(ReassignSpec(g, removed, added, nNodes))
  {
    RenumberedWellFormed(g, MappingFrom(Survivors(g.nodes, removed, added), nNodes + 1));
  }

  /** After reassignment the node count is unchanged: the removed and added
      nodes keep their ids and dicts and their order, followed by the new ids
      in mapping order, each with its original's dict; no original remains. */
  lemma ReassignNodes(g: GraphValue, removed: set<string>, added: set<string>, nNodes: nat)
    requires WellFormed(g) && NoIdInNewRange(g, nNodes)
    ensures var m := MappingFrom(Survivors(g.nodes, removed, added), nNodes + 1);
      var r := ReassignSpec(g, removed, added, nNodes);
      && r.nodes == Omit(g.nodes, Elems(Originals(m))) + NewIds(m)
      && |r.nodes| == |g.nodes|
      && (forall i | 0 <= i < |m| :: m[i].0 !in r.nodeAttrs)
      && (forall i | 0 <= i < |m| ::
            m[i].1 in r.nodeAttrs && m[i].0 in g.nodeAttrs && r.nodeAttrs[m[i].1] == g.nodeAttrs[m[i].0])
      && (forall x | x in g.nodeAttrs && (x in removed || x in added) ::
            x in r.nodeAttrs && r.nodeAttrs[x] == g.nodeAttrs[x])
  {
    var m := MappingFrom(Survivors(g.nodes, removed, added), nNodes + 1);
    MappingRenumberable(g, removed, added, nNodes);
    MappingFacts(g, removed, added, nNodes);
    RenumberedClosed(g, m);
    DroppedNodes(g, m);
    DroppedNodeAttrs(g, m);
  }

  /** After reassignment the edges that touched no renamed node stay in
      order, followed by the rewired copies of the others: the edge count is
      unchanged. */
  lemma ReassignEdgeOrder(g: GraphValue, removed: set<string>, added: set<string>, nNodes: nat)
    requires WellFormed(g) && NoIdInNewRange(g, nNodes)
    ensures var m := MappingFrom(Survivors(g.nodes, removed, added), nNodes + 1);
      var r := ReassignSpec(g, removed, added, nNodes);
      && r.edges == Avoiding(g.edges, Elems(Originals(m))) + RewireAll(m, Touching(g.edges, Elems(Originals(m))))
      && |r.edges| == |g.edges|
  {
    var m := MappingFrom(Survivors(g.nodes, removed, added), nNodes + 1);
    MappingRenumberable(g, removed, added, nNodes);
    RenumberedClosed(g, m);
    RewiredEdgeOrder(g, m);
  }

  /** After reassignment every edge of `g` is present with its endpoints
      looked up in the mapping, holding its old dict. */
  lemma ReassignEdgeAttrs(g: GraphValue, removed: set<string>, added: set<string>, nNodes: nat, e: Edge)
    requires WellFormed(g) && NoIdInNewRange(g, nNodes) && e in g.edgeAttrs
    ensures var m := MappingFrom(Survivors(g.nodes, removed, added), nNodes + 1);
      var r := ReassignSpec(g, removed, added, nNodes);
      Rewire(m, e) in r.edgeAttrs && r.edgeAttrs[Rewire(m, e)] == g.edgeAttrs[e]
  {
    var m := MappingFrom(Survivors(g.nodes, removed, added), nNodes + 1);
    MappingRenumberable(g, removed, added, nNodes);
    RenumberedClosed(g, m);
    DroppedReady(g, m);
    RewiredEdgeAttrs(Dropped(g, m), g, m, e);
  }

  /** After reassignment every edge is an edge of `g` with its endpoints
      looked up in the mapping. */
  lemma ReassignEdgeOrigin(g: GraphValue, removed: set<string>, added: set<string>, nNodes: nat, e': Edge)
    requires WellFormed(g) && NoIdInNewRange(g, nNodes)
    requires e' in ReassignSpec(g, removed, added, nNodes).edgeAttrs
    ensures var m := MappingFrom(Survivors(g.nodes, removed, added), nNodes + 1);
      exists e :: e in g.edgeAttrs && e' == Rewire(m, e)
  {
    var m := MappingFrom(Survivors(g.nodes, removed, added), nNodes + 1);
    MappingRenumberable(g, removed, added, nNodes);
    RenumberedClosed(g, m);
    DroppedReady(g, m);
    RewiredEdgeOrigin(Dropped(g, m), g, m, e');
  }

  /** `reassign_entity_ids(G, removed, added, n_nodes)`. */
  method ReassignEntityIds(g: MultiDiGraph, removed: set<string>, added: set<string>, nNodes: nat)
    returns (mapping: IdMap)
    requires g.Valid()
    modifies g
    ensures mapping == MappingFrom(Survivors(old(g.nodes), removed, added), nNodes + 1)
    ensures g.Valid() && g.Value() == ReassignSpec(old(g.Value()), removed, added, nNodes)
  {
    var currentNodes := g.nodes;
    var surviving := Omit(currentNodes, removed + added);
    mapping := BuildMapping(surviving, nNodes + 1);
    var allEdges := EdgesWithData(g.Value());
    CopyMappedNodes(g, mapping);
    g.RemoveNodes(Originals(mapping));
    RewireSavedEdges(g, allEdges, mapping);
  }

  /** The loop that numbers the survivors from `start` on. */
  method BuildMapping(surviving: seq<string>, start: nat) returns (mapping: IdMap)
    ensures mapping == MappingFrom(surviving, start)
  {
    mapping := [];
    var counter := start;
    for i := 0 to |surviving|
      invariant counter == start + i
      invariant mapping == MappingFrom(surviving[..i], start)
    {
      mapping := mapping + [(surviving[i], EntityId(counter))];
      counter := counter + 1;
    }
    assert surviving[..|surviving|] == surviving;
  }

  /** The loop that copies each mapped node's dict to its new id. */
  method CopyMappedNodes(g: MultiDiGraph, mapping: IdMap)
    requires g.Valid()
    modifies g
    ensures g.Valid() && g.Value() == CopyNodes(old(g.Value()), mapping)
  {
    ghost var g0 := g.Value();
    for i := 0 to |mapping|
      invariant g.Valid() && g.Value() == CopyNodes(g0, mapping[..i])
    {
      assert mapping[..i + 1][..i] == mapping[..i];
      var (original, newId) := mapping[i];
      if g.HasNode(original) {
        g.AddNode(newId, g.nodeAttrs[original]);
      }
    }
    assert mapping[..|mapping|] == mapping;
  }

  /** The loop that adds every saved edge again between its looked-up endpoints. */
  method RewireSavedEdges(g: MultiDiGraph, allEdges: seq<(Edge, Dict)>, mapping: IdMap)
    requires g.Valid()
    requires forall i | 0 <= i < |allEdges| :: WfDict(allEdges[i].1)
    modifies g
    ensures g.Valid() && g.Value() == RewireEdges(old(g.Value()), allEdges, mapping)
  {
    ghost var g0 := g.Value();
    for i := 0 to |allEdges|
      invariant g.Valid() && g.Value() == RewireEdges(g0, allEdges[..i], mapping)
    {
      assert allEdges[..i + 1][..i] == allEdges[..i];
      var (e, data) := allEdges[i];
      var newSrc := Lookup(mapping, e.src);
      var newTgt := Lookup(mapping, e.tgt);
      if g.HasNode(newSrc) && g.HasNode(newTgt) {
        if !Touches(e, Elems(Originals(mapping))) && e in g.edgeAttrs {
          // the saved dict is the graph's own and may have been merged into
          data := g.edgeAttrs[e];
        }
        var _ := g.AddEdge(newSrc, newTgt, Some(e.key), data);
      }
    }
    assert allEdges[..|allEdges|] == allEdges;
  }

  // ---- A clash that shows the saved dicts are live ----

  const ClashE1 := Edge("a", "b", IntKey(0))
  const ClashE2 := Edge("e2", "b", IntKey(0))
  const OneT: Dict := [("t", Num(1))]
  const TwoT: Dict := [("t", Num(2))]
  const ClashMap: IdMap := [("a", "e2")]

  /** Nodes `a`, `e2`, `b`; edge `(a, b, 0)` with `{t: 1}`, then `(e2, b, 0)`
      with `{t: 2}`. With `n_nodes = 1` and `e2`, `b` added, `a` is renamed
      `e2`, which is already a node. */
  const ClashGraph := GraphValue(["a", "e2", "b"], map["a" := [], "e2" := [], "b" := []],
    [ClashE1, ClashE2], map[ClashE1 := OneT, ClashE2 := TwoT])

  /** `ClashGraph` after the second loop: `a` and its edge are gone. */
  const ClashDropped := GraphValue(["e2", "b"], map["e2" := [], "b" := []], [ClashE2], map[ClashE2 := TwoT])

  lemma OmitSnoc(s: seq<string>, x: string, xs: set<string>)
    ensures Omit(s + [x], xs) == if x in xs then Omit(s, xs) else Omit(s, xs) + [x]
  {
    assert (s + [x])[..|s|] == s;
  }

  lemma AvoidingSnoc(es: seq<Edge>, e: Edge, xs: set<string>)
    ensures Avoiding(es + [e], xs) == if Touches(e, xs) then Avoiding(es, xs) else Avoiding(es, xs) + [e]
  {
    assert (es + [e])[..|es|] == es;
  }

  lemma ClashSurvivors()
    ensures Survivors(ClashGraph.nodes, {}, {"e2", "b"}) == ["a"]
  {
    var xs: set<string> := {"e2", "b"};
    var none: set<string> := {};
    assert none + xs == xs;
    assert "a" != "e2" && "a" != "b";
    assert ClashGraph.nodes == [] + ["a"] + ["e2"] + ["b"];
    assert Omit([], xs) == [];
    OmitSnoc([], "a", xs);
    OmitSnoc(["a"], "e2", xs);
    OmitSnoc(["a", "e2"], "b", xs);
  }

  lemma ClashMapping()
    ensures MappingFrom(Survivors(ClashGraph.nodes, {}, {"e2", "b"}), 2) == ClashMap
  {
    ClashSurvivors();
    var m := MappingFrom(["a"], 2);
    assert |m| == 1 && m[0] == ("a", EntityId(2));
    assert NatToString(2) == [DigitChar(2)] == "2";
    assert EntityId(2) == "e2";
  }

  lemma ClashCopied()
    ensures CopyNodes(ClashGraph, ClashMap) == ClashGraph
  {
    assert ClashMap[..0] == [];
    assert Update([], []) == [];
    assert ClashGraph.nodeAttrs["e2" := []] == ClashGraph.nodeAttrs;
  }

  lemma ClashOmitA()
    ensures Omit(ClashGraph.nodes, {"a"}) == ["e2", "b"]
  {
    assert ClashGraph.nodes == [] + ["a"] + ["e2"] + ["b"];
    OmitSnoc([], "a", {"a"});
    OmitSnoc(["a"], "e2", {"a"});
    OmitSnoc(["a", "e2"], "b", {"a"});
  }

  lemma ClashAvoidA()
    ensures Avoiding(ClashGraph.edges, {"a"}) == [ClashE2]
  {
    assert ClashGraph.edges == [] + [ClashE1] + [ClashE2];
    AvoidingSnoc([], ClashE1, {"a"});
    AvoidingSnoc([ClashE1], ClashE2, {"a"});
  }

  lemma ClashRemoveNodeAttrs()
    ensures ClashGraph.nodeAttrs - {"a"} == ClashDropped.nodeAttrs
  {
  }

  lemma ClashRemoveEdgeAttrs()
    ensures (map e | e in ClashGraph.edgeAttrs && !Touches(e, {"a"}) :: ClashGraph.edgeAttrs[e])
         == ClashDropped.edgeAttrs
  {
    assert Touches(ClashE1, {"a"}) && !Touches(ClashE2, {"a"});
  }

  lemma ClashRemoveA()
    ensures RemoveNodeFrom(ClashGraph, "a") == ClashDropped
  {
    ClashOmitA();
    ClashAvoidA();
    ClashRemoveNodeAttrs();
    ClashRemoveEdgeAttrs();
  }

  lemma ClashDroppedIs()
    ensures RemoveNodesFrom(CopyNodes(ClashGraph, ClashMap), Originals(ClashMap)) == ClashDropped
  {
    ClashCopied();
    var xs := Originals(ClashMap);
    assert xs == ["a"] && xs[..0] == [];
    ClashRemoveA();
  }

  lemma ClashOriginals()
    ensures Elems(Originals(ClashMap)) == {"a"}
  {
    assert Originals(ClashMap) == ["a"];
    assert "a" in Originals(ClashMap);
  }

  /** The first saved edge merges `{t: 1}` into the dict of `(e2, b, 0)`. */
  lemma ClashFirstStep()
    ensures RewireStepOf(ClashDropped, ClashMap, ClashE1, OneT) ==
      ClashDropped.(edgeAttrs := map[ClashE2 := OneT])
  {
    ClashOriginals();
    assert Update(TwoT, OneT) == OneT;
  }

  /** The second saved edge re-reads that merged dict, so it stays `{t: 1}`. */
  lemma ClashSecondStep()
    ensures RewireStepOf(ClashDropped.(edgeAttrs := map[ClashE2 := OneT]), ClashMap, ClashE2, TwoT) ==
      ClashDropped.(edgeAttrs := map[ClashE2 := OneT])
  {
    ClashOriginals();
    assert Update(OneT, OneT) == OneT;
    var g := ClashDropped.(edgeAttrs := map[ClashE2 := OneT]);
    assert g.edgeAttrs[ClashE2 := OneT] == g.edgeAttrs;
  }

  /** Reassignment with a clash: the edge `(e2, b, 0)` ends with `{t: 1}`, the
      dict the renamed edge merged into it, and not with its own saved `{t: 2}`. */
  lemma LiveDictClash()
    ensures var r := ReassignSpec(ClashGraph, {}, {"e2", "b"}, 1);
      ClashE2 in r.edgeAttrs && r.edgeAttrs[ClashE2] == OneT
  {
    ClashMapping();
    ClashDroppedIs();
    var all := EdgesWithData(ClashGraph);
    assert all == [(ClashE1, OneT), (ClashE2, TwoT)];
    assert all[..1] == [(ClashE1, OneT)] && all[..1][..0] == [];
    ClashFirstStep();
    ClashSecondStep();
    var merged := ClashDropped.(edgeAttrs := map[ClashE2 := OneT]);
    assert RewireEdges(ClashDropped, all[..1], ClashMap) == merged;
    assert RewireEdges(ClashDropped, all, ClashMap) == merged;
    assert ReassignSpec(ClashGraph, {}, {"e2", "b"}, 1) == RewireEdges(ClashDropped, all, ClashMap);
  }
}
