/** `kg_perturbator/perturbator.py`: the `KGPerturbator` pipeline. The
    structural operators and the reassignment come from `Utils` and
    `Reassign`; the three LLM passes only decide which nodes and edges are
    eligible and how the text a rewriter returns is written back. A
    rewriter is an arbitrary function of the dict it is shown; the empty
    string is how the wrappers report that they produced nothing. */
module Perturbator {

  import opened Wrappers
  import opened Seqs
  import opened Json
  import opened Graph
  import opened Utils
  import opened Reassign
  import opened Conversion
  import opened ConversionFacts

  /** An LLM call on a node's or an edge's dict; `""` means no answer. */
  type Rewriter = Dict -> string

  /** The three calls of the provider `get_llm_provider_from_config` builds. */
  datatype Provider = Provider(renameEntity: Rewriter, renameRelation: Rewriter, synthesizeDescription: Rewriter)

  // ---- Passes over the nodes ----

  /** A node pass: the node's new dict, or `None` when the node is left alone. */
  type NodeRewrite = Dict -> Option<Dict>

  ghost predicate KeepsWf(f: NodeRewrite) {
    forall a :: WfDict(a) && f(a).Some? ==> WfDict(f(a).value)
  }

  /** The node dicts once the nodes in `xs` have been visited. */
  function RewrittenAttrs(na: map<string, Dict>, xs: set<string>, f: NodeRewrite): map<string, Dict> {
    map x | x in na :: if x in xs && f(na[x]).Some? then f(na[x]).value else na[x]
  }

  /** The graph once the nodes in `xs` have been visited. */
  function PartlyRewritten(g: GraphValue, xs: set<string>, f: NodeRewrite): GraphValue {
    g.(nodeAttrs := RewrittenAttrs(g.nodeAttrs, xs, f))
  }

  /** The graph after a node pass over every node. */
  function RewriteNodesIn(g: GraphValue, f: NodeRewrite): GraphValue {
    PartlyRewritten(g, g.nodeAttrs.Keys, f)
  }

  /** The nodes a pass changes, in node order: the keys of the dict it returns. */
  function Changed(nodes: seq<string>, na: map<string, Dict>, f: NodeRewrite): seq<string>
    decreases |nodes|
  {
    if nodes == [] then []
    else
      var x := nodes[|nodes| - 1];
      Changed(nodes[..|nodes| - 1], na, f) + (if x in na && f(na[x]).Some? then [x] else [])
  }

  /** `{x: x for x in xs}`. */
  function IdentityOn(xs: seq<string>): (m: IdMap)
    ensures |m| == |xs|
    ensures forall i | 0 <= i < |xs| :: m[i] == (xs[i], xs[i])
  {
    seq(|xs|, i requires 0 <= i < |xs| => (xs[i], xs[i]))
  }

  /** Visiting one more node `x` writes `f`'s answer for its original
      dict, which no earlier step has touched. */
  lemma RewriteStep(g: GraphValue, done: set<string>, x: string, f: NodeRewrite)
    requires KeepsWf(f) && x in g.nodeAttrs && x !in done && WfDict(g.nodeAttrs[x])
    ensures var cur, next, a := PartlyRewritten(g, done, f), PartlyRewritten(g, done + {x}, f), g.nodeAttrs[x];
      && x in cur.nodeAttrs && cur.nodeAttrs[x] == a
      && (f(a).Some? ==> WfDict(f(a).value) && SetNodeAttrsIn(cur, x, f(a).value) == next)
      && (f(a).None? ==> cur == next)
  {
    RewrittenSnoc(g.nodeAttrs, done, x, f);
  }

  lemma RewrittenNone(na: map<string, Dict>, f: NodeRewrite)
    ensures RewrittenAttrs(na, {}, f) == na
  {
  }

  lemma RewrittenSnoc(na: map<string, Dict>, xs: set<string>, x: string, f: NodeRewrite)
    requires x in na && x !in xs
    ensures RewrittenAttrs(na, xs + {x}, f)
         == RewrittenAttrs(na, xs, f)[x := if f(na[x]).Some? then f(na[x]).value else na[x]]
  {
  }

  lemma ChangedSnoc(nodes: seq<string>, na: map<string, Dict>, f: NodeRewrite, i: nat)
    requires i < |nodes|
    ensures Changed(nodes[..i + 1], na, f)
         == Changed(nodes[..i], na, f) + (if nodes[i] in na && f(na[nodes[i]]).Some? then [nodes[i]] else [])
  {
    assert nodes[..i + 1][..i] == nodes[..i];
  }

  /** One iteration of a node pass: `f`'s answer, if any, replaces the
      node's dict. */
  method RewriteNode(g: MultiDiGraph, f: NodeRewrite, x: string) returns (rewritten: bool)
    requires g.Valid() && x in g.nodeAttrs && KeepsWf(f)
    modifies g
    ensures rewritten == f(old(g.nodeAttrs[x])).Some?
    ensures g.Valid()
    ensures g.Value() == if rewritten then SetNodeAttrsIn(old(g.Value()), x, f(old(g.nodeAttrs[x])).value) else old(g.Value())
  {
    var r := f(g.nodeAttrs[x]);
    rewritten := r.Some?;
    if rewritten {
      g.SetNodeAttrs(x, r.value);
    }
  }

  /** `for node_id, attrs in G.nodes(data=True)`, writing back what `f`
      returns and recording the node. */
  method RewriteNodes(g: MultiDiGraph, f: NodeRewrite) returns (changed: seq<string>)
    requires g.Valid() && KeepsWf(f)
    modifies g
    ensures g.Valid() && g.Value() == RewriteNodesIn(old(g.Value()), f)
    ensures changed == Changed(old(g.nodes), old(g.nodeAttrs), f)
  {
    ghost var g0 := g.Value();
    var nodes := g.nodes;
    changed := [];
    assert Elems(nodes[..0]) == {};
    RewrittenNone(g0.nodeAttrs, f);
    for i := 0 to |nodes|
      invariant g.Valid() && g.Value() == PartlyRewritten(g0, Elems(nodes[..i]), f)
      invariant changed == Changed(nodes[..i], g0.nodeAttrs, f)
    {
      var x := nodes[i];
      DistinctNotEarlier(nodes, i);
      SliceSnoc(nodes, i);
      ElemsSnoc(nodes[..i], x);
      RewriteStep(g0, Elems(nodes[..i]), x, f);
      ChangedSnoc(nodes, g0.nodeAttrs, f, i);
      var rewritten := RewriteNode(g, f, x);
      if rewritten {
        changed := changed + [x];
      }
    }
    SliceAll(nodes);
    assert Elems(nodes) == g0.nodeAttrs.Keys;
  }

  /** A node pass keeps the graph well formed and changes only the dicts
      `f` rewrites: each node holds `f`'s answer for its old dict, if any. */
  lemma RewriteNodesFacts(g: GraphValue, f: NodeRewrite)
    requires WellFormed(g) && KeepsWf(f)
    ensures var r := RewriteNodesIn(g, f);
      && WellFormed(r) && r.nodes == g.nodes && r.edges == g.edges && r.edgeAttrs == g.edgeAttrs
      && r.nodeAttrs.Keys == g.nodeAttrs.Keys
      && forall x | x in g.nodeAttrs ::
           r.nodeAttrs[x] == if f(g.nodeAttrs[x]).Some? then f(g.nodeAttrs[x]).value else g.nodeAttrs[x]
  {
  }

  /** The returned dict holds exactly the nodes the pass rewrote, each once,
      in node order. */
  lemma {:induction false} ChangedFacts(nodes: seq<string>, na: map<string, Dict>, f: NodeRewrite)
    requires Distinct(nodes)
    ensures forall x :: x in Changed(nodes, na, f) <==> x in nodes && x in na && f(na[x]).Some?
    ensures Distinct(Changed(nodes, na, f))
    decreases |nodes|
  {
    if nodes != [] {
      var n := |nodes| - 1;
      DistinctPrefix(nodes, n);
      ChangedFacts(nodes[..n], na, f);
      DistinctNotEarlier(nodes, n);
      assert nodes == nodes[..n] + [nodes[n]];
      var c := Changed(nodes[..n], na, f);
      if nodes[n] in na && f(na[nodes[n]]).Some? {
        DistinctAppend(c, nodes[n]);
      } else {
        assert Changed(nodes, na, f) == c;
      }
    }
  }

  /** The dict of renamed ids maps each of them to itself. */
  lemma {:induction false} IdentityLookup(xs: seq<string>, x: string)
    ensures Lookup(IdentityOn(xs), x) == x
    decreases |xs|
  {
    if xs != [] {
      assert IdentityOn(xs)[1..] == IdentityOn(xs[1..]);
      IdentityLookup(xs[1..], x);
    }
  }

  // ---- rename_entities_with_llm ----

  /** The guard `"name" in attrs and attrs["name"]`. */
  predicate HasName(a: Dict) {
    Truthy(GetOr(a, "name", Null))
  }

  /** The name written back: element 0 replaced for a (non-empty) list,
      the whole name otherwise. */
  function NewName(prev: Value, s: string): Value {
    if prev.List? && |prev.items| > 0 then List(prev.items[0 := Str(s)]) else Str(s)
  }

  /** One node of `rename_entities_with_llm`. */
  function RenameEntity(rename: Rewriter, a: Dict): Option<Dict> {
    if HasName(a) && rename(a) != "" then Some(Set(a, "name", NewName(GetOr(a, "name", Null), rename(a))))
    else None
  }

  /** A node is renamed exactly when it has a truthy name and the rewriter
      answers; then only its name changes, keeping its place among the keys:
      a list name gets the answer as element 0, any other name becomes it. */
  lemma RenameEntityFacts(rename: Rewriter, a: Dict)
    requires WfDict(a)
    ensures RenameEntity(rename, a).Some? <==> HasName(a) && rename(a) != ""
    ensures RenameEntity(rename, a).Some? ==>
      var r, prev := RenameEntity(rename, a).value, GetOr(a, "name", Null);
      && WfDict(r) && Keys(r) == Keys(a)
      && (forall k | k != "name" :: Get(r, k) == Get(a, k))
      && Get(r, "name") == Some(if prev.List? then List([Str(rename(a))] + prev.items[1..]) else Str(rename(a)))
  {
    if HasName(a) && rename(a) != "" {
      var prev := GetOr(a, "name", Null);
      GetKeys(a, "name");
      SetKeysInPlace(a, "name", NewName(prev, rename(a)));
      forall k
        ensures Get(RenameEntity(rename, a).value, k) == if k == "name" then Some(NewName(prev, rename(a))) else Get(a, k)
      {
        SetGet(a, "name", NewName(prev, rename(a)), k);
      }
      if prev.List? {
        assert prev.items[0 := Str(rename(a))] == [Str(rename(a))] + prev.items[1..];
      }
    }
  }

  /** `rename_entities_with_llm` as a node pass. */
  function RenamePass(rename: Rewriter): NodeRewrite {
    a => RenameEntity(rename, a)
  }

  lemma RenameEntityKeepsWf(rename: Rewriter)
    ensures KeepsWf(RenamePass(rename))
  {
    forall a | WfDict(a) && RenameEntity(rename, a).Some?
      ensures WfDict(RenameEntity(rename, a).value)
    {
      RenameEntityFacts(rename, a);
    }
  }

  /** `rename_entities_with_llm(G, llm_config)`. */
  method RenameEntities(g: MultiDiGraph, rename: Rewriter) returns (renamed: IdMap)
    requires g.Valid()
    modifies g
    ensures g.Valid() && g.Value() == RewriteNodesIn(old(g.Value()), RenamePass(rename))
    ensures renamed == IdentityOn(Changed(old(g.nodes), old(g.nodeAttrs), RenamePass(rename)))
  {
    RenameEntityKeepsWf(rename);
    var changed := RewriteNodes(g, RenamePass(rename));
    renamed := IdentityOn(changed);
  }

  // ---- perturb_entities_with_llm ----

  /** `llm_config.get("update_name", False)` and
      `llm_config.get("update_description", True)`, read as truth values. */
  datatype DescribeOptions = DescribeOptions(updateName: bool, updateDescription: bool)

  function DescribeOptionsOf(llm: Dict): (o: DescribeOptions)
    ensures "update_name" !in Keys(llm) ==> !o.updateName
    ensures "update_description" !in Keys(llm) ==> o.updateDescription
  {
    DescribeOptions(Truthy(GetOr(llm, "update_name", Bool(false))),
                    Truthy(GetOr(llm, "update_description", Bool(true))))
  }

  /** The three skips: random entities, nodes with no field but `"id"`, and
      nodes without a truthy name. */
  predicate Describable(a: Dict) {
    && Get(a, "type") != Some(Str("RandomEntity"))
    && Without(a, {"id"}) != []
    && Truthy(GetOr(a, "name", Null))
  }

  /** The writes of `perturb_entities_with_llm` for the list `d` holding
      the answer. */
  function Describe(o: DescribeOptions, a: Dict, d: Value): Dict {
    var a' := if o.updateDescription then Set(a, "description", d) else a;
    if o.updateName then Set(a', "name", d) else a'
  }

  /** One node of `perturb_entities_with_llm`. */
  function DescribeEntity(synthesize: Rewriter, o: DescribeOptions, a: Dict): Option<Dict> {
    if Describable(a) && synthesize(a) != "" then Some(Describe(o, a, List([Str(synthesize(a))])))
    else None
  }

  /** `description` becomes `d` when that option is on, `name` becomes `d`
      when that one is, and nothing else changes. */
  lemma DescribeFacts(o: DescribeOptions, a: Dict, d: Value)
    requires WfDict(a)
    ensures var r := Describe(o, a, d);
      && WfDict(r)
      && (forall k | k != "name" && k != "description" :: Get(r, k) == Get(a, k))
      && Get(r, "description") == (if o.updateDescription then Some(d) else Get(a, "description"))
      && Get(r, "name") == (if o.updateName then Some(d) else Get(a, "name"))
  {
    var a' := if o.updateDescription then Set(a, "description", d) else a;
    if o.updateDescription {
      SetAll(a, "description", d);
    }
    if o.updateName {
      SetAll(a', "name", d);
    }
  }

  /** A node is described exactly when it is not skipped and the rewriter
      answers `s`; then it holds the writes of `Describe` for `[s]`. */
  lemma DescribeEntityFacts(synthesize: Rewriter, o: DescribeOptions, a: Dict)
    requires WfDict(a)
    ensures DescribeEntity(synthesize, o, a).Some? <==> Describable(a) && synthesize(a) != ""
    ensures DescribeEntity(synthesize, o, a).Some? ==>
      var r, d := DescribeEntity(synthesize, o, a).value, List([Str(synthesize(a))]);
      && WfDict(r)
      && (forall k | k != "name" && k != "description" :: Get(r, k) == Get(a, k))
      && Get(r, "description") == (if o.updateDescription then Some(d) else Get(a, "description"))
      && Get(r, "name") == (if o.updateName then Some(d) else Get(a, "name"))
  {
    DescribeFacts(o, a, List([Str(synthesize(a))]));
  }

  /** `d[k] = v` on a well-formed dict, key by key. */
  lemma SetAll(d: Dict, k: string, v: Value)
    requires WfDict(d)
    ensures WfDict(Set(d, k, v))
    ensures forall j :: Get(Set(d, k, v), j) == if j == k then Some(v) else Get(d, j)
  {
    SetKeys(d, k, v);
    forall j
      ensures Get(Set(d, k, v), j) == if j == k then Some(v) else Get(d, j)
    {
      SetGet(d, k, v, j);
    }
  }

  /** Random entities are never described. */
  lemma RandomEntitiesKept(synthesize: Rewriter, o: DescribeOptions, a: Dict)
    requires Get(a, "type") == Some(Str("RandomEntity"))
    ensures DescribeEntity(synthesize, o, a) == None
  {
  }

  /** `perturb_entities_with_llm` as a node pass. */
  function DescribePass(synthesize: Rewriter, o: DescribeOptions): NodeRewrite {
    a => DescribeEntity(synthesize, o, a)
  }

  lemma DescribeEntityKeepsWf(synthesize: Rewriter, o: DescribeOptions)
    ensures KeepsWf(DescribePass(synthesize, o))
  {
    forall a | WfDict(a) && DescribeEntity(synthesize, o, a).Some?
      ensures WfDict(DescribeEntity(synthesize, o, a).value)
    {
      DescribeEntityFacts(synthesize, o, a);
    }
  }

  /** `perturb_entities_with_llm(G, llm_config)`. */
  method PerturbEntities(g: MultiDiGraph, synthesize: Rewriter, o: DescribeOptions) returns (perturbed: IdMap)
    requires g.Valid()
    modifies g
    ensures g.Valid() && g.Value() == RewriteNodesIn(old(g.Value()), DescribePass(synthesize, o))
    ensures perturbed == IdentityOn(Changed(old(g.nodes), old(g.nodeAttrs), DescribePass(synthesize, o)))
  {
    DescribeEntityKeepsWf(synthesize, o);
    var changed := RewriteNodes(g, DescribePass(synthesize, o));
    perturbed := IdentityOn(changed);
  }

  // ---- rename_relations_with_llm ----

  /** One edge of `rename_relations_with_llm`: a truthy `type` gets the
      rewriter's answer. */
  function RetypeRelation(rename: Rewriter, a: Dict): Option<Dict> {
    if Truthy(GetOr(a, "type", Null)) && rename(a) != "" then Some(Set(a, "type", Str(rename(a)))) else None
  }

  /** An edge is retyped exactly when its `type` is truthy and the rewriter
      answers; then its `type` is the answer and nothing else changes. */
  lemma RetypeRelationFacts(rename: Rewriter, a: Dict)
    requires WfDict(a)
    ensures RetypeRelation(rename, a).Some? <==> Truthy(GetOr(a, "type", Null)) && rename(a) != ""
    ensures RetypeRelation(rename, a).Some? ==>
      var r := RetypeRelation(rename, a).value;
      && WfDict(r) && Keys(r) == Keys(a)
      && Get(r, "type") == Some(Str(rename(a)))
      && forall k | k != "type" :: Get(r, k) == Get(a, k)
  {
    if Truthy(GetOr(a, "type", Null)) && rename(a) != "" {
      GetKeys(a, "type");
      SetKeysInPlace(a, "type", Str(rename(a)));
      forall k
        ensures Get(RetypeRelation(rename, a).value, k) == if k == "type" then Some(Str(rename(a))) else Get(a, k)
      {
        SetGet(a, "type", Str(rename(a)), k);
      }
    }
  }

  /** The edge dicts once the edges in `es` have been visited. */
  function RetypedAttrs(ea: map<Edge, Dict>, es: set<Edge>, rename: Rewriter): map<Edge, Dict> {
    map e | e in ea :: if e in es && RetypeRelation(rename, ea[e]).Some? then RetypeRelation(rename, ea[e]).value else ea[e]
  }

  function PartlyRetyped(g: GraphValue, es: set<Edge>, rename: Rewriter): GraphValue {
    g.(edgeAttrs := RetypedAttrs(g.edgeAttrs, es, rename))
  }

  /** The graph after `rename_relations_with_llm`. */
  function RenameRelationsIn(g: GraphValue, rename: Rewriter): GraphValue {
    PartlyRetyped(g, g.edgeAttrs.Keys, rename)
  }

  /** Visiting one more edge `e` retypes its original dict. */
  lemma RetypeStep(g: GraphValue, done: set<Edge>, e: Edge, rename: Rewriter)
    requires e in g.edgeAttrs && e !in done && WfDict(g.edgeAttrs[e])
    ensures var cur, next, a := PartlyRetyped(g, done, rename), PartlyRetyped(g, done + {e}, rename), g.edgeAttrs[e];
      && e in cur.edgeAttrs && cur.edgeAttrs[e] == a
      && (RetypeRelation(rename, a).Some? ==>
            WfDict(RetypeRelation(rename, a).value) && SetEdgeAttrsIn(cur, e, RetypeRelation(rename, a).value) == next)
      && (RetypeRelation(rename, a).None? ==> cur == next)
  {
    RetypeRelationFacts(rename, g.edgeAttrs[e]);
    RetypedSnoc(g.edgeAttrs, done, e, rename);
  }

  lemma RetypedNone(ea: map<Edge, Dict>, rename: Rewriter)
    ensures RetypedAttrs(ea, {}, rename) == ea
  {
  }

  lemma RetypedSnoc(ea: map<Edge, Dict>, es: set<Edge>, e: Edge, rename: Rewriter)
    requires e in ea && e !in es
    ensures RetypedAttrs(ea, es + {e}, rename)
         == RetypedAttrs(ea, es, rename)[e := if RetypeRelation(rename, ea[e]).Some? then RetypeRelation(rename, ea[e]).value else ea[e]]
  {
  }

  /** `rename_relations_with_llm(G, llm_config)`. */
  method RenameRelations(g: MultiDiGraph, rename: Rewriter)
    requires g.Valid()
    modifies g
    ensures g.Valid() && g.Value() == RenameRelationsIn(old(g.Value()), rename)
  {
    ghost var g0 := g.Value();
    var edges := g.edges;
    assert Elems(edges[..0]) == {};
    RetypedNone(g0.edgeAttrs, rename);
    for i := 0 to |edges|
      invariant g.Valid() && g.Value() == PartlyRetyped(g0, Elems(edges[..i]), rename)
    {
      var e := edges[i];
      DistinctNotEarlier(edges, i);
      SliceSnoc(edges, i);
      ElemsSnoc(edges[..i], e);
      RetypeStep(g0, Elems(edges[..i]), e, rename);
      var a := g.edgeAttrs[e];
      if Truthy(GetOr(a, "type", Null)) {
        var t := rename(a);
        if t != "" {
          g.SetEdgeAttrs(e, Set(a, "type", Str(t)));
        }
      }
    }
    SliceAll(edges);
    assert Elems(edges) == g0.edgeAttrs.Keys;
  }

  /** Retyping keeps the graph well formed and changes no node, no endpoint
      and no key: only the dicts of edges with a truthy type. */
  lemma RenameRelationsFacts(g: GraphValue, rename: Rewriter)
    requires WellFormed(g)
    ensures var r := RenameRelationsIn(g, rename);
      && WellFormed(r) && r.nodes == g.nodes && r.nodeAttrs == g.nodeAttrs && r.edges == g.edges
      && r.edgeAttrs.Keys == g.edgeAttrs.Keys
      && forall e | e in g.edgeAttrs && !Truthy(GetOr(g.edgeAttrs[e], "type", Null)) ::
           r.edgeAttrs[e] == g.edgeAttrs[e]
  {
    RetypedAttrsFacts(g.edgeAttrs, g.edgeAttrs.Keys, rename);
    RenameRelationsWellFormed(g, rename);
  }

  lemma RenameRelationsWellFormed(g: GraphValue, rename: Rewriter)
    requires WellFormed(g)
    ensures WellFormed(RenameRelationsIn(g, rename))
  {
    RetypedAttrsFacts(g.edgeAttrs, g.edgeAttrs.Keys, rename);
  }

  /** Visiting edges keeps the edge set and well-formed dicts, and leaves
      the dicts without a truthy type alone. */
  lemma RetypedAttrsFacts(ea: map<Edge, Dict>, es: set<Edge>, rename: Rewriter)
    requires forall e | e in ea :: WfDict(ea[e])
    ensures var r := RetypedAttrs(ea, es, rename);
      && (forall e :: e in r <==> e in ea)
      && (forall e | e in r :: WfDict(r[e]))
      && forall e | e in ea && !Truthy(GetOr(ea[e], "type", Null)) :: r[e] == ea[e]
  {
    var r := RetypedAttrs(ea, es, rename);
    forall e | e in r
      ensures WfDict(r[e])
    {
      RetypeRelationFacts(rename, ea[e]);
    }
  }

  // ---- perturb ----

  /** The entries of `self.config` that `perturb` reads; a zero count or
      `false` stands for a missing or falsy entry, which skips the step. */
  datatype Config = Config(
    removeEntities: nat, addEntities: nat, removeEdges: nat, addEdges: nat,
    llmRenameEntities: bool, llmRenameRelations: bool, llmPerturbEntities: bool)

  /** The graph after the structural steps, with `removed_entities` and
      `added_entities`. */
  datatype Edited = Edited(g: GraphValue, removed: set<string>, added: set<string>)

  /** The ids `remove_random_entities` returns (sampler call 0). */
  function RemovedBy(g: GraphValue, c: Config, sample: Sampler): seq<string>
    requires ValidSampler(sample)
  {
    if c.removeEntities > 0 then ChosenNodes(g, c.removeEntities, sample, 0) else []
  }

  function AfterEntityRemoval(g: GraphValue, c: Config, sample: Sampler): GraphValue
    requires ValidSampler(sample)
  {
    if c.removeEntities > 0 then Restrict(g, Elems(RemovedBy(g, c, sample))) else g
  }

  /** `added.values()`: the last id `add_random_entities` added, if any. */
  function AddedBy(g1: GraphValue, c: Config): set<string> {
    if c.addEntities > 0 then {LastAdded(g1, c.addEntities).value} else {}
  }

  function AfterEntityAddition(g1: GraphValue, c: Config): GraphValue {
    if c.addEntities > 0 then AddRandomEntitiesTo(g1, c.addEntities) else g1
  }

  /** Sampler call 1 chooses the edges removed. */
  function AfterEdgeRemoval(g2: GraphValue, c: Config, sample: Sampler): GraphValue
    requires ValidSampler(sample)
  {
    if c.removeEdges > 0 then WithoutEdges(g2, Elems(ChosenEdges(g2, c.removeEdges, sample, 1))) else g2
  }

  /** The four structural steps in the order `perturb` runs them; sampler
      calls `2 + i` choose the endpoints of the edges added. */
  function EditGraph(g: GraphValue, c: Config, sample: Sampler): Result<Edited>
    requires ValidSampler(sample)
  {
    var g1 := AfterEntityRemoval(g, c, sample);
    var g2 := AfterEntityAddition(g1, c);
    var g3 := AfterEdgeRemoval(g2, c, sample);
    if c.addEdges > 0 && |g3.nodes| < 2 then Err(SampleTooLarge)
    else
      var g4 := if c.addEdges > 0 then AddRandomEdgesTo(g3, RandomEdgeEnds(g3.nodes, c.addEdges, sample, 2)) else g3;
      Ok(Edited(g4, Elems(RemovedBy(g, c, sample)), AddedBy(g1, c)))
  }

  /** The random entities carry `rand_` ids, never an `e{k}` one. */
  lemma {:induction false} AddRandomEntitiesEntityIds(g: GraphValue, n: nat, k: nat)
    requires EntityId(k) in AddRandomEntitiesTo(g, n).nodeAttrs
    ensures EntityId(k) in g.nodeAttrs
    decreases n
  {
    if n > 0 {
      var g' := AddRandomEntitiesTo(g, n - 1);
      RandIdIsNotEntityId(LeastFreeRandIndex(g'.nodeAttrs.Keys, 1), k);
      AddRandomEntitiesEntityIds(g, n - 1, k);
    }
  }

  /** The entity steps: `min(n, |V|)` existing nodes are removed, the node
      count then grows by the number added, `added_entities` is empty or
      holds only the last node, a random entity, and no `e{k}` id appears. */
  lemma EntityStepsFacts(g: GraphValue, c: Config, sample: Sampler)
    requires WellFormed(g) && ValidSampler(sample)
    ensures var g1 := AfterEntityRemoval(g, c, sample);
      var g2 := AfterEntityAddition(g1, c);
      var removed := Elems(RemovedBy(g, c, sample));
      && WellFormed(g1) && WellFormed(g2)
      && removed <= g.nodeAttrs.Keys && |removed| == Min(c.removeEntities, |g.nodes|)
      && |g2.nodes| == |g.nodes| - Min(c.removeEntities, |g.nodes|) + c.addEntities
      && g2.edges == g1.edges
      && (c.addEntities == 0 ==> AddedBy(g1, c) == {})
      && (c.addEntities > 0 ==>
            && |g2.nodes| > 0 && AddedBy(g1, c) == {g2.nodes[|g2.nodes| - 1]}
            && g2.nodeAttrs[g2.nodes[|g2.nodes| - 1]] == RandomEntityAttrs)
      && forall k: nat | EntityId(k) in g2.nodeAttrs :: EntityId(k) in g.nodeAttrs
  {
    RemovalStepFacts(g, c, sample);
    var g1 := AfterEntityRemoval(g, c, sample);
    AdditionStepFacts(g1, c);
    forall k: nat | EntityId(k) in AfterEntityAddition(g1, c).nodeAttrs
      ensures EntityId(k) in g.nodeAttrs
    {
      assert EntityId(k) in g1.nodeAttrs;
    }
  }

  /** The removal step: `min(n, |V|)` existing nodes go. */
  lemma RemovalStepFacts(g: GraphValue, c: Config, sample: Sampler)
    requires WellFormed(g) && ValidSampler(sample)
    ensures var g1 := AfterEntityRemoval(g, c, sample);
      var removed := Elems(RemovedBy(g, c, sample));
      && WellFormed(g1)
      && removed <= g.nodeAttrs.Keys && |removed| == Min(c.removeEntities, |g.nodes|)
      && |g1.nodes| == |g.nodes| - Min(c.removeEntities, |g.nodes|)
      && g1.nodeAttrs.Keys <= g.nodeAttrs.Keys
  {
    if c.removeEntities > 0 {
      RemoveRandomEntitiesFacts(g, c.removeEntities, sample, 0);
      DistinctCard(RemovedBy(g, c, sample));
    }
  }

  /** The addition step: the node count grows by the number added, the
      edges stay, and `added_entities` holds only the last node. */
  lemma AdditionStepFacts(g1: GraphValue, c: Config)
    requires WellFormed(g1)
    ensures var g2 := AfterEntityAddition(g1, c);
      && WellFormed(g2)
      && |g2.nodes| == |g1.nodes| + c.addEntities
      && g2.edges == g1.edges
      && (c.addEntities == 0 ==> AddedBy(g1, c) == {})
      && (c.addEntities > 0 ==>
            && |g2.nodes| > 0 && AddedBy(g1, c) == {g2.nodes[|g2.nodes| - 1]}
            && g2.nodeAttrs[g2.nodes[|g2.nodes| - 1]] == RandomEntityAttrs)
      && forall k: nat | EntityId(k) in g2.nodeAttrs :: EntityId(k) in g1.nodeAttrs
  {
    if c.addEntities > 0 {
      AddRandomEntitiesFacts(g1, c.addEntities);
      LastAddedIsLastNode(g1, c.addEntities);
      forall k: nat | EntityId(k) in AfterEntityAddition(g1, c).nodeAttrs
        ensures EntityId(k) in g1.nodeAttrs
      {
        AddRandomEntitiesEntityIds(g1, c.addEntities, k);
      }
    }
  }

  /** The edge steps keep the nodes, remove `min(n, |E|)` edges and add one
      edge per iteration, failing exactly when edges are to be added to a
      graph with fewer than two nodes. */
  lemma EdgeStepsFacts(g2: GraphValue, c: Config, sample: Sampler)
    requires WellFormed(g2) && ValidSampler(sample)
    ensures var g3 := AfterEdgeRemoval(g2, c, sample);
      && WellFormed(g3) && g3.nodes == g2.nodes && g3.nodeAttrs == g2.nodeAttrs
      && |g3.edges| == |g2.edges| - Min(c.removeEdges, |g2.edges|)
      && (c.addEdges > 0 && |g3.nodes| >= 2 ==>
            var g4 := AddRandomEdgesTo(g3, RandomEdgeEnds(g3.nodes, c.addEdges, sample, 2));
            WellFormed(g4) && g4.nodes == g2.nodes && g4.nodeAttrs == g2.nodeAttrs
            && |g4.edges| == |g3.edges| + c.addEdges)
  {
    var g3 := AfterEdgeRemoval(g2, c, sample);
    if c.removeEdges > 0 {
      RemoveRandomEdgesFacts(g2, c.removeEdges, sample, 1);
    }
    if c.addEdges > 0 && |g3.nodes| >= 2 {
      RandomEdgeEndsDiffer(g3.nodes, c.addEdges, sample, 2);
      AddRandomEdgesFacts(g3, RandomEdgeEnds(g3.nodes, c.addEdges, sample, 2));
    }
  }

  /** The structural steps as a whole: the error case, the graph's node and
      edge counts, the two id sets, and no new `e{k}` id. */
  lemma EditGraphFacts(g: GraphValue, c: Config, sample: Sampler)
    requires WellFormed(g) && ValidSampler(sample)
    ensures var nodesLeft := |g.nodes| - Min(c.removeEntities, |g.nodes|) + c.addEntities;
      EditGraph(g, c, sample).Err? <==> c.addEdges > 0 && nodesLeft < 2
    ensures EditGraph(g, c, sample).Ok? ==>
      var ed, e1 := EditGraph(g, c, sample).value, AfterEntityRemoval(g, c, sample).edges;
      && WellFormed(ed.g)
      && |ed.g.nodes| == |g.nodes| - Min(c.removeEntities, |g.nodes|) + c.addEntities
      && |ed.g.edges| == |e1| - Min(c.removeEdges, |e1|) + c.addEdges
      && ed.removed <= g.nodeAttrs.Keys && |ed.removed| == Min(c.removeEntities, |g.nodes|)
      && (c.addEntities == 0 ==> ed.added == {})
      && (c.addEntities > 0 ==>
            && ed.added == {ed.g.nodes[|ed.g.nodes| - 1]}
            && ed.g.nodeAttrs[ed.g.nodes[|ed.g.nodes| - 1]] == RandomEntityAttrs)
      && forall k: nat | EntityId(k) in ed.g.nodeAttrs :: EntityId(k) in g.nodeAttrs
  {
    EntityStepsFacts(g, c, sample);
    EdgeStepsFacts(AfterEntityAddition(AfterEntityRemoval(g, c, sample), c), c, sample);
  }

  /** The three optional content passes, in `perturb`'s order. */
  function ContentPasses(g: GraphValue, c: Config, o: DescribeOptions, p: Provider): GraphValue {
    var g1 := if c.llmRenameEntities then RewriteNodesIn(g, RenamePass(p.renameEntity)) else g;
    var g2 := if c.llmRenameRelations then RenameRelationsIn(g1, p.renameRelation) else g1;
    if c.llmPerturbEntities then RewriteNodesIn(g2, DescribePass(p.synthesizeDescription, o)) else g2
  }

  /** The content passes change neither the nodes nor the edges, only dicts. */
  lemma ContentPassesFacts(g: GraphValue, c: Config, o: DescribeOptions, p: Provider)
    requires WellFormed(g)
    ensures var r := ContentPasses(g, c, o, p);
      && WellFormed(r) && r.nodes == g.nodes && r.edges == g.edges
      && r.nodeAttrs.Keys == g.nodeAttrs.Keys && r.edgeAttrs.Keys == g.edgeAttrs.Keys
    ensures !c.llmRenameEntities && !c.llmRenameRelations && !c.llmPerturbEntities ==> ContentPasses(g, c, o, p) == g
  {
    var g1 := if c.llmRenameEntities then RewriteNodesIn(g, RenamePass(p.renameEntity)) else g;
    if c.llmRenameEntities {
      RenameEntityKeepsWf(p.renameEntity);
      RewriteNodesFacts(g, RenamePass(p.renameEntity));
    }
    var g2 := if c.llmRenameRelations then RenameRelationsIn(g1, p.renameRelation) else g1;
    if c.llmRenameRelations {
      RenameRelationsFacts(g1, p.renameRelation);
    }
    if c.llmPerturbEntities {
      DescribeEntityKeepsWf(p.synthesizeDescription, o);
      RewriteNodesFacts(g2, DescribePass(p.synthesizeDescription, o));
    }
  }

  lemma EditGraphWellFormed(g: GraphValue, c: Config, sample: Sampler)
    requires WellFormed(g) && ValidSampler(sample) && EditGraph(g, c, sample).Ok?
    ensures WellFormed(EditGraph(g, c, sample).value.g)
  {
    EditGraphFacts(g, c, sample);
  }

  lemma ContentPassesWellFormed(g: GraphValue, c: Config, o: DescribeOptions, p: Provider)
    requires WellFormed(g)
    ensures WellFormed(ContentPasses(g, c, o, p))
  {
    ContentPassesFacts(g, c, o, p);
  }

  /** The mapping `reassign_entity_ids` returns after the structural steps. */
  function ReassignMapping(ed: Edited, nNodes: nat): IdMap {
    MappingFrom(Survivors(ed.g.nodes, ed.removed, ed.added), nNodes + 1)
  }

  /** Reassignment and the content passes, after the structural steps. */
  function Finish(ed: Edited, nNodes: nat, c: Config, o: DescribeOptions, p: Provider): (r: GraphValue)
    requires WellFormed(ed.g)
    ensures WellFormed(r)
  {
    ReassignWellFormed(ed.g, ed.removed, ed.added, nNodes);
    var g1 := ReassignSpec(ed.g, ed.removed, ed.added, nNodes);
    ContentPassesWellFormed(g1, c, o, p);
    ContentPasses(g1, c, o, p)
  }

  /** The steps of `perturb` between `json_to_networkx` and
      `networkx_to_json`: the final graph and the mapping. */
  function PerturbGraph(g0: GraphValue, c: Config, o: DescribeOptions, p: Provider, sample: Sampler): (r: Result<(GraphValue, IdMap)>)
    requires WellFormed(g0) && ValidSampler(sample)
    ensures r.Ok? ==> WellFormed(r.value.0)
  {
    var ed :- EditGraph(g0, c, sample);
    EditGraphWellFormed(g0, c, sample);
    Ok((Finish(ed, |g0.nodes|, c, o, p), ReassignMapping(ed, |g0.nodes|)))
  }

  /** `KGPerturbator(config).perturb(kg_json)`: the perturbed KG and the
      mapping from original to new entity ids. */
  function PerturbSpec(kg: Dict, c: Config, llm: Dict, p: Provider, sample: Sampler): Result<(Dict, IdMap)>
    requires WfDeep(kg) && ValidSampler(sample)
  {
    var g0 :- JsonToGraph(kg);
    JsonToGraphWellFormed(kg);
    var r :- PerturbGraph(g0, c, DescribeOptionsOf(llm), p, sample);
    Ok((GraphToJson(r.0), r.1))
  }

  /** `perturb` fails exactly when the input does not load or when edges
      are to be added while fewer than two nodes are left. */
  lemma PerturbFails(kg: Dict, c: Config, llm: Dict, p: Provider, sample: Sampler)
    requires WfDeep(kg) && ValidSampler(sample)
    ensures PerturbSpec(kg, c, llm, p, sample).Err? <==>
      || JsonToGraph(kg).Err?
      || var n := |JsonToGraph(kg).value.nodes|;
         c.addEdges > 0 && n - Min(c.removeEntities, n) + c.addEntities < 2
  {
    if JsonToGraph(kg).Ok? {
      JsonToGraphWellFormed(kg);
      EditGraphFacts(JsonToGraph(kg).value, c, sample);
    }
  }

  /** The mapping `perturb` returns is the reassignment's: its keys are the
      nodes left after the structural steps that are neither in
      `removed_entities` nor in `added_entities`, each once and in node
      order, and its values are `e{n_nodes+1}`, `e{n_nodes+2}`, … for the
      node count `n_nodes` of the loaded graph, so it is injective. */
  lemma PerturbMapping(kg: Dict, c: Config, llm: Dict, p: Provider, sample: Sampler)
    requires WfDeep(kg) && ValidSampler(sample) && PerturbSpec(kg, c, llm, p, sample).Ok?
    ensures var m, g0 := PerturbSpec(kg, c, llm, p, sample).value.1, JsonToGraph(kg).value;
      var ed := EditGraph(g0, c, sample).value;
      && (forall x :: x in Originals(m) <==> x in ed.g.nodes && x !in ed.removed && x !in ed.added)
      && Distinct(Originals(m))
      && (forall i | 0 <= i < |m| :: m[i].1 == EntityId(|g0.nodes| + 1 + i))
      && Distinct(NewIds(m))
  {
    var g0 := JsonToGraph(kg).value;
    JsonToGraphWellFormed(kg);
    EditGraphWellFormed(g0, c, sample);
    var ed := EditGraph(g0, c, sample).value;
    assert PerturbSpec(kg, c, llm, p, sample).value.1 == ReassignMapping(ed, |g0.nodes|);
    MappingFacts(ed.g, ed.removed, ed.added, |g0.nodes|);
  }


  /** The content passes never touch the mapping: with the same counts,
      whatever the switches, the LLM settings and the rewriters, `perturb`
      fails or succeeds alike and returns the same mapping. */
  lemma MappingIgnoresPasses(kg: Dict, c: Config, c': Config, llm: Dict, llm': Dict, p: Provider, p': Provider, sample: Sampler)
    requires WfDeep(kg) && ValidSampler(sample)
    requires c.removeEntities == c'.removeEntities && c.addEntities == c'.addEntities
    requires c.removeEdges == c'.removeEdges && c.addEdges == c'.addEdges
    ensures PerturbSpec(kg, c, llm, p, sample).Ok? <==> PerturbSpec(kg, c', llm', p', sample).Ok?
    ensures PerturbSpec(kg, c, llm, p, sample).Ok? ==>
      PerturbSpec(kg, c, llm, p, sample).value.1 == PerturbSpec(kg, c', llm', p', sample).value.1
  {
    if JsonToGraph(kg).Ok? {
      var g0 := JsonToGraph(kg).value;
      assert EditGraph(g0, c, sample) == EditGraph(g0, c', sample);
    }
  }

  /** Without an `e{k}` clash, reassignment and the content passes keep
      the node and edge counts: the nodes not mapped keep their ids and
      order, followed by the mapping's new ids. */
  lemma FinishFacts(ed: Edited, nNodes: nat, c: Config, o: DescribeOptions, p: Provider)
    requires WellFormed(ed.g) && NoIdInNewRange(ed.g, nNodes)
    ensures var r, m := Finish(ed, nNodes, c, o, p), ReassignMapping(ed, nNodes);
      && r.nodes == Omit(ed.g.nodes, Elems(Originals(m))) + NewIds(m)
      && |r.nodes| == |ed.g.nodes| && |r.edges| == |ed.g.edges|
  {
    ReassignWellFormed(ed.g, ed.removed, ed.added, nNodes);
    ReassignNodes(ed.g, ed.removed, ed.added, nNodes);
    ReassignEdgeOrder(ed.g, ed.removed, ed.added, nNodes);
    ContentPassesFacts(ReassignSpec(ed.g, ed.removed, ed.added, nNodes), c, o, p);
  }

  /** When no node of the input is already called `e{k}` for `k` above its
      node count, the perturbed KG lists the nodes kept under their ids
      (the removed-and-re-added and the added ones) followed by the
      mapping's new ids, one entity per node: `|V| - min(r, |V|) + a`
      entities; its relations are those left after the entity and edge
      removals plus the ones added. */
  lemma PerturbOutput(kg: Dict, c: Config, llm: Dict, p: Provider, sample: Sampler)
    requires WfDeep(kg) && ValidSampler(sample) && PerturbSpec(kg, c, llm, p, sample).Ok?
    requires NoIdInNewRange(JsonToGraph(kg).value, |JsonToGraph(kg).value.nodes|)
    ensures var (out, m) := PerturbSpec(kg, c, llm, p, sample).value;
      var g0 := JsonToGraph(kg).value;
      var ed, e1 := EditGraph(g0, c, sample).value, AfterEntityRemoval(g0, c, sample).edges;
      exists g :: WellFormed(g) && out == GraphToJson(g)
        && g.nodes == Omit(ed.g.nodes, Elems(Originals(m))) + NewIds(m)
        && |g.nodes| == |g0.nodes| - Min(c.removeEntities, |g0.nodes|) + c.addEntities
        && |g.edges| == |e1| - Min(c.removeEdges, |e1|) + c.addEdges
  {
    var g0 := JsonToGraph(kg).value;
    JsonToGraphWellFormed(kg);
    var o := DescribeOptionsOf(llm);
    var r := PerturbGraph(g0, c, o, p, sample);
    assert PerturbSpec(kg, c, llm, p, sample).value == (GraphToJson(r.value.0), r.value.1);
    GraphOutput(g0, c, o, p, sample);
  }

  lemma GraphOutput(g0: GraphValue, c: Config, o: DescribeOptions, p: Provider, sample: Sampler)
    requires WellFormed(g0) && ValidSampler(sample) && PerturbGraph(g0, c, o, p, sample).Ok?
    requires NoIdInNewRange(g0, |g0.nodes|)
    ensures var (g, m) := PerturbGraph(g0, c, o, p, sample).value;
      var ed, e1 := EditGraph(g0, c, sample).value, AfterEntityRemoval(g0, c, sample).edges;
      && g.nodes == Omit(ed.g.nodes, Elems(Originals(m))) + NewIds(m)
      && |g.nodes| == |g0.nodes| - Min(c.removeEntities, |g0.nodes|) + c.addEntities
      && |g.edges| == |e1| - Min(c.removeEdges, |e1|) + c.addEdges
  {
    var n := |g0.nodes|;
    EditGraphFacts(g0, c, sample);
    var ed := EditGraph(g0, c, sample).value;
    assert NoIdInNewRange(ed.g, n);
    FinishFacts(ed, n, c, o, p);
    assert PerturbGraph(g0, c, o, p, sample).value == (Finish(ed, n, c, o, p), ReassignMapping(ed, n));
  }

  /** A graph whose only node is `e1`, with no field. */
  function OneEntity(): GraphValue {
    AddNodeTo(EmptyGraph, "e1", [])
  }

  const AddTwo := Config(0, 2, 0, 0, false, false, false)

  lemma OneEntityAddTwo()
    ensures AddRandomEntitiesTo(OneEntity(), 2).nodes == ["e1", "rand_1", "rand_2"]
    ensures LastAdded(OneEntity(), 2) == Some("rand_2")
  {
    var g := OneEntity();
    assert RandId(1) == "rand_1" && RandId(2) == "rand_2";
    var g1 := AddNodeTo(g, "rand_1", RandomEntityAttrs);
    assert FreshRandId(g) == "rand_1";
    assert AddRandomEntitiesTo(g, 1) == g1;
    assert FreshRandId(g1) == "rand_2";
  }

  lemma OneEntityEdit(sample: Sampler)
    requires ValidSampler(sample)
    ensures EditGraph(OneEntity(), AddTwo, sample) == Ok(Edited(AddRandomEntitiesTo(OneEntity(), 2), {}, {"rand_2"}))
  {
    OneEntityAddTwo();
    assert Elems<string>([]) == {};
  }

  lemma OneEntitySurvivors()
    ensures Survivors(["e1", "rand_1", "rand_2"], {}, {"rand_2"}) == ["e1", "rand_1"]
  {
    assert {} + {"rand_2"} == {"rand_2"};
    assert Omit(["e1", "rand_1"], {"rand_2"}) == ["e1", "rand_1"];
  }

  lemma OneEntityMapping()
    ensures ReassignMapping(Edited(AddRandomEntitiesTo(OneEntity(), 2), {}, {"rand_2"}), 1) == [("e1", "e2"), ("rand_1", "e3")]
  {
    OneEntityAddTwo();
    OneEntitySurvivors();
    assert EntityId(2) == "e2" && EntityId(3) == "e3";
  }

  /** `added_entities` keeps only the last id added, so the earlier random
      entities are renumbered like original ones: adding two entities to a
      graph whose only node is `e1` maps `e1` to `e2` and `rand_1` to `e3`,
      and only `rand_2` keeps its id. */
  lemma EarlierRandomEntitiesRenumbered(o: DescribeOptions, p: Provider, sample: Sampler)
    requires ValidSampler(sample)
    ensures WellFormed(OneEntity())
    ensures EditGraph(OneEntity(), AddTwo, sample).Ok?
    ensures EditGraph(OneEntity(), AddTwo, sample).value.g.nodes == ["e1", "rand_1", "rand_2"]
    ensures EditGraph(OneEntity(), AddTwo, sample).value.added == {"rand_2"}
    ensures PerturbGraph(OneEntity(), AddTwo, o, p, sample).Ok?
    ensures PerturbGraph(OneEntity(), AddTwo, o, p, sample).value.1 == [("e1", "e2"), ("rand_1", "e3")]
  {
    OneEntityAddTwo();
    OneEntityEdit(sample);
    OneEntityMapping();
    assert |OneEntity().nodes| == 1;
  }

  /** The structural steps of `perturb`, with the two id sets. */
  method EditSteps(g: MultiDiGraph, c: Config, sample: Sampler) returns (r: Result<Edited>)
    requires g.Valid() && ValidSampler(sample)
    modifies g
    ensures g.Valid()
    ensures r == EditGraph(old(g.Value()), c, sample)
    ensures r.Ok? ==> g.Value() == r.value.g
  {
    ghost var g0 := g.Value();
    var removedEntities: set<string> := {};
    var addedEntities: set<string> := {};
    if c.removeEntities > 0 {
      var removed := RemoveRandomEntities(g, c.removeEntities, sample, 0);
      removedEntities := removedEntities + Elems(removed);
    }
    ghost var g1 := g.Value();
    assert g1 == AfterEntityRemoval(g0, c, sample) && removedEntities == Elems(RemovedBy(g0, c, sample));
    if c.addEntities > 0 {
      var added := AddRandomEntities(g, c.addEntities);
      addedEntities := addedEntities + if added.Some? then {added.value} else {};
    }
    ghost var g2 := g.Value();
    assert g2 == AfterEntityAddition(g1, c) && addedEntities == AddedBy(g1, c);
    if c.removeEdges > 0 {
      RemoveRandomEdges(g, c.removeEdges, sample, 1);
    }
    assert g.Value() == AfterEdgeRemoval(g2, c, sample);
    if c.addEdges > 0 {
      var done := AddRandomEdges(g, c.addEdges, sample, 2);
      if done.Err? {
        return Err(done.error);
      }
    }
    return Ok(Edited(g.Value(), removedEntities, addedEntities));
  }

  /** The three optional LLM passes of `perturb`; their result dicts are
      not used. */
  method ContentSteps(g: MultiDiGraph, c: Config, o: DescribeOptions, p: Provider)
    requires g.Valid()
    modifies g
    ensures g.Valid() && g.Value() == ContentPasses(old(g.Value()), c, o, p)
  {
    if c.llmRenameEntities {
      var _ := RenameEntities(g, p.renameEntity);
    }
    if c.llmRenameRelations {
      RenameRelations(g, p.renameRelation);
    }
    if c.llmPerturbEntities {
      var _ := PerturbEntities(g, p.synthesizeDescription, o);
    }
  }

  /** The body of `perturb` between loading and converting back: the
      structural steps, reassignment and the content passes, on `g`. */
  method PerturbSteps(g: MultiDiGraph, c: Config, o: DescribeOptions, p: Provider, sample: Sampler)
    returns (r: Result<IdMap>)
    requires g.Valid() && ValidSampler(sample)
    modifies g
    ensures g.Valid()
    ensures var spec := PerturbGraph(old(g.Value()), c, o, p, sample);
      && (r.Err? <==> spec.Err?)
      && (r.Err? ==> spec == Err(r.error))
      && (r.Ok? ==> g.Value() == spec.value.0 && r.value == spec.value.1)
  {
    ghost var g0 := g.Value();
    var nNodes := |g.nodes|;
    var edited := EditSteps(g, c, sample);
    if edited.Err? {
      return Err(edited.error);
    }
    var ed := edited.value;
    EditGraphWellFormed(g0, c, sample);
    var mapping := ReassignEntityIds(g, ed.removed, ed.added, nNodes);
    ghost var g1 := g.Value();
    assert g1 == ReassignSpec(ed.g, ed.removed, ed.added, nNodes);
    ContentSteps(g, c, o, p);
    assert g.Value() == ContentPasses(g1, c, o, p);
    assert g.Value() == Finish(ed, nNodes, c, o, p);
    return Ok(mapping);
  }

  /** `KGPerturbator(config).perturb(kg_json)`, threading one graph through
      the steps. */
  method Perturb(kg: Dict, c: Config, llm: Dict, p: Provider, sample: Sampler) returns (r: Result<(Dict, IdMap)>)
    requires WfDeep(kg) && ValidSampler(sample)
    ensures r == PerturbSpec(kg, c, llm, p, sample)
  {
    var loaded := JsonToNetworkx(kg);
    if loaded.Err? {
      return Err(loaded.error);
    }
    var g := loaded.value;
    JsonToGraphWellFormed(kg);
    var mapping := PerturbSteps(g, c, DescribeOptionsOf(llm), p, sample);
    if mapping.Err? {
      return Err(mapping.error);
    }
    var out := NetworkxToJson(g);
    return Ok((out, mapping.value));
  }
}
