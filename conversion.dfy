/** `kg_perturbator/conversion.py`: a knowledge graph as a JSON dict with
    `"entities"` and `"relations"` lists, and the same graph as a
    `MultiDiGraph`. Loading is a fold over the two lists; dumping reads
    the graph's nodes and edges in order. */
module Conversion {

  import opened Wrappers
  import opened Seqs
  import opened Json
  import opened Graph

  /** Node ids are strings in this model; another value raises. */
  function AsNodeId(v: Value): (r: Result<string>)
    ensures r.Ok? <==> v.Str?
    ensures r.Ok? ==> r.value == v.s
  {
    if v.Str? then Ok(v.s) else Err(TypeError("node id is not a string"))
  }

  // ---- json_to_networkx ----

  /** The id an entity declares: it is a dict whose `"id"` is a string. */
  function DeclaredId(v: Value): Option<string> {
    if v.Obj? && Get(v.fields, "id").Some? && Get(v.fields, "id").value.Str? then
      Some(Get(v.fields, "id").value.s)
    else None
  }

  /** The node dict of an entity: every field but `"id"`. */
  function EntityAttrs(entity: Dict): Dict {
    Without(entity, {"id"})
  }

  /** The name of `add_node`'s own parameter: a field passed on under this
      name by `**attrs` gives that parameter a second value, so the call
      raises TypeError before `add_node` runs. */
  const NodeParam := "node_for_adding"

  /** The names of `add_edge`'s endpoint parameters, which a relation field
      cannot take for the same reason; a `"key"` field is not extra: it
      becomes `add_edge`'s `key` argument. */
  const SourceParam := "u_for_edge"
  const TargetParam := "v_for_edge"

  /** An entity the loop takes: a dict with a string `"id"` and no field
      named `node_for_adding`. */
  predicate EntityLoads(v: Value) {
    DeclaredId(v).Some? && NodeParam !in Keys(v.fields)
  }

  /** One iteration of the entity loop: `G.add_node(entity["id"], **attrs)`. */
  function LoadEntity(g: GraphValue, v: Value): (r: Result<GraphValue>)
    ensures r.Ok? <==> EntityLoads(v)
    ensures r.Ok? ==> r.value == AddNodeTo(g, DeclaredId(v).value, EntityAttrs(v.fields))
  {
    var entity :- AsDict(v);
    var id :- Field(entity, "id");
    if NodeParam in Keys(entity) then Err(TypeError("got multiple values for argument 'node_for_adding'"))
    else
      var x :- AsNodeId(id);
      Ok(AddNodeTo(g, x, EntityAttrs(entity)))
  }

  /** The entity loop over `vs`, stopping at the first entity that raises. */
  function LoadEntities(g: GraphValue, vs: seq<Value>): Result<GraphValue>
    decreases |vs|
  {
    if vs == [] then Ok(g)
    else
      var g' :- LoadEntities(g, vs[..|vs| - 1]);
      LoadEntity(g', vs[|vs| - 1])
  }

  /** The endpoints a relation names: it is a dict whose `"source"` and
      `"target"` are strings. */
  function RelationEnds(v: Value): Option<(string, string)> {
    if v.Obj? && Get(v.fields, "source").Some? && Get(v.fields, "source").value.Str?
       && Get(v.fields, "target").Some? && Get(v.fields, "target").value.Str? then
      Some((Get(v.fields, "source").value.s, Get(v.fields, "target").value.s))
    else None
  }

  /** The edge dict of a relation: `type` (default `""`) first, then every
      field but the endpoints, the type and the key. */
  function RelationAttrs(relation: Dict): Dict {
    [("type", GetOr(relation, "type", Str("")))] + Without(relation, {"source", "target", "type", "key"})
  }

  /** The `key` argument `add_edge` receives from a relation's `"key"`
      field: none without the field or for `None`; `True` and `False` are
      the keys `1` and `0`; a list or a dict is unhashable and raises. */
  function KeyArg(relation: Dict): (r: Result<Option<EdgeKey>>)
    ensures r == Ok(None) <==> Get(relation, "key") == None || Get(relation, "key") == Some(Null)
    ensures r.Err? <==> Get(relation, "key").Some? && (Get(relation, "key").value.List? || Get(relation, "key").value.Obj?)
  {
    match Get(relation, "key")
    case None => Ok(None)
    case Some(k) =>
      match k
      case Null => Ok(None)
      case Bool(b) => Ok(Some(IntKey(if b then 1 else 0)))
      case Num(n) => Ok(Some(IntKey(n)))
      case Str(x) => Ok(Some(StrKey(x)))
      case _ => Err(TypeError("unhashable type"))
  }

  /** A relation the loop takes: a dict with string endpoints, no field
      named like an endpoint parameter of `add_edge`, and a hashable key if
      it has one. */
  predicate RelationLoads(v: Value) {
    && RelationEnds(v).Some?
    && SourceParam !in Keys(v.fields) && TargetParam !in Keys(v.fields)
    && KeyArg(v.fields).Ok?
  }

  /** One iteration of the relation loop: `G.add_edge(src, tgt, type=…, **attrs)`,
      with the key the relation gives or, without one, `new_edge_key`. */
  function LoadRelation(g: GraphValue, v: Value): (r: Result<GraphValue>)
    ensures r.Ok? <==> RelationLoads(v)
    ensures r.Ok? ==>
      var (u, w) := RelationEnds(v).value;
      r.value == AddEdgeTo(g, u, w, KeyOr(KeyArg(v.fields).value, g, u, w), RelationAttrs(v.fields))
  {
    var relation :- AsDict(v);
    var s :- Field(relation, "source");
    var t :- Field(relation, "target");
    if SourceParam in Keys(relation) || TargetParam in Keys(relation) then
      Err(TypeError("got multiple values for an endpoint argument"))
    else
      var src :- AsNodeId(s);
      var tgt :- AsNodeId(t);
      var key :- KeyArg(relation);
      Ok(AddEdgeTo(g, src, tgt, KeyOr(key, g, src, tgt), RelationAttrs(relation)))
  }

  function LoadRelations(g: GraphValue, vs: seq<Value>): Result<GraphValue>
    decreases |vs|
  {
    if vs == [] then Ok(g)
    else
      var g' :- LoadRelations(g, vs[..|vs| - 1]);
      LoadRelation(g', vs[|vs| - 1])
  }

  /** `json_to_networkx(kg_json)`. */
  function JsonToGraph(kg: Dict): Result<GraphValue> {
    var entities :- IterFieldOrEmpty(kg, "entities");
    var g :- LoadEntities(EmptyGraph, entities);
    var relations :- IterFieldOrEmpty(kg, "relations");
    LoadRelations(g, relations)
  }

  /** `json_to_networkx`, building the graph with `add_node` and `add_edge`. */
  method JsonToNetworkx(kg: Dict) returns (r: Result<MultiDiGraph>)
    requires WfDeep(kg)
    ensures r.Ok? <==> JsonToGraph(kg).Ok?
    ensures r.Err? ==> JsonToGraph(kg) == Err(r.error)
    ensures r.Ok? ==> fresh(r.value) && r.value.Valid() && r.value.Value() == JsonToGraph(kg).value
  {
    var g := new MultiDiGraph();
    var entities := IterFieldOrEmpty(kg, "entities");
    if entities.Err? {
      return Err(entities.error);
    }
    ListItemsWf(kg, "entities");
    var done := AddEntities(g, entities.value);
    if done.Err? {
      return Err(done.error);
    }
    var relations := IterFieldOrEmpty(kg, "relations");
    if relations.Err? {
      return Err(relations.error);
    }
    ListItemsWf(kg, "relations");
    done := AddRelations(g, relations.value);
    if done.Err? {
      return Err(done.error);
    }
    return Ok(g);
  }

  /** The entity loop. */
  method AddEntities(g: MultiDiGraph, es: seq<Value>) returns (r: Result<()>)
    requires g.Valid() && forall i | 0 <= i < |es| :: WfJson(es[i])
    modifies g
    ensures r.Ok? <==> LoadEntities(old(g.Value()), es).Ok?
    ensures r.Err? ==> LoadEntities(old(g.Value()), es) == Err(r.error)
    ensures r.Ok? ==> g.Valid() && g.Value() == LoadEntities(old(g.Value()), es).value
  {
    ghost var g0 := g.Value();
    for i := 0 to |es|
      invariant g.Valid() && LoadEntities(g0, es[..i]) == Ok(g.Value())
    {
      LoadEntitiesSnoc(g0, es, i);
      var entity := AsDict(es[i]);
      if entity.Err? {
        LoadEntitiesErr(g0, es, i + 1);
        return Err(entity.error);
      }
      var id := Field(entity.value, "id");
      if id.Err? {
        LoadEntitiesErr(g0, es, i + 1);
        return Err(id.error);
      }
      if NodeParam in Keys(entity.value) {
        LoadEntitiesErr(g0, es, i + 1);
        return Err(TypeError("got multiple values for argument 'node_for_adding'"));
      }
      var x := AsNodeId(id.value);
      if x.Err? {
        LoadEntitiesErr(g0, es, i + 1);
        return Err(x.error);
      }
      assert WfJson(es[i]);
      g.AddNode(x.value, EntityAttrs(entity.value));
    }
    assert es[..|es|] == es;
    return Ok(());
  }

  lemma LoadEntitiesSnoc(g: GraphValue, vs: seq<Value>, i: nat)
    requires i < |vs| && LoadEntities(g, vs[..i]).Ok?
    ensures LoadEntities(g, vs[..i + 1]) == LoadEntity(LoadEntities(g, vs[..i]).value, vs[i])
  {
    assert vs[..i + 1][..i] == vs[..i];
  }

  /** An entity that raises stops the whole loop. */
  lemma {:induction false} LoadEntitiesErr(g: GraphValue, vs: seq<Value>, i: nat)
    requires i <= |vs| && LoadEntities(g, vs[..i]).Err?
    ensures LoadEntities(g, vs) == LoadEntities(g, vs[..i])
    decreases |vs| - i
  {
    if i < |vs| {
      assert vs[..i + 1][..i] == vs[..i];
      LoadEntitiesErr(g, vs, i + 1);
    } else {
      assert vs[..i] == vs;
    }
  }

  /** The relation loop. */
  method AddRelations(g: MultiDiGraph, rs: seq<Value>) returns (r: Result<()>)
    requires g.Valid() && forall i | 0 <= i < |rs| :: WfJson(rs[i])
    modifies g
    ensures r.Ok? <==> LoadRelations(old(g.Value()), rs).Ok?
    ensures r.Err? ==> LoadRelations(old(g.Value()), rs) == Err(r.error)
    ensures r.Ok? ==> g.Valid() && g.Value() == LoadRelations(old(g.Value()), rs).value
  {
    ghost var g0 := g.Value();
    for i := 0 to |rs|
      invariant g.Valid() && LoadRelations(g0, rs[..i]) == Ok(g.Value())
    {
      LoadRelationsSnoc(g0, rs, i);
      var relation := AsDict(rs[i]);
      if relation.Err? {
        LoadRelationsErr(g0, rs, i + 1);
        return Err(relation.error);
      }
      var s := Field(relation.value, "source");
      if s.Err? {
        LoadRelationsErr(g0, rs, i + 1);
        return Err(s.error);
      }
      var t := Field(relation.value, "target");
      if t.Err? {
        LoadRelationsErr(g0, rs, i + 1);
        return Err(t.error);
      }
      if SourceParam in Keys(relation.value) || TargetParam in Keys(relation.value) {
        LoadRelationsErr(g0, rs, i + 1);
        return Err(TypeError("got multiple values for an endpoint argument"));
      }
      var src := AsNodeId(s.value);
      if src.Err? {
        LoadRelationsErr(g0, rs, i + 1);
        return Err(src.error);
      }
      var tgt := AsNodeId(t.value);
      if tgt.Err? {
        LoadRelationsErr(g0, rs, i + 1);
        return Err(tgt.error);
      }
      var key := KeyArg(relation.value);
      if key.Err? {
        LoadRelationsErr(g0, rs, i + 1);
        return Err(key.error);
      }
      assert WfJson(rs[i]);
      RelationAttrsWf(relation.value);
      var _ := g.AddEdge(src.value, tgt.value, key.value, RelationAttrs(relation.value));
    }
    assert rs[..|rs|] == rs;
    return Ok(());
  }

  lemma LoadRelationsSnoc(g: GraphValue, vs: seq<Value>, i: nat)
    requires i < |vs| && LoadRelations(g, vs[..i]).Ok?
    ensures LoadRelations(g, vs[..i + 1]) == LoadRelation(LoadRelations(g, vs[..i]).value, vs[i])
  {
    assert vs[..i + 1][..i] == vs[..i];
  }

  /** A relation that raises stops the whole loop. */
  lemma {:induction false} LoadRelationsErr(g: GraphValue, vs: seq<Value>, i: nat)
    requires i <= |vs| && LoadRelations(g, vs[..i]).Err?
    ensures LoadRelations(g, vs) == LoadRelations(g, vs[..i])
    decreases |vs| - i
  {
    if i < |vs| {
      assert vs[..i + 1][..i] == vs[..i];
      LoadRelationsErr(g, vs, i + 1);
    } else {
      assert vs[..i] == vs;
    }
  }

  /** The items of `kg.get(k, [])` are well formed. */
  lemma ListItemsWf(kg: Dict, k: string)
    requires WfDeep(kg) && IterFieldOrEmpty(kg, k).Ok?
    ensures forall i | 0 <= i < |IterFieldOrEmpty(kg, k).value| ::
      WfJson(IterFieldOrEmpty(kg, k).value[i])
  {
    if Get(kg, k).Some? {
      GetWf(kg, k);
      IterWf(Get(kg, k).value);
    }
  }

  /** A relation's edge dict has distinct keys, `type` among them. */
  lemma RelationAttrsWf(relation: Dict)
    requires WfDict(relation)
    ensures WfDict(RelationAttrs(relation))
    ensures Keys(RelationAttrs(relation)) == ["type"] + Keys(Without(relation, {"source", "target", "type", "key"}))
  {
    var rest := Without(relation, {"source", "target", "type", "key"});
    KeysAppend([("type", GetOr(relation, "type", Str("")))], rest);
    assert Keys([("type", GetOr(relation, "type", Str("")))]) == ["type"];
    assert "type" !in Keys(rest);
    DistinctConcat(["type"], Keys(rest));
  }

  // ---- networkx_to_json ----

  /** `{"id": node}` updated with the node's dict. */
  function EntityOut(x: string, attrs: Dict): Dict {
    Update([("id", Str(x))], attrs)
  }

  /** `{"source": src, "target": tgt}` updated with the edge's dict; the key is dropped. */
  function RelationOut(e: Edge, attrs: Dict): Dict {
    Update([("source", Str(e.src)), ("target", Str(e.tgt))], attrs)
  }

  function GraphEntities(g: GraphValue): (r: seq<Value>)
    requires WellFormed(g)
    ensures |r| == |g.nodes|
  {
    seq(|g.nodes|, i requires 0 <= i < |g.nodes| => Obj(EntityOut(g.nodes[i], g.nodeAttrs[g.nodes[i]])))
  }

  function GraphRelations(g: GraphValue): (r: seq<Value>)
    requires WellFormed(g)
    ensures |r| == |g.edges|
  {
    seq(|g.edges|, i requires 0 <= i < |g.edges| => Obj(RelationOut(g.edges[i], g.edgeAttrs[g.edges[i]])))
  }

  /** `networkx_to_json(G)`. */
  function GraphToJson(g: GraphValue): Dict
    requires WellFormed(g)
  {
    [("entities", List(GraphEntities(g))), ("relations", List(GraphRelations(g)))]
  }

  /** `networkx_to_json`, appending one entity per node and one relation per edge. */
  method NetworkxToJson(g: MultiDiGraph) returns (r: Dict)
    requires g.Valid()
    ensures r == GraphToJson(g.Value())
  {
    ghost var gv := g.Value();
    var entities: seq<Value> := [];
    for i := 0 to |g.nodes|
      invariant entities == GraphEntities(gv)[..i]
    {
      var x := g.nodes[i];
      assert GraphEntities(gv)[..i + 1] == GraphEntities(gv)[..i] + [Obj(EntityOut(x, g.nodeAttrs[x]))];
      entities := entities + [Obj(EntityOut(x, g.nodeAttrs[x]))];
    }
    assert GraphEntities(gv)[..|g.nodes|] == GraphEntities(gv);
    var relations: seq<Value> := [];
    for i := 0 to |g.edges|
      invariant relations == GraphRelations(gv)[..i]
    {
      var e := g.edges[i];
      assert GraphRelations(gv)[..i + 1] == GraphRelations(gv)[..i] + [Obj(RelationOut(e, g.edgeAttrs[e]))];
      relations := relations + [Obj(RelationOut(e, g.edgeAttrs[e]))];
    }
    assert GraphRelations(gv)[..|g.edges|] == GraphRelations(gv);
    return [("entities", List(entities)), ("relations", List(relations))];
  }
}

/** What loading and dumping guarantee. */
module ConversionFacts {

  import opened Wrappers
  import opened Seqs
  import opened Json
  import opened Graph
  import opened Conversion

  // ---- entities ----

  /** Every entity is one the loop takes. */
  ghost predicate AllDeclared(vs: seq<Value>) {
    forall i | 0 <= i < |vs| :: EntityLoads(vs[i])
  }

  lemma AllDeclaredSnoc(vs: seq<Value>)
    requires vs != []
    ensures AllDeclared(vs) <==> AllDeclared(vs[..|vs| - 1]) && EntityLoads(vs[|vs| - 1])
  {
    var p := vs[..|vs| - 1];
    if AllDeclared(p) && EntityLoads(vs[|vs| - 1]) {
      forall i | 0 <= i < |vs|
        ensures EntityLoads(vs[i])
      {
        if i < |p| {
          assert vs[i] == p[i];
        }
      }
    }
  }

  function Ids(vs: seq<Value>): (ids: seq<string>)
    requires AllDeclared(vs)
    ensures |ids| == |vs| && forall i | 0 <= i < |vs| :: ids[i] == DeclaredId(vs[i]).value
  {
    seq(|vs|, i requires 0 <= i < |vs| => DeclaredId(vs[i]).value)
  }

  /** The node dicts the entities give. */
  function EntityAttrsOf(vs: seq<Value>): (r: seq<Dict>)
    requires AllDeclared(vs)
    ensures |r| == |vs| && forall i | 0 <= i < |vs| :: vs[i].Obj? && r[i] == EntityAttrs(vs[i].fields)
  {
    seq(|vs|, i requires 0 <= i < |vs| => EntityAttrs(vs[i].fields))
  }

  /** The entity loop raises exactly when some entity is not a dict with a
      string `"id"` or has a `node_for_adding` field. */
  lemma {:induction false} LoadEntitiesOk(g: GraphValue, vs: seq<Value>)
    ensures LoadEntities(g, vs).Ok? <==> AllDeclared(vs)
    decreases |vs|
  {
    if vs != [] {
      LoadEntitiesOk(g, vs[..|vs| - 1]);
      AllDeclaredSnoc(vs);
    }
  }

  /** Loading the first `i` entities is adding their ids, in order, with
      their fields but `"id"`. */
  lemma {:induction false} LoadEntitiesAsNodes(g: GraphValue, vs: seq<Value>, i: nat)
    requires AllDeclared(vs) && i <= |vs|
    ensures LoadEntities(g, vs[..i]) == Ok(AddNodesTo(g, Ids(vs)[..i], EntityAttrsOf(vs)[..i]))
  {
    if i == 0 {
      assert vs[..0] == [];
    } else {
      var n := i - 1;
      var xs, ds := Ids(vs), EntityAttrsOf(vs);
      LoadEntitiesAsNodes(g, vs, n);
      var h := AddNodesTo(g, xs[..n], ds[..n]);
      assert LoadEntities(g, vs[..n]) == Ok(h);
      LoadEntitiesSnoc(g, vs, n);
      assert LoadEntity(h, vs[n]) == Ok(AddNodeTo(h, xs[n], ds[n]));
      AddNodesSnoc(g, xs, ds, n);
    }
  }

  lemma EntityAttrsOfWf(vs: seq<Value>)
    requires AllDeclared(vs) && forall i | 0 <= i < |vs| :: WfJson(vs[i])
    ensures AllWf(EntityAttrsOf(vs))
  {
    forall i | 0 <= i < |vs|
      ensures WfDict(EntityAttrsOf(vs)[i])
    {
      assert WfJson(vs[i]);
    }
  }

  /** Loading entities adds one node per id and no edge. */
  lemma LoadEntitiesKeys(g: GraphValue, vs: seq<Value>)
    requires WellFormed(g) && AllDeclared(vs) && forall i | 0 <= i < |vs| :: WfJson(vs[i])
    ensures LoadEntities(g, vs).Ok?
    ensures var r := LoadEntities(g, vs).value;
      && WellFormed(r) && r.edges == g.edges && r.edgeAttrs == g.edgeAttrs
      && forall x :: x in r.nodeAttrs <==> x in g.nodeAttrs || x in Ids(vs)
  {
    LoadEntitiesAsNodes(g, vs, |vs|);
    SliceAll(vs);
    SliceAll(Ids(vs));
    SliceAll(EntityAttrsOf(vs));
    EntityAttrsOfWf(vs);
    AddNodesKeys(g, Ids(vs), EntityAttrsOf(vs));
  }

  /** Entities with distinct new ids become nodes in their order, each with
      its fields but `"id"`. */
  lemma LoadEntitiesFresh(g: GraphValue, vs: seq<Value>)
    requires WellFormed(g) && AllDeclared(vs) && Distinct(Ids(vs))
    requires forall i | 0 <= i < |vs| :: WfJson(vs[i]) && Ids(vs)[i] !in g.nodeAttrs
    ensures LoadEntities(g, vs).Ok?
    ensures NodesAppended(g, LoadEntities(g, vs).value, Ids(vs), EntityAttrsOf(vs))
  {
    LoadEntitiesAsNodes(g, vs, |vs|);
    SliceAll(vs);
    SliceAll(Ids(vs));
    SliceAll(EntityAttrsOf(vs));
    EntityAttrsOfWf(vs);
    AddNodesFresh(g, Ids(vs), EntityAttrsOf(vs));
  }

  // ---- relations ----

  /** Every relation is one the loop takes. */
  ghost predicate AllLoad(vs: seq<Value>) {
    forall i | 0 <= i < |vs| :: RelationLoads(vs[i])
  }

  lemma AllLoadSnoc(vs: seq<Value>)
    requires vs != []
    ensures AllLoad(vs) <==> AllLoad(vs[..|vs| - 1]) && RelationLoads(vs[|vs| - 1])
  {
    var p := vs[..|vs| - 1];
    if AllLoad(p) && RelationLoads(vs[|vs| - 1]) {
      forall i | 0 <= i < |vs|
        ensures RelationLoads(vs[i])
      {
        if i < |p| {
          assert vs[i] == p[i];
        }
      }
    }
  }

  /** A relation the loop takes whose edge gets its key from `new_edge_key`. */
  predicate Keyless(v: Value) {
    RelationLoads(v) && KeyArg(v.fields) == Ok(None)
  }

  /** Every relation is taken and gets a key from `new_edge_key`. */
  ghost predicate AllRelate(vs: seq<Value>) {
    forall i | 0 <= i < |vs| :: Keyless(vs[i])
  }

  function EndsOf(vs: seq<Value>): (r: seq<(string, string)>)
    requires AllRelate(vs)
    ensures |r| == |vs| && forall i | 0 <= i < |vs| :: r[i] == RelationEnds(vs[i]).value
  {
    seq(|vs|, i requires 0 <= i < |vs| => RelationEnds(vs[i]).value)
  }

  /** The edge dicts the relations give. */
  function RelationAttrsOf(vs: seq<Value>): (r: seq<Dict>)
    requires AllRelate(vs)
    ensures |r| == |vs| && forall i | 0 <= i < |vs| :: vs[i].Obj? && r[i] == RelationAttrs(vs[i].fields)
  {
    seq(|vs|, i requires 0 <= i < |vs| => RelationAttrs(vs[i].fields))
  }

  /** The relation loop raises exactly when some relation is not a dict
      with string `"source"` and `"target"`, has a `u_for_edge` or
      `v_for_edge` field, or has an unhashable `"key"`. */
  lemma {:induction false} LoadRelationsOk(g: GraphValue, vs: seq<Value>)
    ensures LoadRelations(g, vs).Ok? <==> AllLoad(vs)
    decreases |vs|
  {
    if vs != [] {
      LoadRelationsOk(g, vs[..|vs| - 1]);
      AllLoadSnoc(vs);
    }
  }

  /** Whatever the relation loop builds on a well-formed graph is well formed. */
  lemma {:induction false} LoadRelationsWellFormed(g: GraphValue, vs: seq<Value>)
    requires WellFormed(g) && forall i | 0 <= i < |vs| :: WfJson(vs[i])
    requires LoadRelations(g, vs).Ok?
    ensures WellFormed(LoadRelations(g, vs).value)
    decreases |vs|
  {
    if vs != [] {
      var n := |vs| - 1;
      LoadRelationsWellFormed(g, vs[..n]);
      var h := LoadRelations(g, vs[..n]).value;
      var v := vs[n];
      assert WfJson(v);
      RelationAttrsWf(v.fields);
      var (u, w) := RelationEnds(v).value;
      AddEdgeWellFormed(h, u, w, KeyOr(KeyArg(v.fields).value, h, u, w), RelationAttrs(v.fields));
    }
  }

  /** A relation that names its key, loaded a second time, changes nothing:
      the second `add_edge` finds the edge and updates its dict with the
      same fields, so two equal keyed relations give one edge. */
  lemma KeyedRelationTwice(g: GraphValue, v: Value)
    requires WellFormed(g) && WfJson(v) && RelationLoads(v) && KeyArg(v.fields).value.Some?
    ensures LoadRelation(g, v).Ok? && LoadRelation(LoadRelation(g, v).value, v) == LoadRelation(g, v)
  {
    var (u, w) := RelationEnds(v).value;
    var k := KeyArg(v.fields).value.value;
    RelationAttrsWf(v.fields);
    AddEdgeTwice(g, u, w, k, RelationAttrs(v.fields));
  }

  /** Loading the first `i` relations is adding one edge per relation, in
      order, with its fields but the endpoints and `type` defaulting to `""`. */
  lemma {:induction false} LoadRelationsAsEdges(g: GraphValue, vs: seq<Value>, i: nat)
    requires AllRelate(vs) && i <= |vs|
    ensures LoadRelations(g, vs[..i]) == Ok(AddAutoEdgesTo(g, EndsOf(vs)[..i], RelationAttrsOf(vs)[..i]))
  {
    if i == 0 {
      assert vs[..0] == [];
    } else {
      var n := i - 1;
      var ends, ds := EndsOf(vs), RelationAttrsOf(vs);
      LoadRelationsAsEdges(g, vs, n);
      var h := AddAutoEdgesTo(g, ends[..n], ds[..n]);
      assert LoadRelations(g, vs[..n]) == Ok(h);
      LoadRelationsSnoc(g, vs, n);
      RelationIsEdge(h, vs, n);
      AddAutoEdgesSnoc(g, ends, ds, n);
      assert LoadRelations(g, vs[..i]) == Ok(AddEdgeAutoTo(h, ends[n].0, ends[n].1, ds[n]));
    }
  }

  lemma RelationIsEdge(h: GraphValue, vs: seq<Value>, n: nat)
    requires AllRelate(vs) && n < |vs|
    ensures LoadRelation(h, vs[n]) == Ok(AddEdgeAutoTo(h, EndsOf(vs)[n].0, EndsOf(vs)[n].1, RelationAttrsOf(vs)[n]))
  {
  }

  lemma RelationAttrsOfWf(vs: seq<Value>)
    requires AllRelate(vs) && forall i | 0 <= i < |vs| :: WfJson(vs[i])
    ensures AllWf(RelationAttrsOf(vs))
  {
    forall i | 0 <= i < |vs|
      ensures WfDict(RelationAttrsOf(vs)[i])
    {
      assert WfJson(vs[i]);
      RelationAttrsWf(vs[i].fields);
    }
  }

  /** Every relation becomes a new edge, even between nodes already joined;
      nodes keep their dicts. */
  lemma LoadRelationsEdges(g: GraphValue, vs: seq<Value>)
    requires WellFormed(g) && AllRelate(vs) && forall i | 0 <= i < |vs| :: WfJson(vs[i])
    ensures LoadRelations(g, vs).Ok?
    ensures EdgesAppended(g, LoadRelations(g, vs).value, EndsOf(vs), RelationAttrsOf(vs))
  {
    LoadRelationsAsEdges(g, vs, |vs|);
    SliceAll(vs);
    SliceAll(EndsOf(vs));
    SliceAll(RelationAttrsOf(vs));
    RelationAttrsOfWf(vs);
    AddAutoEdgesAppended(g, EndsOf(vs), RelationAttrsOf(vs));
  }

  // ---- a keyed relation given twice ----

  const KeyedRelation := Obj([("source", Str("e1")), ("target", Str("e2")), ("type", Str("t")), ("key", Str("k"))])
  const TwoEntities := [Obj([("id", Str("e1"))]), Obj([("id", Str("e2"))])]
  const KeyedTwiceKg := [("entities", List(TwoEntities)), ("relations", List([KeyedRelation, KeyedRelation]))]
  const TwoNodes := AddNodeTo(AddNodeTo(EmptyGraph, "e1", []), "e2", [])
  const TypeT: Dict := [("type", Str("t"))]

  lemma TwoEntitiesLoad()
    ensures LoadEntities(EmptyGraph, TwoEntities) == Ok(TwoNodes) && WellFormed(TwoNodes)
    ensures TwoNodes.edges == []
  {
    assert LoadEntities(EmptyGraph, TwoEntities[..1]) == Ok(AddNodeTo(EmptyGraph, "e1", []));
    AddNodeWellFormed(EmptyGraph, "e1", []);
    AddNodeWellFormed(AddNodeTo(EmptyGraph, "e1", []), "e2", []);
  }

  lemma KeyedRelationFields()
    ensures RelationLoads(KeyedRelation) && RelationEnds(KeyedRelation) == Some(("e1", "e2"))
    ensures KeyArg(KeyedRelation.fields) == Ok(Some(StrKey("k")))
    ensures RelationAttrs(KeyedRelation.fields) == TypeT
  {
    var d := KeyedRelation.fields;
    assert Keys(d) == ["source", "target", "type", "key"];
    assert Get(d, "source") == Some(Str("e1"));
    assert Get(d, "target") == Some(Str("e2"));
    assert Get(d, "key") == Some(Str("k"));
    assert Without(d, {"source", "target", "type", "key"}) == [];
  }

  /** A relation with a key, given twice in a row, loads as it does once. */
  lemma KeyedRelationWf()
    ensures WfJson(KeyedRelation) && WfDict(TypeT)
  {
    assert Keys(KeyedRelation.fields) == ["source", "target", "type", "key"];
    assert Keys(TypeT) == ["type"];
  }

  lemma KeyedRelationsTwice(g: GraphValue, v: Value)
    requires WellFormed(g) && WfJson(v) && RelationLoads(v) && KeyArg(v.fields).value.Some?
    ensures LoadRelations(g, [v, v]) == LoadRelation(g, v)
  {
    assert LoadRelations(g, [v]) == LoadRelation(g, v) by {
      assert [v][..0] == [];
    }
    KeyedRelationTwice(g, v);
    assert [v, v][..1] == [v];
  }

  /** A relation whose `"key"` is the string `s` is stored as the edge with key `s`. */
  lemma StringKeyedEdge(g: GraphValue, v: Value, s: string)
    requires RelationLoads(v) && Get(v.fields, "key") == Some(Str(s))
    ensures var (u, w) := RelationEnds(v).value;
      LoadRelation(g, v).Ok? && Edge(u, w, StrKey(s)) in LoadRelation(g, v).value.edgeAttrs
  {
    var (u, w) := RelationEnds(v).value;
    assert KeyArg(v.fields) == Ok(Some(StrKey(s)));
    KeyedEdgeStored(g, v, u, w, StrKey(s));
  }

  /** A relation whose `"key"` is the integer `n` is stored as the edge with key `n`. */
  lemma IntegerKeyedEdge(g: GraphValue, v: Value, n: int)
    requires RelationLoads(v) && Get(v.fields, "key") == Some(Num(n))
    ensures var (u, w) := RelationEnds(v).value;
      LoadRelation(g, v).Ok? && Edge(u, w, IntKey(n)) in LoadRelation(g, v).value.edgeAttrs
  {
    var (u, w) := RelationEnds(v).value;
    assert KeyArg(v.fields) == Ok(Some(IntKey(n)));
    KeyedEdgeStored(g, v, u, w, IntKey(n));
  }

  lemma KeyedEdgeStored(g: GraphValue, v: Value, u: string, t: string, k: EdgeKey)
    requires RelationLoads(v) && RelationEnds(v) == Some((u, t)) && KeyArg(v.fields) == Ok(Some(k))
    ensures LoadRelation(g, v).Ok? && LoadRelation(g, v).value == AddEdgeTo(g, u, t, k, RelationAttrs(v.fields))
    ensures var h := LoadRelation(g, v).value; u in h.nodeAttrs && t in h.nodeAttrs && Edge(u, t, k) in h.edgeAttrs
  {
    AddEdgeFacts(g, u, t, k, RelationAttrs(v.fields));
  }

  /** `True` hashes as `1` and `False` as `0`: between the same endpoints, a
      relation keyed by a bool and one keyed by the matching integer are
      one edge, and loading the second merges its fields into that edge's
      dict and adds no edge. */
  lemma BoolAndIntKeysMerge(g: GraphValue, v: Value, w: Value, b: bool)
    requires RelationLoads(v) && RelationLoads(w) && RelationEnds(v) == RelationEnds(w)
    requires Get(v.fields, "key") == Some(Bool(b)) && Get(w.fields, "key") == Some(Num(if b then 1 else 0))
    ensures var h := LoadRelation(g, v).value;
      var e := Edge(RelationEnds(v).value.0, RelationEnds(v).value.1, IntKey(if b then 1 else 0));
      && e in h.edgeAttrs
      && LoadRelation(h, w).Ok?
      && LoadRelation(h, w).value == h.(edgeAttrs := h.edgeAttrs[e := Update(h.edgeAttrs[e], RelationAttrs(w.fields))])
  {
    var (u, t) := RelationEnds(v).value;
    var k := IntKey(if b then 1 else 0);
    assert KeyArg(v.fields) == KeyArg(w.fields) == Ok(Some(k));
    KeyedEdgeStored(g, v, u, t, k);
    var h := LoadRelation(g, v).value;
    assert LoadRelation(h, w) == Ok(AddEdgeTo(h, u, t, k, RelationAttrs(w.fields)));
    AddExistingEdge(h, u, t, k, RelationAttrs(w.fields));
  }

  /** The dump of a graph whose one edge was just added. */
  lemma OneEdgeDumped(g: GraphValue, u: string, w: string, key: EdgeKey, a: Dict)
    requires WellFormed(g) && g.edges == [] && WfDict(a)
    ensures WellFormed(AddEdgeTo(g, u, w, key, a))
    ensures GraphRelations(AddEdgeTo(g, u, w, key, a)) == [Obj(RelationOut(Edge(u, w, key), Update([], a)))]
  {
    AddEdgeWellFormed(g, u, w, key, a);
    EnsureNodeWellFormed(g, u);
    EnsureNodeWellFormed(EnsureNode(g, u), w);
    var h := AddEdgeTo(g, u, w, key, a);
    assert h.edges == [Edge(u, w, key)];
  }

  lemma KeyedTwiceKgFields()
    ensures IterFieldOrEmpty(KeyedTwiceKg, "entities") == Ok(TwoEntities)
    ensures IterFieldOrEmpty(KeyedTwiceKg, "relations") == Ok([KeyedRelation, KeyedRelation])
  {
    assert Get(KeyedTwiceKg, "entities") == Some(List(TwoEntities));
    assert Get(KeyedTwiceKg, "relations") == Some(List([KeyedRelation, KeyedRelation]));
  }

  lemma KeyedEdgeOut()
    ensures Obj(RelationOut(Edge("e1", "e2", StrKey("k")), Update([], TypeT)))
         == Obj([("source", Str("e1")), ("target", Str("e2")), ("type", Str("t"))])
  {
    KeyedRelationWf();
    assert Keys(TypeT) == ["type"];
    UpdateEmpty(TypeT);
    var out: Dict := [("source", Str("e1")), ("target", Str("e2"))];
    assert Keys(out) == ["source", "target"];
    UpdateDisjoint(out, TypeT);
    assert RelationOut(Edge("e1", "e2", StrKey("k")), TypeT) == Update(out, TypeT);
    assert Update([], TypeT) == TypeT;
    assert out + TypeT == [("source", Str("e1")), ("target", Str("e2")), ("type", Str("t"))];
  }

  /** Entities `e1`, `e2` and two copies of the relation
      `{"source": "e1", "target": "e2", "type": "t", "key": "k"}` load as one
      edge, which is dumped as one relation without its `"key"`. */
  lemma KeyedDuplicateExample()
    ensures JsonToGraph(KeyedTwiceKg).Ok? && WellFormed(JsonToGraph(KeyedTwiceKg).value)
    ensures GraphRelations(JsonToGraph(KeyedTwiceKg).value)
         == [Obj([("source", Str("e1")), ("target", Str("e2")), ("type", Str("t"))])]
  {
    var h := AddEdgeTo(TwoNodes, "e1", "e2", StrKey("k"), TypeT);
    TwoEntitiesLoad();
    KeyedTwiceKgFields();
    assert JsonToGraph(KeyedTwiceKg) == LoadRelations(TwoNodes, [KeyedRelation, KeyedRelation]);
    KeyedRelationFields();
    KeyedRelationWf();
    KeyedRelationsTwice(TwoNodes, KeyedRelation);
    assert LoadRelation(TwoNodes, KeyedRelation) == Ok(h);
    OneEdgeDumped(TwoNodes, "e1", "e2", StrKey("k"), TypeT);
    KeyedEdgeOut();
  }

  /** Whatever `json_to_networkx` builds is a well-formed graph. */
  lemma JsonToGraphWellFormed(kg: Dict)
    requires WfDeep(kg) && JsonToGraph(kg).Ok?
    ensures WellFormed(JsonToGraph(kg).value)
  {
    var es := IterFieldOrEmpty(kg, "entities").value;
    ListItemsWf(kg, "entities");
    LoadEntitiesOk(EmptyGraph, es);
    LoadEntitiesKeys(EmptyGraph, es);
    var g := LoadEntities(EmptyGraph, es).value;
    var rs := IterFieldOrEmpty(kg, "relations").value;
    ListItemsWf(kg, "relations");
    LoadRelationsWellFormed(g, rs);
  }

  /** Relations whose endpoints are all nodes already add no node. */
  lemma LoadRelationsDeclared(g: GraphValue, vs: seq<Value>)
    requires WellFormed(g) && AllRelate(vs) && forall i | 0 <= i < |vs| :: WfJson(vs[i])
    requires forall i | 0 <= i < |vs| ::
      RelationEnds(vs[i]).value.0 in g.nodeAttrs && RelationEnds(vs[i]).value.1 in g.nodeAttrs
    ensures LoadRelations(g, vs).Ok?
    ensures WellFormed(LoadRelations(g, vs).value)
    ensures LoadRelations(g, vs).value.nodes == g.nodes && LoadRelations(g, vs).value.nodeAttrs == g.nodeAttrs
  {
    LoadRelationsAsEdges(g, vs, |vs|);
    SliceAll(vs);
    SliceAll(EndsOf(vs));
    SliceAll(RelationAttrsOf(vs));
    RelationAttrsOfWf(vs);
    forall i | 0 <= i < |vs|
      ensures EndsOf(vs)[i].0 in g.nodeAttrs && EndsOf(vs)[i].1 in g.nodeAttrs
    {
    }
    AddAutoEdgesDeclared(g, EndsOf(vs), RelationAttrsOf(vs));
  }

  /** An endpoint that is not a node yet becomes one with an empty dict, the
      source before the target; other nodes keep their dicts. */
  lemma UndeclaredEndpoint(g: GraphValue, v: Value)
    requires WellFormed(g) && WfJson(v) && RelationLoads(v)
    ensures LoadRelation(g, v).Ok?
    ensures var (s, t) := RelationEnds(v).value;
      var r := LoadRelation(g, v).value;
      && r.nodes == g.nodes + (if s in g.nodeAttrs then [] else [s])
                            + (if t in g.nodeAttrs || t == s then [] else [t])
      && forall x | x in r.nodeAttrs :: r.nodeAttrs[x] == if x in g.nodeAttrs then g.nodeAttrs[x] else []
  {
    RelationAttrsWf(v.fields);
    var (u, w) := RelationEnds(v).value;
    AddEdgeNodes(g, u, w, KeyOr(KeyArg(v.fields).value, g, u, w), RelationAttrs(v.fields));
  }

  // ---- dumping ----

  /** A dumped entity has the node as `"id"` unless the node's own dict
      holds an `"id"`, and every other field of that dict. */
  lemma EntityOutGet(x: string, attrs: Dict, k: string)
    requires WfDict(attrs)
    ensures Get(EntityOut(x, attrs), k) ==
      if k in Keys(attrs) then Get(attrs, k) else if k == "id" then Some(Str(x)) else None
  {
    UpdateGet([("id", Str(x))], attrs, k);
    GetCons(("id", Str(x)), [], k);
  }

  /** A dumped relation has its endpoints as `"source"` and `"target"`
      unless the edge's own dict overrides them, and every field of it. */
  lemma RelationOutGet(e: Edge, attrs: Dict, k: string)
    requires WfDict(attrs)
    ensures Get(RelationOut(e, attrs), k) ==
      if k in Keys(attrs) then Get(attrs, k)
      else if k == "source" then Some(Str(e.src))
      else if k == "target" then Some(Str(e.tgt))
      else None
  {
    UpdateGet([("source", Str(e.src)), ("target", Str(e.tgt))], attrs, k);
    GetCons(("source", Str(e.src)), [("target", Str(e.tgt))], k);
    GetCons(("target", Str(e.tgt)), [], k);
  }

  /** An entity loaded and dumped again equals the original dict. */
  lemma EntityRoundTrip(entity: Dict, x: string)
    requires WfDict(entity) && Get(entity, "id") == Some(Str(x))
    ensures DictEquiv(EntityOut(x, EntityAttrs(entity)), entity)
  {
    forall k
      ensures Get(EntityOut(x, EntityAttrs(entity)), k) == Get(entity, k)
    {
      EntityOutGet(x, EntityAttrs(entity), k);
      GetKeys(entity, k);
    }
  }

  /** A relation loaded and dumped again equals the original dict exactly
      when it had a `"type"` and no `"key"`; without a type it comes back
      with `"type": ""`, and a `"key"` field, taken as the edge key, does
      not come back at all. */
  lemma RelationRoundTrip(relation: Dict, e: Edge)
    requires WfDict(relation)
    requires Get(relation, "source") == Some(Str(e.src)) && Get(relation, "target") == Some(Str(e.tgt))
    ensures DictEquiv(RelationOut(e, RelationAttrs(relation)), relation) <==>
      "type" in Keys(relation) && "key" !in Keys(relation)
    ensures "type" !in Keys(relation) ==> Get(RelationOut(e, RelationAttrs(relation)), "type") == Some(Str(""))
    ensures Get(RelationOut(e, RelationAttrs(relation)), "key") == None
  {
    RelationTypeOut(relation, e);
    RelationKeyOut(relation, e);
    GetKeys(relation, "type");
    GetKeys(relation, "key");
    if "type" in Keys(relation) && "key" !in Keys(relation) {
      forall k
        ensures Get(RelationOut(e, RelationAttrs(relation)), k) == Get(relation, k)
      {
        RelationKeyBack(relation, e, k);
      }
    }
  }

  lemma RelationTypeOut(relation: Dict, e: Edge)
    requires WfDict(relation)
    ensures Get(RelationOut(e, RelationAttrs(relation)), "type") == Some(GetOr(relation, "type", Str("")))
  {
    RelationAttrsWf(relation);
    RelationOutGet(e, RelationAttrs(relation), "type");
    GetCons(("type", GetOr(relation, "type", Str(""))), Without(relation, {"source", "target", "type", "key"}), "type");
  }

  lemma RelationKeyOut(relation: Dict, e: Edge)
    requires WfDict(relation)
    ensures Get(RelationOut(e, RelationAttrs(relation)), "key") == None
  {
    RelationAttrsWf(relation);
    RelationOutGet(e, RelationAttrs(relation), "key");
  }

  lemma RelationKeyBack(relation: Dict, e: Edge, k: string)
    requires WfDict(relation) && "type" in Keys(relation) && "key" !in Keys(relation)
    requires Get(relation, "source") == Some(Str(e.src)) && Get(relation, "target") == Some(Str(e.tgt))
    ensures Get(RelationOut(e, RelationAttrs(relation)), k) == Get(relation, k)
  {
    RelationAttrsWf(relation);
    RelationOutGet(e, RelationAttrs(relation), k);
    GetCons(("type", GetOr(relation, "type", Str(""))), Without(relation, {"source", "target", "type", "key"}), k);
    GetKeys(relation, k);
  }

  /** Loading a graph as JSON that declares each entity once, names only
      declared endpoints and types every relation, then dumping it, gives
      back every entity and every relation, in order, as equal dicts. */
  lemma RoundTrip(kg: Dict, es: seq<Value>, rs: seq<Value>)
    requires WfDeep(kg) && Get(kg, "entities") == Some(List(es)) && Get(kg, "relations") == Some(List(rs))
    requires AllDeclared(es) && Distinct(Ids(es))
    requires AllRelate(rs)
    requires forall i | 0 <= i < |rs| ::
      && RelationEnds(rs[i]).value.0 in Ids(es) && RelationEnds(rs[i]).value.1 in Ids(es)
      && "type" in Keys(rs[i].fields) && "key" !in Keys(rs[i].fields)
    ensures JsonToGraph(kg).Ok?
    ensures var g := JsonToGraph(kg).value;
      && WellFormed(g)
      && |GraphEntities(g)| == |es| && |GraphRelations(g)| == |rs|
      && (forall i | 0 <= i < |es| :: DictEquiv(GraphEntities(g)[i].fields, es[i].fields))
      && (forall i | 0 <= i < |rs| :: DictEquiv(GraphRelations(g)[i].fields, rs[i].fields))
  {
    GetWf(kg, "entities");
    GetWf(kg, "relations");
    LoadEntitiesFresh(EmptyGraph, es);
    var g1 := LoadEntities(EmptyGraph, es).value;
    LoadsBack(g1, es, rs);
  }

  /** The relations, loaded on top of the graph the entities gave, come
      back as equal dicts together with the entities. */
  lemma LoadsBack(g1: GraphValue, es: seq<Value>, rs: seq<Value>)
    requires AllDeclared(es) && AllRelate(rs) && g1.edges == []
    requires NodesAppended(EmptyGraph, g1, Ids(es), EntityAttrsOf(es))
    requires forall i | 0 <= i < |es| :: WfJson(es[i])
    requires forall i | 0 <= i < |rs| :: WfJson(rs[i])
    requires forall i | 0 <= i < |rs| ::
      && RelationEnds(rs[i]).value.0 in Ids(es) && RelationEnds(rs[i]).value.1 in Ids(es)
      && "type" in Keys(rs[i].fields) && "key" !in Keys(rs[i].fields)
    ensures LoadRelations(g1, rs).Ok?
    ensures var g := LoadRelations(g1, rs).value;
      && WellFormed(g)
      && |GraphEntities(g)| == |es| && |GraphRelations(g)| == |rs|
      && (forall i | 0 <= i < |es| :: DictEquiv(GraphEntities(g)[i].fields, es[i].fields))
      && (forall i | 0 <= i < |rs| :: DictEquiv(GraphRelations(g)[i].fields, rs[i].fields))
  {
    assert g1.nodes == Ids(es);
    LoadRelationsDeclared(g1, rs);
    LoadRelationsEdges(g1, rs);
    var g := LoadRelations(g1, rs).value;
    EntitiesBack(g, es);
    RelationsBack(g1, g, rs);
  }

  lemma EntitiesBack(g: GraphValue, es: seq<Value>)
    requires WellFormed(g) && AllDeclared(es) && g.nodes == Ids(es)
    requires forall i | 0 <= i < |es| :: WfJson(es[i]) && g.nodeAttrs[Ids(es)[i]] == EntityAttrsOf(es)[i]
    ensures |GraphEntities(g)| == |es|
    ensures forall i | 0 <= i < |es| :: DictEquiv(GraphEntities(g)[i].fields, es[i].fields)
  {
    forall i | 0 <= i < |es|
      ensures DictEquiv(GraphEntities(g)[i].fields, es[i].fields)
    {
      EntityBack(g, es, i);
    }
  }

  lemma EntityBack(g: GraphValue, es: seq<Value>, i: nat)
    requires WellFormed(g) && AllDeclared(es) && g.nodes == Ids(es) && i < |es|
    requires WfJson(es[i]) && g.nodeAttrs[Ids(es)[i]] == EntityAttrsOf(es)[i]
    ensures DictEquiv(GraphEntities(g)[i].fields, es[i].fields)
  {
    EntityRoundTrip(es[i].fields, Ids(es)[i]);
  }

  lemma RelationsBack(g1: GraphValue, g: GraphValue, rs: seq<Value>)
    requires AllRelate(rs) && g1.edges == []
    requires EdgesAppended(g1, g, EndsOf(rs), RelationAttrsOf(rs))
    requires forall i | 0 <= i < |rs| :: WfJson(rs[i]) && "type" in Keys(rs[i].fields) && "key" !in Keys(rs[i].fields)
    ensures |GraphRelations(g)| == |rs|
    ensures forall i | 0 <= i < |rs| :: DictEquiv(GraphRelations(g)[i].fields, rs[i].fields)
  {
    forall i | 0 <= i < |rs|
      ensures DictEquiv(GraphRelations(g)[i].fields, rs[i].fields)
    {
      RelationBack(g1, g, rs, i);
    }
  }

  lemma RelationBack(g1: GraphValue, g: GraphValue, rs: seq<Value>, i: nat)
    requires AllRelate(rs) && g1.edges == [] && i < |rs|
    requires EdgesAppended(g1, g, EndsOf(rs), RelationAttrsOf(rs))
    requires WfJson(rs[i]) && "type" in Keys(rs[i].fields) && "key" !in Keys(rs[i].fields)
    ensures DictEquiv(GraphRelations(g)[i].fields, rs[i].fields)
  {
    assert g.edges[i].src == EndsOf(rs)[i].0 && g.edges[i].tgt == EndsOf(rs)[i].1;
    RelationRoundTrip(rs[i].fields, g.edges[i]);
  }
}
