# KG perturbator, modelled in Dafny

The KG perturbator takes a knowledge graph written as JSON, with a list of
`entities` (dicts with an `id`) and a list of `relations` (dicts with a
`source`, a `target` and a `type`). It loads the graph into a networkx
`MultiDiGraph` and applies random structural edits:

- removing entities, with their incident relations;
- adding synthetic `rand_i` entities;
- removing relations;
- adding synthetic relations.

It then renumbers every surviving entity to `e{n+1}`, `e{n+2}`, … and rewires
the relations through that mapping. Optional LLM passes then rename
entities, rename relation types and rewrite descriptions. It returns the
perturbed graph and the mapping from original to new entity ids.

Two scripts sit around this pipeline:

- a preprocessing script strips provenance from a graph produced by an
  extraction tool;
- an alignment script turns the original graph, the perturbed graph and the
  mapping into the integer tables that entity-alignment experiments read.

## Project layout

The model has one module per source file, plus shared modules.

**Shared modules:**

- `wrappers.dfy`: Option, Result and error kinds.
- `text.dfy`:
  - decimal formatting and `int()` parsing;
  - `startswith`, `in` and `str.replace(p, "")`;
  - Python's string order.
- `seqs.dfy`: generic sequence facts, including `FlatMap`.
- `json.dfy`:
  - JSON values;
  - dicts as ordered association lists, and `get`, `d[k] = v`, `update`,
    truthiness, iteration and `str()` on them.
- `loops.dfy`: the generic fold that stops at the first exception, for
  loops that build lists, sets and dicts.
- `graph.dfy`: the networkx `MultiDiGraph` behaviour the code relies on. It
  has two parts:
  - `GraphValue`, the state as a value;
  - the class `MultiDiGraph`, whose methods update its fields in place.

**Modules for the source files:**

- `utils.dfy` and `reassign.dfy`: `kg_perturbator/utils.py`.
- `conversion.dfy`: `kg_perturbator/conversion.py`. Module `Conversion`
  holds the operations; module `ConversionFacts` holds the round-trip facts.
- `perturbator.dfy`: `kg_perturbator/perturbator.py`.
- `alignment.dfy`: `kg_perturbator/kg_to_entity_alignment_files.py`.
- `strip.dfy`: `kg_perturbator/strip_KG.py`.

**How the loops are modelled.** Every loop of the source is a `method`
with a `while` or `for` loop. Its `ensures` ties the result, or the new
graph state, to a function on values. The lemmas state what the source
promises about that function, such as:

- counts;
- freshness;
- injectivity;
- which nodes and edges remain;
- round trips;
- orderings.

**Keyword arguments.** `add_node(id, **fields)` and `add_edge(src, tgt,
type=…, **fields)` pass the fields as keyword arguments, so networkx takes
some field names as its own parameters:

- a `node_for_adding` entity field, or a `u_for_edge` or `v_for_edge`
  relation field, clashes with the positional argument and raises TypeError;
- a relation's `key` field becomes the edge key instead of an edge
  attribute. `null` means no key. A list or dict is unhashable and raises
  TypeError. Two relations with the same endpoints and key make one edge.

**Exceptions** are `Err` results. For example:

- `KeyError` for a missing field;
- `ValueError` for `int("and_1")` or for `random.sample` on too few nodes;
- `TypeError` for an operation on a value of the wrong type.

## Model

In the table, `#V` is the number of nodes and `#E` the number of edges.

| member | source | states |
|---|---|---|
| Graph.MultiDiGraph.constructor | kg_perturbator/conversion.py:9 | `nx.MultiDiGraph()` is the valid empty graph |
| Graph.MultiDiGraph.HasNode | kg_perturbator/utils.py:46 | `x in G` holds exactly for the nodes of the graph |
| Graph.MultiDiGraph.AddNode | kg_perturbator/utils.py:107 | `add_node` keeps the graph valid: a new node goes last with a copy of its dict; an existing node keeps its place and has its dict updated |
| Graph.MultiDiGraph.RemoveNode | kg_perturbator/utils.py:86 | `remove_node` keeps the graph valid and removes the node with every incident edge |
| Graph.MultiDiGraph.AddEdge | kg_perturbator/utils.py:94 | `add_edge(u, v, key, **d)` returns the key it used: the given key, or `new_edge_key(u, v)`. It creates missing endpoints and merges the dict into an existing edge |
| Graph.MultiDiGraph.AddMissingNode | kg_perturbator/conversion.py:18 | the first step of `add_edge`: an endpoint that is not a node yet becomes one with an empty dict |
| Graph.MultiDiGraph.PutEdge | kg_perturbator/conversion.py:18 | the second step of `add_edge`, between existing nodes: the edge's dict is updated, or a new edge goes last |
| Graph.MultiDiGraph.RemoveNodes | kg_perturbator/utils.py:119 | `remove_nodes_from` removes every listed node that is present, one after the other |
| Graph.MultiDiGraph.RemoveEdges | kg_perturbator/utils.py:139 | `remove_edges_from` removes every listed edge that is present |
| Graph.MultiDiGraph.SetNodeAttrs | kg_perturbator/perturbator.py:31-33 | writing a node's dict back changes that dict only |
| Graph.MultiDiGraph.SetEdgeAttrs | kg_perturbator/perturbator.py:52 | writing an edge's dict back changes that dict only |
| Graph.NewEdgeKey | kg_perturbator/utils.py:130 | the key `add_edge` picks without a key is not used yet between `u` and `v` |
| Graph.FirstFreeKey | kg_perturbator/utils.py:130 | the key chosen is the first unused one at or above the start |
| Graph.AddFreshNode | kg_perturbator/utils.py:107 | adding a node that is not there appends it with its dict and keeps the graph well formed |
| Graph.AddFreshEdge | kg_perturbator/utils.py:130 | a keyless edge between existing nodes is appended as a new edge with its dict |
| Graph.AddAutoEdgeAppends | kg_perturbator/conversion.py:18 | a keyless `add_edge` always appends a new edge, even between nodes already joined, and creates missing endpoints with empty dicts |
| Graph.AddEdgeTwice | kg_perturbator/conversion.py:18 | `add_edge(u, v, key, **a)` repeated with the same key and dict changes nothing more |
| Graph.AddEdgeFacts | kg_perturbator/conversion.py:18 | after `add_edge(u, v, key, **a)` both endpoints are nodes and the edge holds its old dict, or an empty one, updated with `a` |
| Graph.AddExistingEdge | kg_perturbator/conversion.py:18 | `add_edge` on an edge that is already there only updates its dict |
| Graph.AddEdgeEnsured | kg_perturbator/conversion.py:18 | creating the endpoints first does not change what `add_edge` does |
| Graph.AddEdgeNodes | kg_perturbator/conversion.py:18 | the nodes `add_edge(u, v, key)` creates, whatever the key: `u`, then `v`, each with an empty dict when it is not a node yet |
| Graph.AddNodesFresh | kg_perturbator/conversion.py:10-12 | adding distinct new ids appends them in order, each with its own dict |
| Graph.AddAutoEdgesAppended | kg_perturbator/conversion.py:13-18 | a run of keyless `add_edge` calls appends one new edge per call, with its dict; old nodes keep their dicts |
| Graph.RemoveNodeIsRestrict | kg_perturbator/utils.py:86 | `remove_node` on a present node is restriction to the other nodes; the value function also leaves the graph unchanged for an absent node, a case that only `remove_nodes_from` reaches, because `remove_node` raises |
| Graph.RemoveNodesIsRestrict | kg_perturbator/utils.py:119 | removing a list of nodes one by one equals dropping those nodes and every edge touching one |
| Graph.RestrictRestrict | kg_perturbator/utils.py:119 | removing two node sets one after the other is removing their union |
| Graph.RemoveEdgesIsOmit | kg_perturbator/utils.py:139 | removing a list of edges one by one equals dropping exactly those edges; the nodes and other edges stay |
| Graph.OmitCount | kg_perturbator/utils.py:119 | filtering a list without repeats removes exactly as many elements as it shares with the filter set |
| Utils.RandIdInjective | kg_perturbator/utils.py:45 | different counters give different `rand_i` ids |
| Utils.EntityIdInjective | kg_perturbator/utils.py:69 | different counters give different `e{k}` ids |
| Utils.RandIdIsNotEntityId | kg_perturbator/utils.py:45 | a `rand_i` id never has the form `e{k}` |
| Utils.GenerateUniqueNodeId | kg_perturbator/utils.py:39-48 | the `while` loop returns the id of `FreshRandId` and leaves the graph as it is |
| Utils.FreshRandIdIsLeast | kg_perturbator/utils.py:39-48 | the id returned is `rand_r` for the least `r >= 1` whose id is not a node |
| Utils.AddRandomEntitiesFacts | kg_perturbator/utils.py:99-109 | `add_random_entities(G, n)` appends exactly `n` fresh nodes, each with `{"type": "RandomEntity"}` and no edge; the rest of the graph is unchanged |
| Utils.LastAddedIsLastNode | kg_perturbator/utils.py:104-109 | the one id the result keeps is the last node of the new graph, and it was not a node before |
| Utils.AddRandomEntities | kg_perturbator/utils.py:99-109 | the result, a dict keyed only by `None`, is empty for `n = 0` and otherwise holds the last id added; the graph is `AddRandomEntitiesTo` of the old graph |
| Utils.RemoveRandomEntitiesFacts | kg_perturbator/utils.py:112-120 | `min(n, #V)` distinct existing nodes are chosen; removing them keeps the graph well formed and leaves `#V - min(n, #V)` nodes |
| Utils.RemoveRandomEntities | kg_perturbator/utils.py:112-120 | the returned keys are the sampled ids in sample order, and the graph is its restriction to the other nodes: every incident edge is removed, and every other node and edge keeps its dict |
| Utils.PickDistinct | kg_perturbator/utils.py:118 | distinct sample positions in a list without repeats pick distinct elements |
| Utils.RemoveRandomEdgesFacts | kg_perturbator/utils.py:133-139 | `min(n, #E)` distinct existing edges are chosen; removing them leaves `#E - min(n, #E)` edges and a well-formed graph |
| Utils.RemoveDistinctEdges | kg_perturbator/utils.py:139 | removing distinct existing edges removes exactly that many |
| Utils.RemoveRandomEdges | kg_perturbator/utils.py:133-139 | the graph afterwards has the same nodes and every edge except the sampled ones, the sampled positions counted in the insertion-ordered edge list |
| Utils.RandomEdgeEndsDiffer | kg_perturbator/utils.py:129 | the two nodes `random.sample(nodes, 2)` returns are different nodes of the list, so no self-loop is added |
| Utils.AddRandomEdge | kg_perturbator/utils.py:130 | one iteration adds a keyless edge with `{"type": "randomRelation"}` and keeps the graph valid |
| Utils.AddRandomEdgesFacts | kg_perturbator/utils.py:123-130 | one new edge per pair is appended, between two different existing nodes, with `{"type": "randomRelation"}`; the nodes and the old edges are unchanged |
| Utils.AddRandomEdges | kg_perturbator/utils.py:123-130 | it raises `ValueError` exactly when `n > 0` and there are fewer than two nodes, leaving the graph unchanged; otherwise the graph is `AddRandomEdgesTo` with the drawn ends |
| Reassign.MappingFacts | kg_perturbator/utils.py:56-71 | the mapping's keys are exactly the nodes that are neither removed nor added, in node order and each once; its values are `e{n+1}`, `e{n+2}`, … and pairwise different |
| Reassign.LookupMapped | kg_perturbator/utils.py:90-91 | `mapping.get(x, x)` gives the new id of a mapped node |
| Reassign.LookupUnmapped | kg_perturbator/utils.py:90-91 | `mapping.get(x, x)` gives `x` back for an unmapped node |
| Reassign.MappingRenumberable | kg_perturbator/utils.py:65-86 | when no node is already `e{k}` for `k > n`, the mapping sends distinct nodes to distinct ids that are not nodes yet |
| Reassign.LookupInjective | kg_perturbator/utils.py:90-91 | under that condition, different nodes are looked up to different ids |
| Reassign.RewireTouching | kg_perturbator/utils.py:89-94 | an edge with a mapped endpoint is rewired to an edge that did not exist, with a new id at one end |
| Reassign.CopyNodesClosed | kg_perturbator/utils.py:78-81 | the copy loop appends the new ids in mapping order, each holding its original's dict |
| Reassign.RenumberedWellFormed | kg_perturbator/utils.py:78-94 | whatever the mapping, after the three loops every edge endpoint is a node, no edge occurs twice and all dicts stay well formed |
| Reassign.ReassignWellFormed | kg_perturbator/utils.py:51-96 | after `reassign_entity_ids` there are no dangling edges and no duplicate nodes or edges, even when new ids collide with old ones |
| Reassign.ReassignNodes | kg_perturbator/utils.py:77-86 | without a collision, the node count is unchanged. The unmapped nodes keep their ids, dicts and order, followed by the new ids in mapping order, each with its original's dict; no original remains |
| Reassign.ReassignEdgeOrder | kg_perturbator/utils.py:88-94 | without a collision, the edges touching no renamed node keep their order, followed by the rewired copies of the others; the edge count is unchanged |
| Reassign.ReassignEdgeAttrs | kg_perturbator/utils.py:88-94 | without a collision, every old edge is present with its endpoints looked up in the mapping and its old key and dict |
| Reassign.ReassignEdgeOrigin | kg_perturbator/utils.py:88-94 | without a collision, every edge afterwards is an old edge with its endpoints looked up |
| Reassign.ReassignEntityIds | kg_perturbator/utils.py:51-96 | the method returns `MappingFrom(Survivors(...), n + 1)` and leaves the graph equal to `ReassignSpec` of the old graph, which re-adds the saved edges in insertion order and whose re-add step reads the saved edge dicts the graph still owns as they are at that point |
| Reassign.BuildMapping | kg_perturbator/utils.py:64-71 | the counter loop builds exactly `MappingFrom(survivors, n + 1)` |
| Reassign.CopyMappedNodes | kg_perturbator/utils.py:78-81 | the copy loop leaves the graph at `CopyNodes` |
| Reassign.RewireSavedEdges | kg_perturbator/utils.py:89-94 | the re-add loop leaves the graph at `RewireEdges` of the saved edge list; the saved dict of an edge touching no original is the graph's own, so an earlier merge into it is seen |
| Reassign.LiveDictClash | kg_perturbator/utils.py:73-94 | with nodes `a`, `e2`, `b`, edges `(a, b, 0)` with `{t: 1}` then `(e2, b, 0)` with `{t: 2}`, and `a` renamed `e2`, the edge `(e2, b, 0)` ends with `{t: 1}`: the renamed edge merges into the live dict and the later re-add reads it back |
| Conversion.LoadEntity | kg_perturbator/conversion.py:10-12 | an entity loads exactly when it is a dict with a string `id` and no `node_for_adding` field, which `add_node` would take as its own argument and reject; then it is `add_node(id, **(entity minus id))` |
| Conversion.KeyArg | kg_perturbator/conversion.py:17-18 | the `key` argument a relation's `"key"` field passes to `add_edge`: none without the field or for `null`, TypeError for a list or dict, which are unhashable, and otherwise a key; which key is stated by `StringKeyedEdge`, `IntegerKeyedEdge` and `BoolAndIntKeysMerge` |
| ConversionFacts.StringKeyedEdge | kg_perturbator/conversion.py:17-18 | a relation keyed by the string `s` is stored as the edge `(source, target, s)` |
| ConversionFacts.IntegerKeyedEdge | kg_perturbator/conversion.py:17-18 | a relation keyed by the integer `n` is stored as the edge `(source, target, n)` |
| ConversionFacts.BoolAndIntKeysMerge | kg_perturbator/conversion.py:17-18 | a relation keyed `true` (`false`) and one keyed `1` (`0`) between the same endpoints are one edge: the second adds no edge and only updates that edge's dict with its fields |
| Conversion.LoadRelation | kg_perturbator/conversion.py:13-18 | a relation loads exactly when it is a dict with string `source` and `target`, no `u_for_edge` or `v_for_edge` field and a hashable `key` if any. Then it is `add_edge` with the relation's key, or `new_edge_key` without one; the edge dict is `type` (default `""`) followed by the fields other than the endpoints, `type` and `key` |
| Conversion.JsonToNetworkx | kg_perturbator/conversion.py:4-19 | it fails exactly when `JsonToGraph` does, with the same error; otherwise it gives a fresh valid graph whose value is `JsonToGraph(kg)` |
| Conversion.AddEntities | kg_perturbator/conversion.py:10-12 | the entity loop ends in the state, or the exception, of the fold `LoadEntities` |
| Conversion.AddRelations | kg_perturbator/conversion.py:13-18 | the relation loop ends in the state, or the exception, of the fold `LoadRelations` |
| Conversion.LoadEntitiesErr | kg_perturbator/conversion.py:10-12 | the first entity that raises ends the loop with that exception |
| Conversion.RelationAttrsWf | kg_perturbator/conversion.py:16-18 | an edge dict has distinct keys: `type` first, then the relation's fields but the endpoints, `type` and `key` |
| Conversion.GraphEntities | kg_perturbator/conversion.py:25-29 | one entity per node, in node order |
| Conversion.GraphRelations | kg_perturbator/conversion.py:30-34 | one relation per edge, in edge order |
| Conversion.NetworkxToJson | kg_perturbator/conversion.py:21-35 | the two append loops build exactly `GraphToJson(G)` |
| ConversionFacts.LoadEntitiesOk | kg_perturbator/conversion.py:10-12 | the entity loop raises exactly when some entity is not a dict with a string `id`, or has a `node_for_adding` field |
| ConversionFacts.LoadEntitiesKeys | kg_perturbator/conversion.py:10-12 | when no entity raises, loading them adds exactly their ids as nodes, and no edge |
| ConversionFacts.LoadEntitiesFresh | kg_perturbator/conversion.py:10-12 | when no entity raises, entities with distinct new ids become nodes in their order, each with its fields but `id` |
| ConversionFacts.LoadRelationsOk | kg_perturbator/conversion.py:13-18 | the relation loop raises exactly when some relation lacks a string `source` or `target`, has a `u_for_edge` or `v_for_edge` field, or has an unhashable `key` |
| ConversionFacts.LoadRelationsEdges | kg_perturbator/conversion.py:13-18 | relations without a `key` each become a new edge in order, even between nodes already joined, with their fields but the endpoints and `type` defaulting to `""` |
| ConversionFacts.LoadRelationsWellFormed | kg_perturbator/conversion.py:13-18 | the relation loop, keyed relations included, keeps the graph well formed |
| ConversionFacts.KeyedRelationTwice | kg_perturbator/conversion.py:18 | a relation with a key, loaded a second time, leaves the graph as the first time: the same edge is updated with the same dict, not added again |
| ConversionFacts.KeyedRelationsTwice | kg_perturbator/conversion.py:13-18 | a keyed relation listed twice in a row loads as it does once |
| ConversionFacts.KeyedDuplicateExample | kg_perturbator/conversion.py:4-35 | two copies of `{"source": "e1", "target": "e2", "type": "t", "key": "k"}` give one edge, dumped as one relation without its `key` |
| ConversionFacts.JsonToGraphWellFormed | kg_perturbator/conversion.py:4-19 | whatever `json_to_networkx` builds is a well-formed graph |
| ConversionFacts.LoadRelationsDeclared | kg_perturbator/conversion.py:13-18 | relations without a `key` whose endpoints are all declared add no node |
| ConversionFacts.UndeclaredEndpoint | kg_perturbator/conversion.py:18 | for any relation that loads, keyed or not, an endpoint that is not a node becomes one with an empty dict, source before target; other nodes keep their dicts |
| ConversionFacts.EntityOutGet | kg_perturbator/conversion.py:27-28 | a dumped entity holds the node as `id` unless the node's dict has its own `id`, plus every field of that dict |
| ConversionFacts.RelationOutGet | kg_perturbator/conversion.py:32-33 | a dumped relation holds its endpoints unless the edge's dict overrides them, plus every field of that dict; the key is dropped |
| ConversionFacts.EntityRoundTrip | kg_perturbator/conversion.py:12-28 | an entity loaded and dumped again equals the original dict |
| ConversionFacts.RelationRoundTrip | kg_perturbator/conversion.py:16-33 | a relation loaded and dumped again equals the original exactly when it had a `type` and no `key`; a missing type comes back as `"type": ""`, and a `key` field never comes back |
| ConversionFacts.RoundTrip | kg_perturbator/conversion.py:4-35 | a KG whose entities load with distinct ids and whose relations load without a `key`, with declared endpoints and a `type`, gives back every entity and every relation, in order, as equal dicts |
| Perturbator.RewriteNode | kg_perturbator/perturbator.py:25-35 | one node iteration writes back the rewriter's answer, if any, and reports whether it did |
| Perturbator.RewriteNodes | kg_perturbator/perturbator.py:25-36 | a node pass leaves the graph at `RewriteNodesIn` and returns the changed nodes in node order |
| Perturbator.RewriteNodesFacts | kg_perturbator/perturbator.py:25-35 | a node pass keeps the graph well formed and the nodes and edges as they were; each node holds the pass's answer for its old dict, or its old dict |
| Perturbator.ChangedFacts | kg_perturbator/perturbator.py:35-36 | the returned dict holds exactly the nodes the pass rewrote, each once |
| Perturbator.IdentityLookup | kg_perturbator/perturbator.py:90 | the dict of rewritten nodes maps each id to itself |
| Perturbator.RenameEntityFacts | kg_perturbator/perturbator.py:26-33 | a node is renamed exactly when its name is truthy and the rewriter answers. Then a list name gets the answer as element 0, any other name becomes the answer; the other fields and the key order stay |
| Perturbator.RenameEntities | kg_perturbator/perturbator.py:17-36 | the graph afterwards is the rename pass applied to every node, and the result is the identity on the renamed nodes |
| Perturbator.DescribeOptionsOf | kg_perturbator/perturbator.py:61-62 | `update_name` defaults to false and `update_description` to true |
| Perturbator.DescribeFacts | kg_perturbator/perturbator.py:82-87 | `description` becomes `[d]` when that option is on and `name` becomes `[d]` when that one is; nothing else changes |
| Perturbator.DescribeEntityFacts | kg_perturbator/perturbator.py:66-90 | a node is described exactly when it is not a random entity, has a field, has a truthy name and the rewriter answers `s`; then it holds the writes for `[s]` |
| Perturbator.RandomEntitiesKept | kg_perturbator/perturbator.py:67-68 | random entities are never described |
| Perturbator.PerturbEntities | kg_perturbator/perturbator.py:54-92 | the graph afterwards is the describe pass applied to every node, and the result is the identity on the described nodes |
| Perturbator.RetypeRelationFacts | kg_perturbator/perturbator.py:47-52 | an edge is retyped exactly when its `type` is truthy and the rewriter answers; then `type` is the answer and the other fields stay |
| Perturbator.RenameRelations | kg_perturbator/perturbator.py:38-52 | the edge loop leaves the graph at `RenameRelationsIn` |
| Perturbator.RenameRelationsFacts | kg_perturbator/perturbator.py:46-52 | retyping keeps the graph well formed and changes no node, endpoint or key, only the dicts of edges that have a truthy type |
| Perturbator.EntityStepsFacts | kg_perturbator/perturbator.py:108-115 | `min(r, #V)` existing nodes are removed, then the node count grows by `a`; `added_entities` is empty or holds only the last node, a random entity; no new `e{k}` id appears |
| Perturbator.EdgeStepsFacts | kg_perturbator/perturbator.py:118-121 | the edge steps keep the nodes, remove `min(n, #E)` edges and add one edge per iteration |
| Perturbator.EditGraphFacts | kg_perturbator/perturbator.py:100-121 | the structural steps fail exactly when edges are to be added with fewer than two nodes left; otherwise they give the node and edge counts and the two id sets |
| Perturbator.ContentPassesFacts | kg_perturbator/perturbator.py:127-135 | the content passes change neither nodes nor edges, only dicts, and with every switch off they change nothing |
| Perturbator.Finish | kg_perturbator/perturbator.py:124-135 | reassignment followed by the content passes gives a well-formed graph |
| Perturbator.FinishFacts | kg_perturbator/perturbator.py:124-135 | without a collision, the node and edge counts stay: the unmapped nodes keep their ids and order, followed by the new ids |
| Perturbator.PerturbGraph | kg_perturbator/perturbator.py:100-135 | a successful run ends in a well-formed graph |
| Perturbator.PerturbFails | kg_perturbator/perturbator.py:100-138 | `perturb` fails exactly when the input does not load or edges are to be added with fewer than two nodes left |
| Perturbator.PerturbMapping | kg_perturbator/perturbator.py:124 | the mapping's keys are the nodes left after the structural steps that are neither in `removed_entities` nor in `added_entities`, each once; its values are `e{n+1}`, … for the loaded node count `n` |
| Perturbator.MappingIgnoresPasses | kg_perturbator/perturbator.py:124-138 | with the same counts, whatever the switches, LLM settings and rewriters, `perturb` fails alike and returns the same mapping |
| Perturbator.PerturbOutput | kg_perturbator/perturbator.py:100-138 | without a collision, the output lists `#V - min(r, #V) + a` entities: the kept nodes, then the new ids. Its relations are those left after the removals plus the ones added |
| Perturbator.EarlierRandomEntitiesRenumbered | kg_perturbator/perturbator.py:113-115 | adding two entities to the graph `{e1}` maps `e1` to `e2` and `rand_1` to `e3`; only `rand_2` keeps its id |
| Perturbator.EditSteps | kg_perturbator/perturbator.py:104-121 | the four structural steps threaded through one graph give `EditGraph` |
| Perturbator.ContentSteps | kg_perturbator/perturbator.py:127-135 | the three optional passes threaded through one graph give `ContentPasses` |
| Perturbator.RemovalStepFacts | kg_perturbator/perturbator.py:108-110 | `min(r, #V)` existing nodes are removed and the result stays a well-formed graph |
| Perturbator.AdditionStepFacts | kg_perturbator/perturbator.py:112-115 | the node count grows by `a`, no edge changes, `added_entities` is empty or holds only the last node, a random entity, and no new `e{k}` id appears |
| Perturbator.PerturbSteps | kg_perturbator/perturbator.py:101-135 | the steps between loading and converting back, run on one graph, fail exactly when `PerturbGraph` does and otherwise leave its graph and return its mapping |
| Perturbator.Perturb | kg_perturbator/perturbator.py:94-138 | `KGPerturbator.perturb` returns `PerturbSpec` |
| Alignment.Subscript | kg_perturbator/kg_to_entity_alignment_files.py:135 | `d[k]` succeeds exactly on a dict with key `k` and gives its value |
| Alignment.ParseEntityId | kg_perturbator/kg_to_entity_alignment_files.py:136 | `int(id[1:]) - 1` succeeds only on a string of at least two characters |
| Alignment.ParseNumberedId | kg_perturbator/kg_to_entity_alignment_files.py:136 | any first character followed by the decimal `k` parses to `k - 1` |
| Alignment.ParseEntityIdOfEntityId | kg_perturbator/kg_to_entity_alignment_files.py:136 | `e{k}` parses to `k - 1` |
| Alignment.ParseEntityIdOfRandId | kg_perturbator/kg_to_entity_alignment_files.py:149 | `rand_i` does not parse: `int("and_…")` raises ValueError |
| Alignment.GetEntityName | kg_perturbator/kg_to_entity_alignment_files.py:27-78 | the name raises exactly when no name field is truthy and there is no `id` |
| Alignment.NamePriority | kg_perturbator/kg_to_entity_alignment_files.py:27-76 | the name comes from the first truthy field of name, fullName, locationName, kpiName, metricName, headcountName, contextName, titleName: a list's first item, otherwise `str(value)` |
| Alignment.NameFallback | kg_perturbator/kg_to_entity_alignment_files.py:77-78 | with no truthy name field the name is `entity['id']` |
| Alignment.StripTagString | kg_perturbator/kg_to_entity_alignment_files.py:93-94 | the `in` guard only saves work: a string loses every non-overlapping `pekg:` |
| Alignment.NormaliseTypeCases | kg_perturbator/kg_to_entity_alignment_files.py:89-95 | a missing type or an empty list gives `Unknown`; a string, bare or first in a list, loses its `pekg:` tags; any other type raises |
| Alignment.SortSet | kg_perturbator/kg_to_entity_alignment_files.py:107 | `sorted(s)` lists exactly the set's elements, in strictly increasing order |
| Alignment.IdsFromFacts | kg_perturbator/kg_to_entity_alignment_files.py:108 | numbering distinct strings gives each its position plus the base |
| Alignment.SortedIdsOrder | kg_perturbator/kg_to_entity_alignment_files.py:107-108 | the numbering follows the string order, so it is injective |
| Alignment.SortedIdsOnto | kg_perturbator/kg_to_entity_alignment_files.py:107-108 | every number from the base up to base + size - 1 is used |
| Alignment.AssignIds | kg_perturbator/kg_to_entity_alignment_files.py:240-241 | the `enumerate` loop builds exactly `IdsFrom` |
| Alignment.AddAll | kg_perturbator/kg_to_entity_alignment_files.py:89-95 | the set-building loop is the fold that stops at the first exception |
| Alignment.CreateTypeIdFile | kg_perturbator/kg_to_entity_alignment_files.py:81-115 | the method computes `TypeIds` |
| Alignment.TypeIdsCover | kg_perturbator/kg_to_entity_alignment_files.py:86-108 | type ids key exactly the normalised types of the entities of both KGs |
| Alignment.TypeIdsDense | kg_perturbator/kg_to_entity_alignment_files.py:107-108 | type ids map the `k` types onto `0 .. k-1` following the string order |
| Alignment.RowOf | kg_perturbator/kg_to_entity_alignment_files.py:135-144 | an entity is accepted exactly when it is a dict with a parsable id and a normalisable type, and then gives its integer id, name and type id |
| Alignment.StoreKeys | kg_perturbator/kg_to_entity_alignment_files.py:143-144 | the loop stores exactly the rows' keys, in both dicts |
| Alignment.StoreLast | kg_perturbator/kg_to_entity_alignment_files.py:143-144 | a key holds what the last row with that key stored |
| Alignment.IndexEntities | kg_perturbator/kg_to_entity_alignment_files.py:134-144 | the entity loop computes `EntityMaps` |
| Alignment.CreateEntityFiles | kg_perturbator/kg_to_entity_alignment_files.py:118-179 | the method computes both KGs' dicts with their key order, KG1 first |
| Alignment.EntityMapsOk | kg_perturbator/kg_to_entity_alignment_files.py:134-144 | the entity loop succeeds exactly when every entity is accepted |
| Alignment.EntityMapsKeys | kg_perturbator/kg_to_entity_alignment_files.py:143-144 | both dicts have exactly the entities' integer ids as keys |
| Alignment.EntityMapsLast | kg_perturbator/kg_to_entity_alignment_files.py:143-144 | an id holds the name and type id of the last entity with that id |
| Alignment.StoreOrder | kg_perturbator/kg_to_entity_alignment_files.py:143-144 | the dicts' key order is the order in which keys were first stored; storing under a key again keeps its place |
| Alignment.EntityMapsOrder | kg_perturbator/kg_to_entity_alignment_files.py:143-178 | the lines of `ent_ids_*` and `ent_types_*` list each integer id once, at its first entity in list order; with distinct ids, exactly in list order |
| Seqs.FirstOccurrencesOfDistinct | kg_perturbator/kg_to_entity_alignment_files.py:143 | a list without repeats fills a dict in its own order |
| Seqs.FirstOccurrencesPrefix | kg_perturbator/kg_to_entity_alignment_files.py:143 | a later assignment never moves a key assigned earlier |
| Alignment.EntityTypeIdsNeverMissing | kg_perturbator/kg_to_entity_alignment_files.py:138-157 | with type ids built from the same two KGs, no entity gets `-1`; every stored type id is in `0 .. k-1` |
| Alignment.PairOfEntityIds | kg_perturbator/kg_to_entity_alignment_files.py:188-190 | the entry `(e{a}, e{b})` becomes the pair `(a - 1, b - 1)` |
| Alignment.Shuffle | kg_perturbator/kg_to_entity_alignment_files.py:194 | `random.shuffle` with given draws permutes the list |
| Alignment.AlignedPairsFacts | kg_perturbator/kg_to_entity_alignment_files.py:186-190 | one pair per mapping entry, in order; the loop raises exactly when an entry does not parse |
| Alignment.CreateAlignmentFiles | kg_perturbator/kg_to_entity_alignment_files.py:182-198 | the method computes `Alignment` |
| Alignment.AlignmentCut | kg_perturbator/kg_to_entity_alignment_files.py:186-198 | the result raises exactly when the pairs do; otherwise it is the shuffle cut at `split_index` into prefix and suffix |
| Alignment.AlignmentFacts | kg_perturbator/kg_to_entity_alignment_files.py:186-198 | all pairs are the aligned pairs in some order, one per entry. The test split is a prefix of length `split_index` and the train split is the rest; together they are every pair, as a list and as a multiset |
| Alignment.CreateRelationFiles | kg_perturbator/kg_to_entity_alignment_files.py:216-258 | the method computes `RelationIds` |
| Alignment.RelationIdRanges | kg_perturbator/kg_to_entity_alignment_files.py:239-246 | KG1's ids are `0 .. n1-1` and KG2's are `n1 .. n1+n2-1`, each a bijection from that KG's sorted types following string order; no id is shared |
| Alignment.TriplesOf | kg_perturbator/kg_to_entity_alignment_files.py:269-276 | the triple loop computes `Triples` |
| Alignment.CreateTripleFiles | kg_perturbator/kg_to_entity_alignment_files.py:261-287 | the method computes both KGs' triples |
| Alignment.TripleOfValue | kg_perturbator/kg_to_entity_alignment_files.py:270-275 | a relation whose type has an id gives its triple exactly when both endpoints parse |
| Alignment.TriplesFacts | kg_perturbator/kg_to_entity_alignment_files.py:268-287 | when every type has an id, there is one triple per relation in order, and the loop raises only on an endpoint that does not parse |
| Alignment.TripleLookupNeverFails | kg_perturbator/kg_to_entity_alignment_files.py:223-286 | with ids built from the same relations, the lookup never raises |
| Alignment.MappingJson | kg_perturbator/kg_to_entity_alignment_files.py:187 | the mapping as read back has one entry per pair |
| Alignment.PerturbedPairs | kg_perturbator/kg_to_entity_alignment_files.py:186-190 | a mapping `e{k_i} -> e{n+1+i}` aligns KG1's entity `k_i - 1` with KG2's entity `n + i` |
| Alignment.RandomOriginalFails | kg_perturbator/kg_to_entity_alignment_files.py:188 | a `rand_j` original in the mapping makes the alignment raise |
| Alignment.EarlierRandomEntityBreaksAlignment | kg_perturbator/kg_to_entity_alignment_files.py:188 | adding two random entities to a one-entity KG keeps `rand_1` as a survivor, so the alignment raises |
| Strip.SourceValue | kg_perturbator/strip_KG.py:19 | an entry's `value` is the value stored under `value` |
| Strip.StripSourcesFromAttribute | kg_perturbator/strip_KG.py:9-26 | the accumulator loop returns `StripSources(attr)` |
| Strip.StripSourcesCases | kg_perturbator/strip_KG.py:16-26 | anything but a list of dicts with `value` is returned unchanged. Otherwise the output has the summed length, and entry `i` fills its own slice: a list value's items, or the value |
| Strip.SimplifyRecord | kg_perturbator/strip_KG.py:28-50 | `simplify_entity`, and `simplify_relation` (identical code), compute `Simplified` |
| Strip.FilteredKeys | kg_perturbator/strip_KG.py:31-33 | a key is kept exactly when it is neither `_source…` nor `source_doc_id` |
| Strip.KeptFieldsFiltered | kg_perturbator/strip_KG.py:30-34 | on a dict, the assignment loop builds the same dict as an order-keeping filter |
| Strip.FilteredGet | kg_perturbator/strip_KG.py:31-34 | a kept key holds its value with the sources stripped |
| Strip.SimplifiedFields | kg_perturbator/strip_KG.py:30-37 | the result is a dict of exactly the non-provenance keys, in order, with each value stripped and a string `type` without `pekg:`; a non-string type is kept as stripped |
| Strip.SimplifiedRecordOf | kg_perturbator/strip_KG.py:31 | simplifying succeeds exactly on a dict |
| Strip.SimplifyRecords | kg_perturbator/strip_KG.py:57-58 | the comprehension computes `SimplifiedRecords` |
| Strip.SimplifyKg | kg_perturbator/strip_KG.py:52-62 | the method computes `SimplifiedKg` |
| Strip.SimplifiedRecordsFacts | kg_perturbator/strip_KG.py:57-58 | the comprehension raises exactly when some element is not a dict; otherwise it keeps count and order and simplifies each |
| Strip.SimplifiedKgShape | kg_perturbator/strip_KG.py:56-59 | the output has `entities` and `relations`, one simplified record per input entity and one per entry of `relationships` |
| Strip.ResimplifyDropsRelations | kg_perturbator/strip_KG.py:58 | feeding a simplified KG back in gives no relations, since they are read from `relationships` |
| Text.ParseIntOfNatToString | kg_perturbator/kg_to_entity_alignment_files.py:136 | `int(str(n)) == n` |
| Text.RemoveAllAbsent | kg_perturbator/strip_KG.py:37 | `replace` leaves a string without the tag unchanged |
| Text.StrLtTotal | kg_perturbator/kg_to_entity_alignment_files.py:107 | Python's string order is total |
| Json.UpdateGet | kg_perturbator/conversion.py:28 | after `d.update(e)` a key of `e` holds `e`'s value and every other key keeps `d`'s |
| Json.UpdateTwice | kg_perturbator/conversion.py:18 | `d.update(e)` twice is `d.update(e)` once |
| Json.UpdateIdempotent | kg_perturbator/utils.py:94 | updating a dict with entries it already holds changes nothing |

## Left out

- **Edge order.** networkx lists edges grouped by source node, in node order; within a source, by target, in the order the targets entered the source's adjacency dict; within a target, by key, in insertion order. The model lists edges in insertion order (`Graph.EdgesWithData`, `Conversion.GraphRelations`). Three results depend on this, as the next three lines say.
- Conversion.GraphRelations: the relations come out in insertion order, which networkx need not keep. The same holds for `Conversion.NetworkxToJson`, `ConversionFacts.RoundTrip` and `Reassign.ReassignEdgeOrder`. The set of relations and their dicts do not depend on the order.
- Utils.ChosenEdges: `random.sample(list(G.edges), n)` picks positions in networkx's list, while the model picks them in the insertion-ordered list. So for a given draw, `Utils.RemoveRandomEdges` can remove different edges from the ones Python removes, and the output edge set changes. Both lists hold the same edges, each once, so every choice of edges is still reachable by some draw; the counts are unaffected.
- Reassign.ReassignSpec: the saved edges are re-added in insertion order, not networkx's order. The same holds for `Reassign.ReassignEntityIds` and `Reassign.RewireSavedEdges`. When two saved edges are re-added as the same edge, the dicts merge in the other order, so the final dict can differ from Python's. That needs an unmapped node already named `e{k}` with `k` above `n_nodes`. `perturb` never builds such a graph: its only unmapped nodes are `rand_i`. Without a clash (`NoIdInNewRange`), each saved edge is re-added as a distinct edge, so the resulting edges and their dicts do not depend on the order (`Reassign.ReassignEdgeAttrs`, `Reassign.ReassignEdgeOrigin`).
- **Keyless edge keys.** A keyless `add_edge` follows networkx: it counts the edges between `u` and `v`, then counts up to the first unused key. This is the smallest unused key whenever the keys in use are `0 .. k-1`.
- **Node ids.** Node ids are strings. A non-string id, which networkx would accept, makes `Conversion.AsNodeId` report an error.
- **Edge keys.** A key is an integer or a string; `true` and `false` become `1` and `0`, as Python hashes them. A float key is not modelled, since there are no floats.
- LoadRelationsEdges: states the appended edges only for relations without a `key` field. A keyed relation adds the edge under that key, or updates the edge already there with that key (`Conversion.LoadRelation`, `ConversionFacts.KeyedRelationTwice`). For a list mixing both, only `ConversionFacts.LoadRelationsOk` and `ConversionFacts.LoadRelationsWellFormed` hold.
- LoadRelationsDeclared: is stated only for relations without a `key` field, for the same reason; `ConversionFacts.UndeclaredEndpoint` covers one keyed relation.
- RoundTrip: is stated only for relations without a `key` field. Such a field becomes the edge key and is not dumped (`ConversionFacts.RelationRoundTrip`), and two relations with the same key and endpoints merge into one edge (`ConversionFacts.KeyedDuplicateExample`).
- **Floats.** `Json.Value` has integers but no floating-point numbers. So JSON numbers with a fraction or an exponent cannot be written down: the falsiness of `0.0` and `str()` of a float name in `get_entity_name` (kg_to_entity_alignment_files.py:34) are not modelled.
- Json.Repr: the quote choice and the escapes of the backslash, the quote and the ASCII control characters follow Python's `repr`. The escapes of non-printable characters beyond ASCII, such as U+0085 or U+2028, are not modelled.
- **`int()`.** It is modelled on an optional sign and ASCII digits. Whitespace, underscores and non-ASCII digits are not accepted.
- **`split_index`.** It is `int(len * 0.57)`, a floating-point computation. It is a parameter between 0 and the length.
- **Randomness.** The Mersenne Twister and `random.seed(42)` are not modelled. `random.sample` is a caller-supplied `Sampler` honouring its contract: distinct positions, as many as asked for. Calls are numbered in the order `perturb` makes them. `random.shuffle` is Fisher–Yates over caller-supplied draws.
- **LLM providers and configuration.** The providers, `get_llm_provider_from_config` and `load_llm_config` are not part of this model. Each rewriter is an arbitrary function from the dict it is shown to a string, and the empty string means "no answer".
- **Configuration values.** They are naturals and booleans. For a count, a missing, zero or falsy entry skips the step.
- **Exceptions.** Their kinds are approximated (KeyError, TypeError, ValueError).
- Reassign.ReassignEntityIds: does not model the TypeError that `add_node(new_id, **attrs)` raises for a node dict with a `node_for_adding` field, or that `add_edge(new_src, new_tgt, key, **data)` raises for an edge dict with a `key`, `u_for_edge` or `v_for_edge` field. The graphs `perturb` builds never hold such fields: the loader rejects `node_for_adding` and the endpoint names, drops `key` from the edge dict, and the passes write only `name`, `description` and `type`.
- **Files and printing.** All file reading and writing, `json.dump`, printing, `main()`, `cli.py` and `perturb_and_generate_alignment.py` are left out. The modelled results are the dicts and lists that would be written.
- **Aliasing.** dict objects shared between the graph and the caller are not modelled. The one sharing inside the core that changes a result, the edge dicts `reassign_entity_ids` saves and re-reads, is modelled (`Reassign.SavedData`). Every dict is a value, so writing back a node's `name[0]` writes back the whole dict.
- **Discarded results.** The result dicts of the three LLM passes are computed, but `perturb` discards them, as the source does.
- **Dead branch in `get_entity_name`.** The `else entity['id']` branch for an empty list can never run, because an empty list is falsy. `Alignment.NameValue` does not model it.
- **Stated behaviour and the code.** Four cases differ; the model follows the code in each:
  - **Added entities.** Only the last id added is remembered, so earlier `rand_i` entities are survivors and get `e…` ids (`Perturbator.EarlierRandomEntitiesRenumbered`).
  - **Id clashes.** Renumbering does not check for clashes with existing `e{k}` ids. The facts that rely on no clash carry `NoIdInNewRange` as a precondition.
  - **Missing lists.** A missing `entities` or `relations` list reads as empty rather than failing.
  - **Reassignment order.** Old nodes are removed before the edges are added again.
