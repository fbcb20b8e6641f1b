/** The preprocessing script that turns a knowledge graph written by the
    extraction tool, whose attributes carry their provenance, into the plain
    shape the perturbator reads. */
module Strip {

  import opened Wrappers
  import opened Text
  import opened Seqs
  import opened Json
  import opened Loops
  import Alignment

  // ---- attributes that carry their sources ----

  /** An attribute entry of the extraction tool: a dict with a `value`. */
  predicate Sourced(x: Value) {
    x.Obj? && "value" in Keys(x.fields)
  }

  predicate AllSourced(xs: seq<Value>) {
    forall i | 0 <= i < |xs| :: Sourced(xs[i])
  }

  /** `x['value']` on a sourced entry. */
  function SourceValue(x: Value): (v: Value)
    ensures Sourced(x) ==> ("value", v) in x.fields
  {
    if x.Obj? then GetKeys(x.fields, "value"); GetOr(x.fields, "value", Null) else Null
  }

  /** What one entry contributes: the items of a list value, or the value. */
  function Spliced(x: Value): seq<Value> {
    var v := SourceValue(x);
    if v.List? then v.items else [v]
  }

  /** The result of stripping the sources from an attribute: the list the
      accumulator loop builds with `extend` and `append`. */
  function StripSources(attr: Value): Value {
    if attr.List? && AllSourced(attr.items) then List(FlatMap(Spliced, attr.items)) else attr
  }

  method StripSourcesFromAttribute(attr: Value) returns (r: Value)
    ensures r == StripSources(attr)
  {
    if !(attr.List? && AllSourced(attr.items)) {
      return attr;
    }
    var xs := attr.items;
    var values: seq<Value> := [];
    for i := 0 to |xs|
      invariant values == FlatMap(Spliced, xs[..i])
    {
      assert xs[..i + 1][..i] == xs[..i];
      var v := SourceValue(xs[i]);
      if v.List? {
        values := values + v.items;
      } else {
        values := values + [v];
      }
    }
    assert xs[..|xs|] == xs;
    return List(values);
  }

  /** `strip_sources_from_attribute` returns its argument unless it is a list
      of sourced entries; then it returns their values in order, each list
      value spliced in one level deep: entry `i` fills the slice that starts
      after the values of the entries before it. */
  lemma StripSourcesCases(attr: Value)
    ensures !(attr.List? && AllSourced(attr.items)) ==> StripSources(attr) == attr
    ensures attr.List? && AllSourced(attr.items) ==>
      var r := StripSources(attr).items;
      var xs := attr.items;
      StripSources(attr).List? && |r| == SumLen(Spliced, xs) &&
      (forall i | 0 <= i < |xs| ::
        SumLen(Spliced, xs[..i]) + |Spliced(xs[i])| <= |r| &&
        r[SumLen(Spliced, xs[..i])..SumLen(Spliced, xs[..i]) + |Spliced(xs[i])|] == Spliced(xs[i]))
  {
    if attr.List? && AllSourced(attr.items) {
      FlatMapLength(Spliced, attr.items);
      forall i | 0 <= i < |attr.items|
        ensures SumLen(Spliced, attr.items[..i]) + |Spliced(attr.items[i])| <= |FlatMap(Spliced, attr.items)|
        ensures FlatMap(Spliced, attr.items)[SumLen(Spliced, attr.items[..i])..SumLen(Spliced, attr.items[..i]) + |Spliced(attr.items[i])|]
          == Spliced(attr.items[i])
      {
        FlatMapSlice(Spliced, attr.items, i);
      }
    }
  }

  // ---- entities and relations ----

  /** Provenance fields that the simplified graph drops. */
  predicate Dropped(k: string) {
    StartsWith(k, "_source") || k == "source_doc_id"
  }

  /** The dict the loop over `record.items()` builds by assignment. */
  function KeptFields(d: Dict): Dict
    decreases |d|
  {
    if d == [] then []
    else
      var prev := KeptFields(d[..|d| - 1]);
      var (k, v) := d[|d| - 1];
      if Dropped(k) then prev else Set(prev, k, StripSources(v))
  }

  /** A string `type` loses every occurrence of the namespace tag. */
  function Retag(d: Dict): Dict {
    match Get(d, "type")
    case Some(Str(s)) => Set(d, "type", Str(RemoveAll(s, Alignment.Tag)))
    case _ => d
  }

  function Simplified(d: Dict): Dict {
    Retag(KeptFields(d))
  }

  /** One `simplify_entity` or, with the same code, `simplify_relation`. */
  method SimplifyRecord(d: Dict) returns (r: Dict)
    ensures r == Simplified(d)
  {
    r := [];
    for i := 0 to |d|
      invariant r == KeptFields(d[..i])
    {
      assert d[..i + 1][..i] == d[..i];
      var (k, v) := d[i];
      if Dropped(k) {
        continue;
      }
      var s := StripSourcesFromAttribute(v);
      r := Set(r, k, s);
    }
    assert d[..|d|] == d;
    match Get(r, "type")
    case Some(Str(s)) =>
      r := Set(r, "type", Str(RemoveAll(s, Alignment.Tag)));
    case _ =>
  }

  /** What a filter that keeps the entry `p` contributes. */
  function KeepEntry(p: (string, Value)): Dict {
    if Dropped(p.0) then [] else [(p.0, StripSources(p.1))]
  }

  /** An independent description of the kept fields: a filter over the
      entries, in their order, with each value stripped. */
  function Filtered(d: Dict): Dict {
    FlatMap(KeepEntry, d)
  }

  lemma FilteredCons(d: Dict)
    requires d != []
    ensures Filtered(d) == KeepEntry(d[0]) + Filtered(d[1..])
  {
    assert [d[0]] + d[1..] == d;
    FlatMapCons(KeepEntry, d[0], d[1..]);
  }

  lemma {:induction false} FilteredKeys(d: Dict, k: string)
    ensures k in Keys(Filtered(d)) <==> k in Keys(d) && !Dropped(k)
    decreases |d|
  {
    if d != [] {
      FilteredKeys(d[1..], k);
      FilteredCons(d);
      KeysAppend(KeepEntry(d[0]), Filtered(d[1..]));
      assert Keys(d) == [d[0].0] + Keys(d[1..]);
    }
  }

  /** On a dict, whose keys are distinct, every assignment adds a new key,
      so the loop keeps exactly the entries the filter keeps. */
  lemma {:induction false} KeptFieldsFiltered(d: Dict)
    requires WfDict(d)
    ensures KeptFields(d) == Filtered(d)
    decreases |d|
  {
    if d != [] {
      var n := |d| - 1;
      var init := d[..n];
      assert Keys(init) == Keys(d)[..n];
      DistinctPrefix(Keys(d), n);
      KeptFieldsFiltered(init);
      var (k, v) := d[n];
      assert init + [d[n]] == d;
      assert Filtered(d) == Filtered(init) + KeepEntry(d[n]);
      if !Dropped(k) {
        FilteredKeys(init, k);
        assert k == Keys(d)[n];
        DistinctNotEarlier(Keys(d), n);
      }
    }
  }

  lemma {:induction false} FilteredGet(d: Dict, k: string)
    ensures Get(Filtered(d), k) == if Dropped(k) then None else
      match Get(d, k) case Some(v) => Some(StripSources(v)) case None => None
    decreases |d|
  {
    if d != [] {
      FilteredGet(d[1..], k);
      GetCons(d[0], d[1..], k);
      assert [d[0]] + d[1..] == d;
      FilteredCons(d);
      if Dropped(d[0].0) {
        assert Filtered(d) == Filtered(d[1..]);
      } else {
        var h := (d[0].0, StripSources(d[0].1));
        assert Filtered(d) == [h] + Filtered(d[1..]);
        GetCons(h, Filtered(d[1..]), k);
      }
    }
  }

  lemma {:induction false} FilteredWf(d: Dict)
    requires WfDict(d)
    ensures WfDict(Filtered(d))
    decreases |d|
  {
    if d != [] {
      assert Keys(d[1..]) == Keys(d)[1..];
      DistinctSuffix(Keys(d));
      FilteredWf(d[1..]);
      FilteredCons(d);
      var head := KeepEntry(d[0]);
      KeysAppend(head, Filtered(d[1..]));
      if head != [] {
        FilteredKeys(d[1..], d[0].0);
        DistinctCons(d[0].0, Keys(Filtered(d[1..])));
      }
    }
  }

  /** What simplifying a record keeps: exactly the fields that are not
      provenance, in their order and without duplicates; each value with its
      sources stripped; and a string `type` without the namespace tag. */
  lemma SimplifiedFields(d: Dict, k: string)
    requires WfDict(d)
    ensures WfDict(Simplified(d))
    ensures k in Keys(Simplified(d)) <==> k in Keys(d) && !Dropped(k)
    ensures Keys(Simplified(d)) == Keys(Filtered(d))
    ensures Get(Simplified(d), k) ==
      if Dropped(k) then None else
      match Get(d, k)
      case None => None
      case Some(v) =>
        if k == "type" && StripSources(v).Str? then Some(Str(RemoveAll(StripSources(v).s, Alignment.Tag)))
        else Some(StripSources(v))
  {
    KeptFieldsFiltered(d);
    FilteredWf(d);
    FilteredKeys(d, k);
    FilteredGet(d, k);
    FilteredGet(d, "type");
    var f := Filtered(d);
    match Get(f, "type")
    case Some(Str(s)) =>
      GetKeys(f, "type");
      SetKeysInPlace(f, "type", Str(RemoveAll(s, Alignment.Tag)));
      SetKeys(f, "type", Str(RemoveAll(s, Alignment.Tag)));
      SetGet(f, "type", Str(RemoveAll(s, Alignment.Tag)), k);
    case _ =>
  }

  // ---- the graph ----

  /** `simplify_entity(e)` on a list element; `e.items()` raises when `e` is
      not a dict. */
  function SimplifiedRecordOf(v: Value): (r: Result<Value>)
    ensures r.Ok? <==> v.Obj?
  {
    var d :- AsDict(v);
    Ok(Obj(Simplified(d)))
  }

  /** The list comprehension over the records. */
  function SimplifiedRecords(vs: seq<Value>): Result<seq<Value>> {
    Fold([], AppendStep(SimplifiedRecordOf), vs)
  }

  /** The dict `simplify_kg` writes: entities from `entities`, relations from
      `relationships`, a missing key read as an empty list. */
  function SimplifiedKg(kg: Value): Result<Dict> {
    var g :- AsDict(kg);
    var es :- IterFieldOrEmpty(g, "entities");
    var entities :- SimplifiedRecords(es);
    var rs :- IterFieldOrEmpty(g, "relationships");
    var relations :- SimplifiedRecords(rs);
    Ok([("entities", List(entities)), ("relations", List(relations))])
  }

  method SimplifyRecords(vs: seq<Value>) returns (r: Result<seq<Value>>)
    ensures r == SimplifiedRecords(vs)
  {
    var out: seq<Value> := [];
    for i := 0 to |vs|
      invariant Fold([], AppendStep(SimplifiedRecordOf), vs[..i]) == Ok(out)
    {
      FoldSnoc([], AppendStep(SimplifiedRecordOf), vs, i);
      if !vs[i].Obj? {
        assert SimplifiedRecordOf(vs[i]).Err?;
        assert AppendStep(SimplifiedRecordOf)(out, vs[i]).Err?;
        r := Err(AttributeError("not a dict"));
        FoldErr([], AppendStep(SimplifiedRecordOf), vs, i + 1);
        return;
      }
      var s := SimplifyRecord(vs[i].fields);
      assert SimplifiedRecordOf(vs[i]) == Ok(Obj(s));
      out := out + [Obj(s)];
    }
    assert vs[..|vs|] == vs;
    r := Ok(out);
  }

  /** The transformation of `simplify_kg`, between reading and writing the
      files. */
  method SimplifyKg(kg: Value) returns (r: Result<Dict>)
    ensures r == SimplifiedKg(kg)
  {
    if !kg.Obj? {
      return Err(AttributeError("not a dict"));
    }
    var es := IterFieldOrEmpty(kg.fields, "entities");
    if es.Err? {
      return Err(es.error);
    }
    var entities := SimplifyRecords(es.value);
    if entities.Err? {
      return Err(entities.error);
    }
    var rs := IterFieldOrEmpty(kg.fields, "relationships");
    if rs.Err? {
      return Err(rs.error);
    }
    var relations := SimplifyRecords(rs.value);
    if relations.Err? {
      return Err(relations.error);
    }
    return Ok([("entities", List(entities.value)), ("relations", List(relations.value))]);
  }

  /** The comprehension succeeds exactly when every element is a dict, keeps
      the number and order of the records and simplifies each. */
  lemma SimplifiedRecordsFacts(vs: seq<Value>)
    ensures SimplifiedRecords(vs).Ok? <==> forall i | 0 <= i < |vs| :: vs[i].Obj?
    ensures SimplifiedRecords(vs).Ok? ==>
      |SimplifiedRecords(vs).value| == |vs| &&
      forall i | 0 <= i < |vs| :: SimplifiedRecords(vs).value[i] == Obj(Simplified(vs[i].fields))
  {
    AppendFold([], SimplifiedRecordOf, vs);
  }

  /** The simplified graph has the two keys the perturbator reads, one
      simplified entity per input entity and one simplified relation per
      entry of `relationships`. */
  lemma SimplifiedKgShape(kg: Dict)
    requires IterFieldOrEmpty(kg, "entities").Ok? && IterFieldOrEmpty(kg, "relationships").Ok?
    ensures var es := IterFieldOrEmpty(kg, "entities").value;
      var rs := IterFieldOrEmpty(kg, "relationships").value;
      (SimplifiedKg(Obj(kg)).Ok? <==>
        (forall i | 0 <= i < |es| :: es[i].Obj?) && (forall i | 0 <= i < |rs| :: rs[i].Obj?)) &&
      (SimplifiedKg(Obj(kg)).Ok? ==>
        var out := SimplifiedKg(Obj(kg)).value;
        Keys(out) == ["entities", "relations"] &&
        out[0].1 == List(SimplifiedRecords(es).value) && |SimplifiedRecords(es).value| == |es| &&
        out[1].1 == List(SimplifiedRecords(rs).value) && |SimplifiedRecords(rs).value| == |rs|)
  {
    SimplifiedRecordsFacts(IterFieldOrEmpty(kg, "entities").value);
    SimplifiedRecordsFacts(IterFieldOrEmpty(kg, "relationships").value);
  }

  /** The relations are read from `relationships`, but written as
      `relations`: feeding a simplified graph back in drops its relations. */
  lemma ResimplifyDropsRelations(kg: Value)
    requires SimplifiedKg(kg).Ok?
    ensures var out := SimplifiedKg(Obj(SimplifiedKg(kg).value));
      out.Ok? && out.value[1] == ("relations", List([]))
  {
    var g := SimplifiedKg(kg).value;
    assert Keys(g) == ["entities", "relations"];
    GetKeys(g, "relationships");
    assert Fold([], AppendStep(SimplifiedRecordOf), []) == Ok([]);
    var es0 := IterFieldOrEmpty(kg.fields, "entities").value;
    SimplifiedRecordsFacts(es0);
    var es := g[0].1.items;
    assert es == SimplifiedRecords(es0).value;
    SimplifiedRecordsFacts(es);
    assert IterFieldOrEmpty(g, "entities") == Ok(es);
  }
}
