/** `kg_perturbator/kg_to_entity_alignment_files.py`: the tables behind the
    entity-alignment files computed from an original KG, its perturbed copy
    and the entity mapping between them. Only the computed dicts and lists
    are modelled; writing them as tab-separated lines is not. */
module Alignment {

  import opened Wrappers
  import opened Text
  import opened Seqs
  import opened Json
  import opened Loops
  import Utils
  import Reassign
  import Perturbator

  // ---- identifiers ----

  /** `d[k]`, which raises when `d` is not a dict or has no key `k`. */
  function Subscript(v: Value, k: string): (r: Result<Value>)
    ensures r.Ok? <==> v.Obj? && k in Keys(v.fields)
    ensures r.Ok? ==> (k, r.value) in v.fields
  {
    if v.Obj? then
      FieldKeys(v.fields, k);
      Field(v.fields, k)
    else Err(TypeError("object is not subscriptable"))
  }

  /** `int(x[1:]) - 1`: drops the first character of an id and parses the
      rest. A value that is not a string raises TypeError, a remainder that
      is not a decimal integer ValueError. */
  function ParseEntityId(id: Value): (r: Result<int>)
    ensures r.Ok? ==> id.Str? && |id.s| >= 2
  {
    if !id.Str? then Err(TypeError("id is not a string"))
    else
      var rest := if |id.s| == 0 then "" else id.s[1..];
      match ParseInt(rest)
      case Some(n) => Ok(n - 1)
      case None => Err(ValueError("invalid literal for int() with base 10"))
  }

  /** Whatever the first character, a decimal number behind it is read as
      that number minus one. */
  lemma ParseNumberedId(c: char, k: nat)
    ensures ParseEntityId(Str([c] + NatToString(k))) == Ok(k - 1)
  {
    assert ([c] + NatToString(k))[1..] == NatToString(k);
    ParseIntOfNatToString(k);
  }

  /** The identifier `e{k}` that id reassignment hands out parses to `k - 1`. */
  lemma ParseEntityIdOfEntityId(k: nat)
    ensures ParseEntityId(Str(Utils.EntityId(k))) == Ok(k - 1)
  {
    ParseNumberedId('e', k);
  }

  /** A `rand_{i}` identifier does not parse: `int("and_…")` raises. */
  lemma ParseEntityIdOfRandId(i: nat)
    ensures ParseEntityId(Str(Utils.RandId(i))) == Err(ValueError("invalid literal for int() with base 10"))
  {
    var s := Utils.RandId(i);
    assert s[1..][0] == 'a';
  }

  // ---- get_entity_name ----

  /** The fields tried for an entity's name, in order. */
  const NameFields: seq<string> :=
    ["name", "fullName", "locationName", "kpiName", "metricName", "headcountName", "contextName", "titleName"]

  /** What a truthy name field gives: a list its first item, any other
      value `str(value)`. */
  function NameValue(v: Value): (r: Value)
    requires Truthy(v)
    ensures !v.List? ==> r == Str(PyStr(v))
  {
    if v.List? then v.items[0] else Str(PyStr(v))
  }

  /** The branch chain over `fields`, falling back to `entity['id']`. */
  function NameFrom(entity: Dict, fields: seq<string>): (r: Result<Value>)
    ensures r.Err? <==>
      && "id" !in Keys(entity)
      && forall j | 0 <= j < |fields| :: !Truthy(GetOr(entity, fields[j], Null))
    decreases |fields|
  {
    if fields == [] then
      FieldKeys(entity, "id");
      Field(entity, "id")
    else if Truthy(GetOr(entity, fields[0], Null)) then Ok(NameValue(GetOr(entity, fields[0], Null)))
    else
      var r := NameFrom(entity, fields[1..]);
      assert forall j | 1 <= j < |fields| :: fields[j] == fields[1..][j - 1];
      r
  }

  /** `get_entity_name(entity)`. */
  function GetEntityName(entity: Dict): (r: Result<Value>)
    ensures r.Err? <==>
      && "id" !in Keys(entity)
      && forall j | 0 <= j < |NameFields| :: !Truthy(GetOr(entity, NameFields[j], Null))
  {
    NameFrom(entity, NameFields)
  }

  lemma {:induction false} NameFromPriority(entity: Dict, fields: seq<string>, i: nat)
    requires i < |fields| && Truthy(GetOr(entity, fields[i], Null))
    requires forall j | 0 <= j < i :: !Truthy(GetOr(entity, fields[j], Null))
    ensures NameFrom(entity, fields) == Ok(NameValue(GetOr(entity, fields[i], Null)))
    decreases i
  {
    if i > 0 {
      NameFromPriority(entity, fields[1..], i - 1);
    }
  }

  lemma {:induction false} NameFromFallback(entity: Dict, fields: seq<string>)
    requires forall j | 0 <= j < |fields| :: !Truthy(GetOr(entity, fields[j], Null))
    ensures NameFrom(entity, fields) == Field(entity, "id")
    decreases |fields|
  {
    if fields != [] {
      NameFromFallback(entity, fields[1..]);
    }
  }

  /** The name is taken from the first truthy field of the chain. */
  lemma NamePriority(entity: Dict, i: nat)
    requires i < |NameFields| && Truthy(GetOr(entity, NameFields[i], Null))
    requires forall j | 0 <= j < i :: !Truthy(GetOr(entity, NameFields[j], Null))
    ensures GetEntityName(entity) == Ok(NameValue(GetOr(entity, NameFields[i], Null)))
  {
    NameFromPriority(entity, NameFields, i);
  }

  /** With no truthy name field the name is `entity['id']`. */
  lemma NameFallback(entity: Dict)
    requires forall j | 0 <= j < |NameFields| :: !Truthy(GetOr(entity, NameFields[j], Null))
    ensures GetEntityName(entity) == Field(entity, "id")
  {
    NameFromFallback(entity, NameFields);
  }

  // ---- type normalisation ----

  const Tag := "pekg:"

  /** `if "pekg:" in t: t = t.replace("pekg:", "")` followed by using `t`
      as a set element or dict key. Only a string gets through: for any
      other value `in`, `replace` or hashing raises. */
  function StripTag(t: Value): (r: Result<string>)
    ensures r.Ok? <==> t.Str?
  {
    match t
    case Str(s) => Ok(if Contains(s, Tag) then RemoveAll(s, Tag) else s)
    case List(items) =>
      if Str(Tag) in items then Err(AttributeError("'list' object has no attribute 'replace'"))
      else Err(TypeError("unhashable type: 'list'"))
    case Obj(fields) =>
      if Tag in Keys(fields) then Err(AttributeError("'dict' object has no attribute 'replace'"))
      else Err(TypeError("unhashable type: 'dict'"))
    case _ => Err(TypeError("argument is not iterable"))
  }

  /** The guard only saves work: a string loses every non-overlapping
      `pekg:`, scanning left to right. */
  lemma StripTagString(s: string)
    ensures StripTag(Str(s)) == Ok(RemoveAll(s, Tag))
  {
    if !Contains(s, Tag) {
      RemoveAllAbsent(s, Tag);
    }
  }

  /** The raw type: `entity.get('type', 'Unknown')`, a list replaced by its
      first item, or by `'Unknown'` when empty. */
  function RawType(entity: Dict): Value {
    var t := GetOr(entity, "type", Str("Unknown"));
    if t.List? then (if t.items != [] then t.items[0] else Str("Unknown")) else t
  }

  /** The normalised entity type. */
  function NormaliseType(entity: Dict): Result<string> {
    StripTag(RawType(entity))
  }

  /** The type of an entity of the list: `entity.get` needs a dict. */
  function EntityType(v: Value): Result<string> {
    var entity :- AsDict(v);
    NormaliseType(entity)
  }

  lemma {:induction false} ContainsHead(s: string, p: string)
    requires |p| > 0 && Contains(s, p)
    ensures p[0] in s
    decreases |s|
  {
    if !StartsWith(s, p) {
      ContainsHead(s[1..], p);
    } else {
      assert s[0] == p[0];
    }
  }

  lemma UnknownHasNoTag()
    ensures StripTag(Str("Unknown")) == Ok("Unknown")
  {
    if Contains("Unknown", Tag) {
      ContainsHead("Unknown", Tag);
      assert false;
    }
  }

  /** A missing type and an empty list normalise to `'Unknown'`; a string,
      bare or first in a list, loses its `pekg:` tags; any other type raises. */
  lemma NormaliseTypeCases(entity: Dict)
    ensures "type" !in Keys(entity) ==> NormaliseType(entity) == Ok("Unknown")
    ensures GetOr(entity, "type", Null) == List([]) ==> NormaliseType(entity) == Ok("Unknown")
    ensures forall s :: GetOr(entity, "type", Null) == Str(s) ==> NormaliseType(entity) == Ok(RemoveAll(s, Tag))
    ensures forall s, rest :: GetOr(entity, "type", Null) == List([Str(s)] + rest) ==>
      NormaliseType(entity) == Ok(RemoveAll(s, Tag))
    ensures NormaliseType(entity).Ok? <==> RawType(entity).Str?
  {
    UnknownHasNoTag();
    var t := RawType(entity);
    if t.Str? {
      StripTagString(t.s);
    }
  }

  // ---- sorted order and dense ids ----

  /** `m` comes before every other element of `s`. */
  predicate IsLeast(m: string, s: set<string>) {
    m in s && forall y | y in s && y != m :: StrLt(m, y)
  }

  lemma {:induction false} LeastExists(s: set<string>)
    requires s != {}
    ensures exists m :: IsLeast(m, s)
    decreases |s|
  {
    var x :| x in s;
    if s != {x} {
      var rest := s - {x};
      LeastExists(rest);
      var m :| IsLeast(m, rest);
      if StrLt(x, m) {
        forall y | y in s && y != x
          ensures StrLt(x, y)
        {
          if y != m {
            StrLtTransitive(x, m, y);
          }
        }
        assert IsLeast(x, s);
      } else {
        StrLtTotal(x, m);
        assert IsLeast(m, s);
      }
    } else {
      assert IsLeast(x, s);
    }
  }

  lemma LeastUnique(s: set<string>)
    ensures forall a, b | IsLeast(a, s) && IsLeast(b, s) :: a == b
  {
    forall a, b | IsLeast(a, s) && IsLeast(b, s)
      ensures a == b
    {
      if a != b {
        StrLtAsymmetric(a, b);
      }
    }
  }

  ghost predicate StrictlySorted(xs: seq<string>) {
    forall i, j | 0 <= i < j < |xs| :: StrLt(xs[i], xs[j])
  }

  /** `sorted(s)` for a set of strings: its elements in increasing order. */
  function SortSet(s: set<string>): (r: seq<string>)
    ensures Elems(r) == s
    ensures StrictlySorted(r)
    decreases |s|
  {
    if s == {} then []
    else
      LeastExists(s);
      LeastUnique(s);
      var m :| IsLeast(m, s);
      var rest := SortSet(s - {m});
      SortedCons(m, s, rest);
      [m] + rest
  }

  lemma SortedCons(m: string, s: set<string>, rest: seq<string>)
    requires IsLeast(m, s) && Elems(rest) == s - {m} && StrictlySorted(rest)
    ensures Elems([m] + rest) == s && StrictlySorted([m] + rest)
  {
    var r := [m] + rest;
    forall i, j | 0 <= i < j < |r|
      ensures StrLt(r[i], r[j])
    {
      assert r[j] == rest[j - 1];
      if i == 0 {
        assert rest[j - 1] in Elems(rest);
      } else {
        assert r[i] == rest[i - 1];
      }
    }
    assert Elems(r) == {m} + Elems(rest);
  }

  lemma SortedDistinct(xs: seq<string>)
    requires StrictlySorted(xs)
    ensures Distinct(xs)
  {
    forall i, j | 0 <= i < |xs| && 0 <= j < |xs| && i != j
      ensures xs[i] != xs[j]
    {
      if i < j {
        StrLtIrreflexive(xs[i]);
      } else {
        StrLtIrreflexive(xs[j]);
      }
    }
  }

  /** `{x: base + i for i, x in enumerate(xs)}`, filled in order as the loop does. */
  function IdsFrom(xs: seq<string>, base: int): map<string, int>
    decreases |xs|
  {
    if xs == [] then map[]
    else IdsFrom(xs[..|xs| - 1], base)[xs[|xs| - 1] := base + |xs| - 1]
  }

  /** Numbering distinct strings gives each its position plus `base`. */
  lemma {:induction false} IdsFromFacts(xs: seq<string>, base: int)
    requires Distinct(xs)
    ensures IdsFrom(xs, base).Keys == Elems(xs)
    ensures forall i | 0 <= i < |xs| :: IdsFrom(xs, base)[xs[i]] == base + i
    decreases |xs|
  {
    if xs != [] {
      var init := xs[..|xs| - 1];
      DistinctPrefix(xs, |xs| - 1);
      IdsFromFacts(init, base);
      assert xs == init + [xs[|xs| - 1]];
      forall i | 0 <= i < |init|
        ensures init[i] == xs[i] && xs[i] != xs[|xs| - 1]
      {
      }
    }
  }

  /** Numbering the sorted elements of `s` from `base` numbers exactly the
      elements of `s`, with `base .. base + |s| - 1`. */
  lemma SortedIdsRange(s: set<string>, base: int)
    ensures var m := IdsFrom(SortSet(s), base);
      && m.Keys == s
      && |m| == |s|
      && forall t | t in s :: base <= m[t] < base + |s|
  {
    var xs := SortSet(s);
    SortedDistinct(xs);
    DistinctCard(xs);
    IdsFromFacts(xs, base);
    forall t | t in s
      ensures base <= IdsFrom(xs, base)[t] < base + |s|
    {
      var i :| 0 <= i < |xs| && xs[i] == t;
    }
  }

  /** The numbering follows the string order, so it is injective. */
  lemma SortedIdsOrder(s: set<string>, base: int)
    ensures var m := IdsFrom(SortSet(s), base);
      m.Keys == s && forall a, b | a in s && b in s :: m[a] < m[b] <==> StrLt(a, b)
  {
    var xs := SortSet(s);
    SortedDistinct(xs);
    IdsFromFacts(xs, base);
    var m := IdsFrom(xs, base);
    forall a, b | a in s && b in s
      ensures m[a] < m[b] <==> StrLt(a, b)
    {
      var i :| 0 <= i < |xs| && xs[i] == a;
      var j :| 0 <= j < |xs| && xs[j] == b;
      if j < i {
        StrLtAsymmetric(b, a);
      } else if i == j {
        StrLtIrreflexive(a);
      }
    }
  }

  /** Every number of `base .. base + |s| - 1` is used. */
  lemma SortedIdsOnto(s: set<string>, base: int)
    ensures var m := IdsFrom(SortSet(s), base);
      forall k | base <= k < base + |s| :: k in m.Values
  {
    var xs := SortSet(s);
    SortedDistinct(xs);
    DistinctCard(xs);
    IdsFromFacts(xs, base);
    var m := IdsFrom(xs, base);
    forall k | base <= k < base + |s|
      ensures k in m.Values
    {
      assert xs[k - base] in m && m[xs[k - base]] == k;
    }
  }

  /** The loop `for i, x in enumerate(xs): ids[x] = base + i`. */
  method AssignIds(xs: seq<string>, base: int) returns (ids: map<string, int>)
    ensures ids == IdsFrom(xs, base)
  {
    ids := map[];
    for i := 0 to |xs|
      invariant ids == IdsFrom(xs[..i], base)
    {
      assert xs[..i + 1][..i] == xs[..i];
      ids := ids[xs[i] := base + i];
    }
    assert xs[..|xs|] == xs;
  }

  /** A loop adding `f(x)` to a set for every `x` of `xs`. */
  method AddAll(types: set<string>, f: Value -> Result<string>, xs: seq<Value>) returns (r: Result<set<string>>)
    ensures r == Fold(types, InsertStep(f), xs)
  {
    var acc := types;
    for i := 0 to |xs|
      invariant Fold(types, InsertStep(f), xs[..i]) == Ok(acc)
    {
      FoldSnoc(types, InsertStep(f), xs, i);
      var t := f(xs[i]);
      if t.Err? {
        FoldErr(types, InsertStep(f), xs, i + 1);
        return Err(t.error);
      }
      acc := acc + {t.value};
    }
    assert xs[..|xs|] == xs;
    return Ok(acc);
  }

  // ---- create_type_id_file ----

  /** Unique normalised entity types of both KGs, numbered in sorted order. */
  function TypeIds(kg1: Dict, kg2: Dict): Result<map<string, int>> {
    var es1 :- EntitiesOf(kg1);
    var types1 :- Fold({}, InsertStep(EntityType), es1);
    var es2 :- EntitiesOf(kg2);
    var types :- Fold(types1, InsertStep(EntityType), es2);
    Ok(IdsFrom(SortSet(types), 0))
  }

  /** `create_type_id_file`, without writing the file. */
  method CreateTypeIdFile(kg1: Dict, kg2: Dict) returns (r: Result<map<string, int>>)
    ensures r == TypeIds(kg1, kg2)
  {
    var es1 := EntitiesOf(kg1);
    if es1.Err? {
      return Err(es1.error);
    }
    var types1 := AddAll({}, EntityType, es1.value);
    if types1.Err? {
      return Err(types1.error);
    }
    var es2 := EntitiesOf(kg2);
    if es2.Err? {
      return Err(es2.error);
    }
    var types := AddAll(types1.value, EntityType, es2.value);
    if types.Err? {
      return Err(types.error);
    }
    return Ok(IdsFrom(SortSet(types.value), 0));
  }

  /** The entity list of a KG as `create_type_id_file` reads it. */
  function EntitiesOf(kg: Dict): Result<seq<Value>> {
    IterFieldOrEmpty(kg, "entities")
  }

  /** Type ids number exactly the normalised types of the entities of both
      KGs: every entity's type is one of them, and each of them is some
      entity's type. */
  lemma TypeIdsCover(kg1: Dict, kg2: Dict)
    requires TypeIds(kg1, kg2).Ok?
    ensures EntitiesOf(kg1).Ok? && EntitiesOf(kg2).Ok?
    ensures var m, es1, es2 := TypeIds(kg1, kg2).value, EntitiesOf(kg1).value, EntitiesOf(kg2).value;
      && (forall i | 0 <= i < |es1| :: EntityType(es1[i]).Ok? && EntityType(es1[i]).value in m)
      && (forall i | 0 <= i < |es2| :: EntityType(es2[i]).Ok? && EntityType(es2[i]).value in m)
      && forall t | t in m ::
           (exists i | 0 <= i < |es1| :: EntityType(es1[i]) == Ok(t))
           || exists i | 0 <= i < |es2| :: EntityType(es2[i]) == Ok(t)
  {
    var es1 := EntitiesOf(kg1).value;
    var es2 := EntitiesOf(kg2).value;
    InsertFold({}, EntityType, es1);
    var types1 := Fold({}, InsertStep(EntityType), es1).value;
    InsertFold(types1, EntityType, es2);
    var types := Fold(types1, InsertStep(EntityType), es2).value;
    SortedIdsRange(types, 0);
    assert TypeIds(kg1, kg2).value == IdsFrom(SortSet(types), 0);
  }

  /** Type ids are `0 .. k - 1` for the `k` types, given in sorted order:
      a bijection that follows the string order. */
  lemma TypeIdsDense(kg1: Dict, kg2: Dict)
    requires TypeIds(kg1, kg2).Ok?
    ensures var m := TypeIds(kg1, kg2).value;
      && (forall t | t in m :: 0 <= m[t] < |m|)
      && (forall a, b | a in m && b in m :: m[a] < m[b] <==> StrLt(a, b))
      && forall k | 0 <= k < |m| :: k in m.Values
  {
    var es1 := EntitiesOf(kg1).value;
    var es2 := EntitiesOf(kg2).value;
    var types1 := Fold({}, InsertStep(EntityType), es1).value;
    var types := Fold(types1, InsertStep(EntityType), es2).value;
    SortedIdsRange(types, 0);
    SortedIdsOrder(types, 0);
    SortedIdsOnto(types, 0);
    assert TypeIds(kg1, kg2).value == IdsFrom(SortSet(types), 0);
  }

  // ---- create_entity_files ----

  /** The integer id of a list entry: `int(entity['id'][1:]) - 1`. */
  function EntityKey(v: Value): (r: Result<int>)
    ensures r.Ok? ==> v.Obj?
  {
    var id :- Subscript(v, "id");
    ParseEntityId(id)
  }

  /** The two dicts `create_entity_files` fills for one KG: integer id to
      name, and integer id to type id. Both get their keys at the same
      iterations, so they share one key order, `order`, in which the lines
      of `ent_ids_*` and `ent_types_*` are written. */
  datatype EntityIndex = EntityIndex(names: map<int, Value>, typeIds: map<int, int>, order: seq<int>)

  const NoEntities := EntityIndex(map[], map[], [])

  /** What one iteration stores: under `key`, a name and a type id. */
  datatype Row = Row(key: int, name: Value, typeId: int)

  /** The body of a loop that stores a row in both dicts. */
  function StoreStep<T>(row: T -> Result<Row>): (EntityIndex, T) -> Result<EntityIndex> {
    (acc: EntityIndex, x: T) =>
      if row(x).Ok? then
        var r := row(x).value;
        var order := if r.key in acc.names then acc.order else acc.order + [r.key];
        Ok(EntityIndex(acc.names[r.key := r.name], acc.typeIds[r.key := r.typeId], order))
      else Err(row(x).error)
  }

  ghost predicate AllRows<T>(row: T -> Result<Row>, xs: seq<T>) {
    forall i | 0 <= i < |xs| :: row(xs[i]).Ok?
  }

  lemma StoreOk<T>(row: T -> Result<Row>, xs: seq<T>)
    ensures Fold(NoEntities, StoreStep(row), xs).Ok? <==> AllRows(row, xs)
  {
    FoldOk(NoEntities, StoreStep(row), xs, (x: T) => row(x).Ok?);
  }

  /** The loop stores exactly the rows' keys, in both dicts. */
  lemma {:induction false} StoreKeys<T>(row: T -> Result<Row>, xs: seq<T>)
    requires AllRows(row, xs)
    ensures Fold(NoEntities, StoreStep(row), xs).Ok?
    ensures var index := Fold(NoEntities, StoreStep(row), xs).value;
      && index.names.Keys == index.typeIds.Keys
      && forall k :: k in index.names <==> exists i | 0 <= i < |xs| :: row(xs[i]).value.key == k
    decreases |xs|
  {
    StoreOk(row, xs);
    if xs != [] {
      var n := |xs| - 1;
      var init := xs[..n];
      assert forall i | 0 <= i < n :: init[i] == xs[i];
      StoreKeys(row, init);
      var prev := Fold(NoEntities, StoreStep(row), init).value;
      var index := Fold(NoEntities, StoreStep(row), xs).value;
      var r := row(xs[n]).value;
      assert index.names == prev.names[r.key := r.name] && index.typeIds == prev.typeIds[r.key := r.typeId];
      forall k
        ensures k in index.names <==> exists i | 0 <= i < |xs| :: row(xs[i]).value.key == k
      {
        if k in prev.names {
          var i :| 0 <= i < n && row(init[i]).value.key == k;
          assert row(xs[i]).value.key == k;
        }
      }
    }
  }

  /** The rows' keys, in the order the loop meets them. */
  ghost function RowKeys<T>(row: T -> Result<Row>, xs: seq<T>): (ks: seq<int>)
    requires AllRows(row, xs)
    ensures |ks| == |xs| && forall i | 0 <= i < |xs| :: ks[i] == row(xs[i]).value.key
  {
    seq(|xs|, i requires 0 <= i < |xs| => row(xs[i]).value.key)
  }

  /** The dicts' key order is the order in which the keys were first
      stored; storing under a key again keeps its place. */
  lemma {:induction false} StoreOrder<T>(row: T -> Result<Row>, xs: seq<T>)
    requires AllRows(row, xs)
    ensures Fold(NoEntities, StoreStep(row), xs).Ok?
    ensures Fold(NoEntities, StoreStep(row), xs).value.order == FirstOccurrences(RowKeys(row, xs))
    decreases |xs|
  {
    StoreOk(row, xs);
    if xs != [] {
      var n := |xs| - 1;
      var init := xs[..n];
      assert forall i | 0 <= i < n :: init[i] == xs[i];
      StoreOrder(row, init);
      StoreKeys(row, init);
      var ks := RowKeys(row, xs);
      assert ks[..n] == RowKeys(row, init);
      var prev := Fold(NoEntities, StoreStep(row), init).value;
      var k := row(xs[n]).value.key;
      KeyStoredIff(row, init, k);
      assert Elems(FirstOccurrences(ks[..n])) == Elems(ks[..n]);
      assert k in ks[..n] <==> k in Elems(ks[..n]);
    }
  }

  /** A key is stored exactly when one of the rows has it. */
  lemma KeyStoredIff<T>(row: T -> Result<Row>, xs: seq<T>, k: int)
    requires AllRows(row, xs)
    ensures Fold(NoEntities, StoreStep(row), xs).Ok?
    ensures k in Fold(NoEntities, StoreStep(row), xs).value.names <==> k in RowKeys(row, xs)
  {
    StoreKeys(row, xs);
    var ks := RowKeys(row, xs);
    if k in ks {
      var i :| 0 <= i < |ks| && ks[i] == k;
      assert row(xs[i]).value.key == k;
    }
  }

  /** `xs[i]` is the last element whose row has its key. */
  ghost predicate LastRow<T>(row: T -> Result<Row>, xs: seq<T>, i: nat)
    requires AllRows(row, xs) && i < |xs|
  {
    forall j | i < j < |xs| :: row(xs[j]).value.key != row(xs[i]).value.key
  }

  /** A key holds what the last row with that key stored. */
  lemma {:induction false} StoreLast<T>(row: T -> Result<Row>, xs: seq<T>, i: nat)
    requires AllRows(row, xs) && i < |xs| && LastRow(row, xs, i)
    ensures Fold(NoEntities, StoreStep(row), xs).Ok?
    ensures var index, r := Fold(NoEntities, StoreStep(row), xs).value, row(xs[i]).value;
      && r.key in index.names && index.names[r.key] == r.name
      && r.key in index.typeIds && index.typeIds[r.key] == r.typeId
    decreases |xs|
  {
    StoreOk(row, xs);
    var n := |xs| - 1;
    var init := xs[..n];
    assert forall j | 0 <= j < n :: init[j] == xs[j];
    StoreOk(row, init);
    if i < n {
      assert LastRow(row, init, i);
      StoreLast(row, init, i);
    }
  }

  /** Every stored type id is the type id of some row. */
  lemma {:induction false} StoreTypeIds<T>(row: T -> Result<Row>, xs: seq<T>, ids: set<int>)
    requires AllRows(row, xs)
    requires forall i | 0 <= i < |xs| :: row(xs[i]).value.typeId in ids
    ensures Fold(NoEntities, StoreStep(row), xs).Ok?
    ensures var index := Fold(NoEntities, StoreStep(row), xs).value;
      forall k | k in index.typeIds :: index.typeIds[k] in ids
    decreases |xs|
  {
    StoreOk(row, xs);
    if xs != [] {
      var init := xs[..|xs| - 1];
      assert forall i | 0 <= i < |init| :: init[i] == xs[i];
      StoreTypeIds(row, init, ids);
    }
  }

  /** `type_to_id.get(t, -1)`. */
  function TypeIdOr(typeIds: map<string, int>, t: string): int {
    if t in typeIds then typeIds[t] else -1
  }

  /** An entity the loop accepts: a dict with a parsable id and a type that normalises. */
  predicate EntityOk(v: Value) {
    EntityKey(v).Ok? && NormaliseType(v.fields).Ok?
  }

  /** The integer id, name and type id of an accepted entity. */
  function KeyOf(v: Value): int
    requires EntityOk(v)
  {
    EntityKey(v).value
  }

  function NameOf(v: Value): Value
    requires EntityOk(v)
  {
    GetEntityName(v.fields).value
  }

  function TypeIdOf(typeIds: map<string, int>, v: Value): int
    requires EntityOk(v)
  {
    TypeIdOr(typeIds, NormaliseType(v.fields).value)
  }

  /** One iteration of the entity loop: the integer id, then the name, which
      cannot raise once the id was found, then the type. */
  function RowOf(typeIds: map<string, int>, v: Value): (r: Result<Row>)
    ensures r.Ok? <==> EntityOk(v)
    ensures r.Ok? ==> r.value == Row(KeyOf(v), NameOf(v), TypeIdOf(typeIds, v))
  {
    var k :- EntityKey(v);
    var name := GetEntityName(v.fields).value;
    var t :- NormaliseType(v.fields);
    Ok(Row(k, name, TypeIdOr(typeIds, t)))
  }

  function RowStep(typeIds: map<string, int>): Value -> Result<Row> {
    (v: Value) => RowOf(typeIds, v)
  }

  /** The entity loop over one KG. */
  function EntityMaps(es: seq<Value>, typeIds: map<string, int>): Result<EntityIndex> {
    Fold(NoEntities, StoreStep(RowStep(typeIds)), es)
  }

  /** The two KGs' dicts, KG1 first. */
  function EntityFiles(kg1: Dict, kg2: Dict, typeIds: map<string, int>): Result<(EntityIndex, EntityIndex)> {
    var es1 :- IterField(kg1, "entities");
    var index1 :- EntityMaps(es1, typeIds);
    var es2 :- IterField(kg2, "entities");
    var index2 :- EntityMaps(es2, typeIds);
    Ok((index1, index2))
  }

  method IndexEntities(es: seq<Value>, typeIds: map<string, int>) returns (r: Result<EntityIndex>)
    ensures r == EntityMaps(es, typeIds)
  {
    var names: map<int, Value> := map[];
    var types: map<int, int> := map[];
    var order: seq<int> := [];
    for i := 0 to |es|
      invariant Fold(NoEntities, StoreStep(RowStep(typeIds)), es[..i]) == Ok(EntityIndex(names, types, order))
    {
      FoldSnoc(NoEntities, StoreStep(RowStep(typeIds)), es, i);
      var row := RowOf(typeIds, es[i]);
      if row.Err? {
        FoldErr(NoEntities, StoreStep(RowStep(typeIds)), es, i + 1);
        return Err(row.error);
      }
      if row.value.key !in names {
        order := order + [row.value.key];
      }
      names := names[row.value.key := row.value.name];
      types := types[row.value.key := row.value.typeId];
    }
    assert es[..|es|] == es;
    return Ok(EntityIndex(names, types, order));
  }

  /** `create_entity_files`, without writing the files. */
  method CreateEntityFiles(kg1: Dict, kg2: Dict, typeIds: map<string, int>) returns (r: Result<(EntityIndex, EntityIndex)>)
    ensures r == EntityFiles(kg1, kg2, typeIds)
  {
    var es1 := IterField(kg1, "entities");
    if es1.Err? {
      return Err(es1.error);
    }
    var index1 := IndexEntities(es1.value, typeIds);
    if index1.Err? {
      return Err(index1.error);
    }
    var es2 := IterField(kg2, "entities");
    if es2.Err? {
      return Err(es2.error);
    }
    var index2 := IndexEntities(es2.value, typeIds);
    if index2.Err? {
      return Err(index2.error);
    }
    return Ok((index1.value, index2.value));
  }

  /** The loop succeeds exactly when every entity is accepted. */
  lemma EntityMapsOk(es: seq<Value>, typeIds: map<string, int>)
    ensures EntityMaps(es, typeIds).Ok? <==> forall i | 0 <= i < |es| :: EntityOk(es[i])
  {
    StoreOk(RowStep(typeIds), es);
    assert forall i | 0 <= i < |es| :: RowStep(typeIds)(es[i]) == RowOf(typeIds, es[i]);
  }

  /** Both dicts have exactly the entities' integer ids as keys. */
  lemma EntityMapsKeys(es: seq<Value>, typeIds: map<string, int>)
    requires forall i | 0 <= i < |es| :: EntityOk(es[i])
    ensures EntityMaps(es, typeIds).Ok?
    ensures var index := EntityMaps(es, typeIds).value;
      && index.names.Keys == index.typeIds.Keys
      && forall k :: k in index.names <==> exists i | 0 <= i < |es| :: KeyOf(es[i]) == k
  {
    var row := RowStep(typeIds);
    assert forall i | 0 <= i < |es| :: row(es[i]) == RowOf(typeIds, es[i]);
    StoreKeys(row, es);
  }

  /** The entities' integer ids, in list order. */
  ghost function EntityKeys(es: seq<Value>): (ks: seq<int>)
    requires forall i | 0 <= i < |es| :: EntityOk(es[i])
    ensures |ks| == |es| && forall i | 0 <= i < |es| :: ks[i] == KeyOf(es[i])
  {
    seq(|es|, i requires 0 <= i < |es| => KeyOf(es[i]))
  }

  lemma EntityKeysStored(es: seq<Value>, typeIds: map<string, int>)
    requires forall i | 0 <= i < |es| :: EntityOk(es[i])
    ensures EntityMaps(es, typeIds).Ok?
    ensures Elems(EntityKeys(es)) == EntityMaps(es, typeIds).value.names.Keys
  {
    EntityMapsKeys(es, typeIds);
    var names := EntityMaps(es, typeIds).value.names;
    var ks := EntityKeys(es);
    forall k
      ensures k in Elems(ks) <==> k in names
    {
      if k in names {
        var i :| 0 <= i < |es| && KeyOf(es[i]) == k;
        assert ks[i] == k;
      }
    }
  }

  /** The lines of `ent_ids_*` and `ent_types_*` follow the first entity
      with each integer id, in list order; with distinct ids, exactly the
      list order. */
  lemma EntityMapsOrder(es: seq<Value>, typeIds: map<string, int>)
    requires forall i | 0 <= i < |es| :: EntityOk(es[i])
    ensures EntityMaps(es, typeIds).Ok?
    ensures EntityMaps(es, typeIds).value.order == FirstOccurrences(EntityKeys(es))
    ensures Distinct(EntityMaps(es, typeIds).value.order)
    ensures Elems(EntityMaps(es, typeIds).value.order) == EntityMaps(es, typeIds).value.names.Keys
    ensures Distinct(EntityKeys(es)) ==> EntityMaps(es, typeIds).value.order == EntityKeys(es)
  {
    EntityMapsKeys(es, typeIds);
    var row := RowStep(typeIds);
    assert forall i | 0 <= i < |es| :: row(es[i]) == RowOf(typeIds, es[i]);
    StoreOrder(row, es);
    var order := EntityMaps(es, typeIds).value.order;
    var ks := EntityKeys(es);
    assert RowKeys(row, es) == ks;
    assert Elems(order) == Elems(ks);
    EntityKeysStored(es, typeIds);
    if Distinct(ks) {
      FirstOccurrencesOfDistinct(ks);
    }
  }

  /** `es[i]` is the last entity with its integer id. */
  ghost predicate LastWithKey(es: seq<Value>, i: nat)
    requires i < |es| && forall j | 0 <= j < |es| :: EntityOk(es[j])
  {
    forall j | i < j < |es| :: KeyOf(es[j]) != KeyOf(es[i])
  }

  /** An id holds the name and the looked-up type id of the last entity
      with that id: a later entity overwrites an earlier one. */
  lemma EntityMapsLast(es: seq<Value>, typeIds: map<string, int>, i: nat)
    requires forall j | 0 <= j < |es| :: EntityOk(es[j])
    requires i < |es| && LastWithKey(es, i)
    ensures EntityMaps(es, typeIds).Ok? && EntityOk(es[i])
    ensures var index := EntityMaps(es, typeIds).value;
      && KeyOf(es[i]) in index.names && KeyOf(es[i]) in index.typeIds
      && index.names[KeyOf(es[i])] == NameOf(es[i])
      && index.typeIds[KeyOf(es[i])] == TypeIdOf(typeIds, es[i])
  {
    var row := RowStep(typeIds);
    assert forall j | 0 <= j < |es| :: row(es[j]) == RowOf(typeIds, es[j]);
    assert LastRow(row, es, i);
    StoreLast(row, es, i);
  }

  /** When every entity's type has an id, every type id the loop stores is
      one of them, never the `-1` default. */
  lemma EntityMapsTypeIdsFound(es: seq<Value>, typeIds: map<string, int>)
    requires forall i | 0 <= i < |es| :: EntityOk(es[i]) && NormaliseType(es[i].fields).value in typeIds
    ensures EntityMaps(es, typeIds).Ok?
    ensures forall k | k in EntityMaps(es, typeIds).value.typeIds ::
      EntityMaps(es, typeIds).value.typeIds[k] in typeIds.Values
  {
    var row := RowStep(typeIds);
    assert forall i | 0 <= i < |es| :: row(es[i]) == RowOf(typeIds, es[i]);
    StoreTypeIds(row, es, typeIds.Values);
  }

  /** With type ids built from the same two KGs, no entity of either gets
      the type id `-1`: every stored type id is in `0 .. |type ids| - 1`. */
  lemma EntityTypeIdsNeverMissing(kg1: Dict, kg2: Dict)
    requires TypeIds(kg1, kg2).Ok?
    requires EntityFiles(kg1, kg2, TypeIds(kg1, kg2).value).Ok?
    ensures var m := TypeIds(kg1, kg2).value;
      var (index1, index2) := EntityFiles(kg1, kg2, m).value;
      && (forall k | k in index1.typeIds :: 0 <= index1.typeIds[k] < |m|)
      && (forall k | k in index2.typeIds :: 0 <= index2.typeIds[k] < |m|)
  {
    var m := TypeIds(kg1, kg2).value;
    TypeIdsCover(kg1, kg2);
    TypeIdsDense(kg1, kg2);
    var es1 := IterField(kg1, "entities").value;
    var es2 := IterField(kg2, "entities").value;
    assert EntitiesOf(kg1) == IterField(kg1, "entities");
    assert EntitiesOf(kg2) == IterField(kg2, "entities");
    EntityMapsOk(es1, m);
    EntityMapsOk(es2, m);
    EntityMapsTypeIdsFound(es1, m);
    EntityMapsTypeIdsFound(es2, m);
  }

  // ---- create_alignment_files ----

  type Pair = (int, int)

  /** One entry of the entity mapping as integer ids, KG1's first. */
  function PairOf(entry: (string, Value)): Result<Pair> {
    var k1 :- ParseEntityId(Str(entry.0));
    var k2 :- ParseEntityId(entry.1);
    Ok((k1, k2))
  }

  lemma PairOfEntityIds(a: nat, b: nat)
    ensures PairOf((Utils.EntityId(a), Str(Utils.EntityId(b)))) == Ok((a as int - 1, b as int - 1))
  {
    ParseEntityIdOfEntityId(a);
    ParseEntityIdOfEntityId(b);
  }

  /** The CPython `random.shuffle` draws: the `k`-th draw is the position
      swapped with position `n - 1 - k`, so at most `n - 1 - k`. */
  ghost predicate ValidDraws(draws: seq<nat>, n: nat) {
    && |draws| == (if n == 0 then 0 else n - 1)
    && forall k | 0 <= k < |draws| :: draws[k] <= n - 1 - k
  }

  function Swap<T>(s: seq<T>, i: nat, j: nat): (r: seq<T>)
    requires i < |s| && j < |s|
    ensures |r| == |s| && multiset(r) == multiset(s)
  {
    s[i := s[j]][j := s[i]]
  }

  /** The first `k` swaps of `random.shuffle`. */
  function ShuffleSteps<T>(s: seq<T>, draws: seq<nat>, k: nat): (r: seq<T>)
    requires ValidDraws(draws, |s|) && k <= |draws|
    ensures |r| == |s| && multiset(r) == multiset(s)
  {
    if k == 0 then s
    else Swap(ShuffleSteps(s, draws, k - 1), |s| - k, draws[k - 1])
  }

  /** `random.shuffle(s)` given the draws the generator makes. */
  function Shuffle<T>(s: seq<T>, draws: seq<nat>): (r: seq<T>)
    requires ValidDraws(draws, |s|)
    ensures |r| == |s| && multiset(r) == multiset(s)
  {
    ShuffleSteps(s, draws, |draws|)
  }

  /** `ref_ent_ids`, `ref_pairs` and `sup_pairs`. */
  datatype Split = Split(all: seq<Pair>, test: seq<Pair>, train: seq<Pair>)

  /** The aligned pairs in mapping order, before shuffling. */
  function AlignedPairs(mapping: Dict): Result<seq<Pair>> {
    Fold([], AppendStep(PairOf), mapping)
  }

  /** One pair per mapping entry, in order; a key or value that does not
      parse raises. */
  lemma AlignedPairsFacts(mapping: Dict)
    ensures AlignedPairs(mapping).Ok? <==> forall i | 0 <= i < |mapping| :: PairOf(mapping[i]).Ok?
    ensures AlignedPairs(mapping).Ok? ==>
      && |AlignedPairs(mapping).value| == |mapping|
      && forall i | 0 <= i < |mapping| :: AlignedPairs(mapping).value[i] == PairOf(mapping[i]).value
  {
    AppendFold([], PairOf, mapping);
  }

  /** Aligned pairs, shuffled with `draws` and cut at `split`; `split` stands
      for `int(len * 0.57)`, which lies between 0 and the length. */
  function Alignment(mapping: Dict, draws: seq<nat>, split: nat): Result<Split>
    requires ValidDraws(draws, |mapping|) && split <= |mapping|
  {
    var pairs :- AlignedPairs(mapping);
    AlignedPairsFacts(mapping);
    var shuffled := Shuffle(pairs, draws);
    Ok(Split(shuffled, shuffled[..split], shuffled[split..]))
  }

  /** `create_alignment_files`, without writing the files. */
  method CreateAlignmentFiles(mapping: Dict, draws: seq<nat>, split: nat) returns (r: Result<Split>)
    requires ValidDraws(draws, |mapping|) && split <= |mapping|
    ensures r == Alignment(mapping, draws, split)
  {
    var pairs: seq<Pair> := [];
    for i := 0 to |mapping|
      invariant Fold([], AppendStep(PairOf), mapping[..i]) == Ok(pairs)
    {
      FoldSnoc([], AppendStep(PairOf), mapping, i);
      var pair := PairOf(mapping[i]);
      if pair.Err? {
        FoldErr([], AppendStep(PairOf), mapping, i + 1);
        return Err(pair.error);
      }
      pairs := pairs + [pair.value];
    }
    assert mapping[..|mapping|] == mapping;
    AlignedPairsFacts(mapping);
    var shuffled := Shuffle(pairs, draws);
    return Ok(Split(shuffled, shuffled[..split], shuffled[split..]));
  }

  /** The alignment raises exactly when the aligned pairs do, and is then
      the shuffled pairs cut at `split`. */
  lemma AlignmentCut(mapping: Dict, draws: seq<nat>, split: nat)
    requires ValidDraws(draws, |mapping|) && split <= |mapping|
    ensures Alignment(mapping, draws, split).Ok? <==> AlignedPairs(mapping).Ok?
    ensures AlignedPairs(mapping).Ok? ==> |AlignedPairs(mapping).value| == |mapping|
    ensures AlignedPairs(mapping).Ok? ==>
      var s := Shuffle(AlignedPairs(mapping).value, draws);
      Alignment(mapping, draws, split) == Ok(Split(s, s[..split], s[split..]))
  {
    AlignedPairsFacts(mapping);
  }

  /** A sequence cut in two is its prefix followed by the rest. */
  lemma CutParts<T>(s: seq<T>, k: nat)
    requires k <= |s|
    ensures s[..k] + s[k..] == s
    ensures multiset(s[..k]) + multiset(s[k..]) == multiset(s)
  {
    assert s[..k] + s[k..] == s;
  }

  /** All pairs are the aligned pairs in some order; test and train pairs
      are a prefix and the rest, so together they are every pair. */
  lemma AlignmentFacts(mapping: Dict, draws: seq<nat>, split: nat)
    requires ValidDraws(draws, |mapping|) && split <= |mapping|
    ensures Alignment(mapping, draws, split).Ok? <==> AlignedPairs(mapping).Ok?
    ensures Alignment(mapping, draws, split).Ok? ==>
      var a := Alignment(mapping, draws, split).value;
      && multiset(a.all) == multiset(AlignedPairs(mapping).value)
      && |a.all| == |mapping|
      && a.test + a.train == a.all
      && |a.test| == split
      && multiset(a.test) + multiset(a.train) == multiset(a.all)
  {
    AlignmentCut(mapping, draws, split);
    if AlignedPairs(mapping).Ok? {
      AlignedPairsFacts(mapping);
      var s := Shuffle(AlignedPairs(mapping).value, draws);
      CutParts(s, split);
    }
  }

  // ---- create_relation_files ----

  /** A relation's normalised `type`. */
  function RelationType(v: Value): Result<string> {
    var t :- Subscript(v, "type");
    StripTag(t)
  }

  /** The normalised relation types of one KG. */
  function RelationTypes(kg: Dict): Result<set<string>> {
    var rs :- IterField(kg, "relations");
    Fold({}, InsertStep(RelationType), rs)
  }

  /** KG1's relation types numbered from 0, KG2's from the number of KG1's. */
  function RelationIds(kg1: Dict, kg2: Dict): Result<(map<string, int>, map<string, int>)> {
    var types1 :- RelationTypes(kg1);
    var types2 :- RelationTypes(kg2);
    Ok((IdsFrom(SortSet(types1), 0), IdsFrom(SortSet(types2), |types1|)))
  }

  /** `create_relation_files`, without writing the files. */
  method CreateRelationFiles(kg1: Dict, kg2: Dict) returns (r: Result<(map<string, int>, map<string, int>)>)
    ensures r == RelationIds(kg1, kg2)
  {
    var rs1 := IterField(kg1, "relations");
    if rs1.Err? {
      return Err(rs1.error);
    }
    var types1 := AddAll({}, RelationType, rs1.value);
    if types1.Err? {
      return Err(types1.error);
    }
    var rs2 := IterField(kg2, "relations");
    if rs2.Err? {
      return Err(rs2.error);
    }
    var types2 := AddAll({}, RelationType, rs2.value);
    if types2.Err? {
      return Err(types2.error);
    }
    var ids1 := AssignIds(SortSet(types1.value), 0);
    var ids2 := AssignIds(SortSet(types2.value), |types1.value|);
    return Ok((ids1, ids2));
  }

  /** KG1's ids are `0 .. n1 - 1` and KG2's `n1 .. n1 + n2 - 1`, each a
      bijection from that KG's normalised relation types following the
      string order; so no id is used by both KGs. */
  lemma RelationIdRanges(kg1: Dict, kg2: Dict)
    requires RelationIds(kg1, kg2).Ok?
    ensures var (m1, m2) := RelationIds(kg1, kg2).value;
      && (forall t | t in m1 :: 0 <= m1[t] < |m1|)
      && (forall t | t in m2 :: |m1| <= m2[t] < |m1| + |m2|)
      && (forall a, b | a in m1 && b in m2 :: m1[a] != m2[b])
      && (forall a, b | a in m1 && b in m1 :: m1[a] < m1[b] <==> StrLt(a, b))
      && (forall a, b | a in m2 && b in m2 :: m2[a] < m2[b] <==> StrLt(a, b))
      && (forall k | 0 <= k < |m1| :: k in m1.Values)
      && (forall k | |m1| <= k < |m1| + |m2| :: k in m2.Values)
  {
    var types1 := RelationTypes(kg1).value;
    var types2 := RelationTypes(kg2).value;
    SortedIdsRange(types1, 0);
    SortedIdsRange(types2, |types1|);
    SortedIdsOrder(types1, 0);
    SortedIdsOrder(types2, |types1|);
    SortedIdsOnto(types1, 0);
    SortedIdsOnto(types2, |types1|);
    assert RelationIds(kg1, kg2).value == (IdsFrom(SortSet(types1), 0), IdsFrom(SortSet(types2), |types1|));
  }

  // ---- create_triple_files ----

  type Triple = (int, int, int)

  /** `(head id, relation id, tail id)` of one relation; head and tail are
      parsed before the type is looked up, which raises KeyError when absent. */
  function TripleOf(ids: map<string, int>, v: Value): Result<Triple> {
    var source :- Subscript(v, "source");
    var head :- ParseEntityId(source);
    var target :- Subscript(v, "target");
    var tail :- ParseEntityId(target);
    var t :- RelationType(v);
    if t in ids then Ok((head, ids[t], tail)) else Err(KeyError(t))
  }

  function TripleStep(ids: map<string, int>): Value -> Result<Triple> {
    (v: Value) => TripleOf(ids, v)
  }

  /** One KG's triples. */
  function Triples(rs: seq<Value>, ids: map<string, int>): Result<seq<Triple>> {
    Fold([], AppendStep(TripleStep(ids)), rs)
  }

  /** Both KGs' triples, KG1's with KG1's ids. */
  function TripleFiles(kg1: Dict, kg2: Dict, ids1: map<string, int>, ids2: map<string, int>): Result<(seq<Triple>, seq<Triple>)> {
    var rs1 :- IterField(kg1, "relations");
    var triples1 :- Triples(rs1, ids1);
    var rs2 :- IterField(kg2, "relations");
    var triples2 :- Triples(rs2, ids2);
    Ok((triples1, triples2))
  }

  method TriplesOf(rs: seq<Value>, ids: map<string, int>) returns (r: Result<seq<Triple>>)
    ensures r == Triples(rs, ids)
  {
    var triples: seq<Triple> := [];
    for i := 0 to |rs|
      invariant Fold([], AppendStep(TripleStep(ids)), rs[..i]) == Ok(triples)
    {
      FoldSnoc([], AppendStep(TripleStep(ids)), rs, i);
      var triple := TripleOf(ids, rs[i]);
      if triple.Err? {
        FoldErr([], AppendStep(TripleStep(ids)), rs, i + 1);
        return Err(triple.error);
      }
      triples := triples + [triple.value];
    }
    assert rs[..|rs|] == rs;
    return Ok(triples);
  }

  /** `create_triple_files`, without writing the files. */
  method CreateTripleFiles(kg1: Dict, kg2: Dict, ids1: map<string, int>, ids2: map<string, int>)
    returns (r: Result<(seq<Triple>, seq<Triple>)>)
    ensures r == TripleFiles(kg1, kg2, ids1, ids2)
  {
    var rs1 := IterField(kg1, "relations");
    if rs1.Err? {
      return Err(rs1.error);
    }
    var triples1 := TriplesOf(rs1.value, ids1);
    if triples1.Err? {
      return Err(triples1.error);
    }
    var rs2 := IterField(kg2, "relations");
    if rs2.Err? {
      return Err(rs2.error);
    }
    var triples2 := TriplesOf(rs2.value, ids2);
    if triples2.Err? {
      return Err(triples2.error);
    }
    return Ok((triples1.value, triples2.value));
  }

  /** The head and tail ids of a relation parse. */
  ghost predicate EndsParse(v: Value) {
    && Subscript(v, "source").Ok? && ParseEntityId(Subscript(v, "source").value).Ok?
    && Subscript(v, "target").Ok? && ParseEntityId(Subscript(v, "target").value).Ok?
  }

  function HeadOf(v: Value): int
    requires EndsParse(v)
  {
    ParseEntityId(Subscript(v, "source").value).value
  }

  function TailOf(v: Value): int
    requires EndsParse(v)
  {
    ParseEntityId(Subscript(v, "target").value).value
  }

  /** A relation whose type has an id gives its triple exactly when both
      endpoints parse. */
  lemma TripleOfValue(ids: map<string, int>, v: Value)
    requires RelationType(v).Ok? && RelationType(v).value in ids
    ensures TripleOf(ids, v).Ok? <==> EndsParse(v)
    ensures TripleOf(ids, v).Ok? ==> TripleOf(ids, v).value == (HeadOf(v), ids[RelationType(v).value], TailOf(v))
  {
  }

  /** When every relation's type has an id, the triples are one per
      relation, in order, and raise only for an endpoint that does not parse. */
  lemma TriplesFacts(rs: seq<Value>, ids: map<string, int>)
    requires forall i | 0 <= i < |rs| :: RelationType(rs[i]).Ok? && RelationType(rs[i]).value in ids
    ensures Triples(rs, ids).Ok? <==> forall i | 0 <= i < |rs| :: EndsParse(rs[i])
    ensures Triples(rs, ids).Ok? ==>
      && |Triples(rs, ids).value| == |rs|
      && forall i | 0 <= i < |rs| ::
           Triples(rs, ids).value[i] == (HeadOf(rs[i]), ids[RelationType(rs[i]).value], TailOf(rs[i]))
  {
    var g := TripleStep(ids);
    AppendFold([], g, rs);
    forall i | 0 <= i < |rs|
      ensures g(rs[i]) == TripleOf(ids, rs[i])
      ensures g(rs[i]).Ok? <==> EndsParse(rs[i])
      ensures g(rs[i]).Ok? ==> g(rs[i]).value == (HeadOf(rs[i]), ids[RelationType(rs[i]).value], TailOf(rs[i]))
    {
      TripleOfValue(ids, rs[i]);
    }
  }

  /** The relation-id lookup never raises for ids built from the same
      relations: the triples of either KG fail only on an endpoint. */
  lemma TripleLookupNeverFails(kg1: Dict, kg2: Dict)
    requires RelationIds(kg1, kg2).Ok?
    ensures var (m1, m2) := RelationIds(kg1, kg2).value;
      var rs1, rs2 := IterField(kg1, "relations").value, IterField(kg2, "relations").value;
      && (Triples(rs1, m1).Ok? <==> forall i | 0 <= i < |rs1| :: EndsParse(rs1[i]))
      && (Triples(rs2, m2).Ok? <==> forall i | 0 <= i < |rs2| :: EndsParse(rs2[i]))
      && (Triples(rs1, m1).Ok? ==> |Triples(rs1, m1).value| == |rs1|)
      && (Triples(rs2, m2).Ok? ==> |Triples(rs2, m2).value| == |rs2|)
  {
    var rs1 := IterField(kg1, "relations").value;
    var rs2 := IterField(kg2, "relations").value;
    InsertFold({}, RelationType, rs1);
    InsertFold({}, RelationType, rs2);
    var types1 := RelationTypes(kg1).value;
    var types2 := RelationTypes(kg2).value;
    SortedIdsRange(types1, 0);
    SortedIdsRange(types2, |types1|);
    assert RelationIds(kg1, kg2).value == (IdsFrom(SortSet(types1), 0), IdsFrom(SortSet(types2), |types1|));
    TriplesFacts(rs1, IdsFrom(SortSet(types1), 0));
    TriplesFacts(rs2, IdsFrom(SortSet(types2), |types1|));
  }

  // ---- alignment of a perturbation ----

  /** The entity mapping of a perturbation as its JSON file reads back:
      each original id paired with its new id. */
  function MappingJson(m: Reassign.IdMap): (d: Dict)
    ensures |d| == |m|
  {
    seq(|m|, i requires 0 <= i < |m| => (m[i].0, Str(m[i].1)))
  }

  /** When the surviving originals are `e{k}` ids, a perturbation's mapping
      aligns entity `k - 1` of KG1 with entity `n + i` of KG2, where the new
      ids `e{n + 1 + i}` follow the `n` original nodes. */
  lemma PerturbedPairs(m: Reassign.IdMap, n: nat, ks: seq<nat>)
    requires |ks| == |m|
    requires forall i | 0 <= i < |m| :: m[i] == (Utils.EntityId(ks[i]), Utils.EntityId(n + 1 + i))
    ensures AlignedPairs(MappingJson(m)).Ok?
    ensures |AlignedPairs(MappingJson(m)).value| == |m|
    ensures forall i | 0 <= i < |m| :: AlignedPairs(MappingJson(m)).value[i] == (ks[i] as int - 1, n + i)
  {
    var d := MappingJson(m);
    forall i | 0 <= i < |m|
      ensures PairOf(d[i]) == Ok((ks[i] as int - 1, n + i))
    {
      assert d[i] == (Utils.EntityId(ks[i]), Str(Utils.EntityId(n + 1 + i)));
      PairOfEntityIds(ks[i], n + 1 + i);
    }
    AlignedPairsFacts(d);
  }

  /** A `rand_{j}` id among the mapping's originals makes the alignment raise. */
  lemma RandomOriginalFails(m: Reassign.IdMap, i: nat, j: nat)
    requires i < |m| && m[i].0 == Utils.RandId(j)
    ensures AlignedPairs(MappingJson(m)).Err?
  {
    ParseEntityIdOfRandId(j);
    assert PairOf(MappingJson(m)[i]).Err?;
    AlignedPairsFacts(MappingJson(m));
  }

  /** Adding two random entities to a one-entity KG keeps `rand_1` as a
      survivor, so the resulting mapping cannot be turned into alignment pairs. */
  lemma EarlierRandomEntityBreaksAlignment(o: Perturbator.DescribeOptions, p: Perturbator.Provider, sample: Utils.Sampler)
    requires Utils.ValidSampler(sample)
    ensures Perturbator.PerturbGraph(Perturbator.OneEntity(), Perturbator.AddTwo, o, p, sample).Ok?
    ensures AlignedPairs(MappingJson(Perturbator.PerturbGraph(Perturbator.OneEntity(), Perturbator.AddTwo, o, p, sample).value.1)).Err?
  {
    Perturbator.EarlierRandomEntitiesRenumbered(o, p, sample);
    TwoSurvivorsFail();
  }

  lemma TwoSurvivorsFail()
    ensures AlignedPairs(MappingJson([("e1", "e2"), ("rand_1", "e3")])).Err?
  {
    assert "rand_1" == Utils.RandId(1);
    RandomOriginalFails([("e1", "e2"), ("rand_1", "e3")], 1, 1);
  }
}
