/** JSON-like Python values. A Python dict is an insertion-ordered
    association list (`Dict`); Python's `==` on dicts ignores order, which
    `DictEquiv` captures. */
module Json {

  import opened Wrappers
  import opened Text
  import opened Seqs

  datatype Value =
    | Null
    | Bool(b: bool)
    | Num(n: int)
    | Str(s: string)
    | List(items: seq<Value>)
    | Obj(fields: seq<(string, Value)>)

  /** A Python dict with string keys, in insertion order. */
  type Dict = seq<(string, Value)>

  function Keys(d: Dict): (ks: seq<string>)
    ensures |ks| == |d|
    ensures forall i | 0 <= i < |d| :: ks[i] == d[i].0
  {
    if d == [] then [] else [d[0].0] + Keys(d[1..])
  }

  /** Every Python dict has pairwise distinct keys. */
  ghost predicate WfDict(d: Dict) {
    Distinct(Keys(d))
  }

  /** `d.get(k)`, with `None` for a missing key. */
  function Get(d: Dict, k: string): Option<Value> {
    if d == [] then None
    else if d[0].0 == k then Some(d[0].1)
    else Get(d[1..], k)
  }

  /** `d.get(k)` finds something exactly when `k` is a key, and what it
      finds is paired with `k` in `d`. */
  lemma {:induction false} GetKeys(d: Dict, k: string)
    ensures Get(d, k).None? <==> k !in Keys(d)
    ensures Get(d, k).Some? ==> (k, Get(d, k).value) in d
  {
    if d != [] && d[0].0 != k {
      GetKeys(d[1..], k);
      assert Keys(d) == [d[0].0] + Keys(d[1..]);
    }
  }

  /** In a well-formed dict every entry is what `Get` finds for its key. */
  lemma {:induction false} GetEntry(d: Dict, i: nat)
    requires WfDict(d) && i < |d|
    ensures Get(d, d[i].0) == Some(d[i].1)
  {
    if i > 0 {
      GetEntry(d[1..], i - 1);
    }
  }

  lemma GetMember(d: Dict, k: string, v: Value)
    requires WfDict(d) && (k, v) in d
    ensures Get(d, k) == Some(v)
  {
    var i :| 0 <= i < |d| && d[i] == (k, v);
    GetEntry(d, i);
  }

  /** `d[k] = v`: replaces the value in place when `k` is present,
      appends the pair otherwise. */
  function Set(d: Dict, k: string, v: Value): (r: Dict)
    ensures |r| == if k in Keys(d) then |d| else |d| + 1
    ensures k !in Keys(d) ==> r == d + [(k, v)]
  {
    if d == [] then [(k, v)]
    else if d[0].0 == k then [(k, v)] + d[1..]
    else
      assert Keys(d) == [d[0].0] + Keys(d[1..]);
      assert k !in Keys(d) ==> [d[0]] + (d[1..] + [(k, v)]) == d + [(k, v)];
      [d[0]] + Set(d[1..], k, v)
  }

  /** After `d[k] = v`, `k` holds `v` and every other key what it held. */
  lemma {:induction false} SetGet(d: Dict, k: string, v: Value, j: string)
    ensures Get(Set(d, k, v), j) == if j == k then Some(v) else Get(d, j)
  {
    if d != [] && d[0].0 != k {
      SetGet(d[1..], k, v, j);
      GetCons(d[0], Set(d[1..], k, v), j);
    } else if d != [] {
      GetCons((k, v), d[1..], j);
    }
  }

  lemma GetCons(p: (string, Value), rest: Dict, j: string)
    ensures Get([p] + rest, j) == if p.0 == j then Some(p.1) else Get(rest, j)
  {
    assert ([p] + rest)[1..] == rest;
  }

  /** Assigning an existing key keeps every key where it was. */
  lemma {:induction false} SetKeysInPlace(d: Dict, k: string, v: Value)
    requires k in Keys(d)
    ensures Keys(Set(d, k, v)) == Keys(d)
  {
    if d[0].0 != k {
      SetKeysInPlace(d[1..], k, v);
      assert Keys(Set(d, k, v)) == [d[0].0] + Keys(Set(d[1..], k, v));
    }
  }

  /** Assignment keeps a dict's keys distinct. */
  lemma SetKeys(d: Dict, k: string, v: Value)
    ensures WfDict(d) ==> WfDict(Set(d, k, v))
  {
    if k in Keys(d) {
      SetKeysInPlace(d, k, v);
    } else if WfDict(d) {
      KeysAppend(d, [(k, v)]);
      DistinctAppend(Keys(d), k);
    }
  }

  /** Assigning a key the value it already has changes nothing. */
  lemma {:induction false} SetSame(d: Dict, k: string, v: Value)
    requires WfDict(d) && (k, v) in d
    ensures Set(d, k, v) == d
  {
    assert d == [d[0]] + d[1..];
    if d[0].0 != k {
      assert Keys(d) == [d[0].0] + Keys(d[1..]);
      DistinctSuffix(Keys(d));
      assert (k, v) in d[1..];
      SetSame(d[1..], k, v);
    } else {
      GetEntry(d, 0);
      GetMember(d, k, v);
      assert d[0] == (k, v);
    }
  }

  /** `{k: v for k, v in d.items() if k not in ks}`. */
  function Without(d: Dict, ks: set<string>): (r: Dict)
    ensures forall k :: Get(r, k) == if k in ks then None else Get(d, k)
    ensures forall k :: k in Keys(r) <==> k in Keys(d) && k !in ks
    ensures WfDict(d) ==> WfDict(r)
    ensures |r| <= |d|
  {
    if d == [] then []
    else
      var rest := Without(d[1..], ks);
      if d[0].0 in ks then rest
      else
        assert Keys([d[0]] + rest) == [d[0].0] + Keys(rest);
        ConsWf(d, rest);
        [d[0]] + rest
  }

  /** Putting the first entry of `d` before entries whose keys come from the
      rest of `d` keeps a dict's keys distinct. */
  lemma ConsWf(d: Dict, rest: Dict)
    requires d != []
    requires forall k :: k in Keys(rest) ==> k in Keys(d[1..])
    requires WfDict(d[1..]) ==> WfDict(rest)
    ensures WfDict(d) ==> WfDict([d[0]] + rest)
  {
    if WfDict(d) {
      assert Keys(d[1..]) == Keys(d)[1..];
      DistinctSuffix(Keys(d));
      assert Keys([d[0]] + rest) == [d[0].0] + Keys(rest);
      DistinctCons(d[0].0, Keys(rest));
    }
  }

  /** `d.update(e)`: assigns every pair of `e` in order. */
  function Update(d: Dict, e: Dict): (r: Dict)
    ensures WfDict(d) ==> WfDict(r)
    decreases |e|
  {
    if e == [] then d
    else
      SetKeys(d, e[0].0, e[0].1);
      Update(Set(d, e[0].0, e[0].1), e[1..])
  }

  /** After `d.update(e)` a key of `e` holds `e`'s value and every other key keeps `d`'s. */
  lemma {:induction false} UpdateGet(d: Dict, e: Dict, k: string)
    requires WfDict(e)
    ensures Get(Update(d, e), k) == if k in Keys(e) then Get(e, k) else Get(d, k)
    decreases |e|
  {
    if e != [] {
      UpdateGet(Set(d, e[0].0, e[0].1), e[1..], k);
      SetGet(d, e[0].0, e[0].1, k);
      if k == e[0].0 {
        assert k !in Keys(e[1..]);
      }
    }
  }

  /** Updating with a dict of fresh keys appends it. */
  lemma {:induction false} UpdateDisjoint(d: Dict, e: Dict)
    requires WfDict(e)
    requires forall k :: k in Keys(e) ==> k !in Keys(d)
    ensures Update(d, e) == d + e
    decreases |e|
  {
    if e != [] {
      var d' := d + [e[0]];
      assert Set(d, e[0].0, e[0].1) == d' by {
        assert e[0].0 in Keys(e);
      }
      UpdateDisjointStep(d, e);
      UpdateDisjoint(d', e[1..]);
      assert Update(d, e) == Update(d', e[1..]);
      ConsAssoc(d, e);
    }
  }

  lemma ConsAssoc(d: Dict, e: Dict)
    requires e != []
    ensures (d + [e[0]]) + e[1..] == d + e
  {
    assert e == [e[0]] + e[1..];
  }

  lemma UpdateDisjointStep(d: Dict, e: Dict)
    requires e != [] && WfDict(e)
    requires forall k :: k in Keys(e) ==> k !in Keys(d)
    ensures WfDict(e[1..])
    ensures forall k :: k in Keys(e[1..]) ==> k !in Keys(d + [e[0]])
  {
    KeysAppend(d, [e[0]]);
    assert Keys(e) == [e[0].0] + Keys(e[1..]);
  }

  /** `{}.update(e)` copies `e`: this is what `G.add_node(x, **attrs)` stores
      for a new node. */
  lemma UpdateEmpty(e: Dict)
    requires WfDict(e)
    ensures Update([], e) == e
  {
    UpdateDisjoint([], e);
  }

  /** Updating a dict with entries it already holds changes nothing. */
  lemma {:induction false} UpdateIdempotent(d: Dict, e: Dict)
    requires WfDict(d)
    requires forall i | 0 <= i < |e| :: e[i] in d
    ensures Update(d, e) == d
    decreases |e|
  {
    if e != [] {
      assert e[0] in d;
      SetSame(d, e[0].0, e[0].1);
      UpdateIdempotent(d, e[1..]);
    }
  }

  /** Updating twice with the same dict is updating once. */
  lemma UpdateTwice(d: Dict, e: Dict)
    requires WfDict(d) && WfDict(e)
    ensures Update(Update(d, e), e) == Update(d, e)
  {
    var r := Update(d, e);
    forall i | 0 <= i < |e|
      ensures e[i] in r
    {
      assert e[i].0 in Keys(e);
      GetEntry(e, i);
      UpdateGet(d, e, e[i].0);
      GetKeys(r, e[i].0);
    }
    UpdateIdempotent(r, e);
  }

  lemma KeysAppend(a: Dict, b: Dict)
    ensures Keys(a + b) == Keys(a) + Keys(b)
  {
  }

  /** Python's `a == b` on two dicts: the same keys with the same values,
      in any order. */
  ghost predicate DictEquiv(a: Dict, b: Dict) {
    forall k :: Get(a, k) == Get(b, k)
  }

  /** `d.get(k, default)`. */
  function GetOr(d: Dict, k: string, default: Value): (r: Value)
    ensures k !in Keys(d) ==> r == default
    ensures k in Keys(d) ==> Some(r) == Get(d, k)
  {
    GetKeys(d, k);
    match Get(d, k)
    case Some(v) => v
    case None => default
  }

  /** Every dict inside `v`, at any depth, has distinct keys, as every
      Python dict does. */
  ghost predicate WfJson(v: Value)
    decreases v
  {
    match v
    case List(items) => forall i | 0 <= i < |items| :: WfJson(items[i])
    case Obj(fields) => WfDict(fields) && forall i | 0 <= i < |fields| :: WfJson(fields[i].1)
    case _ => true
  }

  /** A well-formed dict and every value in it well-formed. */
  ghost predicate WfDeep(d: Dict) {
    WfJson(Obj(d))
  }

  /** The values of a well-formed dict are well-formed. */
  lemma GetWf(d: Dict, k: string)
    requires WfDeep(d) && Get(d, k).Some?
    ensures WfJson(Get(d, k).value)
  {
    GetKeys(d, k);
    var i :| 0 <= i < |d| && d[i] == (k, Get(d, k).value);
  }

  /** What a `for` loop visits in a well-formed value is well-formed. */
  lemma IterWf(v: Value)
    requires WfJson(v) && Iter(v).Ok?
    ensures forall i | 0 <= i < |Iter(v).value| :: WfJson(Iter(v).value[i])
  {
  }

  /** Python truthiness. */
  predicate Truthy(v: Value) {
    match v
    case Null => false
    case Bool(b) => b
    case Num(n) => n != 0
    case Str(s) => s != ""
    case List(items) => items != []
    case Obj(fields) => fields != []
  }

  /** What a `for x in v` loop visits: a list's items, a string's
      characters, a dict's keys; other values are not iterable. */
  function Iter(v: Value): (r: Result<seq<Value>>)
    ensures v.List? ==> r == Ok(v.items)
  {
    match v
    case List(items) => Ok(items)
    case Str(s) => Ok(seq(|s|, i requires 0 <= i < |s| => Str([s[i]])))
    case Obj(fields) => Ok(seq(|fields|, i requires 0 <= i < |fields| => Str(fields[i].0)))
    case _ => Err(TypeError("object is not iterable"))
  }

  /** `d[k]`, raising KeyError for a missing key. */
  function Field(d: Dict, k: string): Result<Value> {
    match Get(d, k)
    case Some(v) => Ok(v)
    case None => Err(KeyError(k))
  }

  /** `d[k]` raises exactly when `k` is not a key of `d`, and otherwise gives
      the value paired with `k`. */
  lemma FieldKeys(d: Dict, k: string)
    ensures Field(d, k).Ok? <==> k in Keys(d)
    ensures Field(d, k).Ok? ==> (k, Field(d, k).value) in d
  {
    GetKeys(d, k);
  }

  /** `for x in d.get(k, [])`. */
  function IterFieldOrEmpty(d: Dict, k: string): Result<seq<Value>> {
    match Get(d, k)
    case Some(v) => Iter(v)
    case None => Ok([])
  }

  /** `for x in d[k]`. */
  function IterField(d: Dict, k: string): Result<seq<Value>> {
    var v :- Field(d, k);
    Iter(v)
  }

  /** `dict` operations on a value that is not a dict raise. */
  function AsDict(v: Value): (r: Result<Dict>)
    ensures r.Ok? <==> v.Obj?
  {
    if v.Obj? then Ok(v.fields) else Err(AttributeError("not a dict"))
  }

  /** `repr(v)`. */
  function Repr(v: Value): string
    decreases v
  {
    match v
    case Null => "None"
    case Bool(b) => if b then "True" else "False"
    case Num(n) => IntToString(n)
    case Str(s) => ReprStr(s)
    case List(items) =>
      "[" + Join(seq(|items|, i requires 0 <= i < |items| => Repr(items[i]))) + "]"
    case Obj(fields) =>
      "{" + Join(seq(|fields|, i requires 0 <= i < |fields| =>
        assert fields[i] in fields;
        ReprStr(fields[i].0) + ": " + Repr(fields[i].1))) + "}"
  }

  /** `repr(s)` of a string: in single quotes, or in double quotes when it
      holds a single quote and no double quote. */
  function ReprStr(s: string): string {
    var q := if '\'' in s && '"' !in s then '"' else '\'';
    [q] + Escaped(s, q) + [q]
  }

  function Escaped(s: string, q: char): string {
    if s == [] then [] else EscapeChar(s[0], q) + Escaped(s[1..], q)
  }

  /** A backslash, the quote, `\n`, `\r` and `\t` are escaped with a
      backslash, and the other ASCII control characters as `\xhh`. */
  function EscapeChar(c: char, q: char): string {
    if c == '\\' || c == q then ['\\', c]
    else if c == '\n' then "\\n"
    else if c == '\r' then "\\r"
    else if c == '\t' then "\\t"
    else if c < ' ' || c == '\U{7F}' then "\\x" + [HexDigit(c as int / 16), HexDigit(c as int % 16)]
    else [c]
  }

  function HexDigit(d: int): char
    requires 0 <= d < 16
  {
    "0123456789abcdef"[d]
  }

  /** `", ".join(parts)`. */
  function Join(parts: seq<string>): string {
    if parts == [] then ""
    else if |parts| == 1 then parts[0]
    else parts[0] + ", " + Join(parts[1..])
  }

  /** `str(v)`: a string is itself; every other value is its `repr`. */
  function PyStr(v: Value): (s: string)
    ensures v.Str? ==> s == v.s
  {
    if v.Str? then v.s else Repr(v)
  }
}
