/** Decoded JSON values as the Python code sees them after `json.loads`,
    together with the few Python operations the scraper applies to them:
    truthiness, `dict.get`, subscripting with `[...]` and iteration with
    `for`. Every Python exception these raise becomes an `Err` value. */
module PyJson {

  /** A JSON value. An object keeps its members in insertion order, as a
      Python dict does; the objects the program handles have distinct keys. */
  datatype Json =
    | JNull
    | JBool(b: bool)
    | JInt(i: int)
    | JStr(s: string)
    | JArr(items: seq<Json>)
    | JObj(fields: seq<(string, Json)>)

  /** The Python exceptions that the modelled code can raise. */
  datatype Fault = AttributeError | TypeError | IndexError | KeyError | ValueError

  datatype Option<+T> = None | Some(value: T)

  /** The outcome of a Python expression: a value, or the exception it raised. */
  datatype Result<+T> = Ok(value: T) | Err(fault: Fault) {
    predicate IsFailure() { Err? }
    function PropagateFailure<U>(): Result<U>
      requires Err?
    {
      Err(fault)
    }
    function Extract(): T
      requires Ok?
    {
      value
    }
  }

  const EmptyObj: Json := JObj([])
  const EmptyArr: Json := JArr([])

  /** Python's `bool(x)` for a decoded JSON value. */
  predicate Truthy(j: Json) {
    match j
    case JNull => false
    case JBool(b) => b
    case JInt(i) => i != 0
    case JStr(s) => s != []
    case JArr(items) => items != []
    case JObj(fields) => fields != []
  }

  /** The value stored under key `k`, if the object has that key. */
  function Lookup(fields: seq<(string, Json)>, k: string): Option<Json> {
    if fields == [] then None
    else if fields[0].0 == k then Some(fields[0].1)
    else Lookup(fields[1..], k)
  }

  predicate HasKey(j: Json, k: string) {
    j.JObj? && Lookup(j.fields, k).Some?
  }

  /** `j.get(k, default)`: only a dict has `get`; any other value raises
      AttributeError. A key that is present yields its value, even `None`. */
  function DictGet(j: Json, k: string, default: Json): (r: Result<Json>)
    ensures r.Err? <==> !j.JObj?
    ensures r.Err? ==> r.fault == AttributeError
    ensures HasKey(j, k) ==> r == Ok(Lookup(j.fields, k).value)
    ensures j.JObj? && !HasKey(j, k) ==> r == Ok(default)
  {
    match j
    case JObj(fields) =>
      (match Lookup(fields, k)
       case Some(v) => Ok(v)
       case None => Ok(default))
    case _ => Err(AttributeError)
  }

  /** `j[k]` with a string key: a dict without the key raises KeyError; a
      list, a string, `None`, a bool or an int raises TypeError. */
  function Subscript(j: Json, k: string): (r: Result<Json>)
    ensures r.Ok? <==> HasKey(j, k)
    ensures r.Ok? ==> r.value == Lookup(j.fields, k).value
    ensures r.Err? ==> r.fault == (if j.JObj? then KeyError else TypeError)
  {
    match j
    case JObj(fields) =>
      (match Lookup(fields, k)
       case Some(v) => Ok(v)
       case None => Err(KeyError))
    case _ => Err(TypeError)
  }

  /** `j[0]`: the first item of a list, the first character of a string.
      An empty list or string raises IndexError; a dict raises KeyError,
      since the integer 0 is never one of its (string) keys; `None`, a
      bool or an int is not subscriptable and raises TypeError. */
  function IndexZero(j: Json): (r: Result<Json>)
    ensures j.JArr? && j.items != [] ==> r == Ok(j.items[0])
    ensures j.JStr? && j.s != [] ==> r == Ok(JStr([j.s[0]]))
    ensures (j.JArr? && j.items == []) || (j.JStr? && j.s == []) ==> r == Err(IndexError)
    ensures j.JObj? ==> r == Err(KeyError)
    ensures j.JNull? || j.JBool? || j.JInt? ==> r == Err(TypeError)
    ensures r.Ok? ==> (j.JArr? && j.items != []) || (j.JStr? && j.s != [])
  {
    match j
    case JArr(items) => if items == [] then Err(IndexError) else Ok(items[0])
    case JStr(s) => if s == [] then Err(IndexError) else Ok(JStr([s[0]]))
    case JObj(_) => Err(KeyError)
    case _ => Err(TypeError)
  }

  /** The values that `for x in j` visits: the items of a list, the
      one-character strings of a string, the keys of a dict in insertion
      order. `None`, a bool or an int is not iterable and raises TypeError. */
  function Iterate(j: Json): (r: Result<seq<Json>>)
    ensures j.JArr? ==> r == Ok(j.items)
    ensures r.Ok? <==> j.JArr? || j.JStr? || j.JObj?
    ensures r.Err? ==> r.fault == TypeError
    ensures j.JStr? ==> |r.value| == |j.s| && forall n :: 0 <= n < |j.s| ==> r.value[n] == JStr([j.s[n]])
    ensures j.JObj? ==> |r.value| == |j.fields| && forall n :: 0 <= n < |j.fields| ==> r.value[n] == JStr(j.fields[n].0)
    ensures r.Ok? && !j.JArr? ==> forall n :: 0 <= n < |r.value| ==> r.value[n].JStr?
    ensures r.Ok? ==> (r.value == [] <==> !Truthy(j))
  {
    match j
    case JArr(items) => Ok(items)
    case JStr(s) => Ok(seq(|s|, n requires 0 <= n < |s| => JStr([s[n]])))
    case JObj(fields) => Ok(seq(|fields|, n requires 0 <= n < |fields| => JStr(fields[n].0)))
    case _ => Err(TypeError)
  }

  /** The value reached by following `keys` from `j`; a missing key, or a
      step into something that is not an object, gives `absent`. This is the
      lenient reading the normalisers aim for: a missing piece only affects
      what depends on it. */
  function ValueAt(j: Json, keys: seq<string>, absent: Json): Json
    decreases |keys|
  {
    if keys == [] then j
    else if j.JObj? && Lookup(j.fields, keys[0]).Some? then
      ValueAt(Lookup(j.fields, keys[0]).value, keys[1..], absent)
    else absent
  }

  /** `j` is an object, and so is every value present along `keys`: a chain
      of `.get(k, {})` calls through `keys`, followed by one more `.get`,
      cannot raise AttributeError. */
  predicate ObjectsAlong(j: Json, keys: seq<string>)
    decreases |keys|
  {
    j.JObj? &&
    (keys == [] ||
     match Lookup(j.fields, keys[0])
     case None => true
     case Some(v) => ObjectsAlong(v, keys[1..]))
  }

  /** `j.get(k1, {}).get(k2, {}) ... .get(kn, last)`: every key but the last
      defaults to an empty dict, the last one to `last`. */
  function GetChain(j: Json, keys: seq<string>, last: Json): (r: Result<Json>)
    requires keys != []
    ensures r.Ok? <==> ObjectsAlong(j, keys[..|keys| - 1])
    ensures r.Ok? ==> r.value == ValueAt(j, keys, last)
    ensures r.Err? ==> r.fault == AttributeError
    decreases |keys|
  {
    if |keys| == 1 then DictGet(j, keys[0], last)
    else
      var v :- DictGet(j, keys[0], EmptyObj);
      assert keys[..|keys| - 1][1..] == keys[1..][..|keys| - 2];
      GetChain(v, keys[1..], last)
  }

  /** Every key along `keys` is present, each step in a dict. */
  predicate HasPath(j: Json, keys: seq<string>)
    decreases |keys|
  {
    keys == [] || (HasKey(j, keys[0]) && HasPath(Lookup(j.fields, keys[0]).value, keys[1..]))
  }

  /** `j[k1][k2]...[kn]`: the first missing key raises KeyError, the first
      step into something that is not a dict raises TypeError. */
  function SubscriptChain(j: Json, keys: seq<string>): (r: Result<Json>)
    ensures r.Ok? <==> HasPath(j, keys)
    ensures r.Ok? ==> r.value == ValueAt(j, keys, JNull)
    ensures r.Err? ==> r.fault == KeyError || r.fault == TypeError
    decreases |keys|
  {
    if keys == [] then Ok(j)
    else
      var v :- Subscript(j, keys[0]);
      SubscriptChain(v, keys[1..])
  }

  /** Two `.get` calls in a row are the chain over both keys. */
  lemma GetThenGet(j: Json, k1: string, k2: string, last: Json)
    requires j.JObj?
    ensures DictGet(DictGet(j, k1, EmptyObj).value, k2, last) == GetChain(j, [k1, k2], last)
  {
    assert [k1, k2][1..] == [k2];
  }

  /** The first member with key `k` is the one `Lookup` finds. */
  lemma {:induction false} LookupFirst(fields: seq<(string, Json)>, k: string, n: nat)
    requires n < |fields| && fields[n].0 == k
    requires forall m :: 0 <= m < n ==> fields[m].0 != k
    ensures Lookup(fields, k) == Some(fields[n].1)
  {
    if n > 0 {
      LookupFirst(fields[1..], k, n - 1);
    }
  }

  /** One step of `ValueAt` and of `ObjectsAlong` through a dict. */
  lemma ValueAtStep(j: Json, k: string, rest: seq<string>, absent: Json)
    requires j.JObj?
    ensures Lookup(j.fields, k).Some? ==>
      && ValueAt(j, [k] + rest, absent) == ValueAt(Lookup(j.fields, k).value, rest, absent)
      && (ObjectsAlong(j, [k] + rest) <==> ObjectsAlong(Lookup(j.fields, k).value, rest))
    ensures Lookup(j.fields, k).None? ==>
      ValueAt(j, [k] + rest, absent) == absent && ObjectsAlong(j, [k] + rest)
  {
    assert ([k] + rest)[1..] == rest;
  }

  /** A key that no member carries is not found. */
  lemma {:induction false} LookupAbsent(fields: seq<(string, Json)>, k: string)
    requires forall m :: 0 <= m < |fields| ==> fields[m].0 != k
    ensures Lookup(fields, k) == None
  {
    if fields != [] {
      LookupAbsent(fields[1..], k);
    }
  }
}
