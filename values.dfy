/**
 Values held by the recursive dictionaries of appending.py.

 A value is a scalar, a list, or a mapping. A mapping carries its runtime
 class, because the write policy of AppendingDict dispatches on it: a foreign
 Mapping (a plain `dict`), a SetterDict, or an AppendingDict. Python's `==`
 ignores that class, which `Erase` captures.
 */
module Values {

  /** The runtime class of a mapping value. */
  datatype Kind = Plain | Setter | Appending

  datatype Value =
    | Scalar(n: int)
    | List(items: seq<Value>)
    | Dict(kind: Kind, entries: map<string, Value>)

  datatype Option<T> = None | Some(value: T)

  /** The current value at `key`, if any. */
  function Lookup(e: map<string, Value>, key: string): (r: Option<Value>)
    ensures r.Some? <==> key in e
    ensures r.Some? ==> r.value == e[key]
  {
    if key in e then Some(e[key]) else None
  }

  /** The value as Python's `==` sees it: every mapping made a plain one. */
  function Erase(v: Value): (r: Value)
    ensures r.Scalar? == v.Scalar? && r.List? == v.List? && r.Dict? == v.Dict?
    ensures v.List? ==> |r.items| == |v.items|
    ensures v.Dict? ==> r.kind == Plain && r.entries.Keys == v.entries.Keys
  {
    match v
    case Scalar(_) => v
    case List(xs) => List(seq(|xs|, i requires 0 <= i < |xs| => Erase(xs[i])))
    case Dict(_, e) => Dict(Plain, map k | k in e :: Erase(e[k]))
  }

  /** Python equality of two values. */
  predicate Equal(a: Value, b: Value)
  {
    Erase(a) == Erase(b)
  }

  /**
   Every mapping reachable from `v` through mappings alone (not through
   lists) has runtime class `k`.
   */
  predicate AllOfKind(k: Kind, v: Value)
  {
    v.Dict? ==> v.kind == k && forall key | key in v.entries :: AllOfKind(k, v.entries[key])
  }
}
