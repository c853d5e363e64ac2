/**
 The two recursive dictionaries of appending.py.

 SetterDict is a recursive defaultdict: reading a missing key inserts an
 empty dictionary of the receiver's own class. AppendingDict is a SetterDict
 whose item assignment accumulates: a repeated write turns the value into a
 list, and a mapping written over a sub-dictionary is merged into it.

 The functions below give the meaning of each operation on values; the class
 `SetterDict` holds a root dictionary and changes it in place.
 */
module Appending {
  import opened Values

  // ---------------------------------------------------------------------------
  // Construction (appending.py:22-29, 72-73)
  // ---------------------------------------------------------------------------

  /**
   `factory(v)` for a mapping `v`, and `v` itself otherwise: every mapping
   nested through mappings is rebuilt with class `k`; lists are kept as given.
   */
  function Convert(k: Kind, v: Value): (r: Value)
    ensures r.Dict? == v.Dict?
    ensures v.Dict? ==> r.kind == k && r.entries.Keys == v.entries.Keys
    ensures !v.Dict? ==> r == v
  {
    if v.Dict? then Dict(k, map key | key in v.entries :: Convert(k, v.entries[key])) else v
  }

  // ---------------------------------------------------------------------------
  // Vivifying read (appending.py:23-24, defaultdict(factory))
  // ---------------------------------------------------------------------------

  /**
   What `d[key]` yields: the present value, or a fresh empty mapping of
   `d`'s own class.
   */
  function Child(d: Value, key: string): (r: Value)
    requires d.Dict?
    ensures key in d.entries ==> r == d.entries[key]
    ensures key !in d.entries ==> r == Dict(d.kind, map[])
    // a read from a tree of one class yields a tree of that class, vivified or not
    ensures AllOfKind(d.kind, d) ==> AllOfKind(d.kind, r)
  {
    if key in d.entries then d.entries[key] else Dict(d.kind, map[])
  }

  /** The entries of a dictionary of class `k` after reading `key`. */
  function Vivify(k: Kind, e: map<string, Value>, key: string): (r: map<string, Value>)
    ensures r.Keys == e.Keys + {key}
    ensures r[key] == Child(Dict(k, e), key)
    ensures forall x | x in e :: r[x] == e[x]
    ensures key in e ==> r == e
  {
    if key in e then e else e[key := Dict(k, map[])]
  }

  // ---------------------------------------------------------------------------
  // Item assignment (appending.py:41-47, 75-93)
  // ---------------------------------------------------------------------------

  /**
   `merge(d, u)` raises no exception: every nested mapping of `u` lands on a
   mapping (a plain dict must already hold the key, since it does not
   vivify). A nested mapping over a scalar or list would make `d[k]` raise.
   */
  predicate Mergeable(d: Value, u: Value)
    requires u.Dict?
    decreases u
  {
    forall key | key in u.entries && u.entries[key].Dict? ::
      d.Dict? && (key in d.entries || d.kind != Plain) && Mergeable(Child(d, key), u.entries[key])
  }

  /** `AppendingDict.__setitem__` raises no exception for this current value. */
  predicate AccumulateOk(cur: Option<Value>, v: Value)
  {
    cur.Some? && cur.value.Dict? && cur.value.kind == Appending && v.Dict? ==> Mergeable(cur.value, v)
  }

  /** `d[key] = v` raises no exception on a dictionary of class `k`. */
  predicate AssignOk(k: Kind, cur: Option<Value>, v: Value)
  {
    k == Appending ==> AccumulateOk(cur, v)
  }

  /**
   The value at a key of an AppendingDict after `self[key] = v`, given the
   value `cur` it held before (appending.py:75-93).
   */
  function Accumulate(cur: Option<Value>, v: Value): (r: Value)
    requires AccumulateOk(cur, v)
    // first write: anything but a foreign mapping is stored as given
    ensures cur.None? && !(v.Dict? && v.kind != Appending) ==> r == v
    // first write of a foreign mapping: an AppendingDict with the same keys
    ensures cur.None? && v.Dict? ==> r.Dict? && r.kind == Appending && r.entries.Keys == v.entries.Keys
    // over an AppendingDict: a non-mapping replaces it, a mapping is merged in
    ensures cur.Some? && cur.value.Dict? && cur.value.kind == Appending && !v.Dict? ==> r == v
    ensures cur.Some? && cur.value.Dict? && cur.value.kind == Appending && v.Dict? ==>
              r.Dict? && r.kind == Appending &&
              r.entries.Keys == cur.value.entries.Keys + v.entries.Keys &&
              forall x | x in cur.value.entries && x !in v.entries :: r.entries[x] == cur.value.entries[x]
    // over a list: exactly one element appended
    ensures cur.Some? && cur.value.List? ==> r == List(cur.value.items + [v])
    // over anything else: promoted to [old, new]
    ensures cur.Some? && !cur.value.List? && !(cur.value.Dict? && cur.value.kind == Appending) ==>
              r == List([cur.value, v])
    decreases v, 2
  {
    match cur
    case None =>
      if v.Dict? && v.kind != Appending then Convert(Appending, v) else v
    case Some(c) =>
      if c.Dict? && c.kind == Appending then
        if v.Dict? then Merge(c, v) else v
      else if c.List? then List(c.items + [v])
      else List([c, v])
  }

  /**
   The value at `key` after `d[key] = v` on a dictionary of class `k`: the
   AppendingDict policy, or a plain overwrite for any other mapping.
   */
  function AssignSlot(k: Kind, cur: Option<Value>, v: Value): (r: Value)
    requires AssignOk(k, cur, v)
    ensures k != Appending ==> r == v
    ensures k == Appending ==> r == Accumulate(cur, v)
    // a leaf write never leaves a mapping at the key
    ensures !v.Dict? ==> !r.Dict?
    decreases v, 3
  {
    if k == Appending then Accumulate(cur, v) else v
  }

  /** The entries of a dictionary of class `k` after `d[key] = v`. */
  function Assign(k: Kind, e: map<string, Value>, key: string, v: Value): (r: map<string, Value>)
    requires AssignOk(k, Lookup(e, key), v)
    ensures r.Keys == e.Keys + {key}
    ensures forall x | x in e && x != key :: r[x] == e[x]
  {
    e[key := AssignSlot(k, Lookup(e, key), v)]
  }

  /**
   `merge(d, u)` (appending.py:41-47): a nested mapping of `u` is merged into
   the (vivified) child of `d`; any other value is assigned to `d[key]`, and
   silently dropped when `d` is not a mapping. Keys of `u` are independent of
   each other, so the order in which they are visited does not matter.
   */
  function Merge(d: Value, u: Value): (r: Value)
    requires u.Dict? && Mergeable(d, u)
    ensures d.Dict? ==> r.Dict? && r.kind == d.kind && r.entries.Keys == d.entries.Keys + u.entries.Keys
    ensures d.Dict? ==> forall x | x in d.entries && x !in u.entries :: r.entries[x] == d.entries[x]
    ensures !d.Dict? ==> r == d
    decreases u, 1
  {
    if d.Dict? then
      Dict(d.kind, map key | key in d.entries.Keys + u.entries.Keys ::
                     if key in u.entries then MergedAt(d, u, key) else d.entries[key])
    else d
  }

  /** The value `merge(d, u)` leaves at `d[key]`, for a key of `u`. */
  function MergedAt(d: Value, u: Value, key: string): (r: Value)
    requires d.Dict? && u.Dict? && Mergeable(d, u) && key in u.entries
    // a nested mapping is merged into the vivified child, or dropped on a non-mapping child
    ensures u.entries[key].Dict? && Child(d, key).Dict? ==>
              r.Dict? && r.kind == Child(d, key).kind &&
              r.entries.Keys == Child(d, key).entries.Keys + u.entries[key].entries.Keys
    ensures u.entries[key].Dict? && !Child(d, key).Dict? ==> r == Child(d, key)
    // a leaf goes through `d[key] = leaf`
    ensures !u.entries[key].Dict? && d.kind != Appending ==> r == u.entries[key]
    ensures !u.entries[key].Dict? && d.kind == Appending ==> r == Accumulate(Lookup(d.entries, key), u.entries[key])
    decreases u, 0
  {
    if u.entries[key].Dict? then Merge(Child(d, key), u.entries[key])
    else AssignSlot(d.kind, Lookup(d.entries, key), u.entries[key])
  }

  // ---------------------------------------------------------------------------
  // Writes through a chain of reads: d[p0][p1]...[key] = v
  // ---------------------------------------------------------------------------

  /**
   Every read along `path` succeeds: each node on it is a mapping, and a
   plain dict already holds the key read from it.
   */
  predicate PathOk(node: Value, path: seq<string>)
    decreases |path|
  {
    node.Dict? &&
    (|path| > 0 ==> (path[0] in node.entries || node.kind != Plain) && PathOk(Child(node, path[0]), path[1..]))
  }

  /** Every key of `path` is bound, each in the mapping the previous one leads to. */
  predicate PathPresent(node: Value, path: seq<string>)
    decreases |path|
  {
    node.Dict? &&
    (|path| > 0 ==> path[0] in node.entries && PathPresent(node.entries[path[0]], path[1..]))
  }

  /** The node reached by reading `path` from `node`, each read vivifying. */
  function Descend(node: Value, path: seq<string>): (r: Value)
    requires PathOk(node, path)
    ensures r.Dict?
    decreases |path|
  {
    if |path| == 0 then node else Descend(Child(node, path[0]), path[1..])
  }

  /** `node[p0]...[pn][key] = v` raises no exception. */
  predicate SetAtOk(node: Value, path: seq<string>, key: string, v: Value)
  {
    PathOk(node, path) &&
    var target := Descend(node, path);
    AssignOk(target.kind, Lookup(target.entries, key), v)
  }

  /** `node` after `node[p0]...[pn][key] = v`. */
  function SetAt(node: Value, path: seq<string>, key: string, v: Value): (r: Value)
    requires SetAtOk(node, path, key, v)
    ensures r.Dict? && r.kind == node.kind
    ensures |path| == 0 ==> r.entries.Keys == node.entries.Keys + {key}
    ensures |path| > 0 ==> r.entries.Keys == node.entries.Keys + {path[0]}
    ensures forall x | x in node.entries && x != (if |path| == 0 then key else path[0]) ::
              r.entries[x] == node.entries[x]
    decreases |path|
  {
    if |path| == 0 then Dict(node.kind, Assign(node.kind, node.entries, key, v))
    else Dict(node.kind, node.entries[path[0] := SetAt(Child(node, path[0]), path[1..], key, v)])
  }

  // ---------------------------------------------------------------------------
  // The same operations, step by step
  // ---------------------------------------------------------------------------

  /**
   `factory(value)` for a mapping `value` (appending.py:25-29): inserts its
   entries one by one, rebuilding each nested mapping with class `k`.
   */
  method Build(k: Kind, value: Value) returns (e: map<string, Value>)
    requires value.Dict?
    ensures Dict(k, e) == Convert(k, value)
    decreases value
  {
    e := map[];
    var todo := value.entries.Keys;
    while todo != {}
      invariant todo <= value.entries.Keys
      invariant e.Keys == value.entries.Keys - todo
      invariant forall x | x in e :: e[x] == Convert(k, value.entries[x])
      decreases todo
    {
      var x :| x in todo;
      var v := value.entries[x];
      if v.Dict? {
        var nested := Build(k, v);
        e := e[x := Dict(k, nested)];
      } else {
        e := e[x := v];
      }
      todo := todo - {x};
    }
  }

  /**
   `merge(d, u)` as the source runs it (appending.py:41-47): one key of `u`
   at a time, recursing into nested mappings.
   */
  method MergeInto(d: Value, u: Value) returns (r: Value)
    requires u.Dict? && Mergeable(d, u)
    ensures r == Merge(d, u)
    decreases u
  {
    if !d.Dict? {
      // every leaf fails `isinstance(d, Mapping)` and is skipped
      return d;
    }
    var e := d.entries;
    var todo := u.entries.Keys;
    while todo != {}
      invariant todo <= u.entries.Keys
      invariant e.Keys == d.entries.Keys + (u.entries.Keys - todo)
      invariant forall x | x in e ::
                  e[x] == if x in u.entries && x !in todo then MergedAt(d, u, x) else d.entries[x]
      decreases todo
    {
      var x :| x in todo;
      var v := u.entries[x];
      if v.Dict? {
        var child := MergeInto(Child(Dict(d.kind, e), x), v);
        e := e[x := child];
      } else {
        e := e[x := AssignSlot(d.kind, Lookup(e, x), v)];
      }
      todo := todo - {x};
    }
    r := Dict(d.kind, e);
  }

  /**
   A root SetterDict or AppendingDict. `kind` is its class: it decides what
   a read vivifies and what `self[key] = v` does. Nested dictionaries are
   values held in `entries`.
   */
  class SetterDict {
    const kind: Kind
    var entries: map<string, Value>

    /** An AppendingDict holds only AppendingDicts as nested mappings. */
    ghost predicate Valid()
      reads this
    {
      kind != Plain && (kind == Appending ==> AllOfKind(Appending, Dict(kind, entries)))
    }

    /** `SetterDict(value)` (appending.py:22-29). */
    constructor (value: map<string, Value>)
      ensures Valid() && kind == Setter
      ensures Dict(kind, entries) == Convert(Setter, Dict(Plain, value))
    {
      var e := Build(Setter, Dict(Plain, value));
      kind, entries := Setter, e;
    }

    /** `AppendingDict(value)` (appending.py:72-73). */
    constructor AppendingDict(value: map<string, Value>)
      ensures Valid() && kind == Appending
      ensures Dict(kind, entries) == Convert(Appending, Dict(Plain, value))
    {
      var e := Build(Appending, Dict(Plain, value));
      ConvertAllOfKind(Appending, Dict(Plain, value));
      kind, entries := Appending, e;
    }

    /** `self[key]`: a missing key is first bound to a fresh empty dictionary of class `kind`. */
    method Get(key: string) returns (v: Value)
      requires Valid()
      modifies this
      ensures Valid()
      ensures entries == Vivify(kind, old(entries), key)
      ensures v == entries[key]
    {
      if key !in entries {
        entries := entries[key := Dict(kind, map[])];
      }
      v := entries[key];
    }

    /**
     `SetterDict.__setitem__(self, key, v)`: a plain overwrite, without
     conversion. On an AppendingDict it may store a foreign mapping, so it
     does not promise `Valid()`.
     */
    method Store(key: string, v: Value)
      modifies this
      ensures entries == old(entries)[key := v]
    {
      entries := entries[key := v];
    }

    /**
     `self[key] = v`: a plain overwrite on a SetterDict, the accumulating
     policy on an AppendingDict (appending.py:75-93).
     */
    method SetItem(key: string, v: Value)
      requires Valid() && AssignOk(kind, Lookup(entries, key), v)
      requires kind == Appending && v.Dict? && v.kind == Appending ==> AllOfKind(Appending, v)
      modifies this
      ensures Valid()
      ensures entries == Assign(kind, old(entries), key, v)
    {
      if kind != Appending {
        Store(key, v);
      } else if key in entries {
        var cur := entries[key];
        if cur.Dict? && cur.kind == Appending {
          if v.Dict? {
            var merged := MergeInto(cur, v);
            entries := entries[key := merged];
          } else {
            Store(key, v);
          }
        } else if cur.List? {
          entries := entries[key := List(cur.items + [v])];
        } else {
          Store(key, List([cur]));
          entries := entries[key := List(entries[key].items + [v])];
          assert [cur] + [v] == [cur, v];
        }
      } else if v.Dict? && v.kind != Appending {
        var e := Build(Appending, v);
        Store(key, Dict(Appending, e));
      } else {
        Store(key, v);
      }
      assert entries == old(entries)[key := AssignSlot(kind, Lookup(old(entries), key), v)];
      AssignKeepsKind(kind, old(entries), key, v);
    }

    /** `self[p0]...[pn][key] = v`: reads along `path` vivify, then the last dictionary is assigned. */
    method SetItemAt(path: seq<string>, key: string, v: Value)
      requires Valid() && SetAtOk(Dict(kind, entries), path, key, v)
      requires kind == Appending && v.Dict? && v.kind == Appending ==> AllOfKind(Appending, v)
      modifies this
      ensures Valid()
      ensures Dict(kind, entries) == SetAt(Dict(kind, old(entries)), path, key, v)
    {
      var root := SetAt(Dict(kind, entries), path, key, v);
      if kind == Appending {
        SetAtKeepsKind(Dict(kind, entries), path, key, v);
      }
      entries := root.entries;
    }
  }

  // ---------------------------------------------------------------------------
  // The invariant of AppendingDict: only AppendingDicts nest
  // ---------------------------------------------------------------------------

  /** Conversion with class `k` yields a value whose nested mappings all have class `k`. */
  lemma {:induction false} ConvertAllOfKind(k: Kind, v: Value)
    ensures AllOfKind(k, Convert(k, v))
    decreases v
  {
    if v.Dict? {
      forall key | key in v.entries ensures AllOfKind(k, Convert(k, v).entries[key]) {
        ConvertAllOfKind(k, v.entries[key]);
      }
    }
  }

  /** Merging into an AppendingDict tree leaves an AppendingDict tree. */
  lemma {:induction false} MergeKeepsKind(d: Value, u: Value)
    requires u.Dict? && Mergeable(d, u) && AllOfKind(Appending, d)
    ensures AllOfKind(Appending, Merge(d, u))
    decreases u
  {
    if d.Dict? {
      var r := Merge(d, u);
      forall key | key in r.entries ensures AllOfKind(Appending, r.entries[key]) {
        if key in u.entries {
          var w := u.entries[key];
          assert r.entries[key] == MergedAt(d, u, key);
          if w.Dict? {
            MergeKeepsKind(Child(d, key), w);
          } else {
            AccumulateLeafNotDict(Lookup(d.entries, key), w);
          }
        } else {
          assert AllOfKind(Appending, d.entries[key]);
        }
      }
    }
  }

  /** Assigning a non-mapping never leaves a mapping behind. */
  lemma AccumulateLeafNotDict(cur: Option<Value>, v: Value)
    requires !v.Dict?
    ensures AccumulateOk(cur, v) && !Accumulate(cur, v).Dict?
  {
  }

  /**
   An assignment to an AppendingDict tree keeps it one, provided a passed-in
   AppendingDict is itself one (as every AppendingDict built by this module is).
   */
  lemma AssignKeepsKind(k: Kind, e: map<string, Value>, key: string, v: Value)
    requires AssignOk(k, Lookup(e, key), v)
    requires k == Appending ==> AllOfKind(Appending, Dict(k, e))
    requires k == Appending && v.Dict? && v.kind == Appending ==> AllOfKind(Appending, v)
    ensures k == Appending ==> AllOfKind(Appending, Dict(k, Assign(k, e, key, v)))
  {
    if k == Appending {
      var r := Assign(k, e, key, v);
      assert r[key] == Accumulate(Lookup(e, key), v);
      if key in e {
        assert AllOfKind(Appending, e[key]);
        if e[key].Dict? && e[key].kind == Appending && v.Dict? {
          MergeKeepsKind(e[key], v);
        }
      } else if v.Dict? && v.kind != Appending {
        ConvertAllOfKind(Appending, v);
      }
      assert AllOfKind(Appending, r[key]);
      forall x | x in r ensures AllOfKind(Appending, r[x]) {
        if x != key {
          assert AllOfKind(Appending, e[x]);
        }
      }
    }
  }

  /** A write through a path keeps an AppendingDict tree one. */
  lemma {:induction false} SetAtKeepsKind(node: Value, path: seq<string>, key: string, v: Value)
    requires SetAtOk(node, path, key, v) && AllOfKind(Appending, node)
    requires v.Dict? && v.kind == Appending ==> AllOfKind(Appending, v)
    ensures AllOfKind(Appending, SetAt(node, path, key, v))
    decreases |path|
  {
    if |path| == 0 {
      AssignKeepsKind(node.kind, node.entries, key, v);
    } else {
      SetAtKeepsKind(Child(node, path[0]), path[1..], key, v);
    }
  }
}
