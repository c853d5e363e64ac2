/**
 Properties of the dictionaries of appending.py that relate several
 operations: construction is a deep copy equal to its source, repeated
 writes accumulate into one flat list, merging into an empty dictionary is
 the same as converting, and a write through a path lands at its end.
 */
module AppendingLaws {
  import opened Values
  import opened Appending

  // ---------------------------------------------------------------------------
  // Construction
  // ---------------------------------------------------------------------------

  /** `SetterDict(M) == M` and `AppendingDict(M) == M` at every depth. */
  lemma {:induction false} ConvertEqual(k: Kind, v: Value)
    ensures Equal(Convert(k, v), v)
    decreases v
  {
    if v.Dict? {
      var c := Convert(k, v);
      forall key | key in v.entries ensures Erase(c.entries[key]) == Erase(v.entries[key]) {
        ConvertEqual(k, v.entries[key]);
      }
      assert Erase(c).entries == Erase(v).entries;
    }
  }

  /** Converting a value whose mappings already have class `k` changes nothing. */
  lemma {:induction false} ConvertFixesKind(k: Kind, v: Value)
    requires AllOfKind(k, v)
    ensures Convert(k, v) == v
    decreases v
  {
    if v.Dict? {
      forall key | key in v.entries ensures Convert(k, v.entries[key]) == v.entries[key] {
        ConvertFixesKind(k, v.entries[key]);
      }
      assert Convert(k, v).entries == v.entries;
    }
  }

  /** Constructing from a constructed dictionary gives the same dictionary. */
  lemma ConvertIdempotent(k: Kind, v: Value)
    ensures Convert(k, Convert(k, v)) == Convert(k, v)
  {
    ConvertAllOfKind(k, v);
    ConvertFixesKind(k, Convert(k, v));
  }

  // ---------------------------------------------------------------------------
  // Writes to one key of an AppendingDict
  // ---------------------------------------------------------------------------

  /**
   A first write adds exactly that key. It stores anything but a foreign
   mapping exactly as given, and a foreign mapping as its deep conversion to
   an AppendingDict, which equals it.
   */
  lemma AssignAbsent(e: map<string, Value>, key: string, v: Value)
    requires key !in e
    ensures AssignOk(Appending, Lookup(e, key), v)
    ensures Assign(Appending, e, key, v).Keys == e.Keys + {key}
    ensures Equal(Assign(Appending, e, key, v)[key], v)
    ensures !(v.Dict? && v.kind != Appending) ==> Assign(Appending, e, key, v)[key] == v
    ensures v.Dict? && v.kind != Appending ==> Assign(Appending, e, key, v)[key] == Convert(Appending, v)
    ensures v.Dict? ==> Assign(Appending, e, key, v)[key].kind == Appending
    ensures v.Dict? && v.kind != Appending ==> AllOfKind(Appending, Assign(Appending, e, key, v)[key])
  {
    assert Assign(Appending, e, key, v)[key] == Accumulate(None, v);
    if v.Dict? && v.kind != Appending {
      ConvertEqual(Appending, v);
      ConvertAllOfKind(Appending, v);
    } else {
      assert Accumulate(None, v) == v;
    }
  }

  /**
   Writing to a key that holds a list appends exactly the one new value at
   the end, as given: it is neither nested nor flattened.
   */
  lemma AssignAppends(e: map<string, Value>, key: string, v: Value)
    requires key in e && e[key].List?
    ensures AssignOk(Appending, Lookup(e, key), v)
    ensures var r := Assign(Appending, e, key, v)[key];
            r.List? && |r.items| == |e[key].items| + 1 &&
            r.items[..|e[key].items|] == e[key].items && r.items[|e[key].items|] == v
  {
    assert Assign(Appending, e, key, v)[key] == Accumulate(Some(e[key]), v);
  }

  /** Writing to a key that holds neither a list nor an AppendingDict gives `[old, new]`. */
  lemma AssignPromotes(e: map<string, Value>, key: string, v: Value)
    requires key in e && !e[key].List? && !(e[key].Dict? && e[key].kind == Appending)
    ensures AssignOk(Appending, Lookup(e, key), v)
    ensures Assign(Appending, e, key, v)[key] == List([e[key], v])
  {
    assert Assign(Appending, e, key, v)[key] == Accumulate(Some(e[key]), v);
  }

  /**
   Writing a non-mapping over an AppendingDict replaces the whole
   sub-dictionary; writing a mapping keeps every key the mapping does not
   mention.
   */
  lemma AssignOverDict(e: map<string, Value>, key: string, v: Value)
    requires key in e && e[key].Dict? && e[key].kind == Appending
    requires v.Dict? ==> Mergeable(e[key], v)
    ensures AssignOk(Appending, Lookup(e, key), v)
    ensures !v.Dict? ==> Assign(Appending, e, key, v)[key] == v
    ensures v.Dict? ==> var r := Assign(Appending, e, key, v)[key];
              r.Dict? && r.kind == Appending &&
              r.entries.Keys == e[key].entries.Keys + v.entries.Keys &&
              forall x | x in e[key].entries && x !in v.entries :: r.entries[x] == e[key].entries[x]
  {
    assert Assign(Appending, e, key, v)[key] == Accumulate(Some(e[key]), v);
  }

  /**
   The entries after writing `vs[0]`, `vs[1]`, ... in turn to `key`, which is
   absent at first. When the first value is a scalar the key ends up holding
   the first value alone, or the flat list of all of them.
   */
  function WriteAll(e: map<string, Value>, key: string, vs: seq<Value>): (r: map<string, Value>)
    requires key !in e && |vs| > 0 && vs[0].Scalar?
    ensures r.Keys == e.Keys + {key}
    ensures forall x | x in e :: r[x] == e[x]
    ensures r[key] == if |vs| == 1 then vs[0] else List(vs)
    decreases |vs|
  {
    if |vs| == 1 then
      assert Assign(Appending, e, key, vs[0])[key] == Accumulate(None, vs[0]);
      Assign(Appending, e, key, vs[0])
    else
      var prev := WriteAll(e, key, vs[..|vs| - 1]);
      assert vs[..|vs| - 1] + [vs[|vs| - 1]] == vs;
      assert |vs| == 2 ==> [vs[0], vs[1]] == vs;
      assert Assign(Appending, prev, key, vs[|vs| - 1])[key] == Accumulate(Some(prev[key]), vs[|vs| - 1]);
      Assign(Appending, prev, key, vs[|vs| - 1])
  }

  // ---------------------------------------------------------------------------
  // merge
  // ---------------------------------------------------------------------------

  /**
   Merging a mapping into a fresh empty AppendingDict never fails and gives
   its deep conversion: every nested mapping is vivified, even an empty one.
   */
  lemma {:induction false} MergeIntoEmpty(u: Value)
    requires u.Dict?
    ensures Mergeable(Dict(Appending, map[]), u)
    ensures Merge(Dict(Appending, map[]), u) == Convert(Appending, u)
    decreases u
  {
    var d := Dict(Appending, map[]);
    forall key | key in u.entries && u.entries[key].Dict?
      ensures Mergeable(Child(d, key), u.entries[key])
      ensures Merge(Child(d, key), u.entries[key]) == Convert(Appending, u.entries[key])
    {
      MergeIntoEmpty(u.entries[key]);
    }
    assert Mergeable(d, u);
    var r := Merge(d, u);
    forall key | key in u.entries ensures r.entries[key] == Convert(Appending, u.entries[key]) {
      assert r.entries[key] == MergedAt(d, u, key);
      if !u.entries[key].Dict? {
        assert MergedAt(d, u, key) == Accumulate(None, u.entries[key]);
      }
    }
    assert r.entries == Convert(Appending, u).entries;
  }

  /** The first write of a mapping to a key stores what merging it into an empty AppendingDict gives. */
  lemma FirstWriteIsMerge(v: Value)
    requires v.Dict? && v.kind != Appending
    ensures Mergeable(Dict(Appending, map[]), v)
    ensures Accumulate(None, v) == Merge(Dict(Appending, map[]), v)
  {
    MergeIntoEmpty(v);
  }

  /**
   Merging a mapping whose keys are all new to an AppendingDict is the union
   of the two, the mapping deep-converted.
   */
  lemma MergeDisjoint(d: Value, u: Value)
    requires d.Dict? && d.kind == Appending && u.Dict?
    requires d.entries.Keys !! u.entries.Keys
    ensures Mergeable(d, u)
    ensures Merge(d, u) == Dict(Appending, d.entries + Convert(Appending, u).entries)
  {
    forall key | key in u.entries && u.entries[key].Dict?
      ensures Mergeable(Child(d, key), u.entries[key])
      ensures Merge(Child(d, key), u.entries[key]) == Convert(Appending, u.entries[key])
    {
      MergeIntoEmpty(u.entries[key]);
    }
    assert Mergeable(d, u);
    var r := Merge(d, u);
    forall key | key in u.entries ensures r.entries[key] == Convert(Appending, u.entries[key]) {
      assert r.entries[key] == MergedAt(d, u, key);
      if !u.entries[key].Dict? {
        assert MergedAt(d, u, key) == Accumulate(None, u.entries[key]);
      }
    }
    assert r.entries == (d.entries + Convert(Appending, u).entries);
  }

  // ---------------------------------------------------------------------------
  // Writes through a path
  // ---------------------------------------------------------------------------

  /**
   After `node[p0]...[pn][key] = v` every key of the path is present, so the
   path reads back without vivifying, and the dictionary at its end is the
   one the reads reached, assigned once, which now holds `key`.
   */
  lemma {:induction false} SetAtDescend(node: Value, path: seq<string>, key: string, v: Value)
    requires SetAtOk(node, path, key, v)
    ensures PathOk(SetAt(node, path, key, v), path)
    ensures PathPresent(SetAt(node, path, key, v), path)
    ensures key in Descend(SetAt(node, path, key, v), path).entries
    ensures var t := Descend(node, path);
            Descend(SetAt(node, path, key, v), path) == Dict(t.kind, Assign(t.kind, t.entries, key, v))
    decreases |path|
  {
    if |path| > 0 {
      SetAtDescend(Child(node, path[0]), path[1..], key, v);
    }
  }
}
