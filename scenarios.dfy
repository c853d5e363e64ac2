/**
 The scenarios of test.py and of the AppendingDict docstring, stated against
 the contracts of `SetterDict`. Attribute access `d.a.b = v` is item access
 `d["a"]["b"] = v`, written here as a write at path ["a"], key "b".
 */
module Scenarios {
  import opened Values
  import opened Appending
  import opened AppendingLaws

  /** test_init_blended (test.py:24-27): mappings of the source become SetterDicts. */
  method InitBlended()
  {
    var sd := new SetterDict(map["a" := Scalar(1), "b" := Dict(Plain, map["c" := Scalar(3)])]);
    assert sd.entries["b"].entries == map["c" := Scalar(3)];
    assert sd.entries == map["a" := Scalar(1), "b" := Dict(Setter, map["c" := Scalar(3)])];
  }

  /** test_setting_nested_nonempty and test_setting_attr (test.py:49-57). */
  method SettingNested()
  {
    var sd := new SetterDict(map["a" := Scalar(1)]);
    sd.SetItemAt(["foo"], "bar", Scalar(2));
    assert sd.entries == map["a" := Scalar(1), "foo" := Dict(Setter, map["bar" := Scalar(2)])];
    sd.SetItem("a", Scalar(2));
    assert sd.entries["a"] == Scalar(2);
  }

  /** test_setting_attr_deep (test.py:59-62), then two reads of a missing key. */
  method SettingDeep()
  {
    var sd := new SetterDict(map[]);
    sd.SetItemAt(["a", "b"], "c", Scalar(4));
    assert sd.entries == map["a" := Dict(Setter, map["b" := Dict(Setter, map["c" := Scalar(4)])])];
    var first := sd.Get("z");
    var second := sd.Get("z");
    assert first == second == Dict(Setter, map[]);
    assert sd.entries.Keys == {"a", "z"};
  }

  /** test_basic_appending (test.py:67-72), and a third write. */
  method BasicAppending()
  {
    var ad := new SetterDict.AppendingDict(map[]);
    ad.SetItem("a", Scalar(1));
    assert ad.entries == map["a" := Scalar(1)];
    ad.SetItem("a", Scalar(2));
    assert ad.entries == map["a" := List([Scalar(1), Scalar(2)])];
    ad.SetItem("a", Scalar(3));
    assert [Scalar(1), Scalar(2)] + [Scalar(3)] == [Scalar(1), Scalar(2), Scalar(3)];
    assert ad.entries == map["a" := List([Scalar(1), Scalar(2), Scalar(3)])];
  }

  /** test_deep_appending (test.py:74-78). */
  method DeepAppending()
  {
    var ad := new SetterDict.AppendingDict(map[]);
    ad.SetItemAt(["a", "b"], "c", Scalar(1));
    var b := Dict(Appending, map["c" := Scalar(1)]);
    var a := Dict(Appending, map["b" := b]);
    assert ad.entries == map["a" := a];
    assert ["a", "b"][1..] == ["b"] && ["b"][1..] == [];
    assert Descend(Dict(Appending, ad.entries), ["a", "b"]) == b;
    ad.SetItemAt(["a", "b"], "c", Scalar(2));
    var b' := SetAt(b, [], "c", Scalar(2));
    assert b' == Dict(Appending, map["c" := List([Scalar(1), Scalar(2)])]);
    assert SetAt(a, ["b"], "c", Scalar(2)) == Dict(Appending, map["b" := b']);
    assert ad.entries == map["a" := Dict(Appending, map["b" := Dict(Appending, map["c" := List([Scalar(1), Scalar(2)])])])];
  }

  /**
   Merging {"b": {"d": 2}} into {"b": {"c": 1}} keeps "c" beside the new
   "d" (test.py:80-84).
   */
  lemma MergeKeepsSiblings()
    ensures var u := Dict(Plain, map["b" := Dict(Plain, map["d" := Scalar(2)])]);
            var a := Dict(Appending, map["b" := Dict(Appending, map["c" := Scalar(1)])]);
            Mergeable(a, u) &&
            Merge(a, u) == Dict(Appending, map["b" := Dict(Appending, map["c" := Scalar(1), "d" := Scalar(2)])])
  {
    var b := Dict(Appending, map["c" := Scalar(1)]);
    var a := Dict(Appending, map["b" := b]);
    var ub := Dict(Plain, map["d" := Scalar(2)]);
    var u := Dict(Plain, map["b" := ub]);
    MergeDisjoint(b, ub);
    assert Convert(Appending, ub).entries == map["d" := Scalar(2)];
    assert Merge(a, u).entries["b"] == MergedAt(a, u, "b");
    assert Merge(b, ub) == Dict(Appending, map["c" := Scalar(1), "d" := Scalar(2)]);
    assert Merge(a, u) == Dict(Appending, map["b" := Merge(b, ub)]);
  }

  /** test_deep_setting_with_dict (test.py:80-84). */
  method DeepSettingWithDict()
  {
    var ad := new SetterDict.AppendingDict(map[]);
    ad.SetItemAt(["a", "b"], "c", Scalar(1));
    assert ad.entries == map["a" := Dict(Appending, map["b" := Dict(Appending, map["c" := Scalar(1)])])];
    MergeKeepsSiblings();
    ad.SetItem("a", Dict(Plain, map["b" := Dict(Plain, map["d" := Scalar(2)])]));
    assert ad.entries == map["a" := Dict(Appending, map["b" := Dict(Appending, map["c" := Scalar(1), "d" := Scalar(2)])])];
  }

  /**
   Merging {"c": {"d": 4}} into {"c": {"d": 3}} sends the leaf through the
   write policy, so it accumulates into [3, 4] (appending.py:64-68).
   */
  lemma MergeAccumulatesLeaf()
    ensures var u := Dict(Plain, map["c" := Dict(Plain, map["d" := Scalar(4)])]);
            var b := Dict(Appending, map["c" := Dict(Appending, map["d" := Scalar(3)])]);
            Mergeable(b, u) &&
            Merge(b, u) == Dict(Appending, map["c" := Dict(Appending, map["d" := List([Scalar(3), Scalar(4)])])])
  {
    var c := Dict(Appending, map["d" := Scalar(3)]);
    var b := Dict(Appending, map["c" := c]);
    var uc := Dict(Plain, map["d" := Scalar(4)]);
    var u := Dict(Plain, map["c" := uc]);
    assert Mergeable(b, u);
    assert Merge(c, uc).entries["d"] == MergedAt(c, uc, "d") == Accumulate(Some(Scalar(3)), Scalar(4));
    assert Merge(c, uc) == Dict(Appending, map["d" := List([Scalar(3), Scalar(4)])]);
    assert Merge(b, u).entries["c"] == MergedAt(b, u, "c");
    assert Merge(b, u) == Dict(Appending, map["c" := Merge(c, uc)]);
  }

  /** The docstring (appending.py:64-68): `a.b.c.d = 3; a.b = {"c": {"d": 4}}`. */
  method Docstring()
  {
    var ad := new SetterDict.AppendingDict(map[]);
    ad.SetItemAt(["b", "c"], "d", Scalar(3));
    var c := Dict(Appending, map["d" := Scalar(3)]);
    assert ["b", "c"][1..] == ["c"] && ["c"][1..] == [];
    assert SetAt(Dict(Appending, map[]), ["c"], "d", Scalar(3)) == Dict(Appending, map["c" := c]);
    assert ad.entries == map["b" := Dict(Appending, map["c" := c])];
    MergeAccumulatesLeaf();
    ad.SetItem("b", Dict(Plain, map["c" := Dict(Plain, map["d" := Scalar(4)])]));
    assert ad.entries == map["b" := Dict(Appending, map["c" := Dict(Appending, map["d" := List([Scalar(3), Scalar(4)])])])];
  }

  /** A scalar written over a sub-dictionary replaces it (appending.py:81-82). */
  method ScalarOverDict()
  {
    var ad := new SetterDict.AppendingDict(map["b" := Dict(Plain, map["c" := Scalar(1)])]);
    assert ad.entries["b"].Dict? && ad.entries["b"].kind == Appending;
    ad.SetItem("b", Scalar(5));
    assert ad.entries == map["b" := Scalar(5)];
  }

  /**
   Merging {"x": {}} vivifies "x" as an empty AppendingDict even though the
   mapping under it is empty (appending.py:44-45).
   */
  lemma MergeVivifiesEmpty()
    ensures var u := Dict(Plain, map["x" := Dict(Plain, map[])]);
            Mergeable(Dict(Appending, map[]), u) &&
            Merge(Dict(Appending, map[]), u) == Dict(Appending, map["x" := Dict(Appending, map[])])
  {
    var u := Dict(Plain, map["x" := Dict(Plain, map[])]);
    MergeIntoEmpty(u);
    assert Convert(Appending, u).entries["x"] == Dict(Appending, map[]);
    assert Convert(Appending, u) == Dict(Appending, map["x" := Dict(Appending, map[])]);
  }

  /**
   A leaf merged onto a scalar is silently dropped: after `a.b = 1`, writing
   {"b": {"c": 2}} to "a" changes nothing (appending.py:46).
   */
  lemma MergeDropsLeafOnScalar()
    ensures var u := Dict(Plain, map["b" := Dict(Plain, map["c" := Scalar(2)])]);
            var a := Dict(Appending, map["b" := Scalar(1)]);
            Mergeable(a, u) && Merge(a, u) == a
  {
    var a := Dict(Appending, map["b" := Scalar(1)]);
    var ub := Dict(Plain, map["c" := Scalar(2)]);
    var u := Dict(Plain, map["b" := ub]);
    assert Mergeable(a, u);
    assert Merge(a, u).entries["b"] == MergedAt(a, u, "b") == Merge(Scalar(1), ub);
  }
}
