# appending-dict in Dafny

A model of `appending.py`, a small library of two recursive dictionaries.

- **SetterDict** is a recursive `defaultdict`. Reading a missing key inserts a fresh empty
  dictionary of the receiver's own class, so `d["a"]["b"]["c"] = 1` works without creating
  the intermediate levels. Construction rebuilds every mapping nested through mappings with
  the same class; lists are kept as given, and mappings inside them keep their class.
- **AppendingDict** is a SetterDict whose item assignment accumulates:
  - a first write stores the value, deep-converting a foreign mapping;
  - a write over a value that is neither a list nor an AppendingDict turns it into the list
    `[old, new]`;
  - a write over a list appends to it, so further writes extend that list;
  - a mapping written over a sub-dictionary is merged into it, key by key, its leaves going
    through the same policy;
  - a non-mapping written over a sub-dictionary replaces it.

Files:

- `values.dfy` (module `Values`): the value tree. A value is `Scalar(int)`, `List(seq<Value>)`
  or `Dict(kind, map<string, Value>)`. `kind` is the runtime class of a mapping: `Plain` (a
  foreign `dict`), `Setter` or `Appending`. The write policy dispatches on it. `Erase` forgets
  it, as Python's `==` does.
- `appending.dfy` (module `Appending`):
  - the meaning of each operation as a function: `Convert`, `Child`/`Vivify`, `Accumulate`,
    `Assign`, `Merge`, `SetAt`;
  - the same operations step by step: `Build` and `MergeInto`, loops over the keys that
    recurse into nested mappings, as the source's loops do;
  - a class `SetterDict` holding a root dictionary, with methods that change it in place;
  - the invariant of AppendingDict: only AppendingDicts nest.
- `appending_laws.dfy` (module `AppendingLaws`): properties that relate operations.
- `scenarios.dfy` (module `Scenarios`): the cases of `test.py` and of the AppendingDict
  docstring, stated as client code of the class and as lemmas.

The source's two classes are one Dafny class, `SetterDict`, with a constant `kind`. Its
constructors are `SetterDict(value)` and `AppendingDict(value)`. AppendingDict differs from
SetterDict only in its class, which is also its vivification factory, and in
`__setitem__`; `SetItem` dispatches on `kind` as Python's method lookup does. Nested
dictionaries are values inside `entries`. A chain `d[p0]...[pn][key] = v` is therefore one
call, `SetItemAt(path, key, v)`. Attribute access `d.a.b = v` is the same chain.

Python raises in some cases. The model states each as a precondition:
- `merge` raises `TypeError` when a nested mapping meets a scalar or a list (`Mergeable`);
- a plain `dict` raises `KeyError` when a missing key is read from it (`Mergeable`, `PathOk`);
- a read through a scalar fails (`PathOk`).

A leaf whose target is not a mapping is dropped silently, as in the source.

Points where the library's intent could be read otherwise; the model follows the code:
- Plain `SetterDict` assignment stores a mapping unconverted. Conversion happens only in
  the constructor, because `__setitem__` is not overridden (appending.py:5-38).
- Keys are unordered, as Python 2 dicts are.
- Keys are not validated; the model types them as `string`.

## Model

| member | source | states |
|---|---|---|
| Values.Erase | test.py:12 | the value Python's `==` compares: same shape, same keys, every mapping's class forgotten |
| Appending.Convert | appending.py:25-29 | `factory(v)` keeps a mapping's keys and gives it class `k`; any other value is returned unchanged |
| Appending.Build | appending.py:25-29 | inserting the source's entries one by one, rebuilding nested mappings recursively, yields exactly `Convert` |
| Appending.SetterDict.constructor | appending.py:22-29 | `SetterDict(value)` holds the deep conversion of `value` to SetterDicts |
| Appending.SetterDict.AppendingDict | appending.py:72-73 | `AppendingDict(value)` holds the deep conversion to AppendingDicts and satisfies the nesting invariant |
| AppendingLaws.ConvertEqual | appending.py:22-29 | a constructed dictionary equals its source at every depth |
| Appending.ConvertAllOfKind | appending.py:26-27 | after construction, every mapping nested through mappings has the factory's class |
| AppendingLaws.ConvertFixesKind | appending.py:26-27 | converting a tree whose mappings already have the class changes nothing |
| AppendingLaws.ConvertIdempotent | appending.py:22-29 | constructing from a constructed dictionary gives the same dictionary |
| Appending.Child | appending.py:23-24 | `d[key]` is the present value, or a fresh empty mapping of `d`'s own class; reading from a tree whose mappings all have one class yields such a tree |
| Appending.Vivify | appending.py:23-24 | a read adds exactly the read key, bound to that child, and changes nothing when the key is present (so a second read sees the same child) |
| Appending.SetterDict.Get | appending.py:23-24 | a read vivifies as `Vivify` says and returns the value now at the key |
| Appending.SetterDict.Store | appending.py:82 | `SetterDict.__setitem__` binds the key to exactly the given value, unconverted, and leaves every other key alone; `SetItem` calls it where the source does |
| Appending.Accumulate | appending.py:77-93 | the value policy of `AppendingDict.__setitem__`: a first write stores anything but a foreign mapping as given and a foreign mapping as an AppendingDict with its keys; over an AppendingDict a non-mapping replaces it and a mapping is merged (union of keys, unmentioned keys kept); over a list exactly one element is appended; over anything else the result is `[old, new]` |
| Appending.AssignSlot | appending.py:47 | `d[k] = u[k]` is a plain overwrite on a dictionary that is not an AppendingDict and the accumulating policy on one; a leaf written this way never leaves a mapping at the key |
| Appending.MergedAt | appending.py:44-47 | one step of `merge`'s loop: a nested mapping is merged into the vivified child (keys become the union) or dropped when the child is not a mapping; a leaf goes through `d[k] = leaf` |
| Appending.Assign | appending.py:75-93 | `d[key] = v` binds `key` and leaves every other key unchanged |
| Appending.SetterDict.SetItem | appending.py:75-93 | `self[key] = v` applies `Assign` for the receiver's class and keeps the AppendingDict invariant |
| AppendingLaws.AssignAbsent | appending.py:88-93 | a first write adds exactly that key; anything but a foreign mapping is stored exactly as given, a foreign mapping as its deep conversion, which equals it and is an AppendingDict tree |
| AppendingLaws.AssignAppends | appending.py:83-84 | a write to a list appends exactly one element, the value as given, and keeps the earlier elements |
| AppendingLaws.AssignPromotes | appending.py:85-87 | a write to any other non-AppendingDict value yields `[old, new]` |
| AppendingLaws.AssignOverDict | appending.py:78-82 | over an AppendingDict a non-mapping replaces it; a mapping is merged, keeping the keys it does not mention |
| AppendingLaws.WriteAll | appending.py:56-62 | writing a scalar and then any values in turn to a new key leaves it holding the first value alone or the flat list of all of them |
| Appending.Merge | appending.py:41-47 | merging into a mapping keeps its class, its keys become the union, keys not in the source are untouched; a non-mapping target is returned unchanged |
| Appending.MergeInto | appending.py:41-47 | the key-by-key recursive loop computes exactly `Merge` |
| AppendingLaws.MergeIntoEmpty | appending.py:44-45 | merging into a fresh empty AppendingDict never fails and yields the deep conversion of the merged mapping |
| AppendingLaws.FirstWriteIsMerge | appending.py:89-91 | the first write of a mapping stores what merging it into an empty AppendingDict gives |
| AppendingLaws.MergeDisjoint | appending.py:41-47 | merging a mapping whose keys are all new is the union with its deep conversion |
| Appending.MergeKeepsKind | appending.py:41-47 | merging into an AppendingDict tree leaves an AppendingDict tree |
| Appending.AccumulateLeafNotDict | appending.py:83-93 | writing a non-mapping never leaves a mapping at the key |
| Appending.AssignKeepsKind | appending.py:88-93 | every write keeps every mapping held at a key of an AppendingDict an AppendingDict |
| Appending.Descend | appending.py:12-13 | a chain of reads along a valid path reaches a mapping |
| Appending.SetAt | appending.py:12-13 | a chained write adds the first path key (or the key) to the root and leaves every other root key unchanged |
| AppendingLaws.SetAtDescend | appending.py:12-13 | after a chained write every path key is present (`PathPresent`), so the path reads back; the dictionary at its end is the one the reads reached, assigned once, and holds the key |
| Appending.SetAtKeepsKind | appending.py:75-93 | a chained write keeps an AppendingDict tree one |
| Appending.SetterDict.SetItemAt | appending.py:12-13 | `self[p0]...[pn][key] = v` applies `SetAt` to the root and keeps the invariant |
| Scenarios.MergeKeepsSiblings | test.py:80-84 | merging `{"b": {"d": 2}}` into `{"b": {"c": 1}}` gives `{"b": {"c": 1, "d": 2}}` |
| Scenarios.MergeAccumulatesLeaf | appending.py:64-68 | merging `{"c": {"d": 4}}` into `{"c": {"d": 3}}` gives `{"c": {"d": [3, 4]}}` |
| Scenarios.MergeVivifiesEmpty | appending.py:44-45 | merging `{"x": {}}` into an empty AppendingDict vivifies `"x"` as an empty AppendingDict |
| Scenarios.MergeDropsLeafOnScalar | appending.py:46-47 | merging `{"b": {"c": 2}}` into `{"b": 1}` changes nothing |

## Left out

- Attribute access (`__setattr__`, `__getattr__`, appending.py:31-35): it only forwards to item access, so the scenarios use key paths.
- `__repr__` (appending.py:37-38): it renders through the external `json` library.
- Object identity and aliasing: a passed-in AppendingDict is stored by reference, and `append` mutates a caller's list in place. The model holds values, so a nested dictionary returned by `Get` is a copy, and sharing is not expressed.
- Exceptions: the `TypeError` and `KeyError` cases of `merge`, and a chained read through a scalar, are preconditions. The raising itself is not modelled.
- Scalars are `int`. The source never inspects scalars beyond `isinstance`, so any other scalar type behaves the same.
- The `factory` parameter of `SetterDict.__init__` is modelled only as used: SetterDicts build SetterDicts, AppendingDicts build AppendingDicts. A foreign factory is not modelled.
- Appending.SetterDict.SetItem: requires that an AppendingDict passed in already nests only AppendingDicts. Every AppendingDict built through this API does.
- Appending.SetterDict.SetItemAt: requires, as `SetItem` does, that an AppendingDict passed in already nests only AppendingDicts. Every AppendingDict built through this API does.
- Appending.SetterDict.Store: does not promise the AppendingDict invariant, since a plain overwrite on an AppendingDict may store a foreign mapping.
