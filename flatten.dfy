/**
 * What `flatten_json` computes, stated without the accumulator.
 *
 * The traversal is described by the list of its leaves: every scalar it
 * reaches, paired with the flattened key it is recorded under, in depth-first
 * encounter order. The output is that list folded, from an empty map, with the
 * collision-merge rule of `insert_value` (`Record`).
 */
module Flatten {
  import opened Wrappers
  import opened Json

  /** A scalar reached by the traversal, with the key it is recorded under. */
  type Leaf = (string, Value)

  /** Every leaf holds a scalar. */
  predicate AllScalar(leaves: seq<Leaf>) {
    forall i :: 0 <= i < |leaves| ==> IsScalar(leaves[i].1)
  }

  /**
   * The key of a member: the key alone at the top level, else the prefix, a
   * dot and the key, one character longer than the two together.
   */
  function JoinKey(baseKey: Option<string>, key: string): (r: string)
    ensures baseKey.None? ==> r == key
    ensures baseKey.Some? ==> |r| == |baseKey.value| + 1 + |key|
  {
    match baseKey
    case None => key
    case Some(prefix) => prefix + "." + key
  }

  /**
   * The member's own key always ends a joined key, and under a prefix the
   * joined key starts with the prefix followed by the dot.
   */
  lemma JoinKeyParts(baseKey: Option<string>, key: string)
    ensures var r := JoinKey(baseKey, key);
      |key| <= |r| && r[|r| - |key|..] == key
    ensures baseKey.Some? ==>
      var r := JoinKey(baseKey, key);
      r[..|baseKey.value|] == baseKey.value && r[|baseKey.value|] == '.'
  {
  }

  // ---------------------------------------------------------------------------
  // The traversal
  // ---------------------------------------------------------------------------

  /**
   * The leaves of a value found at `path`: an array is traversed at the same
   * path, an object extends the path with its keys, a scalar is one leaf.
   * Only scalars are ever recorded.
   */
  function NodeLeaves(path: string, v: Value): (r: seq<Leaf>)
    ensures AllScalar(r)
    decreases v
  {
    match v
    case Array(items) => ItemLeaves(path, items)
    case Object(members) => MemberLeaves(Some(path), members)
    case _ => [(path, v)]
  }

  /** The leaves of the elements of an array found at `path`, element by element. */
  function ItemLeaves(path: string, items: seq<Value>): (r: seq<Leaf>)
    ensures AllScalar(r)
    decreases items
  {
    if items == [] then []
    else NodeLeaves(path, items[0]) + ItemLeaves(path, items[1..])
  }

  /** The leaves of the members of an object found under `baseKey`, member by member. */
  function MemberLeaves(baseKey: Option<string>, members: Members): (r: seq<Leaf>)
    ensures AllScalar(r)
    decreases members
  {
    if members == [] then []
    else
      var (key, value) := members[0];
      assert value < members[0];
      NodeLeaves(JoinKey(baseKey, key), value) + MemberLeaves(baseKey, members[1..])
  }

  // ---------------------------------------------------------------------------
  // The flat map and the collision-merge rule
  // ---------------------------------------------------------------------------

  /** What a flat map may hold: a bare scalar, or an array of at least two scalars. */
  predicate IsFlatValue(v: Value) {
    IsScalar(v) || (v.Array? && |v.items| >= 2 && forall i :: 0 <= i < |v.items| ==> IsScalar(v.items[i]))
  }

  predicate IsFlatMap(m: map<string, Value>) {
    forall k :: k in m ==> IsFlatValue(m[k])
  }

  /** The scalars held at `key`, in order: none when absent, the bare value, or the array's items. */
  function ValuesAt(m: map<string, Value>, key: string): seq<Value> {
    if key !in m then []
    else
      match m[key]
      case Array(items) => items
      case _ => [m[key]]
  }

  /** How a flat map holds one or more scalars: the bare scalar, or the array of them. */
  function Packed(values: seq<Value>): Value
    requires |values| >= 1
  {
    if |values| == 1 then values[0] else Array(values)
  }

  /**
   * The collision-merge rule: an absent key gets the bare value, an array
   * held at the key is extended, and a value held at the key is promoted to a
   * pair of the old and the new value.
   */
  function Record(m: map<string, Value>, key: string, x: Value): (r: map<string, Value>)
    ensures r.Keys == m.Keys + {key}
    ensures forall k :: k in m && k != key ==> r[k] == m[k]
  {
    if key in m then
      match m[key]
      case Array(items) => m[key := Array(items + [x])]
      case _ => m[key := Array([m[key], x])]
    else
      m[key := x]
  }

  /**
   * Recording a scalar at `key` adds `key` to the keys, appends the scalar
   * to the ones held there, and leaves every other key as it was.
   */
  lemma RecordValues(m: map<string, Value>, key: string, x: Value)
    requires IsScalar(x)
    ensures Record(m, key, x).Keys == m.Keys + {key}
    ensures ValuesAt(Record(m, key, x), key) == ValuesAt(m, key) + [x]
    ensures forall k :: k != key ==> k in m ==> Record(m, key, x)[k] == m[k]
  {
  }

  /** Recording a scalar changes the scalars held at its own key only. */
  lemma RecordValuesAt(m: map<string, Value>, k: string, x: Value, key: string)
    requires IsScalar(x)
    ensures k == key ==> ValuesAt(Record(m, k, x), key) == ValuesAt(m, key) + [x]
    ensures k != key ==> ValuesAt(Record(m, k, x), key) == ValuesAt(m, key)
  {
    if k == key {
      RecordValues(m, k, x);
    } else {
      assert ValuesAt(Record(m, k, x), key) == ValuesAt(m, key);
    }
  }

  /** Recording a scalar into a flat map keeps it flat. */
  lemma RecordKeepsFlat(m: map<string, Value>, key: string, x: Value)
    requires IsFlatMap(m) && IsScalar(x)
    ensures IsFlatMap(Record(m, key, x))
  {
  }

  /** The keys at which some leaf is recorded. */
  function Paths(leaves: seq<Leaf>): set<string> {
    set i | 0 <= i < |leaves| :: leaves[i].0
  }

  lemma PathsCons(leaves: seq<Leaf>)
    requires leaves != []
    ensures Paths(leaves) == {leaves[0].0} + Paths(leaves[1..])
  {
    assert forall i :: 1 <= i < |leaves| ==> leaves[1..][i - 1] == leaves[i];
  }

  /** The scalars recorded at `key`, in encounter order. */
  function ScalarsAt(leaves: seq<Leaf>, key: string): seq<Value> {
    if leaves == [] then []
    else (if leaves[0].0 == key then [leaves[0].1] else []) + ScalarsAt(leaves[1..], key)
  }

  /** The leaves recorded one after the other into `m`. */
  function Merge(m: map<string, Value>, leaves: seq<Leaf>): (r: map<string, Value>)
    ensures m.Keys <= r.Keys
    ensures forall i :: 0 <= i < |leaves| ==> leaves[i].0 in r
    decreases |leaves|
  {
    if leaves == [] then m
    else Merge(Record(m, leaves[0].0, leaves[0].1), leaves[1..])
  }

  /**
   * The flattening of an object: its leaves recorded into an empty map. It is
   * flat, and its keys are exactly the paths of the leaves.
   */
  function Flattened(json: Members): (r: map<string, Value>)
    ensures IsFlatMap(r)
    ensures r.Keys == Paths(MemberLeaves(None, json))
  {
    var leaves := MemberLeaves(None, json);
    MergeKeepsFlat(map[], leaves);
    MergeKeys(map[], leaves);
    Merge(map[], leaves)
  }

  // ---------------------------------------------------------------------------
  // Merging
  // ---------------------------------------------------------------------------

  /** Recording two runs of leaves is recording the first run and then the second. */
  lemma {:induction false} MergeAppend(m: map<string, Value>, a: seq<Leaf>, b: seq<Leaf>)
    ensures Merge(m, a + b) == Merge(Merge(m, a), b)
    decreases |a|
  {
    if a == [] {
      assert a + b == b;
    } else {
      assert (a + b)[1..] == a[1..] + b;
      MergeAppend(Record(m, a[0].0, a[0].1), a[1..], b);
    }
  }

  /** The scalars at a key after merging are those held before, then the leaves' ones in order. */
  lemma {:induction false} MergeValues(m: map<string, Value>, leaves: seq<Leaf>, key: string)
    requires AllScalar(leaves)
    ensures ValuesAt(Merge(m, leaves), key) == ValuesAt(m, key) + ScalarsAt(leaves, key)
    decreases |leaves|
  {
    if leaves != [] {
      var (k, x) := leaves[0];
      var r := Record(m, k, x);
      assert Merge(m, leaves) == Merge(r, leaves[1..]);
      MergeValues(r, leaves[1..], key);
      RecordValuesAt(m, k, x, key);
      if k == key {
        assert ScalarsAt(leaves, key) == [x] + ScalarsAt(leaves[1..], key);
      } else {
        assert ScalarsAt(leaves, key) == ScalarsAt(leaves[1..], key);
      }
    }
  }

  /** Merging adds exactly the leaves' paths to the keys. */
  lemma {:induction false} MergeKeys(m: map<string, Value>, leaves: seq<Leaf>)
    ensures Merge(m, leaves).Keys == m.Keys + Paths(leaves)
    decreases |leaves|
  {
    if leaves != [] {
      MergeKeys(Record(m, leaves[0].0, leaves[0].1), leaves[1..]);
      PathsCons(leaves);
    }
  }

  /** Merging scalars into a flat map keeps it flat. */
  lemma {:induction false} MergeKeepsFlat(m: map<string, Value>, leaves: seq<Leaf>)
    requires IsFlatMap(m) && AllScalar(leaves)
    ensures IsFlatMap(Merge(m, leaves))
    decreases |leaves|
  {
    if leaves != [] {
      RecordKeepsFlat(m, leaves[0].0, leaves[0].1);
      MergeKeepsFlat(Record(m, leaves[0].0, leaves[0].1), leaves[1..]);
    }
  }

  // ---------------------------------------------------------------------------
  // Counting scalars
  // ---------------------------------------------------------------------------

  /** The positions of the scalars a flat map holds: one per bare value, one per array item. */
  ghost function Slots(m: map<string, Value>): set<(string, nat)> {
    set k, i: nat | k in m && i < |ValuesAt(m, k)| :: (k, i)
  }

  /** The number of scalars a flat map holds. */
  ghost function Total(m: map<string, Value>): nat {
    |Slots(m)|
  }

  /** Recording a scalar adds exactly one scalar to the map. */
  lemma RecordTotal(m: map<string, Value>, key: string, x: Value)
    requires IsScalar(x)
    ensures Total(Record(m, key, x)) == Total(m) + 1
  {
    var r := Record(m, key, x);
    var slot := (key, |ValuesAt(m, key)|);
    forall k | k != key ensures ValuesAt(r, k) == ValuesAt(m, k) {
      RecordValuesAt(m, key, x, k);
    }
    RecordValuesAt(m, key, x, key);
    assert slot !in Slots(m);
    assert Slots(r) <= Slots(m) + {slot};
    assert Slots(m) + {slot} <= Slots(r);
    assert Slots(r) == Slots(m) + {slot};
  }

  /** Merging leaves adds one scalar per leaf. */
  lemma {:induction false} MergeTotal(m: map<string, Value>, leaves: seq<Leaf>)
    requires AllScalar(leaves)
    ensures Total(Merge(m, leaves)) == Total(m) + |leaves|
    decreases |leaves|
  {
    if leaves != [] {
      RecordTotal(m, leaves[0].0, leaves[0].1);
      MergeTotal(Record(m, leaves[0].0, leaves[0].1), leaves[1..]);
    }
  }

  /** The scalars of a value, at any depth of nesting. */
  function CountScalars(v: Value): nat
    decreases v
  {
    match v
    case Array(items) => CountItems(items)
    case Object(members) => CountMembers(members)
    case _ => 1
  }

  function CountItems(items: seq<Value>): nat
    decreases items
  {
    if items == [] then 0 else CountScalars(items[0]) + CountItems(items[1..])
  }

  function CountMembers(members: Members): nat
    decreases members
  {
    if members == [] then 0
    else
      assert members[0].1 < members[0];
      CountScalars(members[0].1) + CountMembers(members[1..])
  }

  /** The traversal reaches every scalar exactly once, wherever it starts. */
  lemma {:induction false} NodeLeavesCount(path: string, v: Value)
    ensures |NodeLeaves(path, v)| == CountScalars(v)
    decreases v
  {
    match v
    case Array(items) => ItemLeavesCount(path, items);
    case Object(members) => MemberLeavesCount(Some(path), members);
    case _ =>
  }

  lemma {:induction false} ItemLeavesCount(path: string, items: seq<Value>)
    ensures |ItemLeaves(path, items)| == CountItems(items)
    decreases items
  {
    if items != [] {
      NodeLeavesCount(path, items[0]);
      ItemLeavesCount(path, items[1..]);
    }
  }

  lemma {:induction false} MemberLeavesCount(baseKey: Option<string>, members: Members)
    ensures |MemberLeaves(baseKey, members)| == CountMembers(members)
    decreases members
  {
    if members != [] {
      var (key, value) := members[0];
      assert value < members[0];
      NodeLeavesCount(JoinKey(baseKey, key), value);
      MemberLeavesCount(baseKey, members[1..]);
    }
  }

  // ---------------------------------------------------------------------------
  // What the flattening is
  // ---------------------------------------------------------------------------

  /**
   * The flattening is a flat map whose keys are exactly the paths at which
   * some scalar occurs, which holds at each key the scalars found there in
   * depth-first encounter order, and which holds as many scalars as the input.
   */
  lemma FlattenedIsMerge(json: Members)
    ensures var r, leaves := Flattened(json), MemberLeaves(None, json);
      && IsFlatMap(r)
      && r.Keys == Paths(leaves)
      && (forall k :: ValuesAt(r, k) == ScalarsAt(leaves, k))
      && Total(r) == CountMembers(json)
  {
    var leaves := MemberLeaves(None, json);
    MergeKeys(map[], leaves);
    MergeKeepsFlat(map[], leaves);
    forall k ensures ValuesAt(Flattened(json), k) == ScalarsAt(leaves, k) {
      MergeValues(map[], leaves, k);
    }
    MergeTotal(map[], leaves);
    MemberLeavesCount(None, json);
  }

  /** A flat map is determined by the scalars it holds at each key. */
  lemma FlatMapsEqual(m1: map<string, Value>, m2: map<string, Value>)
    requires IsFlatMap(m1) && IsFlatMap(m2)
    requires forall k :: ValuesAt(m1, k) == ValuesAt(m2, k)
    ensures m1 == m2
  {
    forall k | k in m1 || k in m2 ensures k in m1 && k in m2 && m1[k] == m2[k] {
      var v1, v2 := ValuesAt(m1, k), ValuesAt(m2, k);
      assert v1 == v2;
    }
  }

  // ---------------------------------------------------------------------------
  // Paths: keys nested under a key, arrays that add no key
  // ---------------------------------------------------------------------------

  /** The leaves with `prefix` and a dot put in front of every key. */
  function Prefixed(prefix: string, leaves: seq<Leaf>): seq<Leaf> {
    seq(|leaves|, i requires 0 <= i < |leaves| => (prefix + "." + leaves[i].0, leaves[i].1))
  }

  /** The base key that members get when the object holding them sits under `prefix`. */
  function Under(prefix: string, baseKey: Option<string>): Option<string> {
    match baseKey
    case None => Some(prefix)
    case Some(b) => Some(prefix + "." + b)
  }

  lemma PrefixedAppend(prefix: string, a: seq<Leaf>, b: seq<Leaf>)
    ensures Prefixed(prefix, a + b) == Prefixed(prefix, a) + Prefixed(prefix, b)
  {
  }

  /** A value found at `prefix.path` yields the leaves it yields at `path`, behind `prefix`. */
  lemma {:induction false} NodeLeavesUnder(prefix: string, path: string, v: Value)
    ensures NodeLeaves(prefix + "." + path, v) == Prefixed(prefix, NodeLeaves(path, v))
    decreases v
  {
    match v
    case Array(items) => ItemLeavesUnder(prefix, path, items);
    case Object(members) => MemberLeavesUnder(prefix, Some(path), members);
    case _ =>
  }

  lemma {:induction false} ItemLeavesUnder(prefix: string, path: string, items: seq<Value>)
    ensures ItemLeaves(prefix + "." + path, items) == Prefixed(prefix, ItemLeaves(path, items))
    decreases items
  {
    if items != [] {
      NodeLeavesUnder(prefix, path, items[0]);
      ItemLeavesUnder(prefix, path, items[1..]);
      PrefixedAppend(prefix, NodeLeaves(path, items[0]), ItemLeaves(path, items[1..]));
    }
  }

  lemma {:induction false} MemberLeavesUnder(prefix: string, baseKey: Option<string>, members: Members)
    ensures MemberLeaves(Under(prefix, baseKey), members) == Prefixed(prefix, MemberLeaves(baseKey, members))
    decreases members
  {
    if members != [] {
      var (key, value) := members[0];
      assert value < members[0];
      var path := JoinKey(baseKey, key);
      assert JoinKey(Under(prefix, baseKey), key) == prefix + "." + path;
      NodeLeavesUnder(prefix, path, value);
      MemberLeavesUnder(prefix, baseKey, members[1..]);
      PrefixedAppend(prefix, NodeLeaves(path, value), MemberLeaves(baseKey, members[1..]));
    }
  }

  /** Different keys stay different behind the same prefix. */
  lemma PrefixInjective(prefix: string, a: string, b: string)
    ensures prefix + "." + a == prefix + "." + b <==> a == b
  {
    assert a == (prefix + "." + a)[|prefix| + 1..];
    assert b == (prefix + "." + b)[|prefix| + 1..];
  }

  /** The scalars at `prefix.key` among the prefixed leaves are those at `key` among the leaves. */
  lemma {:induction false} ScalarsAtPrefixed(prefix: string, leaves: seq<Leaf>, key: string)
    ensures ScalarsAt(Prefixed(prefix, leaves), prefix + "." + key) == ScalarsAt(leaves, key)
  {
    if leaves != [] {
      assert Prefixed(prefix, leaves)[1..] == Prefixed(prefix, leaves[1..]);
      ScalarsAtPrefixed(prefix, leaves[1..], key);
      PrefixInjective(prefix, leaves[0].0, key);
    }
  }

  lemma PathsPrefixed(prefix: string, leaves: seq<Leaf>)
    ensures Paths(Prefixed(prefix, leaves)) == set k | k in Paths(leaves) :: prefix + "." + k
  {
    var lhs, rhs := Paths(Prefixed(prefix, leaves)), set k | k in Paths(leaves) :: prefix + "." + k;
    forall p | p in lhs ensures p in rhs {
      var i :| 0 <= i < |leaves| && p == Prefixed(prefix, leaves)[i].0;
      assert leaves[i].0 in Paths(leaves);
    }
    forall p | p in rhs ensures p in lhs {
      var k :| k in Paths(leaves) && p == prefix + "." + k;
      var i :| 0 <= i < |leaves| && leaves[i].0 == k;
      assert Prefixed(prefix, leaves)[i].0 == p;
    }
  }

  /**
   * An object nested under `key` flattens to the object's own flattening with
   * `key` and a dot put in front of every key.
   */
  lemma FlattenedNested(key: string, inner: Members)
    ensures Flattened([(key, Object(inner))]).Keys == set k | k in Flattened(inner) :: key + "." + k
    ensures forall k :: ValuesAt(Flattened([(key, Object(inner))]), key + "." + k) == ValuesAt(Flattened(inner), k)
  {
    var json := [(key, Object(inner))];
    var leaves := MemberLeaves(None, inner);
    assert json[1..] == [];
    assert MemberLeaves(None, json) == MemberLeaves(Some(key), inner) + [];
    MemberLeavesUnder(key, None, inner);
    var outer := Prefixed(key, leaves);
    assert MemberLeaves(Some(key), inner) == outer;
    assert MemberLeaves(None, json) == outer;
    assert Flattened(json) == Merge(map[], outer);
    MergeKeys(map[], outer);
    MergeKeys(map[], leaves);
    PathsPrefixed(key, leaves);
    forall k ensures ValuesAt(Flattened(json), key + "." + k) == ValuesAt(Flattened(inner), k) {
      MergeValues(map[], outer, key + "." + k);
      MergeValues(map[], leaves, k);
      ScalarsAtPrefixed(key, leaves, k);
    }
  }

  /** The leaves of consecutive array elements are the leaves of each run in turn. */
  lemma {:induction false} ItemLeavesAppend(path: string, a: seq<Value>, b: seq<Value>)
    ensures ItemLeaves(path, a + b) == ItemLeaves(path, a) + ItemLeaves(path, b)
    decreases |a|
  {
    if a == [] {
      assert a + b == b;
    } else {
      assert (a + b)[1..] == a[1..] + b;
      ItemLeavesAppend(path, a[1..], b);
    }
  }

  /** The leaves of consecutive members are the leaves of each run in turn. */
  lemma {:induction false} MemberLeavesAppend(baseKey: Option<string>, a: Members, b: Members)
    ensures MemberLeaves(baseKey, a + b) == MemberLeaves(baseKey, a) + MemberLeaves(baseKey, b)
    decreases |a|
  {
    if a == [] {
      assert a + b == b;
    } else {
      assert (a + b)[1..] == a[1..] + b;
      MemberLeavesAppend(baseKey, a[1..], b);
    }
  }

  /** An array nested in an array adds nothing: its elements are taken as if spliced in. */
  lemma NestedArrayTransparent(path: string, a: seq<Value>, inner: seq<Value>, c: seq<Value>)
    ensures NodeLeaves(path, Array(a + [Array(inner)] + c)) == NodeLeaves(path, Array(a + inner + c))
  {
    ItemLeavesAppend(path, a + [Array(inner)], c);
    ItemLeavesAppend(path, a, [Array(inner)]);
    assert ItemLeaves(path, [Array(inner)]) == ItemLeaves(path, inner) + [];
    ItemLeavesAppend(path, a + inner, c);
    ItemLeavesAppend(path, a, inner);
  }

  /** The same, for the array held by a member anywhere in the input object. */
  lemma FlattenedNestedArray(before: Members, key: string, a: seq<Value>, inner: seq<Value>, c: seq<Value>, after: Members)
    ensures Flattened(before + [(key, Array(a + [Array(inner)] + c))] + after)
         == Flattened(before + [(key, Array(a + inner + c))] + after)
  {
    var nested, spliced := (key, Array(a + [Array(inner)] + c)), (key, Array(a + inner + c));
    MemberLeavesAppend(None, before + [nested], after);
    MemberLeavesAppend(None, before, [nested]);
    MemberLeavesAppend(None, before + [spliced], after);
    MemberLeavesAppend(None, before, [spliced]);
    NestedArrayTransparent(key, a, inner, c);
    assert MemberLeaves(None, [nested]) == NodeLeaves(key, nested.1) + [];
    assert MemberLeaves(None, [spliced]) == NodeLeaves(key, spliced.1) + [];
  }

  /** The leaves `key` gets from a run of scalars: each scalar at `key`, in order. */
  function Run(key: string, items: seq<Value>): seq<Leaf> {
    seq(|items|, i requires 0 <= i < |items| => (key, items[i]))
  }

  /** Scalar elements of an array are recorded at the array's own path. */
  lemma {:induction false} ScalarItemLeaves(path: string, items: seq<Value>)
    requires forall i :: 0 <= i < |items| ==> IsScalar(items[i])
    ensures ItemLeaves(path, items) == Run(path, items)
  {
    if items != [] {
      ScalarItemLeaves(path, items[1..]);
      assert Run(path, items) == [(path, items[0])] + Run(path, items[1..]);
    }
  }

  // ---------------------------------------------------------------------------
  // Input that is already flat
  // ---------------------------------------------------------------------------

  /** A run of scalars recorded at a key holding a flat value joins the scalars held there. */
  lemma {:induction false} MergeRunOnto(m: map<string, Value>, key: string, items: seq<Value>)
    requires key in m && IsFlatValue(m[key])
    requires forall i :: 0 <= i < |items| ==> IsScalar(items[i])
    ensures Merge(m, Run(key, items)) == m[key := Packed(ValuesAt(m, key) + items)]
    decreases |items|
  {
    var run := Run(key, items);
    if items == [] {
      assert ValuesAt(m, key) + items == ValuesAt(m, key);
      assert m[key := m[key]] == m;
    } else {
      var m' := Record(m, key, items[0]);
      RecordValuesAt(m, key, items[0], key);
      assert run[1..] == Run(key, items[1..]);
      MergeRunOnto(m', key, items[1..]);
      assert ValuesAt(m', key) + items[1..] == ValuesAt(m, key) + items;
      assert m'[key := Packed(ValuesAt(m, key) + items)] == m[key := Packed(ValuesAt(m, key) + items)];
    }
  }

  /**
   * A run of at least one scalar recorded at a fresh key leaves the bare
   * scalar when there is one, and the array of them otherwise.
   */
  lemma MergeRun(m: map<string, Value>, key: string, items: seq<Value>)
    requires key !in m && |items| >= 1
    requires forall i :: 0 <= i < |items| ==> IsScalar(items[i])
    ensures Merge(m, Run(key, items)) == m[key := Packed(items)]
  {
    var m' := m[key := items[0]];
    assert Run(key, items)[1..] == Run(key, items[1..]);
    MergeRunOnto(m', key, items[1..]);
    assert [items[0]] + items[1..] == items;
    assert m'[key := Packed(items)] == m[key := Packed(items)];
  }

  /** An object whose members all hold flat values, under distinct keys. */
  predicate IsFlatObject(json: Members) {
    UniqueKeys(json) && forall i :: 0 <= i < |json| ==> IsFlatValue(json[i].1)
  }

  /** A flat value recorded at a fresh key is held there as it is. */
  lemma MergeFlatValue(m: map<string, Value>, key: string, value: Value)
    requires key !in m && IsFlatValue(value)
    ensures Merge(m, NodeLeaves(key, value)) == m[key := value]
  {
    if IsScalar(value) {
      assert NodeLeaves(key, value) == [(key, value)];
      assert Merge(m, [(key, value)]) == Merge(m[key := value], []);
    } else {
      ScalarItemLeaves(key, value.items);
      MergeRun(m, key, value.items);
      assert Packed(value.items) == value;
    }
  }

  /** After its first member is added to `m`, the rest of a flat object is a flat object with fresh keys. */
  lemma FlatObjectTail(m: map<string, Value>, json: Members)
    requires json != [] && IsFlatObject(json)
    requires forall i :: 0 <= i < |json| ==> json[i].0 !in m
    ensures IsFlatObject(json[1..])
    ensures forall i :: 0 <= i < |json| - 1 ==> json[1..][i].0 !in m[json[0].0 := json[0].1]
  {
    var rest := json[1..];
    assert forall i :: 0 <= i < |rest| ==> rest[i] == json[i + 1];
  }

  lemma UnionStep(m: map<string, Value>, key: string, value: Value, t: map<string, Value>)
    ensures m + (map[key := value] + t) == m[key := value] + t
  {
  }

  /** Merging the members of a flat object, none of whose keys is in `m`, adds them as they are. */
  lemma {:induction false} MergeFlatMembers(m: map<string, Value>, json: Members)
    requires IsFlatObject(json)
    requires forall i :: 0 <= i < |json| ==> json[i].0 !in m
    ensures Merge(m, MemberLeaves(None, json)) == m + ToMap(json)
    decreases |json|
  {
    if json != [] {
      var (key, value) := json[0];
      var rest := json[1..];
      var head, tail := NodeLeaves(key, value), MemberLeaves(None, rest);
      assert MemberLeaves(None, json) == head + tail;
      MergeAppend(m, head, tail);
      var m' := m[key := value];
      MergeFlatValue(m, key, value);
      FlatObjectTail(m, json);
      MergeFlatMembers(m', rest);
      assert ToMap(json) == map[key := value] + ToMap(rest);
      UnionStep(m, key, value, ToMap(rest));
    }
  }

  /**
   * Input that is already flat is returned unchanged: each bare scalar and
   * each array of at least two scalars stays where it is.
   */
  lemma FlattenFlatObject(json: Members)
    requires IsFlatObject(json)
    ensures Flattened(json) == ToMap(json)
  {
    MergeFlatMembers(map[], json);
  }

  /** A one-element array under a fresh key collapses to its bare scalar. */
  lemma SingletonArrayCollapses(key: string, x: Value)
    requires IsScalar(x)
    ensures Flattened([(key, Array([x]))]) == map[key := x]
  {
    var json := [(key, Array([x]))];
    assert json[1..] == [] && [x][1..] == [];
    assert ItemLeaves(key, [x]) == [(key, x)];
    assert MemberLeaves(None, json) == [(key, x)];
    assert [(key, x)][1..] == [];
    assert Flattened(json) == Merge(Record(map[], key, x), []);
  }

  /**
   * Flattening is idempotent: any object listing the entries of a flattening,
   * under distinct keys, flattens back to that same map.
   */
  lemma Idempotent(json: Members, listing: Members)
    requires UniqueKeys(listing) && ToMap(listing) == Flattened(json)
    ensures Flattened(listing) == Flattened(json)
  {
    FlattenedIsMerge(json);
    forall i | 0 <= i < |listing| ensures IsFlatValue(listing[i].1) {
      ToMapAt(listing, i);
    }
    FlattenFlatObject(listing);
  }
}
