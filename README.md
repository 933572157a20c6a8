# rospeek JSON flattener, in Dafny

rospeek flattens a JSON object into a single-level map before presenting
it. `flatten_json` (in `crates/rospeek-core/src/utility.rs`) walks the object
depth first and writes each scalar it meets into one output map. The map is
threaded by mutable reference through three helpers:

- `insert_object` joins every member's key to the enclosing key with a dot.
- `insert_array` visits the elements at the array's own key, so arrays never
  add to a key.
- `insert_value` applies the collision-merge rule:
  - an absent key gets the bare scalar;
  - an array already at the key gets the scalar appended;
  - any other value at the key is replaced by the pair `[old, new]`.

The project has four modules:

- `Json` (`json.dfy`) is the JSON tree, shaped after serde_json's `Value`.
  An object is its members, in the order the input map yields them.
- `Flatten` (`flatten.dfy`) is the specification, stated without the
  accumulator. The traversal is the list of its leaves: each scalar it
  reaches, with the key it is recorded under, in depth-first order. The
  output, `Flattened`, is that list folded from an empty map with the
  collision-merge rule `Record`. The properties of the flattening are
  lemmas about it.
- `Utility` (`utility.dfy`) is the code as it runs. The mutable output map
  is the class `JsonMap`. `InsertObject`, `InsertArray` and `InsertValue`
  are methods that update it in place, with loops over the members and
  elements. Each method is proved to compute the specification.
- `UtilityTests` (`utility_tests.dfy`) holds the unit-test vectors of
  `utility.rs`. Each is proved for every choice of keys and scalars of its
  shape, then at the vector's own keys and values.

## Model

| member | source | states |
|---|---|---|
| Utility.FlattenJson | crates/rospeek-core/src/utility.rs:5-9 | Always `Ok`, never an error. The map returned is the flattening of the input, built from an empty map, and it is flat: each value is a bare scalar or an array of at least two scalars. |
| Utility.JsonMap.constructor | crates/rospeek-core/src/utility.rs:6 | The output map starts empty. |
| Utility.InsertObject | crates/rospeek-core/src/utility.rs:11-27 | Visits the members in order. Each key is joined to the base key (or stands alone when there is none), and arrays, objects and scalars are dispatched. The new map is the old one with the members' leaves merged in, in order. |
| Utility.InsertArray | crates/rospeek-core/src/utility.rs:29-39 | Visits the elements in order, all at the array's own key. The new map is the old one with the elements' leaves merged in, in order. |
| Utility.InsertValue | crates/rospeek-core/src/utility.rs:41-51 | An absent key gets the bare value. An array at the key gets the value appended at its end. Any other value at the key becomes the pair of old and new. No other key changes. |
| Flatten.JoinKey | crates/rospeek-core/src/utility.rs:17 | Defines a member's flattened key: the key alone at the top level, and otherwise the base key, a dot and the key, which is one character longer than the two together. Its parts are stated by `JoinKeyParts`. |
| Flatten.JoinKeyParts | crates/rospeek-core/src/utility.rs:17 | A joined key always ends with the member's own key. Under a base key, it starts with the base key followed by a dot. |
| Flatten.Record | crates/rospeek-core/src/utility.rs:41-51 | Defines the collision-merge rule of `insert_value` on values. The key is added and no other key changes. What happens at the key is stated by `RecordValues` and `RecordValuesAt`. |
| Flatten.RecordValuesAt | crates/rospeek-core/src/utility.rs:41-51 | Recording a scalar appends it to the scalars held at its own key, and leaves the scalars at every other key as they were. |
| Flatten.Merge | crates/rospeek-core/src/utility.rs:16-37 | Defines the one output map threaded through the two `for_each` loops (lines 16 and 30): leaves recorded one after the other. No key is ever removed, and every leaf's key ends up present. The rest is stated by `MergeValues`, `MergeKeys` and `MergeTotal`. |
| Flatten.Flattened | crates/rospeek-core/src/utility.rs:5-9 | Defines what `flatten_json` returns: the object's leaves recorded into an empty map. The result is flat, and its keys are exactly the paths of the leaves. The full characterisation is `FlattenedIsMerge`. |
| Flatten.NodeLeaves | crates/rospeek-core/src/utility.rs:19-25 | Every leaf of a value's traversal is a scalar: objects and arrays are always dispatched away, never recorded. |
| Flatten.ItemLeaves | crates/rospeek-core/src/utility.rs:31-37 | Every leaf of an array's traversal is a scalar. |
| Flatten.MemberLeaves | crates/rospeek-core/src/utility.rs:16-26 | Every leaf of an object's traversal is a scalar. |
| Flatten.RecordValues | crates/rospeek-core/src/utility.rs:41-51 | Recording a scalar adds its key, appends the scalar to the scalars already held at that key, and leaves every other key untouched. |
| Flatten.RecordKeepsFlat | crates/rospeek-core/src/utility.rs:41-51 | Recording a scalar into a flat map keeps it flat. |
| Flatten.MergeAppend | crates/rospeek-core/src/utility.rs:16 | Merging two leaf lists one after the other is merging their concatenation. The accumulator can be threaded through the calls. |
| Flatten.MergeValues | crates/rospeek-core/src/utility.rs:16-51 | After merging, the scalars held at any key are the ones held before, followed by that key's leaves in encounter order. |
| Flatten.MergeKeys | crates/rospeek-core/src/utility.rs:42-50 | After merging, the keys are the old keys plus exactly the paths of the leaves. |
| Flatten.MergeKeepsFlat | crates/rospeek-core/src/utility.rs:41-51 | Merging scalar leaves into a flat map keeps it flat. |
| Flatten.RecordTotal | crates/rospeek-core/src/utility.rs:41-51 | Each record adds exactly one scalar to the map's total. |
| Flatten.MergeTotal | crates/rospeek-core/src/utility.rs:16-51 | Merging adds exactly one scalar per leaf to the total. |
| Flatten.NodeLeavesCount | crates/rospeek-core/src/utility.rs:19-25 | A value's traversal has one leaf per scalar in it, at any depth. Empty arrays and objects contribute none. |
| Flatten.ItemLeavesCount | crates/rospeek-core/src/utility.rs:30-38 | An array's traversal has one leaf per scalar in its elements. |
| Flatten.MemberLeavesCount | crates/rospeek-core/src/utility.rs:16-26 | An object's traversal has one leaf per scalar in its members. |
| Flatten.FlattenedIsMerge | crates/rospeek-core/src/utility.rs:5-51 | The flattening is flat, and its keys are exactly the paths at which a scalar occurs. At each key it holds that key's scalars in depth-first encounter order. In total it holds as many scalars as the input has. |
| Flatten.FlatMapsEqual | crates/rospeek-core/src/utility.rs:41-51 | A flat map is determined by the scalars it holds at each key. |
| Flatten.PrefixInjective | crates/rospeek-core/src/utility.rs:17 | Under one prefix, two joined keys are equal exactly when the member keys are. |
| Flatten.NodeLeavesUnder | crates/rospeek-core/src/utility.rs:17-22 | Traversing a value below `prefix.path` gives the leaves of traversing it at `path`, each key prefixed with `prefix.`. |
| Flatten.ItemLeavesUnder | crates/rospeek-core/src/utility.rs:29-38 | The same for the elements of an array. |
| Flatten.MemberLeavesUnder | crates/rospeek-core/src/utility.rs:16-22 | The same for the members of an object: at the top level (no base key), the base key becomes `prefix`. |
| Flatten.ScalarsAtPrefixed | crates/rospeek-core/src/utility.rs:17 | Prefixing every leaf keeps the scalars recorded at each key, under the prefixed key. |
| Flatten.PathsPrefixed | crates/rospeek-core/src/utility.rs:17 | Prefixing every leaf prefixes every path, and nothing else. |
| Flatten.FlattenedNested | crates/rospeek-core/src/utility.rs:17-22 | Flattening a single member that holds an object yields the inner object's flattening, with each key written `key.inner`, and nothing else. |
| Flatten.ItemLeavesAppend | crates/rospeek-core/src/utility.rs:30 | The leaves of two element lists, one after the other, are those of their concatenation. |
| Flatten.MemberLeavesAppend | crates/rospeek-core/src/utility.rs:16 | The leaves of two member lists, one after the other, are those of their concatenation. |
| Flatten.NestedArrayTransparent | crates/rospeek-core/src/utility.rs:33-34 | An array nested in an array contributes exactly what its elements would if spliced into the outer array. |
| Flatten.FlattenedNestedArray | crates/rospeek-core/src/utility.rs:29-38 | The same holds for the array held by any member of the input: splicing the nested array in leaves the flattening unchanged. |
| Flatten.ScalarItemLeaves | crates/rospeek-core/src/utility.rs:35-36 | An array of scalars yields each scalar at the array's key, in order. |
| Flatten.MergeRunOnto | crates/rospeek-core/src/utility.rs:42-47 | Scalars recorded at a key that already holds a flat value join it, in order. |
| Flatten.MergeRun | crates/rospeek-core/src/utility.rs:41-51 | One or more scalars recorded at a fresh key leave the bare scalar when there is one, and the array of all of them otherwise. |
| Flatten.MergeFlatValue | crates/rospeek-core/src/utility.rs:41-51 | A flat value placed at a fresh key is held there unchanged. |
| Flatten.MergeFlatMembers | crates/rospeek-core/src/utility.rs:16-26 | Members that hold flat values under keys that are all fresh are added to the map as they are. |
| Flatten.FlattenFlatObject | crates/rospeek-core/src/utility.rs:57-79 | Already-flat input comes back unchanged: an object with distinct keys, holding scalars and arrays of at least two scalars, flattens to itself. |
| Flatten.SingletonArrayCollapses | crates/rospeek-core/src/utility.rs:170-193 | A one-element array of a scalar, under a fresh key, collapses to the bare scalar. |
| Flatten.Idempotent | crates/rospeek-core/src/utility.rs:5-51 | Flattening is idempotent: an object listing the entries of a flattening, under distinct keys, flattens back to the same map. |
| Json.ToMap | crates/rospeek-core/src/utility.rs:78 | The map of an object's members has exactly the members' keys. |
| Json.ToMapAt | crates/rospeek-core/src/utility.rs:78 | With distinct keys, every member can be found in that map under its key. |
| UtilityTests.NoFlattening | crates/rospeek-core/src/utility.rs:57-79 | The test's flat object flattens to itself. |
| UtilityTests.FlattenObjectShape | crates/rospeek-core/src/utility.rs:81-103 | For any keys and scalars of this shape, the nested object's members come out as `a.b`, `a.d` and `a.f`, when `b`, `d` and `f` are distinct. |
| UtilityTests.FlattenObject | crates/rospeek-core/src/utility.rs:81-103 | The test's own vector: `{"a.b": "c", "a.d": "e", "a.f": "g"}`. |
| UtilityTests.FlattenArrayShape | crates/rospeek-core/src/utility.rs:105-124 | For any keys and scalars of this shape, three one-member objects in an array collect at `a.b` in order. |
| UtilityTests.FlattenArray | crates/rospeek-core/src/utility.rs:105-124 | The test's first vector: `{"a.b": ["c", "d", "e"]}`. |
| UtilityTests.FlattenArrayKeepsScalarShape | crates/rospeek-core/src/utility.rs:126-146 | For any keys and scalars of this shape, a scalar in the array stays at the array's own key `a`, next to the collected `a.b`. |
| UtilityTests.FlattenArrayKeepsScalar | crates/rospeek-core/src/utility.rs:126-146 | The test's second vector: `{"a": 42, "a.b": ["c", "d", "e"]}`. |
| UtilityTests.CollisionWithObjectShape | crates/rospeek-core/src/utility.rs:149-168 | For any keys and scalars of this shape, the nested `a`.`b` scalar and the literal `a.b` member merge at `a.b`, the nested one first. |
| UtilityTests.CollisionWithObject | crates/rospeek-core/src/utility.rs:149-168 | The test's own vector: `{"a.b": ["c", "d"]}`. |
| UtilityTests.CollisionWithArrayShape | crates/rospeek-core/src/utility.rs:170-193 | For any keys and scalars of this shape, collisions across the array's objects and the literal `a.b` collect in order. The one-element array collapses to its scalar at `a`. |
| UtilityTests.CollisionWithArray | crates/rospeek-core/src/utility.rs:170-193 | The test's own vector: `{"a.b": ["c", "d", "f"], "a.c": "e", "a": 35}`. |
| UtilityTests.FlattenNestedArraysShape | crates/rospeek-core/src/utility.rs:195-222 | For any keys and scalars of this shape, the scalars of nested arrays collect at the outer key `a` in order, and the objects inside nested arrays contribute `a.d` and `a.h`. |
| UtilityTests.FlattenNestedArrays | crates/rospeek-core/src/utility.rs:195-222 | The test's own vector: `{"a": ["b", "c", "f", "g", "k", "l"], "a.d": ["e", "j"], "a.h": "i"}`. |
| UtilityTests.FlattenNestedArraysAndObjectsShape | crates/rospeek-core/src/utility.rs:224-255 | For any keys and scalars of this shape, arrays and objects nested several levels deep give `a`, `a.e`, `a.h` and `a.e.z`, each with its scalars in encounter order. |
| UtilityTests.FlattenNestedArraysAndObjects | crates/rospeek-core/src/utility.rs:224-255 | The test's own vector: `{"a": ["b", "c", "d", "l", "m"], "a.e": ["f", "g", "j"], "a.h": "i", "a.e.z": "y"}`. |

## Left out

- JSON text: parsing with serde_json, `to_string_pretty`, and the `println!` output in the tests. The vectors are stated directly as trees.
- Floating-point numbers: `Number` holds an integer. The flattener never inspects a scalar, so nothing depends on this.
- The iteration order of serde_json's `Map`. It is sorted by key by default and in insertion order under the `preserve_order` feature. An input object is a sequence of members, visited in sequence order, and each test vector lists its members in sorted key order. The output is a Dafny `map`, which has no order, as the tests compare maps by equality.
- The `RosPeekResult` error type: `flatten_json` has no error path, so only `Ok` is produced.
- Memory behaviour: the `clone` and `to_string` copies of keys and values.
- Key escaping: a member key that contains a dot is not escaped. Two different paths can therefore produce the same flattened key (as in `collision_with_object`). This is the source's own behaviour, so the model merges such keys too.
