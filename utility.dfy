/**
 * `flatten_json` and its three helpers as the Rust code runs them: one
 * mutable output map threaded by reference through the mutual recursion of
 * `insert_object` and `insert_array`, with `insert_value` updating it in
 * place. Each method is proved to compute the specification in `Flatten`.
 */
module Utility {
  import opened Wrappers
  import opened Json
  import opened Flatten

  /** The mutable `Map<String, Value>` the helpers write into. */
  class JsonMap {
    var entries: map<string, Value>

    constructor ()
      ensures entries == map[]
    {
      entries := map[];
    }
  }

  /**
   * Flattens an object into a single-level map. There is no error path: the
   * result is always `Ok` of the flattening of `json` from an empty map.
   */
  method FlattenJson(json: Members) returns (r: Result<map<string, Value>>)
    ensures r.Ok? && r.value == Flattened(json)
    ensures IsFlatMap(r.value)
  {
    var output := new JsonMap();
    InsertObject(output, None, json);
    FlattenedIsMerge(json);
    return Ok(output.entries);
  }

  /**
   * Visits the members of an object in order; each member's key is joined to
   * `baseKey`, then arrays, objects and scalars are dispatched.
   */
  method InsertObject(baseJson: JsonMap, baseKey: Option<string>, members: Members)
    modifies baseJson
    ensures baseJson.entries == Merge(old(baseJson.entries), MemberLeaves(baseKey, members))
    decreases members
  {
    for i := 0 to |members|
      invariant baseJson.entries == Merge(old(baseJson.entries), MemberLeaves(baseKey, members[..i]))
    {
      var (key, value) := members[i];
      assert value < members[i];
      var newKey := match baseKey
        case None => key
        case Some(prefix) => prefix + "." + key;
      if value.Array? {
        InsertArray(baseJson, newKey, value.items);
      } else if value.Object? {
        InsertObject(baseJson, Some(newKey), value.members);
      } else {
        InsertValue(baseJson, newKey, value);
        assert [(newKey, value)][1..] == [];
      }
      assert members[..i + 1] == members[..i] + [members[i]];
      assert [members[i]][1..] == [];
      assert MemberLeaves(baseKey, [members[i]]) == NodeLeaves(newKey, value) + [];
      assert NodeLeaves(newKey, value) + [] == NodeLeaves(newKey, value);
      MemberLeavesAppend(baseKey, members[..i], [members[i]]);
      MergeAppend(old(baseJson.entries), MemberLeaves(baseKey, members[..i]), NodeLeaves(newKey, value));
    }
    assert members[..|members|] == members;
  }

  /**
   * Visits the elements of an array in order, all at the array's own key:
   * an array adds nothing to the path.
   */
  method InsertArray(baseJson: JsonMap, baseKey: string, items: seq<Value>)
    modifies baseJson
    ensures baseJson.entries == Merge(old(baseJson.entries), ItemLeaves(baseKey, items))
    decreases items
  {
    for i := 0 to |items|
      invariant baseJson.entries == Merge(old(baseJson.entries), ItemLeaves(baseKey, items[..i]))
    {
      var value := items[i];
      if value.Object? {
        InsertObject(baseJson, Some(baseKey), value.members);
      } else if value.Array? {
        InsertArray(baseJson, baseKey, value.items);
      } else {
        InsertValue(baseJson, baseKey, value);
        assert [(baseKey, value)][1..] == [];
      }
      assert items[..i + 1] == items[..i] + [value];
      assert [value][1..] == [];
      assert ItemLeaves(baseKey, [value]) == NodeLeaves(baseKey, value) + [];
      assert NodeLeaves(baseKey, value) + [] == NodeLeaves(baseKey, value);
      ItemLeavesAppend(baseKey, items[..i], [value]);
      MergeAppend(old(baseJson.entries), ItemLeaves(baseKey, items[..i]), NodeLeaves(baseKey, value));
    }
    assert items[..|items|] == items;
  }

  /**
   * The collision-merge rule, in place: an absent key gets the bare value, an
   * array held at the key gets the value pushed at its end, and any other
   * value held at the key is replaced by the pair of it and the new value.
   * No other key changes.
   */
  method InsertValue(baseJson: JsonMap, key: string, toInsert: Value)
    modifies baseJson
    ensures key !in old(baseJson.entries) ==> baseJson.entries == old(baseJson.entries)[key := toInsert]
    ensures key in old(baseJson.entries) && old(baseJson.entries)[key].Array? ==>
      baseJson.entries == old(baseJson.entries)[key := Array(old(baseJson.entries)[key].items + [toInsert])]
    ensures key in old(baseJson.entries) && !old(baseJson.entries)[key].Array? ==>
      baseJson.entries == old(baseJson.entries)[key := Array([old(baseJson.entries)[key], toInsert])]
    ensures baseJson.entries == Record(old(baseJson.entries), key, toInsert)
  {
    if key in baseJson.entries {
      var value := baseJson.entries[key];
      if value.Array? {
        baseJson.entries := baseJson.entries[key := Array(value.items + [toInsert])];
      } else {
        baseJson.entries := baseJson.entries[key := Array([value, toInsert])];
      }
    } else {
      baseJson.entries := baseJson.entries[key := toInsert];
    }
  }
}
