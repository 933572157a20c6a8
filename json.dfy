/**
 * The in-memory JSON tree the flattener reads and writes, following the
 * shape of serde_json's `Value`.
 */
module Json {

  /**
   * A JSON value. Numbers are integers here. An object is its members in
   * iteration order; serde_json keeps them sorted by key by default and in
   * insertion order under its `preserve_order` feature, so the order is left
   * to the caller.
   */
  datatype Value =
    | Null
    | Bool(b: bool)
    | Number(n: int)
    | String(s: string)
    | Array(items: seq<Value>)
    | Object(members: Members)

  /** The members of an object, in iteration order. */
  type Members = seq<(string, Value)>

  /** A value that is neither an array nor an object. */
  predicate IsScalar(v: Value) {
    !v.Array? && !v.Object?
  }

  /** No key occurs twice, as in a serde_json `Map`. */
  predicate UniqueKeys(ms: Members) {
    forall i, j :: 0 <= i < j < |ms| ==> ms[i].0 != ms[j].0
  }

  /** The map whose entries are the members; a later member wins a repeated key. */
  function ToMap(ms: Members): (m: map<string, Value>)
    ensures m.Keys == set i | 0 <= i < |ms| :: ms[i].0
  {
    if ms == [] then map[]
    else
      var rest := ToMap(ms[1..]);
      assert (set i | 0 <= i < |ms| :: ms[i].0) == {ms[0].0} + rest.Keys by {
        assert forall i :: 1 <= i < |ms| ==> ms[1..][i - 1] == ms[i];
      }
      map[ms[0].0 := ms[0].1] + rest
  }

  /** With unique keys every member can be looked up in the map by its key. */
  lemma {:induction false} ToMapAt(ms: Members, i: nat)
    requires UniqueKeys(ms) && i < |ms|
    ensures ms[i].0 in ToMap(ms) && ToMap(ms)[ms[i].0] == ms[i].1
  {
    if i > 0 {
      assert ms[1..][i - 1] == ms[i];
      ToMapAt(ms[1..], i - 1);
    } else {
      assert ms[0].0 !in ToMap(ms[1..]) by {
        assert forall j :: 0 <= j < |ms| - 1 ==> ms[1..][j].0 == ms[j + 1].0 != ms[0].0;
      }
    }
  }
}
