/**
 * The tree the JSON reader produces for the metadata file: objects keep their
 * entries in document order, as the reader's linked hash maps do, arrays keep
 * their items, and scalars are kept apart only as far as the indexer
 * distinguishes them (a string, null, or anything else).
 */
module JsonTree {

  datatype Json =
    | JNull
    | JBool(b: bool)
    | JNumber(literal: string)
    | JString(s: string)
    | JArray(items: seq<Json>)
    | JObject(fields: seq<Field>)

  /** One entry of an object. */
  datatype Field = Field(key: string, value: Json)

  /** No entry after the i-th has the same key. */
  predicate LastWithKey(fields: seq<Field>, i: nat)
    requires i < |fields|
  {
    forall j :: i < j < |fields| ==> fields[j].key != fields[i].key
  }

  /**
   * An object's entries as a map from key to value. A key repeated within one
   * object keeps its last value, as the reader does.
   */
  function ToMap(fields: seq<Field>): (m: map<string, Json>)
    ensures forall k :: k in m <==> exists i :: 0 <= i < |fields| && fields[i].key == k
  {
    if fields == [] then map[]
    else
      var last := fields[|fields| - 1];
      ToMap(fields[..|fields| - 1])[last.key := last.value]
  }

  /** The value a key gets is the one of its last entry. */
  lemma {:induction false} ToMapLastWins(fields: seq<Field>, i: nat)
    requires i < |fields| && LastWithKey(fields, i)
    ensures fields[i].key in ToMap(fields) && ToMap(fields)[fields[i].key] == fields[i].value
    decreases |fields|
  {
    var n := |fields| - 1;
    if i < n {
      var init := fields[..n];
      assert fields[n].key != fields[i].key;
      assert init[i] == fields[i];
      assert LastWithKey(init, i) by {
        forall j | i < j < |init|
          ensures init[j].key != init[i].key
        {
          assert init[j] == fields[j];
        }
      }
      ToMapLastWins(init, i);
    }
  }
}
