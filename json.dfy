/** JSON-like values as the audit log's `changes` and `meta` columns carry
    them. An object is its entries in `Object.entries` order. Numbers are
    integers here. */
module JsonValues {
  import opened Wrappers

  datatype Json =
    | JNull
    | JBool(b: bool)
    | JNumber(n: int)
    | JString(s: string)
    | JArray(items: seq<Json>)
    | JObject(entries: seq<(string, Json)>)

  /** `key in obj`, for an object's entries. */
  predicate HasKey(entries: seq<(string, Json)>, key: string)
  {
    exists i :: 0 <= i < |entries| && entries[i].0 == key
  }

  /** `obj[key]`: the value of the first entry with the key. */
  function Lookup(entries: seq<(string, Json)>, key: string): (r: Option<Json>)
    ensures r.None? <==> !HasKey(entries, key)
    ensures r.Some? ==> exists i :: 0 <= i < |entries| && entries[i] == (key, r.value)
                                 && forall j :: 0 <= j < i ==> entries[j].0 != key
  {
    if entries == [] then None
    else if entries[0].0 == key then
      assert entries[0] == (key, entries[0].1);
      Some(entries[0].1)
    else
      var r := Lookup(entries[1..], key);
      assert forall i :: 0 < i < |entries| ==> entries[i] == entries[1..][i - 1];
      assert HasKey(entries, key) ==> HasKey(entries[1..], key) by {
        if HasKey(entries, key) {
          var i :| 0 <= i < |entries| && entries[i].0 == key;
          assert entries[1..][i - 1].0 == key;
        }
      }
      assert r.Some? ==> exists i :: 0 <= i < |entries| && entries[i] == (key, r.value)
                                  && forall j :: 0 <= j < i ==> entries[j].0 != key by {
        if r.Some? {
          var k :| 0 <= k < |entries[1..]| && entries[1..][k] == (key, r.value)
                   && forall j :: 0 <= j < k ==> entries[1..][j].0 != key;
          forall j | 0 <= j < k + 1
            ensures entries[j].0 != key
          {
            if j > 0 { assert entries[j] == entries[1..][j - 1]; }
          }
        }
      }
      r
  }

  /** A JavaScript object never holds a key twice. */
  predicate DistinctKeys(entries: seq<(string, Json)>)
  {
    forall i, j :: 0 <= i < j < |entries| ==> entries[i].0 != entries[j].0
  }

  /** On an object with distinct keys the lookup reads the one entry under the
      key, wherever it sits. */
  lemma LookupDistinct(entries: seq<(string, Json)>, k: nat)
    requires DistinctKeys(entries) && k < |entries|
    ensures Lookup(entries, entries[k].0) == Some(entries[k].1)
  {
    var r := Lookup(entries, entries[k].0);
    var i :| 0 <= i < |entries| && entries[i] == (entries[k].0, r.value)
             && forall j :: 0 <= j < i ==> entries[j].0 != entries[k].0;
    assert i == k;
  }

  /** JavaScript truthiness of a value. */
  predicate Truthy(v: Json)
  {
    match v
    case JNull => false
    case JBool(b) => b
    case JNumber(n) => n != 0
    case JString(s) => s != ""
    case _ => true
  }
}
