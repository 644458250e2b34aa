/**
 * An already-parsed JSON document, the input of the schema decoder and the
 * output of the encoder. An object keeps its entries in document order, so
 * repeated keys and their order stay visible to the decoder, as they are to a
 * serde map visitor. Numbers are integers only.
 */
module Json {
  import opened Wrappers

  datatype Json =
    | JObject(entries: seq<(string, Json)>)
    | JArray(items: seq<Json>)
    | JString(str: string)
    | JNumber(num: int)
    | JBool(flag: bool)
    | JNull

  /** The keys of an object's entries, in document order, repeats included. */
  function KeysOf(entries: seq<(string, Json)>): (keys: seq<string>)
    ensures |keys| == |entries|
    ensures forall i :: 0 <= i < |entries| ==> keys[i] == entries[i].0
  {
    if entries == [] then [] else [entries[0].0] + KeysOf(entries[1..])
  }

  /** The value of the last entry whose key is `key`, if any. */
  function LastValue(entries: seq<(string, Json)>, key: string): (r: Option<Json>)
    ensures r.Some? <==> exists i :: 0 <= i < |entries| && entries[i].0 == key
    ensures r.Some? ==> exists i :: 0 <= i < |entries| && entries[i] == (key, r.value)
  {
    if entries == [] then None
    else
      var later := LastValue(entries[1..], key);
      if later.Some? then later
      else if entries[0].0 == key then Some(entries[0].1)
      else None
  }
}
