/** The JSON value tree that the exporters hand to the serialiser.
    Objects keep their fields as an ordered list of key/value pairs, because a Python
    dictionary keeps insertion order and the serialiser writes the keys in that order. */
module Json {

  datatype Option<T> = None | Some(value: T)

  datatype Value =
    | JNumber(n: real)
    | JString(s: string)
    | JArray(items: seq<Value>)
    | JObject(fields: seq<(string, Value)>)

  /** The value stored under `key` in an object's field list, or None when no field has that
      key. This is the model's own lookup rule: when a key repeats, the first field wins (a
      Python dictionary keeps the last). The exported records never repeat a key. */
  function Get(fields: seq<(string, Value)>, key: string): Option<Value>
  {
    if fields == [] then None
    else if fields[0].0 == key then Some(fields[0].1)
    else Get(fields[1..], key)
  }

  /** A field whose key no earlier field has is what Get finds for that key. */
  lemma {:induction false} GetFindsFirst(fields: seq<(string, Value)>, k: nat)
    requires k < |fields|
    requires forall m :: 0 <= m < k ==> fields[m].0 != fields[k].0
    ensures Get(fields, fields[k].0) == Some(fields[k].1)
  {
    if k > 0 {
      GetFindsFirst(fields[1..], k - 1);
    }
  }

  /** The keys of an object's field list, in order. */
  function Keys(fields: seq<(string, Value)>): (r: seq<string>)
  {
    seq(|fields|, k requires 0 <= k < |fields| => fields[k].0)
  }

  /** The number stored under `key`, if there is one and it is a number. */
  function NumberField(fields: seq<(string, Value)>, key: string): Option<real>
  {
    match Get(fields, key)
    case Some(JNumber(n)) => Some(n)
    case _ => None
  }

  /** The string stored under `key`, if there is one and it is a string. */
  function StringField(fields: seq<(string, Value)>, key: string): Option<string>
  {
    match Get(fields, key)
    case Some(JString(s)) => Some(s)
    case _ => None
  }
}
