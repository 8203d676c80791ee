/**
 * JSON values as the schema generator builds them, before they are turned
 * into text. An object is a Python dict: its keys keep insertion order, and
 * assigning to a key that is present replaces the value where it stands.
 */
module JsonValue {
  import opened Wrappers

  datatype Json =
    | JNull
    | JBool(b: bool)
    | JNumber(n: int)
    | JString(s: string)
    | JArray(items: seq<Json>)
    | JObject(fields: seq<(string, Json)>)

  /** The keys of an object, in insertion order. */
  function Keys(fields: seq<(string, Json)>): seq<string>
  {
    seq(|fields|, i requires 0 <= i < |fields| => fields[i].0)
  }

  /** `d.get(k)`: the value bound to `k`, if any. */
  function Get(fields: seq<(string, Json)>, k: string): Option<Json>
  {
    if fields == [] then None
    else if fields[0].0 == k then Some(fields[0].1)
    else Get(fields[1..], k)
  }

  /**
   * `d[k] = v`: afterwards `k` is bound to `v`, every other key keeps its
   * value, and the key order is unchanged unless `k` is new, in which case it
   * comes last.
   */
  function Put(fields: seq<(string, Json)>, k: string, v: Json): (r: seq<(string, Json)>)
    ensures Get(r, k) == Some(v)
    ensures forall k' :: k' != k ==> Get(r, k') == Get(fields, k')
    ensures Keys(r) == if k in Keys(fields) then Keys(fields) else Keys(fields) + [k]
  {
    if fields == [] then [(k, v)]
    else
      KeysCons(fields);
      if fields[0].0 == k then
        KeysCons([(k, v)] + fields[1..]);
        assert ([(k, v)] + fields[1..])[1..] == fields[1..];
        [(k, v)] + fields[1..]
      else
        var rest := Put(fields[1..], k, v);
        KeysCons([fields[0]] + rest);
        assert ([fields[0]] + rest)[1..] == rest;
        [fields[0]] + rest
  }

  /** The keys of a non-empty object: its first key, then the keys of the rest. */
  lemma KeysCons(fields: seq<(string, Json)>)
    requires fields != []
    ensures Keys(fields) == [fields[0].0] + Keys(fields[1..])
  {
  }

  /** `Get` finds a key at the first position it occurs. */
  lemma {:induction false} GetFirst(fields: seq<(string, Json)>, i: nat)
    requires i < |fields|
    requires forall j :: 0 <= j < i ==> fields[j].0 != fields[i].0
    ensures Get(fields, fields[i].0) == Some(fields[i].1)
  {
    if i > 0 {
      GetFirst(fields[1..], i - 1);
    }
  }

  /** `Get` finds nothing for a key that is not in the object. */
  lemma {:induction false} GetAbsent(fields: seq<(string, Json)>, k: string)
    requires k !in Keys(fields)
    ensures Get(fields, k) == None
  {
    if fields != [] {
      KeysCons(fields);
      GetAbsent(fields[1..], k);
    }
  }
}
