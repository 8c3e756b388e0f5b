/**
 * A Python dict with string keys: insertion-ordered, and an assignment to a key
 * that is already present replaces the value and keeps the key's position.
 */
module OrderedDict {

  datatype Dict<V> = Dict(keys: seq<string>, values: map<string, V>)

  /** The keys are distinct and are exactly the keys of the map. */
  ghost predicate Valid<V>(d: Dict<V>)
  {
    && (forall i, j :: 0 <= i < j < |d.keys| ==> d.keys[i] != d.keys[j])
    && (forall k :: k in d.values <==> k in d.keys)
  }

  function Empty<V>(): (d: Dict<V>)
    ensures Valid(d) && d.keys == [] && d.values == map[]
  {
    Dict([], map[])
  }

  /** d[k] = v */
  function Put<V>(d: Dict<V>, k: string, v: V): (r: Dict<V>)
    requires Valid(d)
    ensures Valid(r)
    ensures r.values == d.values[k := v]
    ensures k in d.values ==> r.keys == d.keys
    ensures k !in d.values ==> r.keys == d.keys + [k]
  {
    Dict(if k in d.values then d.keys else d.keys + [k], d.values[k := v])
  }

}
