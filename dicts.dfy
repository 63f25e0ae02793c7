/**
  * Python's `dict`, which remembers the order in which keys were first inserted:
  * a sequence of distinct keys together with the key-to-value map.  Assigning to
  * an existing key replaces its value and keeps its position.
  */
module Dicts {

  datatype Dict<K(==), V> = Dict(keys: seq<K>, vals: map<K, V>)
  {
    /** The keys are distinct and are exactly the keys of the map. */
    predicate Valid() {
      && (forall i, j :: 0 <= i < j < |keys| ==> keys[i] != keys[j])
      && (forall k | k in vals :: k in keys)
      && (forall i | 0 <= i < |keys| :: keys[i] in vals)
    }

    /** `d[k] = v`. */
    function Put(k: K, v: V): (d: Dict<K, V>)
      ensures d.vals == vals[k := v]
      ensures k in vals ==> d.keys == keys
      ensures k !in vals ==> d.keys == keys + [k]
      ensures Valid() ==> d.Valid()
    {
      Dict(if k in vals then keys else keys + [k], vals[k := v])
    }

    /** `d.get(k, default)`. */
    function Get(k: K, default: V): (v: V)
      ensures k in vals ==> v == vals[k]
      ensures k !in vals ==> v == default
    {
      if k in vals then vals[k] else default
    }

    /** `list(d.values())`, in key order. */
    function Values(): (vs: seq<V>)
      requires forall k :: k in keys ==> k in vals
      ensures |vs| == |keys|
      ensures forall i :: 0 <= i < |keys| ==> vs[i] == vals[keys[i]]
    {
      seq(|keys|, i requires 0 <= i < |keys| => vals[keys[i]])
    }
  }

  /** `{}`. */
  function EmptyDict<K(==), V>(): (d: Dict<K, V>)
    ensures d.Valid() && d.keys == [] && d.vals == map[]
  {
    Dict([], map[])
  }

  /** Reading a `defaultdict(int)` counter: the count of `k`, 0 when it was never incremented. */
  function Count<K>(m: map<K, nat>, k: K): nat {
    if k in m then m[k] else 0
  }

  /** Every key of the counter was incremented at least once. */
  predicate Positive<K>(m: map<K, nat>) {
    forall k | k in m :: m[k] > 0
  }
}
