/** A string-keyed table that remembers the order in which its keys were first
    set, like the program's maps and records. */
module OrderedMap {
  datatype Dict<V> = Dict(keys: seq<string>, at: map<string, V>) {
    ghost predicate Valid() {
      && (forall k :: k in keys <==> k in at)
      && forall i, j :: 0 <= i < j < |keys| ==> keys[i] != keys[j]
    }

    function GetOr(key: string, default: V): V {
      if key in at then at[key] else default
    }

    function Set(key: string, value: V): Dict<V> {
      Dict(if key in at then keys else keys + [key], at[key := value])
    }
  }

  const EMPTY_TABLE: Dict<nat> := Dict([], map[])

  lemma SetStaysValid<V>(d: Dict<V>, key: string, value: V)
    requires d.Valid()
    ensures d.Set(key, value).Valid()
  {
  }

  lemma ValidKeys<V>(d: Dict<V>, key: string)
    requires d.Valid()
    ensures key in d.at <==> key in d.keys
  {
  }

  lemma KeysDoNotRepeat<V>(d: Dict<V>, n: nat)
    requires d.Valid() && 0 < n <= |d.keys|
    ensures d.keys[n - 1] !in d.keys[..n - 1]
    ensures d.keys[n - 1] in d.at
  {
  }
}
