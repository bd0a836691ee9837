/** Python's `dict`, which remembers insertion order: a key sequence with
    no repeats beside the map it orders. Assigning to an existing key keeps
    its place; `pop` removes it, so re-inserting moves it to the end. */
module PyDict {

  datatype Dict<K(==,!new), V> = Dict(keys: seq<K>, m: map<K, V>) {

    ghost predicate Valid() {
      && (forall i, j :: 0 <= i < j < |keys| ==> keys[i] != keys[j])
      && (forall k :: k in m <==> k in keys)
    }

    predicate Has(k: K) { k in m }
  }

  /** Every key of the order is a key of the map. */
  lemma KeysIn<K(!new), V>(d: Dict<K, V>)
    requires d.Valid()
    ensures forall i :: 0 <= i < |d.keys| ==> d.keys[i] in d.m
  {
    forall i | 0 <= i < |d.keys| ensures d.keys[i] in d.m {
      assert d.keys[i] in d.keys;
    }
  }

  function Empty<K(==,!new), V>(): (d: Dict<K, V>)
    ensures d.Valid() && d.keys == [] && d.m == map[]
  {
    Dict([], map[])
  }

  /** `d[k] = v`. */
  function Put<K(==,!new), V>(d: Dict<K, V>, k: K, v: V): (r: Dict<K, V>)
    requires d.Valid()
    ensures r.Valid()
    ensures r.m == d.m[k := v]
    ensures k in d.m ==> r.keys == d.keys
    ensures k !in d.m ==> r.keys == d.keys + [k]
  {
    if k in d.m then Dict(d.keys, d.m[k := v]) else Dict(d.keys + [k], d.m[k := v])
  }

  /** The key sequence without `k`. */
  function Without<K(==,!new)>(s: seq<K>, k: K): (r: seq<K>)
    ensures forall x :: x in r <==> x in s && x != k
    ensures (forall i, j :: 0 <= i < j < |s| ==> s[i] != s[j]) ==>
              (forall i, j :: 0 <= i < j < |r| ==> r[i] != r[j])
  {
    if s == [] then []
    else if s[0] == k then Without(s[1..], k)
    else
      var t := Without(s[1..], k);
      assert (forall i, j :: 0 <= i < j < |s| ==> s[i] != s[j]) ==> s[0] !in s[1..] by {
        if s[0] in s[1..] {
          var j :| 0 <= j < |s[1..]| && s[1..][j] == s[0];
          assert s[j + 1] == s[0];
        }
      }
      [s[0]] + t
  }

  /** `d.pop(k)`, for a key that is present. */
  function Pop<K(==,!new), V>(d: Dict<K, V>, k: K): (r: Dict<K, V>)
    requires d.Valid() && k in d.m
    ensures r.Valid()
    ensures r.m == d.m - {k}
    ensures r.keys == Without(d.keys, k)
  {
    Dict(Without(d.keys, k), d.m - {k})
  }

  /** A dict built from a key sequence without repeats, every key mapped
      by `f`: the dict comprehension `{k: f(k) for k in keys}`. */
  function FromKeys<K(==,!new), V>(keys: seq<K>, f: K -> V): (d: Dict<K, V>)
    requires forall i, j :: 0 <= i < j < |keys| ==> keys[i] != keys[j]
    ensures d.Valid() && d.keys == keys
    ensures forall k :: k in d.m ==> d.m[k] == f(k)
  {
    Dict(keys, map k | k in keys :: f(k))
  }
}
