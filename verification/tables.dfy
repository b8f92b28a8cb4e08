/**
 * Insertion-ordered tables with string keys: the dictionaries of the modelled
 * code, iterated in the order their keys were first stored.
 */
module Tables {
  import opened Wrappers

  type Table<V> = seq<(string, V)>

  /** `t[key]`, or None when the key is absent. */
  function Lookup<V>(t: Table<V>, key: string): (r: Option<V>)
    ensures r.None? <==> forall i :: 0 <= i < |t| ==> t[i].0 != key
    ensures r.Some? ==> exists i :: 0 <= i < |t| && t[i] == (key, r.value)
    decreases |t|
  {
    if |t| == 0 then None
    else if t[0].0 == key then Some(t[0].1)
    else
      var r := Lookup(t[1..], key);
      assert forall i :: 1 <= i < |t| ==> t[i] == t[1..][i - 1];
      r
  }

  /** Each key is stored once, as in a dictionary. */
  predicate KeysUnique<V>(t: Table<V>) {
    forall i, j :: 0 <= i < j < |t| ==> t[i].0 != t[j].0
  }

  /** `t[key] = v`: an existing key keeps its place, a new key goes last. */
  function Put<V>(t: Table<V>, key: string, v: V): (r: Table<V>)
    ensures Lookup(r, key) == Some(v)
    ensures forall k :: k != key ==> Lookup(r, k) == Lookup(t, k)
    ensures |r| == if Lookup(t, key).Some? then |t| else |t| + 1
    ensures KeysUnique(t) ==> KeysUnique(r)
    decreases |t|
  {
    if |t| == 0 then [(key, v)]
    else if t[0].0 == key then [(key, v)] + t[1..]
    else
      var rest := Put(t[1..], key, v);
      var r := [t[0]] + rest;
      assert r[1..] == rest;
      assert KeysUnique(t) ==> KeysUnique(r) by {
        if KeysUnique(t) {
          assert KeysUnique(t[1..]) by {
            forall i, j | 0 <= i < j < |t[1..]| ensures t[1..][i].0 != t[1..][j].0 {
              assert t[1..][i] == t[i + 1] && t[1..][j] == t[j + 1];
            }
          }
          assert Lookup(t[1..], t[0].0).None?;
          assert Lookup(rest, t[0].0).None?;
        }
      }
      r
  }

  /** The keys, in table order. */
  function Keys<V>(t: Table<V>): (r: seq<string>)
    ensures |r| == |t|
    ensures forall i :: 0 <= i < |t| ==> r[i] == t[i].0
  {
    seq(|t|, i requires 0 <= i < |t| => t[i].0)
  }
}
