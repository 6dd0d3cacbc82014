/** An ordered list of key/value entries with the web platform's lookup rules, the shape
    shared by `FormData` and `URLSearchParams`: `get` returns the first value under a key,
    `getAll` every value in order, `set` replaces the first entry and drops the others
    (or appends when the key is new), `delete` drops every entry under the key and
    `append` adds one at the end. */
module Entries {
  import opened Common

  datatype Entry<V> = Entry(key: string, value: V)

  function GetAll<V>(es: seq<Entry<V>>, key: string): seq<V> {
    if es == [] then []
    else (if es[0].key == key then [es[0].value] else []) + GetAll(es[1..], key)
  }

  function Get<V>(es: seq<Entry<V>>, key: string): Option<V> {
    if es == [] then None
    else if es[0].key == key then Some(es[0].value)
    else Get(es[1..], key)
  }

  predicate Has<V>(es: seq<Entry<V>>, key: string) {
    exists i :: 0 <= i < |es| && es[i].key == key
  }

  function Delete<V>(es: seq<Entry<V>>, key: string): seq<Entry<V>> {
    if es == [] then []
    else (if es[0].key == key then [] else [es[0]]) + Delete(es[1..], key)
  }

  function ReplaceFirst<V>(es: seq<Entry<V>>, key: string, v: V): seq<Entry<V>> {
    if es == [] then []
    else if es[0].key == key then [Entry(key, v)] + Delete(es[1..], key)
    else [es[0]] + ReplaceFirst(es[1..], key, v)
  }

  function Set<V>(es: seq<Entry<V>>, key: string, v: V): seq<Entry<V>> {
    if Has(es, key) then ReplaceFirst(es, key, v) else es + [Entry(key, v)]
  }

  function Append<V>(es: seq<Entry<V>>, key: string, v: V): seq<Entry<V>> {
    es + [Entry(key, v)]
  }

  /** `get` is the head of `getAll`; a key is present exactly when `getAll` is non-empty. */
  lemma {:induction false} GetIsFirstOfAll<V>(es: seq<Entry<V>>, key: string)
    ensures Get(es, key) == if GetAll(es, key) == [] then None else Some(GetAll(es, key)[0])
    ensures Has(es, key) <==> GetAll(es, key) != []
  {
    if es != [] {
      GetIsFirstOfAll(es[1..], key);
      if es[0].key != key && Has(es, key) {
        var i :| 0 <= i < |es| && es[i].key == key;
        assert es[1..][i - 1].key == key;
      }
      if Has(es[1..], key) {
        var i :| 0 <= i < |es[1..]| && es[1..][i].key == key;
        assert es[i + 1].key == key;
      }
    }
  }

  lemma {:induction false} GetAllConcat<V>(a: seq<Entry<V>>, b: seq<Entry<V>>, key: string)
    ensures GetAll(a + b, key) == GetAll(a, key) + GetAll(b, key)
  {
    if a != [] {
      assert (a + b)[0] == a[0] && (a + b)[1..] == a[1..] + b;
      GetAllConcat(a[1..], b, key);
      var h := if a[0].key == key then [a[0].value] else [];
      calc {
        GetAll(a + b, key);
        h + GetAll(a[1..] + b, key);
        h + (GetAll(a[1..], key) + GetAll(b, key));
        (h + GetAll(a[1..], key)) + GetAll(b, key);
      }
    } else {
      assert a + b == b;
    }
  }

  lemma GetAllOne<V>(k: string, v: V, key: string)
    ensures GetAll([Entry(k, v)], key) == if k == key then [v] else []
  {
    var one := [Entry(k, v)];
    assert one[1..] == [];
  }

  /** `append` adds its value at the end of that key's values and touches no other key. */
  lemma GetAllAppend<V>(es: seq<Entry<V>>, k: string, v: V, key: string)
    ensures GetAll(Append(es, k, v), key) == GetAll(es, key) + (if k == key then [v] else [])
  {
    GetAllConcat(es, [Entry(k, v)], key);
    GetAllOne(k, v, key);
  }

  /** After `delete`, the key has no values; every other key keeps all of its values. */
  lemma {:induction false} GetAllDelete<V>(es: seq<Entry<V>>, k: string, key: string)
    ensures GetAll(Delete(es, k), key) == if k == key then [] else GetAll(es, key)
  {
    if es != [] {
      GetAllDelete(es[1..], k, key);
      GetAllConcat(if es[0].key == k then [] else [es[0]], Delete(es[1..], k), key);
    }
  }

  lemma {:induction false} GetAllReplaceFirst<V>(es: seq<Entry<V>>, k: string, v: V, key: string)
    requires GetAll(es, k) != []
    ensures GetAll(ReplaceFirst(es, k, v), key) == if k == key then [v] else GetAll(es, key)
  {
    if es[0].key == k {
      GetAllDelete(es[1..], k, key);
      GetAllConcat([Entry(k, v)], Delete(es[1..], k), key);
    } else {
      GetAllReplaceFirst(es[1..], k, v, key);
      GetAllConcat([es[0]], ReplaceFirst(es[1..], k, v), key);
    }
  }

  /** After `set`, the key has exactly the one new value; every other key is unchanged. */
  lemma GetAllSet<V>(es: seq<Entry<V>>, k: string, v: V, key: string)
    ensures GetAll(Set(es, k, v), key) == if k == key then [v] else GetAll(es, key)
  {
    GetIsFirstOfAll(es, k);
    if Has(es, k) {
      GetAllReplaceFirst(es, k, v, key);
    } else {
      GetAllAppend(es, k, v, key);
    }
  }

  /** `set` on a key not yet present is an `append`. */
  lemma SetFreshAppends<V>(es: seq<Entry<V>>, k: string, v: V)
    requires GetAll(es, k) == []
    ensures Set(es, k, v) == Append(es, k, v)
  {
    GetIsFirstOfAll(es, k);
  }
}
