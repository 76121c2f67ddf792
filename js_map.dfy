/**
 A JavaScript `Map`, as the server's `clients` and the browser's `players` use it:
 entries in insertion order, each key at most once. `set` on a key that is already
 present replaces the value and keeps the entry where it was; `set` on a new key
 appends; `delete` removes the entry. Iteration (`values()`) follows entry order.
 */
module JsMap {
  import opened Wrappers

  /** The keys, in entry order. */
  function Keys<K, V>(m: seq<(K, V)>): seq<K>
  {
    if m == [] then [] else [m[0].0] + Keys(m[1..])
  }

  /** The values, in entry order (`Array.from(m.values())`). */
  function Values<K, V>(m: seq<(K, V)>): seq<V>
  {
    if m == [] then [] else [m[0].1] + Values(m[1..])
  }

  predicate Distinct<T(==)>(s: seq<T>)
  {
    forall i, j :: 0 <= i < j < |s| ==> s[i] != s[j]
  }

  /** The representation invariant of a `Map`: no key occurs twice. */
  predicate UniqueKeys<K(==), V>(m: seq<(K, V)>)
  {
    Distinct(Keys(m))
  }

  /** `m.get(k)`: the value stored under `k`, or `None` (`undefined`). */
  function Get<K(==), V>(m: seq<(K, V)>, k: K): (r: Option<V>)
    ensures r.Some? <==> k in Keys(m)
    ensures r.Some? ==> (k, r.value) in m
  {
    if m == [] then None
    else if m[0].0 == k then Some(m[0].1)
    else Get(m[1..], k)
  }

  /** `m.set(k, v)`. */
  function Set<K(==,!new), V>(m: seq<(K, V)>, k: K, v: V): (r: seq<(K, V)>)
    ensures Get(r, k) == Some(v)
    ensures forall k' :: k' != k ==> Get(r, k') == Get(m, k')
    ensures Keys(r) == if k in Keys(m) then Keys(m) else Keys(m) + [k]
  {
    if m == [] then [(k, v)]
    else if m[0].0 == k then [(k, v)] + m[1..]
    else [m[0]] + Set(m[1..], k, v)
  }

  /** `s` with every occurrence of `x` dropped, the rest in their order. */
  function Without<T(==)>(s: seq<T>, x: T): seq<T>
  {
    if s == [] then [] else (if s[0] == x then [] else [s[0]]) + Without(s[1..], x)
  }

  /** `m.delete(k)`. */
  function Delete<K(==,!new), V>(m: seq<(K, V)>, k: K): (r: seq<(K, V)>)
    ensures Get(r, k) == None
    ensures Keys(r) == Without(Keys(m), k)
    ensures forall k' :: k' != k ==> Get(r, k') == Get(m, k')
    ensures k !in Keys(m) ==> r == m
    ensures forall e :: e in r ==> e in m
  {
    if m == [] then []
    else if m[0].0 == k then Delete(m[1..], k)
    else [m[0]] + Delete(m[1..], k)
  }

  lemma {:induction false} DistinctAppend<T>(s: seq<T>, x: T)
    requires Distinct(s) && x !in s
    ensures Distinct(s + [x])
  {
  }

  /** `set` keeps the keys unique. */
  lemma SetUnique<K(!new), V>(m: seq<(K, V)>, k: K, v: V)
    requires UniqueKeys(m)
    ensures UniqueKeys(Set(m, k, v))
  {
    if k !in Keys(m) {
      DistinctAppend(Keys(m), k);
    }
  }

  /** `delete` keeps the keys unique and drops exactly one entry when the key was present. */
  lemma DeleteUnique<K(!new), V>(m: seq<(K, V)>, k: K)
    requires UniqueKeys(m)
    ensures UniqueKeys(Delete(m, k))
    ensures |Delete(m, k)| == if k in Keys(m) then |m| - 1 else |m|
  {
    KeysIn(m);
    KeysIn(Delete(m, k));
    WithoutDistinct(Keys(m), k);
  }

  /** Dropping `x` from a sequence without repeats leaves no repeats and one element fewer if `x` was there. */
  lemma {:induction false} WithoutDistinct<T>(s: seq<T>, x: T)
    requires Distinct(s)
    ensures Distinct(Without(s, x))
    ensures |Without(s, x)| == if x in s then |s| - 1 else |s|
    ensures forall y :: y in Without(s, x) ==> y in s && y != x
  {
    if s != [] {
      var tail := s[1..];
      assert s == [s[0]] + tail;
      assert Distinct(tail) by {
        forall i, j | 0 <= i < j < |tail| ensures tail[i] != tail[j] {
          assert tail[i] == s[i + 1] && tail[j] == s[j + 1];
        }
      }
      assert s[0] !in tail by {
        forall j | 0 <= j < |tail| ensures tail[j] != s[0] {
          assert tail[j] == s[j + 1];
        }
      }
      WithoutDistinct(tail, x);
      var w := Without(tail, x);
      if s[0] != x {
        assert Without(s, x) == [s[0]] + w;
        forall i, j | 0 <= i < j < |[s[0]] + w| ensures ([s[0]] + w)[i] != ([s[0]] + w)[j] {
          if i == 0 {
            assert ([s[0]] + w)[j] == w[j - 1] && w[j - 1] in w;
          } else {
            assert ([s[0]] + w)[i] == w[i - 1] && ([s[0]] + w)[j] == w[j - 1];
          }
        }
      } else {
        assert Without(s, x) == w;
      }
    }
  }

  /** In a map with unique keys, the first key is not repeated later, and the rest is a map. */
  lemma HeadNotInTail<K, V>(m: seq<(K, V)>)
    requires UniqueKeys(m) && m != []
    ensures m[0].0 !in Keys(m[1..])
    ensures UniqueKeys(m[1..])
  {
    var tail := Keys(m[1..]);
    assert Keys(m) == [m[0].0] + tail;
    forall j | 0 <= j < |tail|
      ensures tail[j] != m[0].0
    {
      assert tail[j] == Keys(m)[j + 1] && Keys(m)[0] == m[0].0;
    }
    forall i, j | 0 <= i < j < |tail|
      ensures tail[i] != tail[j]
    {
      assert tail[i] == Keys(m)[i + 1] && tail[j] == Keys(m)[j + 1];
    }
  }

  lemma KeysIn<K, V>(m: seq<(K, V)>)
    ensures |Keys(m)| == |m|
    ensures forall i :: 0 <= i < |m| ==> Keys(m)[i] == m[i].0
  {
  }
}
