/** list.sort(key=..., reverse=True): descending, and stable. */
module Sorting {
  import opened Util

  function InsertDescending<T>(x: T, s: seq<T>, key: T -> int): seq<T> {
    if s == [] || key(x) >= key(s[0]) then [x] + s
    else [s[0]] + InsertDescending(x, s[1..], key)
  }

  function SortDescending<T>(s: seq<T>, key: T -> int): seq<T> {
    if s == [] then [] else InsertDescending(s[0], SortDescending(s[1..], key), key)
  }

  ghost predicate Descending<T>(s: seq<T>, key: T -> int) {
    forall i, j :: 0 <= i < j < |s| ==> key(s[i]) >= key(s[j])
  }

  /** The elements with key k, in order. */
  function WithKey<T>(s: seq<T>, key: T -> int, k: int): seq<T> {
    if s == [] then [] else (if key(s[0]) == k then [s[0]] else []) + WithKey(s[1..], key, k)
  }

  lemma {:induction false} InsertOrders<T>(x: T, s: seq<T>, key: T -> int)
    requires Descending(s, key)
    ensures var r := InsertDescending(x, s, key);
      Descending(r, key) && |r| > 0 && (r[0] == x || (s != [] && r[0] == s[0]))
  {
    if s != [] && key(x) < key(s[0]) {
      InsertOrders(x, s[1..], key);
      var rest := InsertDescending(x, s[1..], key);
      assert key(s[0]) >= key(rest[0]);
    }
  }

  lemma {:induction false} InsertPermutes<T>(x: T, s: seq<T>, key: T -> int)
    ensures multiset(InsertDescending(x, s, key)) == multiset{x} + multiset(s)
  {
    if s != [] && key(x) < key(s[0]) {
      InsertPermutes(x, s[1..], key);
      assert s == [s[0]] + s[1..];
    }
  }

  lemma WithKeyCons<T>(x: T, s: seq<T>, key: T -> int, k: int)
    ensures WithKey([x] + s, key, k) == (if key(x) == k then [x] else []) + WithKey(s, key, k)
  {
    assert ([x] + s)[1..] == s;
  }

  lemma {:induction false} InsertIsStable<T>(x: T, s: seq<T>, key: T -> int, k: int)
    ensures WithKey(InsertDescending(x, s, key), key, k) == (if key(x) == k then [x] else []) + WithKey(s, key, k)
  {
    hide WithKey;
    if s != [] && key(x) < key(s[0]) {
      InsertIsStable(x, s[1..], key, k);
      WithKeyCons(s[0], InsertDescending(x, s[1..], key), key, k);
      WithKeyCons(s[0], s[1..], key, k);
      assert [s[0]] + s[1..] == s;
      if key(x) == k {
        assert [] + ([x] + WithKey(s[1..], key, k)) == [x] + ([] + WithKey(s[1..], key, k));
      }
    } else {
      WithKeyCons(x, s, key, k);
    }
  }

  lemma {:induction false} WithKeySelects<T>(s: seq<T>, key: T -> int, k: int)
    ensures Selects(WithKey(s, key, k), s, x => key(x) == k)
  {
    if s == [] {
      SelectsNone((x: T) => key(x) == k);
    } else {
      WithKeySelects(s[1..], key, k);
      SelectsCons(WithKey(s[1..], key, k), s[0], s[1..], x => key(x) == k);
      assert [s[0]] + s[1..] == s;
    }
  }

  /** Sorting permutes, orders, and leaves elements of equal key in their original order. */
  lemma {:induction false} SortIsStablePermutation<T>(s: seq<T>, key: T -> int, k: int)
    ensures var r := SortDescending(s, key);
      && multiset(r) == multiset(s) && WithKey(r, key, k) == WithKey(s, key, k)
      && forall i, j :: 0 <= i < j < |r| ==> key(r[i]) >= key(r[j])
  {
    if s != [] {
      hide Descending, InsertDescending;
      var rest := SortDescending(s[1..], key);
      SortIsStablePermutation(s[1..], key, k);
      InsertOrders(s[0], rest, key);
      InsertPermutes(s[0], rest, key);
      InsertIsStable(s[0], rest, key, k);
      assert s == [s[0]] + s[1..];
    }
  }
}
