/** Shared vocabulary: options, and Python's slice and membership idioms. */
module Util {

  datatype Option<+T> = None | Some(value: T)

  function MinInt(a: int, b: int): int {
    if a <= b then a else b
  }

  function MaxInt(a: int, b: int): int {
    if a >= b then a else b
  }

  /** `s[:k]`: a negative bound counts from the end. */
  function SliceTo<T>(s: seq<T>, k: int): (r: seq<T>)
    ensures r <= s
    ensures |r| == if k >= 0 then MinInt(k, |s|) else MaxInt(0, |s| + k)
  {
    if k >= 0 then s[..MinInt(k, |s|)] else s[..MaxInt(0, |s| + k)]
  }

  /** No value occurs at two places. */
  ghost predicate Distinct<T>(s: seq<T>) {
    forall i, j :: 0 <= i < j < |s| ==> s[i] != s[j]
  }

  function Elements<T(==)>(s: seq<T>): set<T> {
    set x | x in s
  }

  lemma {:induction false} DistinctSize<T>(s: seq<T>)
    requires Distinct(s)
    ensures |Elements(s)| == |s|
  {
    if s == [] {
      assert Elements(s) == {};
    } else {
      var n := |s| - 1;
      DistinctSize(s[..n]);
      assert s[n] !in Elements(s[..n]);
      assert Elements(s) == Elements(s[..n]) + {s[n]};
    }
  }

  lemma SubsetSize<T>(a: set<T>, b: set<T>)
    requires a <= b
    ensures |a| <= |b|
    ensures |a| == |b| ==> a == b
  {
    assert b == a + (b - a);
    if |a| == |b| {
      assert b - a == {};
    }
  }

  lemma Reassociate<T>(a: seq<T>, b: seq<T>, c: seq<T>)
    ensures a + (b + c) == (a + b) + c
  {
  }

  /** The number each entry carries. */
  function Numbers<T>(s: seq<T>, no: T -> nat): (r: seq<nat>)
    ensures |r| == |s| && forall i :: 0 <= i < |s| ==> r[i] == no(s[i])
  {
    seq(|s|, i requires 0 <= i < |s| => no(s[i]))
  }

  /** Each of 0, ..., n - 1 once. */
  ghost function Upto(n: nat): multiset<nat> {
    if n == 0 then multiset{} else Upto(n - 1) + multiset{n - 1}
  }

  lemma {:induction false} UptoMembers(n: nat, x: nat)
    ensures Upto(n)[x] == if x < n then 1 else 0
  {
    if n > 0 {
      UptoMembers(n - 1, x);
    }
  }

  /** `f` lists the places of `s` that are to be kept, in order, and `r` is what stands there. */
  ghost predicate SelectsAt<T>(r: seq<T>, s: seq<T>, keep: T -> bool, f: seq<nat>) {
    && |f| == |r|
    && (forall i, j :: 0 <= i < j < |f| ==> f[i] < f[j])
    && (forall k :: 0 <= k < |f| ==> f[k] < |s| && s[f[k]] == r[k])
    && (forall i :: 0 <= i < |s| ==> (i in f <==> keep(s[i])))
  }

  /** `r` is `s` without what is not to be kept: all the rest, in order. */
  ghost predicate Selects<T>(r: seq<T>, s: seq<T>, keep: T -> bool) {
    exists f :: SelectsAt(r, s, keep, f)
  }

  lemma SelectsNone<T>(keep: T -> bool)
    ensures Selects([], [], keep)
  {
    assert SelectsAt([], [], keep, []);
  }

  lemma SelectsCons<T>(r: seq<T>, x: T, s: seq<T>, keep: T -> bool)
    requires Selects(r, s, keep)
    ensures Selects((if keep(x) then [x] else []) + r, [x] + s, keep)
  {
    var f :| SelectsAt(r, s, keep, f);
    var g := seq(|f|, i requires 0 <= i < |f| => f[i] + 1);
    SelectsShifted(r, x, s, keep, f, g);
    if keep(x) {
      SelectsHead(r, x, s, keep, g);
    } else {
      assert [] + r == r;
    }
  }

  lemma SelectsSame<T>(r: seq<T>, s: seq<T>, keep: T -> bool, same: T -> bool)
    requires Selects(r, s, keep) && forall x :: x in s ==> keep(x) == same(x)
    ensures Selects(r, s, same)
  {
    var f :| SelectsAt(r, s, keep, f);
    assert SelectsAt(r, s, same, f);
  }

  /** The same places, once something stands in front. */
  lemma SelectsShifted<T>(r: seq<T>, x: T, s: seq<T>, keep: T -> bool, f: seq<nat>, g: seq<nat>)
    requires SelectsAt(r, s, keep, f)
    requires |g| == |f| && forall k :: 0 <= k < |f| ==> g[k] == f[k] + 1
    ensures forall i, j :: 0 <= i < j < |g| ==> g[i] < g[j]
    ensures forall k :: 0 <= k < |g| ==> 0 < g[k] < |[x] + s| && ([x] + s)[g[k]] == r[k]
    ensures forall i :: 0 < i < |[x] + s| ==> (i in g <==> keep(([x] + s)[i]))
    ensures 0 !in g
    ensures !keep(x) ==> SelectsAt(r, [x] + s, keep, g)
  {
    forall i: nat ensures i in g <==> i > 0 && i - 1 in f {
      ShiftedMembers(f, g, i);
    }
  }

  lemma SelectsHead<T>(r: seq<T>, x: T, s: seq<T>, keep: T -> bool, g: seq<nat>)
    requires keep(x) && |g| == |r|
    requires forall i, j :: 0 <= i < j < |g| ==> g[i] < g[j]
    requires forall k :: 0 <= k < |g| ==> 0 < g[k] < |[x] + s| && ([x] + s)[g[k]] == r[k]
    requires forall i :: 0 < i < |[x] + s| ==> (i in g <==> keep(([x] + s)[i]))
    ensures Selects([x] + r, [x] + s, keep)
  {
    var h: seq<nat> := [0] + g;
    forall i, j | 0 <= i < j < |h| ensures h[i] < h[j] {
      assert h[j] == g[j - 1];
      assert i > 0 ==> h[i] == g[i - 1];
    }
    forall k | 0 <= k < |h| ensures h[k] < |[x] + s| && ([x] + s)[h[k]] == ([x] + r)[k] {
      assert k > 0 ==> h[k] == g[k - 1] && ([x] + r)[k] == r[k - 1];
    }
    forall i: nat ensures i in h <==> i == 0 || i in g {
      assert i in h <==> i in [0] || i in g;
    }
    assert SelectsAt([x] + r, [x] + s, keep, h);
  }

  lemma ShiftedMembers(f: seq<nat>, g: seq<nat>, i: nat)
    requires |g| == |f| && forall k :: 0 <= k < |f| ==> g[k] == f[k] + 1
    ensures i in g <==> i > 0 && i - 1 in f
  {
    if i > 0 && i - 1 in f {
      var k :| 0 <= k < |f| && f[k] == i - 1;
      assert g[k] == i;
    }
  }
}
