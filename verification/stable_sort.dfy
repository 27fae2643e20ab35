/** `array.sort((a, b) => key(b) - key(a))`: a stable sort, highest key first.
    ECMAScript requires `Array.prototype.sort` to be stable, so elements with equal
    keys keep their relative order. The specification is insertion of each element,
    in input order, after every element whose key is at least its own. */
module StableSort {

  /** Keys never increase from left to right. */
  predicate SortedDesc<T>(s: seq<T>, key: T -> int) {
    forall i, j :: 0 <= i < j < |s| ==> key(s[i]) >= key(s[j])
  }

  /** `t` with `x` placed in front of the first element whose key is below `key(x)`. */
  function Insert<T>(t: seq<T>, x: T, key: T -> int): (r: seq<T>)
    ensures |r| == |t| + 1
  {
    if t == [] then [x]
    else if key(t[0]) < key(x) then [x] + t
    else [t[0]] + Insert(t[1..], x, key)
  }

  /** The sorted order: insert the elements one by one, first to last. */
  function SortDesc<T>(s: seq<T>, key: T -> int): (r: seq<T>)
    ensures |r| == |s|
  {
    if s == [] then [] else Insert(SortDesc(s[..|s| - 1], key), s[|s| - 1], key)
  }

  /** The elements of `s` whose key is `k`, in their order in `s`. */
  function WithKey<T>(s: seq<T>, key: T -> int, k: int): seq<T> {
    if s == [] then []
    else (if key(s[0]) == k then [s[0]] else []) + WithKey(s[1..], key, k)
  }

  /** Sum of `f` over the elements of `s`. */
  function SumBy<T>(s: seq<T>, f: T -> int): int {
    if s == [] then 0 else f(s[0]) + SumBy(s[1..], f)
  }

  // ---------------------------------------------------------------- ordering

  lemma {:induction false} InsertElements<T>(t: seq<T>, x: T, key: T -> int)
    ensures multiset(Insert(t, x, key)) == multiset(t) + multiset{x}
  {
    if t != [] && key(t[0]) >= key(x) {
      InsertElements(t[1..], x, key);
      assert Insert(t, x, key) == [t[0]] + Insert(t[1..], x, key);
      assert t == [t[0]] + t[1..];
    }
  }

  /** Inserting an element whose key is at most `b` into a list whose keys are at
      most `b` gives a list whose keys are at most `b`. */
  lemma {:induction false} InsertBounded<T>(t: seq<T>, x: T, key: T -> int, b: int)
    requires forall i :: 0 <= i < |t| ==> key(t[i]) <= b
    requires key(x) <= b
    ensures forall i :: 0 <= i < |Insert(t, x, key)| ==> key(Insert(t, x, key)[i]) <= b
  {
    if t != [] && key(t[0]) >= key(x) {
      InsertBounded(t[1..], x, key, b);
      var rest := Insert(t[1..], x, key);
      assert Insert(t, x, key) == [t[0]] + rest;
      forall i | 0 <= i < |rest| + 1 ensures key(([t[0]] + rest)[i]) <= b {
        if i > 0 {
          assert ([t[0]] + rest)[i] == rest[i - 1];
        }
      }
    }
  }

  lemma {:induction false} InsertSorted<T>(t: seq<T>, x: T, key: T -> int)
    requires SortedDesc(t, key)
    ensures SortedDesc(Insert(t, x, key), key)
  {
    if t != [] {
      SortedTail(t, key);
      if key(t[0]) >= key(x) {
        var rest := Insert(t[1..], x, key);
        InsertSorted(t[1..], x, key);
        InsertBounded(t[1..], x, key, key(t[0]));
        var r := [t[0]] + rest;
        assert Insert(t, x, key) == r;
        forall i, j | 0 <= i < j < |r| ensures key(r[i]) >= key(r[j]) {
          assert r[j] == rest[j - 1];
          if i > 0 {
            assert r[i] == rest[i - 1];
          }
        }
      } else {
        var r := [x] + t;
        assert Insert(t, x, key) == r;
        forall i, j | 0 <= i < j < |r| ensures key(r[i]) >= key(r[j]) {
          assert r[j] == t[j - 1];
          if i > 0 {
            assert r[i] == t[i - 1];
          }
        }
      }
    }
  }

  /** The result is ordered by key, highest first. */
  lemma {:induction false} SortDescSorted<T>(s: seq<T>, key: T -> int)
    ensures SortedDesc(SortDesc(s, key), key)
  {
    if s != [] {
      SortDescSorted(s[..|s| - 1], key);
      InsertSorted(SortDesc(s[..|s| - 1], key), s[|s| - 1], key);
    }
  }

  /** The result is a permutation of the input. */
  lemma {:induction false} SortDescPermutation<T>(s: seq<T>, key: T -> int)
    ensures multiset(SortDesc(s, key)) == multiset(s)
  {
    if s != [] {
      SortDescPermutation(s[..|s| - 1], key);
      InsertElements(SortDesc(s[..|s| - 1], key), s[|s| - 1], key);
      assert s == s[..|s| - 1] + [s[|s| - 1]];
    }
  }

  // ---------------------------------------------------------------- stability

  lemma {:induction false} WithKeyConcat<T>(a: seq<T>, b: seq<T>, key: T -> int, k: int)
    ensures WithKey(a + b, key, k) == WithKey(a, key, k) + WithKey(b, key, k)
  {
    if a == [] {
      assert a + b == b;
    } else {
      var head := if key(a[0]) == k then [a[0]] else [];
      var ab := a + b;
      assert ab[0] == a[0] && ab[1..] == a[1..] + b;
      assert WithKey(ab, key, k) == head + WithKey(a[1..] + b, key, k);
      WithKeyConcat(a[1..], b, key, k);
      assert WithKey(a, key, k) == head + WithKey(a[1..], key, k);
      assert head + (WithKey(a[1..], key, k) + WithKey(b, key, k))
          == (head + WithKey(a[1..], key, k)) + WithKey(b, key, k);
    }
  }

  lemma {:induction false} WithKeyNone<T>(t: seq<T>, key: T -> int, k: int)
    requires forall i :: 0 <= i < |t| ==> key(t[i]) < k
    ensures WithKey(t, key, k) == []
  {
    if t != [] {
      WithKeyNone(t[1..], key, k);
    }
  }

  lemma SortedTail<T>(t: seq<T>, key: T -> int)
    requires t != [] && SortedDesc(t, key)
    ensures SortedDesc(t[1..], key)
    ensures forall i :: 0 <= i < |t| ==> key(t[i]) <= key(t[0])
  {
    forall i, j | 0 <= i < j < |t[1..]| ensures key(t[1..][i]) >= key(t[1..][j]) {
      assert t[1..][i] == t[i + 1] && t[1..][j] == t[j + 1];
    }
  }

  lemma {:induction false} InsertWithKey<T>(t: seq<T>, x: T, key: T -> int, k: int)
    requires SortedDesc(t, key)
    ensures WithKey(Insert(t, x, key), key, k)
         == WithKey(t, key, k) + (if key(x) == k then [x] else [])
  {
    var mine := if key(x) == k then [x] else [];
    if t == [] {
      assert Insert(t, x, key) == [x];
      assert WithKey([x], key, k) == mine + WithKey([x][1..], key, k);
      assert [x][1..] == [];
    } else if key(t[0]) < key(x) {
      var r := [x] + t;
      assert Insert(t, x, key) == r;
      assert r[0] == x && r[1..] == t;
      assert WithKey(r, key, k) == mine + WithKey(t, key, k);
      if key(x) == k {
        SortedTail(t, key);
        WithKeyNone(t, key, k);
        assert WithKey(t, key, k) + mine == mine;
      } else {
        assert mine + WithKey(t, key, k) == WithKey(t, key, k) + mine;
      }
    } else {
      var head := if key(t[0]) == k then [t[0]] else [];
      var rest := Insert(t[1..], x, key);
      var r := [t[0]] + rest;
      assert Insert(t, x, key) == r;
      assert r[0] == t[0] && r[1..] == rest;
      SortedTail(t, key);
      InsertWithKey(t[1..], x, key, k);
      calc {
        WithKey(r, key, k);
        head + WithKey(rest, key, k);
        head + (WithKey(t[1..], key, k) + mine);
        { assert head + (WithKey(t[1..], key, k) + mine) == (head + WithKey(t[1..], key, k)) + mine; }
        (head + WithKey(t[1..], key, k)) + mine;
        WithKey(t, key, k) + mine;
      }
    }
  }

  /** Stability: for every key value, the elements carrying it appear in the
      result in the same order as in the input. */
  lemma {:induction false} SortDescStable<T>(s: seq<T>, key: T -> int, k: int)
    ensures WithKey(SortDesc(s, key), key, k) == WithKey(s, key, k)
  {
    if s != [] {
      var init, last := s[..|s| - 1], s[|s| - 1];
      SortDescStable(init, key, k);
      SortDescSorted(init, key);
      InsertWithKey(SortDesc(init, key), last, key, k);
      assert s == init + [last];
      WithKeyConcat(init, [last], key, k);
    }
  }

  /** No two elements share a projection `p` (for instance, a user id). */
  ghost predicate DistinctBy<T, K>(s: seq<T>, p: T -> K) {
    forall i, j :: 0 <= i < j < |s| ==> p(s[i]) != p(s[j])
  }

  lemma {:induction false} InsertDistinctBy<T, K>(t: seq<T>, x: T, key: T -> int, p: T -> K)
    requires DistinctBy(t, p)
    requires forall i :: 0 <= i < |t| ==> p(t[i]) != p(x)
    ensures DistinctBy(Insert(t, x, key), p)
  {
    if t != [] && key(t[0]) >= key(x) {
      var rest := Insert(t[1..], x, key);
      InsertDistinctBy(t[1..], x, key, p);
      InsertElements(t[1..], x, key);
      forall j | 0 <= j < |rest| ensures p(t[0]) != p(rest[j]) {
        assert rest[j] in multiset(rest);
        if rest[j] != x {
          assert rest[j] in t[1..];
          var k :| 0 <= k < |t[1..]| && t[1..][k] == rest[j];
          assert t[1..][k] == t[k + 1];
        }
      }
      var r := [t[0]] + rest;
      forall i, j | 0 <= i < j < |r| ensures p(r[i]) != p(r[j]) {
        if i > 0 {
          assert r[i] == rest[i - 1] && r[j] == rest[j - 1];
        }
      }
    }
  }

  /** Sorting keeps projections distinct: one entry per user stays one entry per user. */
  lemma {:induction false} SortDescDistinctBy<T, K>(s: seq<T>, key: T -> int, p: T -> K)
    requires DistinctBy(s, p)
    ensures DistinctBy(SortDesc(s, key), p)
  {
    if s != [] {
      var init, last := s[..|s| - 1], s[|s| - 1];
      var sorted := SortDesc(init, key);
      SortDescDistinctBy(init, key, p);
      SortDescPermutation(init, key);
      forall i | 0 <= i < |sorted| ensures p(sorted[i]) != p(last) {
        assert sorted[i] in multiset(init);
        var k :| 0 <= k < |init| && init[k] == sorted[i];
      }
      InsertDistinctBy(sorted, last, key, p);
    }
  }

  /** The first `n` elements of a sorted list are sorted, and none of them has a key
      below that of an element after them. */
  lemma SortedTake<T>(s: seq<T>, key: T -> int, n: int)
    requires SortedDesc(s, key) && 0 <= n <= |s|
    ensures SortedDesc(s[..n], key)
    ensures forall i, j :: 0 <= i < n <= j < |s| ==> key(s[..n][i]) >= key(s[j])
  {
  }

  // ---------------------------------------------------------------- sums

  lemma {:induction false} SumByConcat<T>(a: seq<T>, b: seq<T>, f: T -> int)
    ensures SumBy(a + b, f) == SumBy(a, f) + SumBy(b, f)
  {
    if a == [] {
      assert a + b == b;
    } else {
      SumByConcat(a[1..], b, f);
      assert (a + b)[0] == a[0];
      assert (a + b)[1..] == a[1..] + b;
    }
  }

  lemma {:induction false} InsertSum<T>(t: seq<T>, x: T, key: T -> int, f: T -> int)
    ensures SumBy(Insert(t, x, key), f) == SumBy(t, f) + f(x)
  {
    if t == [] {
    } else if key(t[0]) < key(x) {
      assert ([x] + t)[1..] == t;
    } else {
      InsertSum(t[1..], x, key, f);
      assert ([t[0]] + Insert(t[1..], x, key))[1..] == Insert(t[1..], x, key);
    }
  }

  /** Sorting does not change the sum of any per-element quantity. */
  lemma {:induction false} SortDescSum<T>(s: seq<T>, key: T -> int, f: T -> int)
    ensures SumBy(SortDesc(s, key), f) == SumBy(s, f)
  {
    if s != [] {
      var init, last := s[..|s| - 1], s[|s| - 1];
      SortDescSum(init, key, f);
      InsertSum(SortDesc(init, key), last, key, f);
      assert s == init + [last];
      SumByConcat(init, [last], f);
    }
  }

  // ---------------------------------------------------------------- in place

  /** Where the insertion loop stops, `Insert` puts `x`. */
  lemma {:induction false} InsertAt<T>(t: seq<T>, x: T, key: T -> int, j: nat)
    requires j <= |t|
    requires forall m :: 0 <= m < j ==> key(t[m]) >= key(x)
    requires forall m :: j <= m < |t| ==> key(t[m]) < key(x)
    ensures Insert(t, x, key) == t[..j] + [x] + t[j..]
  {
    if j == 0 {
      assert t[j..] == t;
    } else {
      InsertAt(t[1..], x, key, j - 1);
      assert t[1..][..j - 1] == t[1..j];
      assert t[1..][j - 1..] == t[j..];
      assert t[..j] == [t[0]] + t[1..j];
    }
  }

  /** One step of the in-place sort: `a[i]` moves left past every element of the
      sorted prefix `a[..i]` whose key is strictly smaller than its own. */
  method InsertIntoPrefix<T>(a: array<T>, i: nat, key: T -> int)
    requires i < a.Length
    requires SortedDesc(a[..i], key)
    modifies a
    ensures a[..i + 1] == Insert(old(a[..i]), old(a[i]), key)
    ensures a[i + 1..] == old(a[i + 1..])
  {
    var x := a[i];
    ghost var t := a[..i];
    var j := ShiftRight(a, i, key);
    a[j] := x;
    assert forall m :: 0 <= m < j ==> key(t[m]) >= key(x) by {
      if j > 0 {
        assert forall m :: 0 <= m < j ==> key(t[m]) >= key(t[j - 1]);
      }
    }
    InsertAt(t, x, key, j);
    Shifted(a[..i + 1], t, x, j);
    assert a[i + 1..] == old(a[i + 1..]);
  }

  /** The shifting loop: every element of `a[..i]` with a key below that of `a[i]`,
      going leftwards, moves one place to the right; `j` is the gap left behind. */
  method ShiftRight<T>(a: array<T>, i: nat, key: T -> int) returns (j: nat)
    requires i < a.Length
    modifies a
    ensures j <= i
    ensures forall m :: 0 <= m < j ==> a[m] == old(a[m])
    ensures forall m :: j < m <= i ==> a[m] == old(a[m - 1])
    ensures forall m :: i < m < a.Length ==> a[m] == old(a[m])
    ensures j > 0 ==> key(old(a[j - 1])) >= key(old(a[i]))
    ensures forall m :: j <= m < i ==> key(old(a[m])) < key(old(a[i]))
  {
    var x := a[i];
    j := i;
    while j > 0 && key(a[j - 1]) < key(x)
      invariant 0 <= j <= i
      invariant forall m :: 0 <= m < j ==> a[m] == old(a[m])
      invariant forall m :: j < m <= i ==> a[m] == old(a[m - 1])
      invariant forall m :: i < m < a.Length ==> a[m] == old(a[m])
      invariant forall m :: j <= m < i ==> key(old(a[m])) < key(x)
    {
      a[j] := a[j - 1];
      j := j - 1;
    }
  }

  /** The array prefix the shifting loop leaves behind: `t` with `x` placed at `j`. */
  lemma Shifted<T>(s: seq<T>, t: seq<T>, x: T, j: nat)
    requires |s| == |t| + 1 && j <= |t|
    requires forall m :: 0 <= m < j ==> s[m] == t[m]
    requires s[j] == x
    requires forall m :: j < m < |s| ==> s[m] == t[m - 1]
    ensures s == t[..j] + [x] + t[j..]
  {
  }

  /** The in-place sort: an insertion sort on the array, stable because an element
      only moves past elements whose key is strictly smaller than its own. */
  method SortInPlace<T>(a: array<T>, key: T -> int)
    modifies a
    ensures a[..] == SortDesc(old(a[..]), key)
  {
    ghost var input := a[..];
    var i := 0;
    while i < a.Length
      invariant 0 <= i <= a.Length
      invariant a[..i] == SortDesc(input[..i], key)
      invariant a[i..] == input[i..]
    {
      SortDescSorted(input[..i], key);
      InsertIntoPrefix(a, i, key);
      assert input[..i + 1][..i] == input[..i];
      assert input[..i + 1][i] == input[i];
      i := i + 1;
    }
    assert a[..] == a[..a.Length];
    assert input == input[..a.Length];
  }

  /** `Array.from(values).sort(...)`: the values copied into a fresh array, which is
      then sorted in place. */
  method SortedCopy<T>(values: seq<T>, key: T -> int) returns (sorted: seq<T>)
    ensures sorted == SortDesc(values, key)
  {
    var a := new T[|values|](k requires 0 <= k < |values| => values[k]);
    assert a[..] == values;
    SortInPlace(a, key);
    sorted := a[..];
  }
}
