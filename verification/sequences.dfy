/**
 * The array operations the pages rely on: `filter`, a stable `sort` with a numeric
 * comparator, and `Array.from(new Set(strings)).sort()`.
 */
module Sequences {
  import opened Wrappers

  // ---------------------------------------------------------------------------
  // Array.prototype.filter
  // ---------------------------------------------------------------------------

  /** `a` is `b` with some elements left out, the rest in their original order. */
  predicate IsSubsequence<T(==)>(a: seq<T>, b: seq<T>)
    decreases |b|
  {
    if |a| == 0 then true
    else if |b| == 0 then false
    else if a[0] == b[0] then IsSubsequence(a[1..], b[1..])
    else IsSubsequence(a, b[1..])
  }

  /** `xs.filter(keep)`. */
  function Filter<T(==,!new)>(xs: seq<T>, keep: T -> bool): (r: seq<T>)
    ensures forall x | x in r :: keep(x)
    ensures forall x :: multiset(r)[x] == if keep(x) then multiset(xs)[x] else 0
    decreases |xs|
  {
    if |xs| == 0 then []
    else
      var rest := Filter(xs[1..], keep);
      assert xs == [xs[0]] + xs[1..];
      if keep(xs[0]) then [xs[0]] + rest else rest
  }

  /** `xs.map(f).filter(defined)`: the defined results of `f`, in the order of `xs`. */
  function FilterMap<A(!new), B(!new)>(xs: seq<A>, f: A -> Option<B>): (r: seq<B>)
    ensures forall y :: y in r <==> exists x | x in xs :: f(x) == Some(y)
    decreases |xs|
  {
    if |xs| == 0 then []
    else
      var rest := FilterMap(xs[1..], f);
      assert forall x | x in xs :: x == xs[0] || x in xs[1..];
      if f(xs[0]).Some? then [f(xs[0]).value] + rest else rest
  }

  /** When `f` is defined everywhere on `xs`, nothing is dropped and the order is kept. */
  lemma {:induction false} FilterMapTotal<A(!new), B(!new)>(xs: seq<A>, f: A -> Option<B>, ys: seq<B>)
    requires |xs| == |ys|
    requires forall k | 0 <= k < |xs| :: f(xs[k]) == Some(ys[k])
    ensures FilterMap(xs, f) == ys
    decreases |xs|
  {
    if |xs| > 0 {
      FilterMapTotal(xs[1..], f, ys[1..]);
    }
  }

  /** The kept elements appear in the order they had. */
  lemma {:induction false} FilterIsSubsequence<T(!new)>(xs: seq<T>, keep: T -> bool)
    ensures IsSubsequence(Filter(xs, keep), xs)
    decreases |xs|
  {
    if |xs| > 0 {
      FilterIsSubsequence(xs[1..], keep);
      var rest := Filter(xs[1..], keep);
      if !keep(xs[0]) {
        SubsequenceOfTail(rest, xs);
      }
    }
  }

  lemma {:induction false} SubsequenceOfTail<T>(a: seq<T>, b: seq<T>)
    requires |b| > 0 && IsSubsequence(a, b[1..])
    ensures IsSubsequence(a, b)
    decreases |b|, 0
  {
    if |a| > 0 && a[0] == b[0] {
      SubsequenceDropHead(a, b[1..]);
    }
  }

  lemma {:induction false} SubsequenceDropHead<T>(a: seq<T>, b: seq<T>)
    requires |a| > 0 && IsSubsequence(a, b)
    ensures IsSubsequence(a[1..], b)
    decreases |b|, 1
  {
    if |b| > 0 {
      if a[0] == b[0] {
        SubsequenceOfTail(a[1..], b);
      } else {
        SubsequenceDropHead(a, b[1..]);
        SubsequenceOfTail(a[1..], b);
      }
    }
  }

  /** The filtered list holds exactly the kept elements of the input. */
  lemma FilterMembers<T(!new)>(xs: seq<T>, keep: T -> bool)
    ensures forall x :: x in Filter(xs, keep) <==> x in xs && keep(x)
  {
    var r := Filter(xs, keep);
    assert forall x :: x in r <==> x in multiset(r);
    assert forall x :: x in xs <==> x in multiset(xs);
  }

  /** A filter that keeps everything returns its input. */
  lemma FilterKeepAll<T(!new)>(xs: seq<T>, keep: T -> bool)
    requires forall x | x in xs :: keep(x)
    ensures Filter(xs, keep) == xs
  {
    if |xs| > 0 {
      FilterKeepAll(xs[1..], keep);
      assert xs == [xs[0]] + xs[1..];
    }
  }

  // ---------------------------------------------------------------------------
  // Array.prototype.sort with the comparator (a, b) => key(a) - key(b)
  // ---------------------------------------------------------------------------

  /** Non-decreasing by `key`. */
  predicate SortedBy<T>(xs: seq<T>, key: T -> int) {
    forall i, j | 0 <= i < j < |xs| :: key(xs[i]) <= key(xs[j])
  }

  /** Place `x` in front of the first element whose key is not smaller. */
  function Insert<T>(x: T, xs: seq<T>, key: T -> int): (r: seq<T>)
    requires SortedBy(xs, key)
    ensures SortedBy(r, key)
    ensures multiset(r) == multiset(xs) + multiset{x}
    ensures |r| == |xs| + 1 && (r[0] == x || (|xs| > 0 && r[0] == xs[0]))
    decreases |xs|
  {
    if |xs| == 0 then [x]
    else if key(x) <= key(xs[0]) then [x] + xs
    else
      var rest := Insert(x, xs[1..], key);
      assert xs == [xs[0]] + xs[1..];
      [xs[0]] + rest
  }

  /** Two lists with the same multiset hold the same elements. */
  lemma SameElements<T>(a: seq<T>, b: seq<T>)
    requires multiset(a) == multiset(b)
    ensures forall x :: x in a <==> x in b
  {
    assert forall x :: x in a <==> x in multiset(a);
    assert forall x :: x in b <==> x in multiset(b);
  }

  /**
   * `xs.sort((a, b) => key(a) - key(b))`. The ECMAScript sort is stable, and so is
   * insertion in front of the first element with a key not smaller than the new one.
   */
  function SortBy<T>(xs: seq<T>, key: T -> int): (r: seq<T>)
    ensures SortedBy(r, key)
    ensures multiset(r) == multiset(xs)
    ensures |r| == |xs|
    decreases |xs|
  {
    if |xs| == 0 then []
    else
      assert xs == [xs[0]] + xs[1..];
      Insert(xs[0], SortBy(xs[1..], key), key)
  }

  /** The elements of `xs` whose key is `k`, in their order in `xs`. */
  function WithKey<T>(xs: seq<T>, key: T -> int, k: int): seq<T>
    decreases |xs|
  {
    if |xs| == 0 then []
    else (if key(xs[0]) == k then [xs[0]] else []) + WithKey(xs[1..], key, k)
  }

  lemma WithKeyCons<T>(y: T, ys: seq<T>, key: T -> int, k: int)
    ensures WithKey([y] + ys, key, k) == (if key(y) == k then [y] else []) + WithKey(ys, key, k)
  {
    assert ([y] + ys)[1..] == ys;
  }

  /** Inserting `x` puts it in front of every element with the same key. */
  lemma {:induction false} InsertWithKey<T>(x: T, xs: seq<T>, key: T -> int, k: int)
    requires SortedBy(xs, key)
    ensures WithKey(Insert(x, xs, key), key, k) == (if key(x) == k then [x] else []) + WithKey(xs, key, k)
    decreases |xs|
  {
    if |xs| == 0 || key(x) <= key(xs[0]) {
      WithKeyCons(x, xs, key, k);
    } else {
      InsertPastHead(x, xs, key);
      InsertWithKey(x, xs[1..], key, k);
      assert xs == [xs[0]] + xs[1..];
      PassSmallerKey(x, xs[0], xs[1..], Insert(x, xs[1..], key), key, k);
    }
  }

  /** An element whose key exceeds the head's is inserted into the tail. */
  lemma InsertPastHead<T>(x: T, xs: seq<T>, key: T -> int)
    requires SortedBy(xs, key) && |xs| > 0 && key(xs[0]) < key(x)
    ensures SortedBy(xs[1..], key)
    ensures Insert(x, xs, key) == [xs[0]] + Insert(x, xs[1..], key)
  {
  }

  /** Passing over an element with a smaller key does not change where `x` lands among its equals. */
  lemma PassSmallerKey<T>(x: T, y: T, ys: seq<T>, rest: seq<T>, key: T -> int, k: int)
    requires key(y) < key(x)
    requires WithKey(rest, key, k) == (if key(x) == k then [x] else []) + WithKey(ys, key, k)
    ensures WithKey([y] + rest, key, k) == (if key(x) == k then [x] else []) + WithKey([y] + ys, key, k)
  {
    WithKeyCons(y, rest, key, k);
    WithKeyCons(y, ys, key, k);
  }

  /** The sort is stable: elements with equal keys keep their relative order. */
  lemma {:induction false} SortStable<T>(xs: seq<T>, key: T -> int, k: int)
    ensures WithKey(SortBy(xs, key), key, k) == WithKey(xs, key, k)
    decreases |xs|
  {
    if |xs| > 0 {
      SortStable(xs[1..], key, k);
      InsertWithKey(xs[0], SortBy(xs[1..], key), key, k);
    }
  }

  /** Sorting a list that is already in order changes nothing; in particular sorting is idempotent. */
  lemma {:induction false} SortSortedIsIdentity<T>(xs: seq<T>, key: T -> int)
    requires SortedBy(xs, key)
    ensures SortBy(xs, key) == xs
    decreases |xs|
  {
    if |xs| > 0 {
      SortSortedIsIdentity(xs[1..], key);
      assert xs == [xs[0]] + xs[1..];
    }
  }

  /** Sorting by the negated key (`(a, b) => key(b) - key(a)`) gives a non-increasing order. */
  lemma SortDescending<T>(xs: seq<T>, key: T -> int, negated: T -> int)
    requires forall x :: negated(x) == -key(x)
    ensures forall i, j | 0 <= i < j < |SortBy(xs, negated)| ::
      key(SortBy(xs, negated)[i]) >= key(SortBy(xs, negated)[j])
  {
    var r := SortBy(xs, negated);
    assert SortedBy(r, negated);
    forall i, j | 0 <= i < j < |r| ensures key(r[i]) >= key(r[j]) {
      assert negated(r[i]) <= negated(r[j]);
      assert negated(r[i]) == -key(r[i]) && negated(r[j]) == -key(r[j]);
    }
  }

  // ---------------------------------------------------------------------------
  // Array.from(new Set(strings)).sort()
  // ---------------------------------------------------------------------------

  /** The default string order of `sort()`: lexicographic by character. */
  predicate LexLess(a: string, b: string)
    decreases |a|
  {
    if |b| == 0 then false
    else if |a| == 0 then true
    else if a[0] != b[0] then a[0] < b[0]
    else LexLess(a[1..], b[1..])
  }

  lemma {:induction false} LexLessIrreflexive(a: string)
    ensures !LexLess(a, a)
    decreases |a|
  {
    if |a| > 0 {
      LexLessIrreflexive(a[1..]);
    }
  }

  lemma {:induction false} LexLessTransitive(a: string, b: string, c: string)
    requires LexLess(a, b) && LexLess(b, c)
    ensures LexLess(a, c)
    decreases |a|
  {
    if |a| > 0 && a[0] == b[0] && b[0] == c[0] {
      LexLessTransitive(a[1..], b[1..], c[1..]);
    }
  }

  lemma {:induction false} LexLessTotal(a: string, b: string)
    requires a != b
    ensures LexLess(a, b) || LexLess(b, a)
    decreases |a|
  {
    if |a| > 0 && |b| > 0 && a[0] == b[0] {
      assert a == [a[0]] + a[1..] && b == [b[0]] + b[1..];
      LexLessTotal(a[1..], b[1..]);
    }
  }

  /** Strictly increasing: in order and without repeats. */
  predicate StrictlySorted(xs: seq<string>) {
    forall i, j | 0 <= i < j < |xs| :: LexLess(xs[i], xs[j])
  }

  /** The strings of a list, as a set. */
  function Elems(xs: seq<string>): set<string> {
    set x | x in xs
  }

  lemma ElemsCons(x: string, xs: seq<string>)
    ensures Elems([x] + xs) == {x} + Elems(xs)
  {
    assert forall y | y in [x] + xs :: y == x || y in xs;
  }

  /** A string below every element of a strictly sorted list can go in front of it. */
  lemma ConsStrictlySorted(y: string, ys: seq<string>)
    requires StrictlySorted(ys)
    requires forall k | 0 <= k < |ys| :: LexLess(y, ys[k])
    ensures StrictlySorted([y] + ys)
  {
    var r := [y] + ys;
    forall i, j | 0 <= i < j < |r| ensures LexLess(r[i], r[j]) {
      assert r[j] == ys[j - 1];
      if i > 0 {
        assert r[i] == ys[i - 1];
      }
    }
  }

  /** Add `x` to a strictly sorted list unless it is already there. */
  function InsertUnique(x: string, xs: seq<string>): (r: seq<string>)
    requires StrictlySorted(xs)
    ensures StrictlySorted(r)
    ensures Elems(r) == Elems(xs) + {x}
    decreases |xs|
  {
    if |xs| == 0 then [x]
    else if x == xs[0] then xs
    else if LexLess(x, xs[0]) then
      forall j | 0 <= j < |xs| ensures LexLess(x, xs[j]) {
        if j > 0 {
          LexLessTransitive(x, xs[0], xs[j]);
        }
      }
      ConsStrictlySorted(x, xs);
      ElemsCons(x, xs);
      [x] + xs
    else
      LexLessTotal(x, xs[0]);
      var tail := xs[1..];
      var rest := InsertUnique(x, tail);
      forall k | 0 <= k < |rest| ensures LexLess(xs[0], rest[k]) {
        var y := rest[k];
        assert y in Elems(rest);
        if y != x {
          var j :| 0 <= j < |tail| && tail[j] == y;
          assert xs[j + 1] == y;
        }
      }
      ConsStrictlySorted(xs[0], rest);
      assert xs == [xs[0]] + tail;
      ElemsCons(xs[0], tail);
      ElemsCons(xs[0], rest);
      [xs[0]] + rest
  }

  /** `Array.from(new Set(xs)).sort()`: every distinct string once, in increasing order. */
  function SortedDistinct(xs: seq<string>): (r: seq<string>)
    ensures StrictlySorted(r)
    ensures Elems(r) == Elems(xs)
    decreases |xs|
  {
    if |xs| == 0 then []
    else
      var n := |xs| - 1;
      assert xs == xs[..n] + [xs[n]];
      InsertUnique(xs[n], SortedDistinct(xs[..n]))
  }

  /** A strictly sorted list has no repeats. */
  lemma StrictlySortedDistinct(xs: seq<string>, i: nat, j: nat)
    requires StrictlySorted(xs) && i < j < |xs|
    ensures xs[i] != xs[j]
  {
    LexLessIrreflexive(xs[i]);
  }
}
