/**
 * `Array.prototype.sort` with a comparator. The language requires the sort to
 * be stable, so for a comparator that orders by a numeric key the result is
 * fixed: it is what stable insertion sort produces, which is the definition
 * used here. `before(a, b)` holds when the comparator puts `a` strictly
 * before `b` (it returns a negative number).
 */
module Sorting {
  import Seqs

  /** Places `x` in front of the first element it must precede, else at the end. */
  function Insert<T>(x: T, s: seq<T>, before: (T, T) -> bool): (r: seq<T>)
    ensures |r| == |s| + 1
    ensures multiset(r) == multiset(s) + multiset{x}
  {
    if s == [] || before(x, s[0]) then [x] + s
    else
      var rest := Insert(x, s[1..], before);
      assert s == [s[0]] + s[1..];
      [s[0]] + rest
  }

  /** Stable insertion sort: each element in turn is inserted into the sorted prefix. */
  function InsertionSort<T>(s: seq<T>, before: (T, T) -> bool): (r: seq<T>)
    ensures |r| == |s|
    ensures multiset(r) == multiset(s)
  {
    if s == [] then []
    else
      var sorted := InsertionSort(s[..|s| - 1], before);
      assert s == s[..|s| - 1] + [s[|s| - 1]];
      Insert(s[|s| - 1], sorted, before)
  }

  /** A comparator that subtracts the first element's key from the second's: larger keys first. */
  function Descending<T>(key: T -> real): (T, T) -> bool {
    (a: T, b: T) => key(a) > key(b)
  }

  /** Keys never increase from left to right. */
  ghost predicate NonIncreasing<T>(s: seq<T>, key: T -> real) {
    forall i, j :: 0 <= i < j < |s| ==> key(s[i]) >= key(s[j])
  }

  /** On the elements of `s`, `before` is "has a larger key". */
  ghost predicate OrdersByKey<T>(s: seq<T>, before: (T, T) -> bool, key: T -> real) {
    forall a, b :: a in s && b in s ==> (before(a, b) <==> key(a) > key(b))
  }

  lemma {:induction false} InsertKeepsNonIncreasing<T>(x: T, s: seq<T>, before: (T, T) -> bool, key: T -> real)
    requires NonIncreasing(s, key)
    requires OrdersByKey(s + [x], before, key)
    ensures NonIncreasing(Insert(x, s, before), key)
  {
    if s != [] {
      var h, tail := s[0], s[1..];
      assert x in s + [x] && h in s + [x];
      if before(x, h) {
        forall y | y in s ensures key(x) >= key(y) {
          HeadIsLargest(s, y, key);
        }
        NonIncreasingCons(x, s, key);
      } else {
        NonIncreasingTail(s, key);
        assert OrdersByKey(tail + [x], before, key) by {
          forall a | a in tail + [x] ensures a in s + [x] {
            if a in tail { assert a in s; }
          }
        }
        InsertKeepsNonIncreasing(x, tail, before, key);
        var rest := Insert(x, tail, before);
        forall y | y in rest ensures key(h) >= key(y) {
          assert y in multiset(tail) + multiset{x} by {
            assert y in multiset(rest);
          }
          if y in tail {
            assert y in s;
            HeadIsLargest(s, y, key);
          }
        }
        NonIncreasingCons(h, rest, key);
      }
    }
  }

  /** The first element of a non-increasing sequence has the largest key. */
  lemma HeadIsLargest<T>(s: seq<T>, y: T, key: T -> real)
    requires NonIncreasing(s, key) && y in s
    ensures key(s[0]) >= key(y)
  {
    var k :| 0 <= k < |s| && s[k] == y;
    if k > 0 {
      assert key(s[0]) >= key(s[k]);
    }
  }

  lemma NonIncreasingTail<T>(s: seq<T>, key: T -> real)
    requires NonIncreasing(s, key) && s != []
    ensures NonIncreasing(s[1..], key)
  {
    var tail := s[1..];
    forall i, j | 0 <= i < j < |tail| ensures key(tail[i]) >= key(tail[j]) {
      assert tail[i] == s[i + 1] && tail[j] == s[j + 1];
    }
  }

  lemma NonIncreasingCons<T>(h: T, s: seq<T>, key: T -> real)
    requires NonIncreasing(s, key)
    requires forall y :: y in s ==> key(h) >= key(y)
    ensures NonIncreasing([h] + s, key)
  {
    var r := [h] + s;
    forall i, j | 0 <= i < j < |r| ensures key(r[i]) >= key(r[j]) {
      assert r[j] == s[j - 1] && s[j - 1] in s;
      if i > 0 {
        assert r[i] == s[i - 1];
      }
    }
  }

  /** With a comparator that orders by a key, the sorted result is non-increasing in that key. */
  lemma {:induction false} InsertionSortNonIncreasing<T>(s: seq<T>, before: (T, T) -> bool, key: T -> real)
    requires OrdersByKey(s, before, key)
    ensures NonIncreasing(InsertionSort(s, before), key)
  {
    if s != [] {
      var init := s[..|s| - 1];
      assert OrdersByKey(init, before, key) by {
        forall a | a in init ensures a in s { }
      }
      InsertionSortNonIncreasing(init, before, key);
      var sorted := InsertionSort(init, before);
      assert OrdersByKey(sorted + [s[|s| - 1]], before, key) by {
        forall a | a in sorted + [s[|s| - 1]] ensures a in s {
          if a in sorted {
            assert a in multiset(sorted);
            assert a in multiset(init);
            assert a in init;
          }
        }
      }
      InsertKeepsNonIncreasing(s[|s| - 1], sorted, before, key);
    }
  }

  /** Sorting with `Descending(key)` gives keys in non-increasing order. */
  lemma SortDescendingNonIncreasing<T>(s: seq<T>, key: T -> real)
    ensures NonIncreasing(InsertionSort(s, Descending(key)), key)
  {
    InsertionSortNonIncreasing(s, Descending(key), key);
  }

  /** A prefix of a non-increasing sequence is non-increasing. */
  lemma PrefixNonIncreasing<T>(s: seq<T>, n: nat, key: T -> real)
    requires n <= |s|
    requires NonIncreasing(s, key)
    ensures NonIncreasing(s[..n], key)
  {
  }

  /** Every element past the first `n` of a non-increasing sequence has a key no larger than any of the first `n`. */
  lemma PrefixDominates<T>(s: seq<T>, n: nat, key: T -> real, x: T)
    requires n <= |s|
    requires NonIncreasing(s, key)
    requires x in s && x !in s[..n]
    ensures forall y :: y in s[..n] ==> key(y) >= key(x)
  {
    assert s == s[..n] + s[n..];
    assert x in s[n..];
    var k :| 0 <= k < |s| - n && s[n..][k] == x;
    var q := n + k;
    assert s[q] == x;
    forall y | y in s[..n] ensures key(y) >= key(x) {
      var p :| 0 <= p < n && s[..n][p] == y;
      assert s[p] == y;
    }
  }

  /** The sum of `f` over `s`, as a reduce from 0 adds it up. */
  function SumBy<T>(s: seq<T>, f: T -> int): int {
    if s == [] then 0 else f(s[0]) + SumBy(s[1..], f)
  }

  lemma {:induction false} InsertSumBy<T>(x: T, s: seq<T>, before: (T, T) -> bool, f: T -> int)
    ensures SumBy(Insert(x, s, before), f) == SumBy(s, f) + f(x)
  {
    if s != [] && !before(x, s[0]) {
      InsertSumBy(x, s[1..], before, f);
    }
  }

  /** Sorting does not change a sum over the elements. */
  lemma {:induction false} InsertionSortSumBy<T>(s: seq<T>, before: (T, T) -> bool, f: T -> int)
    ensures SumBy(InsertionSort(s, before), f) == SumBy(s, f)
  {
    if s != [] {
      var init, last := s[..|s| - 1], s[|s| - 1];
      assert s == init + [last];
      InsertionSortSumBy(init, before, f);
      InsertSumBy(last, InsertionSort(init, before), before, f);
      SumBySnoc(init, last, f);
    }
  }

  lemma {:induction false} SumBySnoc<T>(s: seq<T>, x: T, f: T -> int)
    ensures SumBy(s + [x], f) == SumBy(s, f) + f(x)
  {
    if s != [] {
      assert (s + [x])[1..] == s[1..] + [x];
      SumBySnoc(s[1..], x, f);
    }
  }

  /**
   * Sorting commutes with a projection `g` when the comparator on projected
   * values agrees with the one on the originals.
   */
  lemma {:induction false} InsertMap<T, U>(x: T, s: seq<T>, before: (T, T) -> bool, g: T -> U, before': (U, U) -> bool)
    requires forall a, b :: before'(g(a), g(b)) == before(a, b)
    ensures Seqs.Map(Insert(x, s, before), g) == Insert(g(x), Seqs.Map(s, g), before')
  {
    if s != [] && !before(x, s[0]) {
      InsertMap(x, s[1..], before, g, before');
      assert Seqs.Map(s, g)[1..] == Seqs.Map(s[1..], g);
    }
  }

  lemma {:induction false} InsertionSortMap<T, U>(s: seq<T>, before: (T, T) -> bool, g: T -> U, before': (U, U) -> bool)
    requires forall a, b :: before'(g(a), g(b)) == before(a, b)
    ensures Seqs.Map(InsertionSort(s, before), g) == InsertionSort(Seqs.Map(s, g), before')
  {
    if s != [] {
      var init := s[..|s| - 1];
      InsertionSortMap(init, before, g, before');
      InsertMap(s[|s| - 1], InsertionSort(init, before), before, g, before');
      assert Seqs.Map(s, g)[..|s| - 1] == Seqs.Map(init, g);
    }
  }

  /** `Insert` puts `x` after every element it need not precede and before the first one it must. */
  lemma {:induction false} InsertAt<T>(x: T, s: seq<T>, before: (T, T) -> bool, j: nat)
    requires j <= |s|
    requires forall k :: 0 <= k < j ==> !before(x, s[k])
    requires j < |s| ==> before(x, s[j])
    ensures Insert(x, s, before) == s[..j] + [x] + s[j..]
  {
    if j == 0 {
      assert s[..0] + [x] + s[0..] == [x] + s;
    } else {
      var tail := s[1..];
      InsertPastHead(x, s, before);
      forall k | 0 <= k < j - 1 ensures !before(x, tail[k]) {
        assert tail[k] == s[k + 1];
      }
      InsertAt(x, tail, before, j - 1);
      SplitAfterHead(s, j, x);
    }
  }

  lemma InsertPastHead<T>(x: T, s: seq<T>, before: (T, T) -> bool)
    requires s != [] && !before(x, s[0])
    ensures Insert(x, s, before) == [s[0]] + Insert(x, s[1..], before)
  {
  }

  lemma SplitAfterHead<T>(s: seq<T>, j: nat, x: T)
    requires 0 < j <= |s|
    ensures s[..j] + [x] + s[j..] == [s[0]] + (s[1..][..j - 1] + [x] + s[1..][j - 1..])
  {
    assert s[..j] == [s[0]] + s[1..][..j - 1];
    assert s[j..] == s[1..][j - 1..];
  }
}
