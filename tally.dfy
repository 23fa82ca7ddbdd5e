/**
 * Counting by key, in a plain object or in a `Map` whose entry for a key is
 * incremented (starting from zero) for each occurrence, followed by
 * `Object.entries` / `Array.from(map)`. Both keep keys in the order
 * of their first insertion, so the counter is an association list whose new
 * keys go at the end.
 */
module Tally {
  import Seqs
  import opened Sorting
  import opened Js

  /** One `[key, count]` pair of the counter. */
  datatype Entry = Entry(key: string, count: nat)

  /** The keys of a counter, in order. */
  function Keys(t: seq<Entry>): (ks: seq<string>)
    ensures |ks| == |t|
    ensures forall i :: 0 <= i < |t| ==> ks[i] == t[i].key
  {
    if t == [] then [] else [t[0].key] + Keys(t[1..])
  }

  /** Sum of the counts. */
  function Total(t: seq<Entry>): nat {
    if t == [] then 0 else t[0].count + Total(t[1..])
  }

  /** No key appears twice. */
  ghost predicate DistinctKeys(t: seq<Entry>) {
    forall i, j :: 0 <= i < j < |t| ==> t[i].key != t[j].key
  }

  /** Position of `k` in the counter, or |t| when absent. */
  function IndexOfKey(t: seq<Entry>, k: string): (i: nat)
    ensures i <= |t|
    ensures i < |t| ==> t[i].key == k
    ensures forall j :: 0 <= j < i ==> t[j].key != k
  {
    if t == [] then 0 else if t[0].key == k then 0 else 1 + IndexOfKey(t[1..], k)
  }

  /** One increment: an existing key is bumped in place, a new key is appended with count 1. */
  function Bump(t: seq<Entry>, k: string): seq<Entry> {
    var i := IndexOfKey(t, k);
    if i < |t| then t[i := Entry(k, t[i].count + 1)] else t + [Entry(k, 1)]
  }

  /** The counter after counting every key of `keys` in order. */
  function Count(keys: seq<string>): seq<Entry> {
    if keys == [] then [] else Bump(Count(keys[..|keys| - 1]), keys[|keys| - 1])
  }

  /** Counting one more key is one more `Bump`. */
  lemma CountSnoc(keys: seq<string>, k: string)
    ensures Count(keys + [k]) == Bump(Count(keys), k)
  {
    assert (keys + [k])[..|keys|] == keys;
  }

  lemma {:induction false} TotalUpdate(t: seq<Entry>, i: nat, e: Entry)
    requires i < |t|
    ensures Total(t[i := e]) == Total(t) - t[i].count + e.count
  {
    if i > 0 {
      assert t[i := e][1..] == t[1..][i - 1 := e];
      TotalUpdate(t[1..], i - 1, e);
    }
  }

  lemma {:induction false} TotalAppend(t: seq<Entry>, e: Entry)
    ensures Total(t + [e]) == Total(t) + e.count
  {
    if t != [] {
      assert (t + [e])[1..] == t[1..] + [e];
      TotalAppend(t[1..], e);
    }
  }

  /** Every count is at least 1, and adding one key adds exactly one to the total. */
  lemma BumpTotal(t: seq<Entry>, k: string)
    ensures Total(Bump(t, k)) == Total(t) + 1
  {
    var i := IndexOfKey(t, k);
    if i < |t| {
      TotalUpdate(t, i, Entry(k, t[i].count + 1));
    } else {
      TotalAppend(t, Entry(k, 1));
    }
  }

  /** A bump keeps keys distinct. */
  lemma BumpDistinct(t: seq<Entry>, k: string)
    requires DistinctKeys(t)
    ensures DistinctKeys(Bump(t, k))
  {
  }

  /** A bump adds one to the count of `k` and leaves every other key's count alone. */
  lemma BumpCounts(t: seq<Entry>, k: string, m: multiset<string>)
    requires DistinctKeys(t)
    requires forall i :: 0 <= i < |t| ==> t[i].count == m[t[i].key] && t[i].count >= 1
    requires forall x :: x in m ==> x in Keys(t)
    ensures forall i :: 0 <= i < |Bump(t, k)| ==>
              Bump(t, k)[i].count == (m + multiset{k})[Bump(t, k)[i].key] && Bump(t, k)[i].count >= 1
  {
    var i := IndexOfKey(t, k);
    var r := Bump(t, k);
    var m' := m + multiset{k};
    if i == |t| {
      assert k !in Keys(t);
      assert m[k] == 0;
    }
    forall j | 0 <= j < |r| ensures r[j].count == m'[r[j].key] && r[j].count >= 1 {
      if j == i {
        assert r[j].key == k;
      } else if j < |t| {
        assert r[j] == t[j] && t[j].key != k;
        assert m'[t[j].key] == m[t[j].key];
      }
    }
  }

  /** A bump adds `k` to the key set and nothing else. */
  lemma BumpKeys(t: seq<Entry>, k: string)
    ensures forall x :: x in Keys(Bump(t, k)) <==> x in Keys(t) || x == k
  {
    var i := IndexOfKey(t, k);
    var r := Bump(t, k);
    forall x | x in Keys(r) ensures x in Keys(t) || x == k {
      var j :| 0 <= j < |r| && Keys(r)[j] == x;
      if j < |t| && x != k {
        assert Keys(t)[j] == x;
      }
    }
    forall x | x in Keys(t) ensures x in Keys(r) {
      var j :| 0 <= j < |t| && Keys(t)[j] == x;
      assert Keys(r)[j] == x;
    }
    assert Keys(r)[i] == k;
  }

  /**
   * The counter has exactly one entry per distinct key, and each entry's
   * count is the number of occurrences of its key.
   */
  lemma {:induction false} CountIsHistogram(keys: seq<string>)
    ensures DistinctKeys(Count(keys))
    ensures forall i :: 0 <= i < |Count(keys)| ==>
              Count(keys)[i].count == multiset(keys)[Count(keys)[i].key] && Count(keys)[i].count >= 1
    ensures forall k :: k in Keys(Count(keys)) <==> k in keys
  {
    if keys != [] {
      var init, last := keys[..|keys| - 1], keys[|keys| - 1];
      assert keys == init + [last];
      assert multiset(keys) == multiset(init) + multiset{last};
      CountIsHistogram(init);
      var t := Count(init);
      BumpDistinct(t, last);
      BumpCounts(t, last, multiset(init));
      BumpKeys(t, last);
    }
  }

  /** Counting conserves the number of keys: the counts add up to |keys|. */
  lemma {:induction false} CountTotal(keys: seq<string>)
    ensures Total(Count(keys)) == |keys|
  {
    if keys != [] {
      CountTotal(keys[..|keys| - 1]);
      BumpTotal(Count(keys[..|keys| - 1]), keys[|keys| - 1]);
    }
  }

  /** The counter never has more entries than there were keys. */
  lemma {:induction false} CountLength(keys: seq<string>)
    ensures |Count(keys)| <= |keys|
  {
    if keys != [] {
      CountLength(keys[..|keys| - 1]);
    }
  }

  // ---------------------------------------------------------------------
  // Counting loops, one element at a time
  // ---------------------------------------------------------------------

  /** One more element of a counting loop over `items`, keyed by `f`. */
  lemma CountMapStep<A>(items: seq<A>, i: nat, f: A -> string)
    requires i < |items|
    ensures Count(Seqs.Map(items[..i + 1], f)) == Bump(Count(Seqs.Map(items[..i], f)), f(items[i]))
  {
    assert items[..i + 1] == items[..i] + [items[i]];
    Seqs.MapAppend(items[..i], [items[i]], f);
    CountSnoc(Seqs.Map(items[..i], f), f(items[i]));
  }

  /** `if (k)`: the empty string is not counted. */
  predicate NonEmpty(k: string) {
    k != ""
  }

  /** One more element of a counting loop that skips empty keys. */
  lemma CountNonEmptyStep<A>(items: seq<A>, x: A, f: A -> string)
    ensures Count(Seqs.Filter(Seqs.Map(items + [x], f), NonEmpty))
         == if f(x) != "" then Bump(Count(Seqs.Filter(Seqs.Map(items, f), NonEmpty)), f(x))
            else Count(Seqs.Filter(Seqs.Map(items, f), NonEmpty))
  {
    Seqs.MapAppend(items, [x], f);
    assert Seqs.Map([x], f) == [f(x)];
    Seqs.FilterAppend(Seqs.Map(items, f), [f(x)], NonEmpty);
    assert Seqs.Filter([f(x)], NonEmpty) == if f(x) != "" then [f(x)] else [];
    if f(x) != "" {
      CountSnoc(Seqs.Filter(Seqs.Map(items, f), NonEmpty), f(x));
    } else {
      var done := Seqs.Filter(Seqs.Map(items, f), NonEmpty);
      assert Seqs.Filter([f(x)], NonEmpty) == [];
      assert Seqs.Filter(Seqs.Map(items + [x], f), NonEmpty) == done + [];
      assert done + [] == done;
    }
  }

  // ---------------------------------------------------------------------
  // Largest counts first
  // ---------------------------------------------------------------------

  /** The count as a sort key. */
  function CountKey(e: Entry): real {
    e.count as real
  }

  lemma {:induction false} InsertDistinct(x: Entry, s: seq<Entry>, before: (Entry, Entry) -> bool)
    requires DistinctKeys(s)
    requires forall e :: e in s ==> e.key != x.key
    ensures DistinctKeys(Insert(x, s, before))
  {
    if s == [] || before(x, s[0]) {
      DistinctCons(x, s);
    } else {
      var tail := s[1..];
      DistinctTail(s);
      InsertDistinct(x, tail, before);
      var rest := Insert(x, tail, before);
      forall e | e in rest ensures e.key != s[0].key {
        assert e in multiset(tail) + multiset{x} by {
          assert e in multiset(rest);
        }
        if e in tail {
          TailKeyDiffers(s, e);
        }
      }
      DistinctCons(s[0], rest);
    }
  }

  lemma DistinctTail(s: seq<Entry>)
    requires DistinctKeys(s) && s != []
    ensures DistinctKeys(s[1..])
  {
    var tail := s[1..];
    forall i, j | 0 <= i < j < |tail| ensures tail[i].key != tail[j].key {
      assert tail[i] == s[i + 1] && tail[j] == s[j + 1];
    }
  }

  lemma TailKeyDiffers(s: seq<Entry>, e: Entry)
    requires DistinctKeys(s) && s != [] && e in s[1..]
    ensures e.key != s[0].key
  {
    var k :| 0 <= k < |s[1..]| && s[1..][k] == e;
    assert s[k + 1] == e;
  }

  lemma DistinctCons(h: Entry, s: seq<Entry>)
    requires DistinctKeys(s)
    requires forall e :: e in s ==> e.key != h.key
    ensures DistinctKeys([h] + s)
  {
    var r := [h] + s;
    forall i, j | 0 <= i < j < |r| ensures r[i].key != r[j].key {
      assert r[j] == s[j - 1] && s[j - 1] in s;
      if i > 0 {
        assert r[i] == s[i - 1];
      }
    }
  }

  /** Sorting a counter keeps its keys distinct. */
  lemma {:induction false} SortDistinct(t: seq<Entry>, before: (Entry, Entry) -> bool)
    requires DistinctKeys(t)
    ensures DistinctKeys(InsertionSort(t, before))
  {
    if t != [] {
      var init := t[..|t| - 1];
      var last := t[|t| - 1];
      SortDistinct(init, before);
      var sorted := InsertionSort(init, before);
      forall e | e in sorted ensures e.key != last.key {
        assert e in multiset(sorted);
        assert e in multiset(init);
        var k :| 0 <= k < |init| && init[k] == e;
        assert t[k] == e;
      }
      InsertDistinct(last, sorted, before);
    }
  }

  /**
   * `entries.sort((a, b) => b.count - a.count).slice(0, limit)`: the largest
   * counts first, ties in their original order.
   */
  function Top(t: seq<Entry>, limit: int): seq<Entry> {
    Slice(InsertionSort(t, Descending(CountKey)), 0, limit)
  }

  /**
   * `Top` keeps `min(limit, |t|)` entries (for `limit >= 0`) in non-increasing
   * count order, everything when `limit >= |t|`, and no entry it leaves out
   * has a larger count than one it keeps.
   */
  lemma TopIsLargest(t: seq<Entry>, limit: int)
    ensures |Top(t, limit)| <= |t|
    ensures 0 <= limit ==> |Top(t, limit)| == if limit <= |t| then limit else |t|
    ensures forall i, j :: 0 <= i < j < |Top(t, limit)| ==> Top(t, limit)[i].count >= Top(t, limit)[j].count
    ensures forall e :: e in Top(t, limit) ==> e in t
    ensures |t| <= limit ==> multiset(Top(t, limit)) == multiset(t)
  {
    var sorted := InsertionSort(t, Descending(CountKey));
    SortDescendingNonIncreasing(t, CountKey);
    var r := Top(t, limit);
    SlicePrefix(sorted, limit);
    PrefixNonIncreasing(sorted, |r|, CountKey);
    assert r == sorted[..|r|];
    forall e | e in r ensures e in t {
      assert e in multiset(sorted);
    }
    if |t| <= limit {
      assert r == sorted;
    }
  }

  /** An entry the cut leaves out has a count no larger than any kept; distinct keys stay distinct. */
  lemma TopKeepsLargest(t: seq<Entry>, limit: int)
    ensures forall e :: e in t && e !in Top(t, limit) ==> forall x :: x in Top(t, limit) ==> x.count >= e.count
    ensures DistinctKeys(t) ==> DistinctKeys(Top(t, limit))
  {
    var sorted := InsertionSort(t, Descending(CountKey));
    SortDescendingNonIncreasing(t, CountKey);
    var r := Top(t, limit);
    SlicePrefix(sorted, limit);
    assert r == sorted[..|r|];
    forall e | e in t && e !in r ensures forall x :: x in r ==> x.count >= e.count {
      assert e in multiset(t);
      assert e in sorted;
      PrefixDominates(sorted, |r|, CountKey, e);
    }
    if DistinctKeys(t) {
      SortDistinct(t, Descending(CountKey));
      forall i, j | 0 <= i < j < |r| ensures r[i].key != r[j].key {
        assert r[i] == sorted[i] && r[j] == sorted[j];
      }
    }
  }

  /** The entry for a key that was counted. */
  lemma EntryOf(keys: seq<string>, k: string) returns (e: Entry)
    requires k in keys
    ensures e in Count(keys) && e.key == k && e.count == multiset(keys)[k]
  {
    CountIsHistogram(keys);
    assert k in Keys(Count(keys));
    var i :| 0 <= i < |Count(keys)| && Keys(Count(keys))[i] == k;
    e := Count(keys)[i];
  }

  /**
   * The largest counts of a histogram: distinct keys that all occur in `keys`,
   * each with its number of occurrences, non-increasing; at most `limit` of
   * them, and a key left out occurs no more often than any key kept (and is
   * only left out when `limit` entries are already shown).
   */
  lemma TopHistogram(keys: seq<string>, limit: int)
    ensures DistinctKeys(Top(Count(keys), limit))
    ensures |Top(Count(keys), limit)| <= |keys|
    ensures 0 <= limit ==> |Top(Count(keys), limit)| <= limit
    ensures forall i, j :: 0 <= i < j < |Top(Count(keys), limit)| ==>
              Top(Count(keys), limit)[i].count >= Top(Count(keys), limit)[j].count
    ensures forall i :: 0 <= i < |Top(Count(keys), limit)| ==>
              Top(Count(keys), limit)[i].key in keys
              && Top(Count(keys), limit)[i].count == multiset(keys)[Top(Count(keys), limit)[i].key]
    ensures forall k :: k in keys && k !in Keys(Top(Count(keys), limit)) ==>
              (0 <= limit ==> |Top(Count(keys), limit)| == limit)
              && forall i :: 0 <= i < |Top(Count(keys), limit)| ==> Top(Count(keys), limit)[i].count >= multiset(keys)[k]
  {
    CountIsHistogram(keys);
    CountLength(keys);
    TopIsLargest(Count(keys), limit);
    TopKeepsLargest(Count(keys), limit);
    TopRowsCounted(keys, limit);
    TopOmittedDominated(keys, limit);
  }

  lemma TopRowsCounted(keys: seq<string>, limit: int)
    ensures forall i :: 0 <= i < |Top(Count(keys), limit)| ==>
              Top(Count(keys), limit)[i].key in keys
              && Top(Count(keys), limit)[i].count == multiset(keys)[Top(Count(keys), limit)[i].key]
  {
    var t := Count(keys);
    var r := Top(t, limit);
    CountIsHistogram(keys);
    TopIsLargest(t, limit);
    forall i | 0 <= i < |r| ensures r[i].key in keys && r[i].count == multiset(keys)[r[i].key] {
      assert r[i] in r;
      assert r[i] in t;
      var j :| 0 <= j < |t| && t[j] == r[i];
      assert Keys(t)[j] == r[i].key;
    }
  }

  lemma TopOmittedDominated(keys: seq<string>, limit: int)
    ensures forall k :: k in keys && k !in Keys(Top(Count(keys), limit)) ==>
              (0 <= limit ==> |Top(Count(keys), limit)| == limit)
              && forall i :: 0 <= i < |Top(Count(keys), limit)| ==> Top(Count(keys), limit)[i].count >= multiset(keys)[k]
  {
    forall k | k in keys && k !in Keys(Top(Count(keys), limit))
      ensures (0 <= limit ==> |Top(Count(keys), limit)| == limit)
      ensures forall i :: 0 <= i < |Top(Count(keys), limit)| ==> Top(Count(keys), limit)[i].count >= multiset(keys)[k]
    {
      OmittedKeyDominated(keys, limit, k);
    }
  }

  lemma OmittedKeyDominated(keys: seq<string>, limit: int, k: string)
    requires k in keys && k !in Keys(Top(Count(keys), limit))
    ensures 0 <= limit ==> |Top(Count(keys), limit)| == limit
    ensures forall i :: 0 <= i < |Top(Count(keys), limit)| ==> Top(Count(keys), limit)[i].count >= multiset(keys)[k]
  {
    var t := Count(keys);
    var r := Top(t, limit);
    TopIsLargest(t, limit);
    TopKeepsLargest(t, limit);
    var e := EntryOf(keys, k);
    forall j | 0 <= j < |r| ensures r[j] != e {
      assert Keys(r)[j] == r[j].key;
    }
    assert e in multiset(t);
    forall i | 0 <= i < |r| ensures r[i].count >= multiset(keys)[k] {
      assert r[i] in r;
    }
  }

  /** Summing a projection that keeps each entry's count sums the counter. */
  lemma {:induction false} SumOfCounts<U>(t: seq<Entry>, f: Entry -> U, value: U -> int)
    requires forall e :: value(f(e)) == e.count
    ensures SumBy(Seqs.Map(t, f), value) == Total(t)
  {
    if t != [] {
      SumOfCounts(t[1..], f, value);
      assert Seqs.Map(t, f)[1..] == Seqs.Map(t[1..], f);
    }
  }

  /** Keys are listed once each, so the counter has one entry per distinct key. */
  lemma CountSize(keys: seq<string>)
    ensures |Count(keys)| == |set k | k in keys|
  {
    CountIsHistogram(keys);
    var t := Count(keys);
    DistinctCard(Keys(t));
    assert (set k | k in Keys(t)) == (set k | k in keys);
  }

  lemma {:induction false} DistinctCard(s: seq<string>)
    requires forall i, j :: 0 <= i < j < |s| ==> s[i] != s[j]
    ensures |set k | k in s| == |s|
  {
    if s != [] {
      var init := s[..|s| - 1];
      DistinctCard(init);
      assert (set k | k in s) == (set k | k in init) + {s[|s| - 1]};
      assert s[|s| - 1] !in init;
    }
  }
}
