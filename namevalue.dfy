/**
 * The `{ name, value }` rows that the Open Library normalisers produce, and
 * the ranking step they share: keep the rows that pass a filter, sort them
 * by value with the largest first, and cut the result at a limit.
 */
module NameValueRows {
  import opened Wrappers
  import opened Js
  import opened Seqs
  import opened Sorting
  import opened Tally

  /** One slice of the donut. */
  datatype NameValue = NameValue(name: string, value: JsNumber)

  /** A row worth drawing: a non-empty name and a finite, positive value. */
  predicate Usable(d: NameValue) {
    d.name != "" && IsPositiveFinite(d.value)
  }

  /**
   * The key that the comparator `b.value - a.value` sorts by. Every row
   * that reaches a sort has a finite value, so the exact real is the key.
   */
  function ValueKey(d: NameValue): real {
    if d.value.Finite? then d.value.r else 0.0
  }

  /** Filter with `keep`, sort by value (largest first, stable), keep the first `limit`. */
  function Ranked(rows: seq<NameValue>, keep: NameValue -> bool, limit: int): seq<NameValue> {
    Slice(InsertionSort(Filter(rows, keep), Descending(ValueKey)), 0, limit)
  }

  /**
   * Ranking keeps only rows of the input that pass the filter, at most
   * `limit` of them, in non-increasing value order; a row that passes the
   * filter but is cut off has a value no larger than any row kept.
   */
  lemma RankedRows(rows: seq<NameValue>, keep: NameValue -> bool, limit: int)
    ensures forall d :: d in Ranked(rows, keep, limit) ==> d in rows && keep(d)
    ensures 0 <= limit ==> |Ranked(rows, keep, limit)| <= limit
    ensures forall i, j :: 0 <= i < j < |Ranked(rows, keep, limit)| ==>
              ValueKey(Ranked(rows, keep, limit)[i]) >= ValueKey(Ranked(rows, keep, limit)[j])
    ensures forall d :: d in rows && keep(d) && d !in Ranked(rows, keep, limit) ==>
              forall x :: x in Ranked(rows, keep, limit) ==> ValueKey(x) >= ValueKey(d)
  {
    var kept := Filter(rows, keep);
    var sorted := InsertionSort(kept, Descending(ValueKey));
    var r := Ranked(rows, keep, limit);
    SortDescendingNonIncreasing(kept, ValueKey);
    SlicePrefix(sorted, limit);
    assert r == sorted[..|r|];
    PrefixNonIncreasing(sorted, |r|, ValueKey);
    forall d | d in r ensures d in rows && keep(d) {
      assert d in sorted;
      assert d in multiset(kept);
    }
    forall d | d in rows && keep(d) && d !in r ensures forall x :: x in r ==> ValueKey(x) >= ValueKey(d) {
      FilterMultiset(rows, keep, d);
      assert d in multiset(kept);
      assert d in sorted by {
        assert d in multiset(sorted);
      }
      PrefixDominates(sorted, |r|, ValueKey, d);
    }
  }

  // ---------------------------------------------------------------------
  // Rows built from the payload
  // ---------------------------------------------------------------------

  /**
   * A row of a `subjects` list: the name is the string form of `name`,
   * else of `key`, else the empty string, trimmed; the value is the number
   * form of `work_count`, else of `count`, else 0.
   */
  function SubjectRow(s: Json): NameValue {
    NameValue(
      Trim(ToJsString(Coalesce(Coalesce(Get(s, "name"), Get(s, "key")), Str("")))),
      ToNumber(Coalesce(Coalesce(Get(s, "work_count"), Get(s, "count")), Num(0.0, "0"))))
  }

  /** The counting key of one subject of a work: its string form (nullish as ""), trimmed. */
  function SubjectKey(s: Json): string {
    Trim(ToJsString(Coalesce(s, Str(""))))
  }

  /** The items of an array value, or none. */
  function ArrayItems(j: Json): seq<Json> {
    if j.Arr? then j.items else []
  }

  /** An array value with at least one element. */
  predicate NonEmptyArray(j: Json) {
    j.Arr? && |j.items| > 0
  }

  /** A `[name, count]` pair of the subject counter as a row. */
  function CountRow(e: Entry): NameValue {
    NameValue(e.key, Finite(e.count as real))
  }

  /** The subject keys a counting loop counts: the non-empty ones. */
  function CountedKeys(subjects: seq<Json>, key: Json -> string): seq<string> {
    Filter(Map(subjects, key), NonEmpty)
  }

  /**
   * When every counter row passes the filter, ranking the counter's rows is
   * taking its largest counts.
   */
  lemma RankedCounts(keys: seq<string>, keep: NameValue -> bool, limit: int)
    requires forall i :: 0 <= i < |keys| ==> keys[i] != ""
    requires forall e: Entry :: e.key != "" && e.count >= 1 ==> keep(CountRow(e))
    ensures Ranked(Map(Count(keys), CountRow), keep, limit) == Map(Top(Count(keys), limit), CountRow)
  {
    var t := Count(keys);
    var rows := Map(t, CountRow);
    CounterRowsKept(keys, keep);
    assert Filter(rows, keep) == rows;
    CountRowOrder();
    InsertionSortMap(t, Descending(CountKey), CountRow, Descending(ValueKey));
    assert InsertionSort(rows, Descending(ValueKey)) == Map(InsertionSort(t, Descending(CountKey)), CountRow);
    SliceMap(InsertionSort(t, Descending(CountKey)), limit, CountRow);
  }

  lemma CounterRowsKept(keys: seq<string>, keep: NameValue -> bool)
    requires forall i :: 0 <= i < |keys| ==> keys[i] != ""
    requires forall e: Entry :: e.key != "" && e.count >= 1 ==> keep(CountRow(e))
    ensures Filter(Map(Count(keys), CountRow), keep) == Map(Count(keys), CountRow)
  {
    var t := Count(keys);
    CountIsHistogram(keys);
    forall i | 0 <= i < |t| ensures keep(Map(t, CountRow)[i]) {
      assert Keys(t)[i] == t[i].key;
      assert t[i].key in keys;
    }
    FilterAll(Map(t, CountRow), keep);
  }

  /** Rows built from counter entries compare by value exactly as the entries compare by count. */
  lemma CountRowOrder()
    ensures forall a, b :: Descending(ValueKey)(CountRow(a), CountRow(b)) == Descending(CountKey)(a, b)
  {
    forall a, b ensures Descending(ValueKey)(CountRow(a), CountRow(b)) == Descending(CountKey)(a, b) {
      assert Descending(ValueKey)(CountRow(a), CountRow(b)) == (ValueKey(CountRow(a)) > ValueKey(CountRow(b)));
      assert Descending(CountKey)(a, b) == (CountKey(a) > CountKey(b));
    }
  }

  /**
   * The rows of the largest counts: distinct names taken from `keys`, each
   * valued at its number of occurrences, non-increasing, at most `limit`
   * of them; a key left out occurs no more often than any key shown, and
   * is left out only when `limit` rows are shown.
   */
  lemma CountRowsTop(keys: seq<string>, limit: int)
    ensures 0 <= limit ==> |Map(Top(Count(keys), limit), CountRow)| <= limit
    ensures forall i :: 0 <= i < |Map(Top(Count(keys), limit), CountRow)| ==>
              Map(Top(Count(keys), limit), CountRow)[i].name in keys
              && Map(Top(Count(keys), limit), CountRow)[i].value
                 == Finite(multiset(keys)[Map(Top(Count(keys), limit), CountRow)[i].name] as real)
    ensures forall i, j :: 0 <= i < j < |Map(Top(Count(keys), limit), CountRow)| ==>
              Map(Top(Count(keys), limit), CountRow)[i].name != Map(Top(Count(keys), limit), CountRow)[j].name
              && ValueKey(Map(Top(Count(keys), limit), CountRow)[i]) >= ValueKey(Map(Top(Count(keys), limit), CountRow)[j])
    ensures forall k :: k in keys && (forall i :: 0 <= i < |Map(Top(Count(keys), limit), CountRow)| ==>
                                        Map(Top(Count(keys), limit), CountRow)[i].name != k) ==>
              (0 <= limit ==> |Map(Top(Count(keys), limit), CountRow)| == limit)
              && forall i :: 0 <= i < |Map(Top(Count(keys), limit), CountRow)| ==>
                   ValueKey(Map(Top(Count(keys), limit), CountRow)[i]) >= multiset(keys)[k] as real
  {
    var top := Top(Count(keys), limit);
    var rows := Map(top, CountRow);
    TopHistogram(keys, limit);
    forall k | k in keys && (forall i :: 0 <= i < |rows| ==> rows[i].name != k)
      ensures k !in Keys(top)
    {
      forall i | 0 <= i < |top| ensures Keys(top)[i] != k {
        assert rows[i].name == top[i].key;
      }
    }
  }

  /** A row of a prepared `table` list: `String(d.name)` untrimmed and `Number(d.value)`. */
  function TableRow(d: Json): NameValue {
    NameValue(ToJsString(Get(d, "name")), ToNumber(Get(d, "value")))
  }

  /**
   * A prepared `table` list mapped to rows and filtered to the usable ones.
   * Reading `d.name` of a null or undefined element throws a TypeError,
   * which ends the whole normaliser.
   */
  function TableRows(table: seq<Json>): Result<seq<NameValue>> {
    if exists i :: 0 <= i < |table| && Nullish(table[i]) then Failure("TypeError")
    else Success(Filter(Map(table, TableRow), Usable))
  }

  /**
   * A table list fails exactly when one of its elements is missing;
   * otherwise every usable row it holds is kept, in its order, none is
   * added, and there is no sorting and no limit: there are as many rows as
   * usable elements.
   */
  lemma TableRowsKept(table: seq<Json>)
    ensures TableRows(table).Failure? <==> exists i :: 0 <= i < |table| && Nullish(table[i])
    ensures TableRows(table).Success? ==>
              (forall d :: d in TableRows(table).value <==> d in Map(table, TableRow) && Usable(d))
              && |TableRows(table).value| == multiset(Map(Map(table, TableRow), Usable))[true]
  {
    FilterContains(Map(table, TableRow), Usable);
    FilterCount(Map(table, TableRow), Usable);
  }

  // ---------------------------------------------------------------------
  // Counting the subjects of works
  // ---------------------------------------------------------------------

  /**
   * Two nested loops, over the works and over each work's subjects, that
   * add one to the count of every subject whose key is not blank.
   */
  method CountNested(works: seq<Json>, subjectsOf: Json -> seq<Json>, key: Json -> string) returns (counts: seq<Entry>)
    ensures counts == Count(CountedKeys(Flatten(Map(works, subjectsOf)), key))
  {
    counts := [];
    for i := 0 to |works|
      invariant counts == Count(CountedKeys(Flatten(Map(works[..i], subjectsOf)), key))
    {
      var subjects := subjectsOf(works[i]);
      MapSnoc(works, i, subjectsOf);
      FlattenSnoc(Map(works[..i], subjectsOf), subjects);
      counts := CountEach(counts, Flatten(Map(works[..i], subjectsOf)), subjects, key);
    }
    assert works[..|works|] == works;
  }

  /** The inner loop: one work's subjects, skipping blank keys. */
  method CountEach(counts: seq<Entry>, ghost seen: seq<Json>, subjects: seq<Json>, key: Json -> string)
    returns (counts': seq<Entry>)
    requires counts == Count(CountedKeys(seen, key))
    ensures counts' == Count(CountedKeys(seen + subjects, key))
  {
    counts' := counts;
    ghost var keys := CountedKeys(seen, key);
    assert seen + subjects[..0] == seen;
    for j := 0 to |subjects|
      invariant keys == CountedKeys(seen + subjects[..j], key)
      invariant counts' == Count(keys)
    {
      var k := key(subjects[j]);
      CountedKeysStep(seen, subjects, j, key);
      if k != "" {
        CountSnoc(keys, k);
        counts' := Bump(counts', k);
        keys := keys + [k];
      }
    }
    assert subjects[..|subjects|] == subjects;
  }

  /** One more subject adds its key to the counted keys exactly when the key is not blank. */
  lemma CountedKeysStep(seen: seq<Json>, subjects: seq<Json>, j: nat, key: Json -> string)
    requires j < |subjects|
    ensures CountedKeys(seen + subjects[..j + 1], key)
         == CountedKeys(seen + subjects[..j], key) + (if key(subjects[j]) != "" then [key(subjects[j])] else [])
  {
    var done := seen + subjects[..j];
    var x := subjects[j];
    assert seen + subjects[..j + 1] == done + [x];
    MapAppend(done, [x], key);
    FilterAppend(Map(done, key), Map([x], key), NonEmpty);
    assert Map([x], key) == [key(x)];
  }
}
