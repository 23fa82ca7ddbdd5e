/**
 * The table normaliser of the Vega-Lite Open Library donut. It tries, in
 * order, a prepared `table` list, a `works` list (counting each work's
 * `subject` array), a `subjects` list, a `{ name, work_count }` record at
 * the root and, last, a bare array of records with common field names.
 */
module OpenLibraryDonut {
  import opened Wrappers
  import opened Js
  import opened Seqs
  import opened Tally
  import opened NameValueRows

  /** A work's subjects: its `subject` array only. */
  function WorkSubjectList(w: Json): seq<Json> {
    ArrayItems(Get(w, "subject"))
  }

  /** The counting key of a subject: `String(s)` trimmed, so a null subject counts as "null". */
  function StringKey(s: Json): string {
    Trim(ToJsString(s))
  }

  /** The keys the works branch counts: every non-blank trimmed subject of every work. */
  function WorksKeys(works: seq<Json>): seq<string> {
    CountedKeys(Flatten(Map(works, WorkSubjectList)), StringKey)
  }

  /** The only filter of the works branch: `value > 0`. */
  predicate PositiveValue(d: NameValue) {
    match d.value
    case Finite(r) => r > 0.0
    case PosInfinity => true
    case _ => false
  }

  /** A row of a `subjects` list: trimmed `name` (else "") and `work_count` (else 0). */
  function SubjectNameRow(s: Json): NameValue {
    NameValue(Trim(ToJsString(Coalesce(Get(s, "name"), Str("")))),
              ToNumber(Coalesce(Get(s, "work_count"), Num(0.0, "0"))))
  }

  /** The root record as a row list: its untrimmed name and its work count, if usable. */
  function RootRows(raw: Json): seq<NameValue> {
    Filter([NameValue(ToJsString(Get(raw, "name")), ToNumber(Get(raw, "work_count")))], Usable)
  }

  /**
   * A row of a bare array of records: the name is `name`, else `label`,
   * else `id`, else "", trimmed; the value is `value`, else `count`, else
   * `work_count`, else 0.
   */
  function RecordRow(d: Json): NameValue {
    NameValue(
      Trim(ToJsString(Coalesce(Coalesce(Coalesce(Get(d, "name"), Get(d, "label")), Get(d, "id")), Str("")))),
      ToNumber(Coalesce(Coalesce(Coalesce(Get(d, "value"), Get(d, "count")), Get(d, "work_count")), Num(0.0, "0"))))
  }

  /** A body that is a non-empty array whose first element has `typeof` "object". */
  predicate RecordArray(raw: Json) {
    raw.Arr? && |raw.items| > 0 && IsObjectType(raw.items[0])
  }

  /** The fallback: the usable rows of a record array, unsorted, cut at `limit`. */
  function Fallback(raw: Json, limit: int): seq<NameValue> {
    if RecordArray(raw) then
      var projected := Filter(Map(raw.items, RecordRow), Usable);
      if |projected| > 0 then Slice(projected, 0, limit) else []
    else []
  }

  /** What `toNameValueTable(raw, limit)` returns or throws. */
  function Table(raw: Json, limit: int): Result<seq<NameValue>> {
    if !Truthy(raw) then Success([])
    else if Get(raw, "table").Arr? then TableRows(Get(raw, "table").items)
    else if Get(raw, "works").Arr? then
      Success(Ranked(Map(Count(WorksKeys(Get(raw, "works").items)), CountRow), PositiveValue, limit))
    else if Get(raw, "subjects").Arr? then
      Success(Ranked(Map(Get(raw, "subjects").items, SubjectNameRow), Usable, limit))
    else if Truthy(Get(raw, "name")) && Truthy(Get(raw, "work_count")) then Success(RootRows(raw))
    else Success(Fallback(raw, limit))
  }

  /** The normaliser, with the subject counting of the works branch as its nested loops. */
  method ToNameValueTable(raw: Json, limit: int) returns (r: Result<seq<NameValue>>)
    ensures r == Table(raw, limit)
  {
    if !Truthy(raw) {
      return Success([]);
    }
    var table := Get(raw, "table");
    if table.Arr? {
      return TableRows(table.items);
    }
    var works := Get(raw, "works");
    if works.Arr? {
      var counts := CountNested(works.items, WorkSubjectList, StringKey);
      return Success(Ranked(Map(counts, CountRow), PositiveValue, limit));
    }
    var subjects := Get(raw, "subjects");
    if subjects.Arr? {
      return Success(Ranked(Map(subjects.items, SubjectNameRow), Usable, limit));
    }
    if Truthy(Get(raw, "name")) && Truthy(Get(raw, "work_count")) {
      return Success(RootRows(raw));
    }
    return Success(Fallback(raw, limit));
  }

  /**
   * Whatever the body, every row returned has a non-empty name and a
   * finite positive value, and the only error is the one a missing element
   * of a prepared table list raises.
   */
  lemma TableRowsAreUsable(raw: Json, limit: int)
    ensures Table(raw, limit).Success? ==> forall d :: d in Table(raw, limit).value ==> Usable(d)
    ensures Table(raw, limit).Failure? ==>
              Truthy(raw) && Get(raw, "table").Arr?
              && exists i :: 0 <= i < |Get(raw, "table").items| && Nullish(Get(raw, "table").items[i])
  {
    if Truthy(raw) {
      if Get(raw, "table").Arr? {
        TableRowsKept(Get(raw, "table").items);
      } else if Get(raw, "works").Arr? {
        WorksRowsUsable(raw, limit);
      } else if Get(raw, "subjects").Arr? {
        RankedRows(Map(Get(raw, "subjects").items, SubjectNameRow), Usable, limit);
      } else if !(Truthy(Get(raw, "name")) && Truthy(Get(raw, "work_count"))) {
        FallbackRowsUsable(raw, limit);
      }
    }
  }

  lemma WorksRowsUsable(raw: Json, limit: int)
    requires Truthy(raw) && !Get(raw, "table").Arr? && Get(raw, "works").Arr?
    ensures Table(raw, limit).Success? && forall d :: d in Table(raw, limit).value ==> Usable(d)
  {
    WorksBranchCounts(raw, limit);
    var rows := Table(raw, limit).value;
    var keys := WorksKeys(Get(raw, "works").items);
    forall d | d in rows ensures Usable(d) {
      var i :| 0 <= i < |rows| && rows[i] == d;
      assert d.name in keys;
      assert multiset(keys)[d.name] >= 1;
      assert d.name in Filter(Map(Flatten(Map(Get(raw, "works").items, WorkSubjectList)), StringKey), NonEmpty);
    }
  }

  lemma FallbackRowsUsable(raw: Json, limit: int)
    ensures forall d :: d in Fallback(raw, limit) ==> Usable(d)
  {
    if RecordArray(raw) {
      var projected := Filter(Map(raw.items, RecordRow), Usable);
      SlicePrefix(projected, limit);
      forall d | d in Fallback(raw, limit) ensures Usable(d) {
        var i :| 0 <= i < |Fallback(raw, limit)| && Fallback(raw, limit)[i] == d;
        assert d == projected[i];
      }
    }
  }

  /**
   * In the works branch each row is a distinct subject valued at its number
   * of occurrences among the `subject` arrays of all works, at most `limit`
   * rows, largest first; a subject left out occurs no more often than any
   * shown, and only when `limit` rows are shown.
   */
  lemma WorksBranchCounts(raw: Json, limit: int)
    requires Truthy(raw) && !Get(raw, "table").Arr? && Get(raw, "works").Arr?
    ensures Table(raw, limit) == Success(Map(Top(Count(WorksKeys(Get(raw, "works").items)), limit), CountRow))
    ensures 0 <= limit ==> |Table(raw, limit).value| <= limit
    ensures forall i :: 0 <= i < |Table(raw, limit).value| ==>
              Table(raw, limit).value[i].name in WorksKeys(Get(raw, "works").items)
              && Table(raw, limit).value[i].value
                 == Finite(multiset(WorksKeys(Get(raw, "works").items))[Table(raw, limit).value[i].name] as real)
    ensures forall i, j :: 0 <= i < j < |Table(raw, limit).value| ==>
              Table(raw, limit).value[i].name != Table(raw, limit).value[j].name
              && ValueKey(Table(raw, limit).value[i]) >= ValueKey(Table(raw, limit).value[j])
    ensures forall k :: k in WorksKeys(Get(raw, "works").items)
                        && (forall i :: 0 <= i < |Table(raw, limit).value| ==> Table(raw, limit).value[i].name != k) ==>
              (0 <= limit ==> |Table(raw, limit).value| == limit)
              && forall i :: 0 <= i < |Table(raw, limit).value| ==>
                   ValueKey(Table(raw, limit).value[i]) >= multiset(WorksKeys(Get(raw, "works").items))[k] as real
  {
    var keys := WorksKeys(Get(raw, "works").items);
    forall i | 0 <= i < |keys| ensures keys[i] != "" {
      assert keys[i] in keys;
    }
    RankedCounts(keys, PositiveValue, limit);
    CountRowsTop(keys, limit);
  }

  /**
   * An empty `works` list gives no rows, even when a `subjects` list or a
   * root record is present.
   */
  lemma EmptyWorksGivesNothing(raw: Json, limit: int)
    requires Truthy(raw) && !Get(raw, "table").Arr? && Get(raw, "works") == Arr([])
    ensures Table(raw, limit) == Success([])
  {
    assert Map([], WorkSubjectList) == [];
    assert WorksKeys([]) == [];
    assert Count([]) == [];
    assert Map(Count([]), CountRow) == [];
    assert Filter(Map(Count([]), CountRow), PositiveValue) == [];
  }

  /** The `subjects` branch ranks: at most `limit` rows, largest value first. */
  lemma SubjectsBranchRanked(raw: Json, limit: int)
    requires Truthy(raw) && !Get(raw, "table").Arr? && !Get(raw, "works").Arr? && Get(raw, "subjects").Arr?
    ensures Table(raw, limit).Success?
    ensures 0 <= limit ==> |Table(raw, limit).value| <= limit
    ensures forall i, j :: 0 <= i < j < |Table(raw, limit).value| ==>
              ValueKey(Table(raw, limit).value[i]) >= ValueKey(Table(raw, limit).value[j])
  {
    RankedRows(Map(Get(raw, "subjects").items, SubjectNameRow), Usable, limit);
  }

  /** A subject's `key` and `count` fields play no part in its row. */
  lemma SubjectRowIgnoresKeyAndCount(fields: map<string, Json>, key: Json, count: Json)
    ensures SubjectNameRow(Obj(fields["key" := key]["count" := count])) == SubjectNameRow(Obj(fields))
  {
    assert Get(Obj(fields["key" := key]["count" := count]), "name") == Get(Obj(fields), "name");
    assert Get(Obj(fields["key" := key]["count" := count]), "work_count") == Get(Obj(fields), "work_count");
  }

  /** A prepared `table` list decides the result: no other field is looked at, and no limit applies. */
  lemma TableFirst(fields: map<string, Json>, key: string, v: Json, limit: int, limit': int)
    requires "table" in fields && fields["table"].Arr? && key != "table"
    ensures Table(Obj(fields[key := v]), limit') == Table(Obj(fields), limit)
  {
    assert Get(Obj(fields[key := v]), "table") == fields["table"];
  }

  /** Without a table list, a `works` list decides the result, even an empty one. */
  lemma WorksBeforeSubjects(fields: map<string, Json>, key: string, v: Json, limit: int)
    requires "works" in fields && fields["works"].Arr? && !Get(Obj(fields), "table").Arr?
    requires key != "table" && key != "works"
    ensures Table(Obj(fields[key := v]), limit) == Table(Obj(fields), limit)
  {
    var raw, raw' := Obj(fields), Obj(fields[key := v]);
    assert Truthy(raw) && Truthy(raw');
    assert Get(raw', "table") == Get(raw, "table");
    assert Get(raw', "works") == Get(raw, "works");
  }

  /**
   * The fallback keeps the usable rows of a record array in their order:
   * the first `limit` of them, or all when there are fewer; any other body
   * gives nothing.
   */
  lemma FallbackIsPrefix(raw: Json, limit: int)
    ensures !RecordArray(raw) ==> Fallback(raw, limit) == []
    ensures RecordArray(raw) ==>
              var projected := Filter(Map(raw.items, RecordRow), Usable);
              Fallback(raw, limit) == projected[..|Fallback(raw, limit)|]
              && (0 <= limit ==> |Fallback(raw, limit)| == if limit <= |projected| then limit else |projected|)
              && (limit < 0 ==> |Fallback(raw, limit)| == if |projected| + limit >= 0 then |projected| + limit else 0)
  {
    if RecordArray(raw) {
      SlicePrefix(Filter(Map(raw.items, RecordRow), Usable), limit);
    }
  }

  /**
   * The root record gives at most one row: its name, untrimmed, and its
   * work count, when both make a usable row.
   */
  lemma RootGivesOneRow(raw: Json, limit: int)
    requires Truthy(raw) && !Get(raw, "table").Arr? && !Get(raw, "works").Arr? && !Get(raw, "subjects").Arr?
    requires Truthy(Get(raw, "name")) && Truthy(Get(raw, "work_count"))
    ensures Table(raw, limit).Success? && |Table(raw, limit).value| <= 1
    ensures |Table(raw, limit).value| == 1 <==>
              ToJsString(Get(raw, "name")) != "" && IsPositiveFinite(ToNumber(Get(raw, "work_count")))
    ensures forall d :: d in Table(raw, limit).value ==>
              d.name == ToJsString(Get(raw, "name")) && d.value == ToNumber(Get(raw, "work_count"))
  {
    var d := NameValue(ToJsString(Get(raw, "name")), ToNumber(Get(raw, "work_count")));
    assert Filter([d], Usable) == if Usable(d) then [d] else [];
  }
}
