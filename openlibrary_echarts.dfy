/**
 * The table normaliser of the ECharts Open Library donut: it turns whatever
 * body the Open Library endpoint returned into `{ name, value }` rows. It
 * tries, in order, a non-empty `subjects` list, a non-empty `works` list
 * (counting the subjects of every work), a prepared `table` list and a
 * single `{ name, work_count }` record at the root.
 */
module OpenLibraryEchartsDonut {
  import opened Wrappers
  import opened Js
  import opened Seqs
  import opened Tally
  import opened NameValueRows

  /** A work's subjects: its `subject` array followed by its `subjects` array; a missing one adds nothing. */
  function BothSubjects(w: Json): seq<Json> {
    ArrayItems(Get(w, "subject")) + ArrayItems(Get(w, "subjects"))
  }

  /** The keys the works branch counts: every non-blank trimmed subject of every work. */
  function WorksKeys(works: seq<Json>): seq<string> {
    CountedKeys(Flatten(Map(works, BothSubjects)), SubjectKey)
  }

  /** The root record as a row list: the trimmed name and the work count, if usable. */
  function RootRows(raw: Json): seq<NameValue> {
    var d := NameValue(Trim(ToJsString(Get(raw, "name"))), ToNumber(Get(raw, "work_count")));
    if Usable(d) then [d] else []
  }

  /** What `toNameValueTable(raw, limit)` returns or throws. */
  function Table(raw: Json, limit: int): Result<seq<NameValue>> {
    if !Truthy(raw) then Success([])
    else if NonEmptyArray(Get(raw, "subjects")) then
      Success(Ranked(Map(Get(raw, "subjects").items, SubjectRow), Usable, limit))
    else if NonEmptyArray(Get(raw, "works")) then
      Success(Ranked(Map(Count(WorksKeys(Get(raw, "works").items)), CountRow), Usable, limit))
    else if Get(raw, "table").Arr? then TableRows(Get(raw, "table").items)
    else if Truthy(Get(raw, "name")) && Truthy(Get(raw, "work_count")) then Success(RootRows(raw))
    else Success([])
  }

  /** The normaliser, with the subject counting of the works branch as its nested loops. */
  method ToNameValueTable(raw: Json, limit: int) returns (r: Result<seq<NameValue>>)
    ensures r == Table(raw, limit)
  {
    if !Truthy(raw) {
      return Success([]);
    }
    var subjects := Get(raw, "subjects");
    if subjects.Arr? && |subjects.items| > 0 {
      return Success(Ranked(Map(subjects.items, SubjectRow), Usable, limit));
    }
    var works := Get(raw, "works");
    if works.Arr? && |works.items| > 0 {
      var counts := CountNested(works.items, BothSubjects, SubjectKey);
      return Success(Ranked(Map(counts, CountRow), Usable, limit));
    }
    var table := Get(raw, "table");
    if table.Arr? {
      return TableRows(table.items);
    }
    if Truthy(Get(raw, "name")) && Truthy(Get(raw, "work_count")) {
      return Success(RootRows(raw));
    }
    return Success([]);
  }

  /**
   * Whatever the body, every row returned has a non-empty name and a
   * finite positive value, and the only error is the one a missing element
   * of a prepared table list raises.
   */
  lemma TableRowsAreUsable(raw: Json, limit: int)
    ensures Table(raw, limit).Success? ==> forall d :: d in Table(raw, limit).value ==> Usable(d)
    ensures Table(raw, limit).Failure? ==>
              Truthy(raw) && !NonEmptyArray(Get(raw, "subjects")) && !NonEmptyArray(Get(raw, "works"))
              && Get(raw, "table").Arr?
              && exists i :: 0 <= i < |Get(raw, "table").items| && Nullish(Get(raw, "table").items[i])
  {
    if Truthy(raw) {
      if NonEmptyArray(Get(raw, "subjects")) {
        RankedRows(Map(Get(raw, "subjects").items, SubjectRow), Usable, limit);
      } else if NonEmptyArray(Get(raw, "works")) {
        RankedRows(Map(Count(WorksKeys(Get(raw, "works").items)), CountRow), Usable, limit);
      } else if Get(raw, "table").Arr? {
        TableRowsKept(Get(raw, "table").items);
      }
    }
  }

  /**
   * The `subjects` and `works` branches rank: at most `limit` rows, largest
   * value first.
   */
  lemma ListBranchesRanked(raw: Json, limit: int)
    requires Truthy(raw) && (NonEmptyArray(Get(raw, "subjects")) || NonEmptyArray(Get(raw, "works")))
    ensures Table(raw, limit).Success?
    ensures 0 <= limit ==> |Table(raw, limit).value| <= limit
    ensures forall i, j :: 0 <= i < j < |Table(raw, limit).value| ==>
              ValueKey(Table(raw, limit).value[i]) >= ValueKey(Table(raw, limit).value[j])
  {
    if NonEmptyArray(Get(raw, "subjects")) {
      RankedRows(Map(Get(raw, "subjects").items, SubjectRow), Usable, limit);
    } else {
      RankedRows(Map(Count(WorksKeys(Get(raw, "works").items)), CountRow), Usable, limit);
    }
  }

  /**
   * In the works branch each row is a distinct subject valued at its number
   * of occurrences among the `subject` and `subjects` arrays of all works;
   * a subject left out occurs no more often than any shown, and only when
   * `limit` rows are shown.
   */
  lemma WorksBranchCounts(raw: Json, limit: int)
    requires Truthy(raw) && !NonEmptyArray(Get(raw, "subjects")) && NonEmptyArray(Get(raw, "works"))
    ensures Table(raw, limit) == Success(Map(Top(Count(WorksKeys(Get(raw, "works").items)), limit), CountRow))
    ensures forall i :: 0 <= i < |Table(raw, limit).value| ==>
              Table(raw, limit).value[i].name in WorksKeys(Get(raw, "works").items)
              && Table(raw, limit).value[i].value
                 == Finite(multiset(WorksKeys(Get(raw, "works").items))[Table(raw, limit).value[i].name] as real)
    ensures forall i, j :: 0 <= i < j < |Table(raw, limit).value| ==>
              Table(raw, limit).value[i].name != Table(raw, limit).value[j].name
    ensures forall k :: k in WorksKeys(Get(raw, "works").items)
                        && (forall i :: 0 <= i < |Table(raw, limit).value| ==> Table(raw, limit).value[i].name != k) ==>
              (0 <= limit ==> |Table(raw, limit).value| == limit)
              && forall i :: 0 <= i < |Table(raw, limit).value| ==>
                   ValueKey(Table(raw, limit).value[i]) >= multiset(WorksKeys(Get(raw, "works").items))[k] as real
  {
    var keys := WorksKeys(Get(raw, "works").items);
    forall i | 0 <= i < |keys| ensures keys[i] != "" {
      assert keys[i] in keys;
    }
    RankedCounts(keys, Usable, limit);
    CountRowsTop(keys, limit);
  }

  /** A work's `subject` and `subjects` arrays are both counted, each entry once. */
  lemma BothArraysCounted(w: Json)
    ensures multiset(CountedKeys(BothSubjects(w), SubjectKey))
         == multiset(CountedKeys(ArrayItems(Get(w, "subject")), SubjectKey))
          + multiset(CountedKeys(ArrayItems(Get(w, "subjects")), SubjectKey))
  {
    var a, b := ArrayItems(Get(w, "subject")), ArrayItems(Get(w, "subjects"));
    MapAppend(a, b, SubjectKey);
    FilterAppend(Map(a, SubjectKey), Map(b, SubjectKey), NonEmpty);
  }

  /** A non-empty `subjects` list decides the result: no other field is looked at. */
  lemma SubjectsFirst(fields: map<string, Json>, key: string, v: Json, limit: int)
    requires "subjects" in fields && NonEmptyArray(fields["subjects"]) && key != "subjects"
    ensures Table(Obj(fields[key := v]), limit) == Table(Obj(fields), limit)
  {
    assert Get(Obj(fields[key := v]), "subjects") == fields["subjects"];
  }

  /** Without a non-empty `subjects` list, a non-empty `works` list decides the result. */
  lemma WorksSecond(fields: map<string, Json>, key: string, v: Json, limit: int)
    requires "works" in fields && NonEmptyArray(fields["works"]) && !NonEmptyArray(Get(Obj(fields), "subjects"))
    requires key != "subjects" && key != "works"
    ensures Table(Obj(fields[key := v]), limit) == Table(Obj(fields), limit)
  {
    var raw, raw' := Obj(fields), Obj(fields[key := v]);
    assert Truthy(raw) && Truthy(raw');
    assert Get(raw', "subjects") == Get(raw, "subjects");
    assert Get(raw', "works") == Get(raw, "works");
  }

  /**
   * A prepared table list is neither sorted nor cut: the limit plays no
   * part, and the root record is not looked at.
   */
  lemma TableIgnoresLimit(fields: map<string, Json>, key: string, v: Json, limit: int, limit': int)
    requires "table" in fields && fields["table"].Arr?
    requires !NonEmptyArray(Get(Obj(fields), "subjects")) && !NonEmptyArray(Get(Obj(fields), "works"))
    requires key != "subjects" && key != "works" && key != "table"
    ensures Table(Obj(fields[key := v]), limit') == Table(Obj(fields), limit)
  {
    assert Get(Obj(fields[key := v]), "subjects") == Get(Obj(fields), "subjects");
    assert Get(Obj(fields[key := v]), "works") == Get(Obj(fields), "works");
    assert Get(Obj(fields[key := v]), "table") == fields["table"];
  }

  /**
   * The root record gives at most one row: its trimmed name and its work
   * count, when both make a usable row.
   */
  lemma RootGivesOneRow(raw: Json, limit: int)
    requires Truthy(raw) && !NonEmptyArray(Get(raw, "subjects")) && !NonEmptyArray(Get(raw, "works"))
    requires !Get(raw, "table").Arr? && Truthy(Get(raw, "name")) && Truthy(Get(raw, "work_count"))
    ensures Table(raw, limit).Success? && |Table(raw, limit).value| <= 1
    ensures |Table(raw, limit).value| == 1 <==>
              Trim(ToJsString(Get(raw, "name"))) != "" && IsPositiveFinite(ToNumber(Get(raw, "work_count")))
    ensures forall d :: d in Table(raw, limit).value ==>
              d.name == Trim(ToJsString(Get(raw, "name"))) && d.value == ToNumber(Get(raw, "work_count"))
  {
  }
}
