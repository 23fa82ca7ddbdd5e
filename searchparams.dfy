/**
 * The query of a URL as `URLSearchParams` sees it: name-value pairs in
 * order, with `get`, `set` and deletion by name.
 */
module SearchParams {
  import opened Wrappers

  /** One name-value pair of a URL's query. */
  datatype Param = Param(key: string, value: string)

  /** A parsed URL: everything up to the query, the query's pairs in order, and the fragment. */
  datatype Url = Url(base: string, params: seq<Param>, fragment: string)

  /** The pairs not named `k`, in order. */
  function WithoutKey(ps: seq<Param>, k: string): (r: seq<Param>)
    ensures |r| <= |ps|
    ensures forall p :: p in r <==> p in ps && p.key != k
  {
    if ps == [] then []
    else if ps[0].key == k then WithoutKey(ps[1..], k)
    else [ps[0]] + WithoutKey(ps[1..], k)
  }

  /**
   * `searchParams.set(name, value)`: the first pair named `name` gets the
   * value and the later ones are removed; without such a pair, one is
   * appended.
   */
  function SetParam(ps: seq<Param>, name: string, value: string): seq<Param> {
    if ps == [] then [Param(name, value)]
    else if ps[0].key == name then [Param(name, value)] + WithoutKey(ps[1..], name)
    else [ps[0]] + SetParam(ps[1..], name, value)
  }

  /** `searchParams.get(name)`: the value of the first pair of that name. */
  function FirstValue(ps: seq<Param>, name: string): (r: Option<string>)
    ensures r.None? <==> forall i :: 0 <= i < |ps| ==> ps[i].key != name
    ensures r.Some? ==> exists i :: 0 <= i < |ps| && ps[i] == Param(name, r.value)
                                    && forall j :: 0 <= j < i ==> ps[j].key != name
  {
    if ps == [] then None
    else if ps[0].key == name then Some(ps[0].value)
    else
      var r := FirstValue(ps[1..], name);
      if r.Some? then
        var i :| 0 <= i < |ps[1..]| && ps[1..][i] == Param(name, r.value)
                 && forall j :: 0 <= j < i ==> ps[1..][j].key != name;
        assert ps[i + 1] == Param(name, r.value);
        r
      else r
  }

  lemma {:induction false} WithoutAbsentKey(ps: seq<Param>, k: string)
    requires forall i :: 0 <= i < |ps| ==> ps[i].key != k
    ensures WithoutKey(ps, k) == ps
  {
    if ps != [] {
      WithoutAbsentKey(ps[1..], k);
    }
  }

  /** After `set(name, value)`, `get(name)` reads `value` back. */
  lemma {:induction false} SetParamReadsBack(ps: seq<Param>, name: string, value: string)
    ensures FirstValue(SetParam(ps, name, value), name) == Some(value)
  {
    if ps != [] && ps[0].key != name {
      SetParamReadsBack(ps[1..], name, value);
      assert ([ps[0]] + SetParam(ps[1..], name, value))[1..] == SetParam(ps[1..], name, value);
    }
  }

  /** After `set(name, value)`, every pair named `name` carries `value`: there is exactly one. */
  lemma {:induction false} SetParamSinglePair(ps: seq<Param>, name: string, value: string)
    ensures forall i, j :: 0 <= i < j < |SetParam(ps, name, value)| && SetParam(ps, name, value)[i].key == name ==>
              SetParam(ps, name, value)[j].key != name
  {
    var r := SetParam(ps, name, value);
    if ps == [] {
    } else if ps[0].key == name {
      var w := WithoutKey(ps[1..], name);
      assert r == [Param(name, value)] + w;
      forall i | 0 < i < |r| ensures r[i].key != name {
        assert r[i] == w[i - 1] && w[i - 1] in w;
      }
    } else {
      var t := SetParam(ps[1..], name, value);
      SetParamSinglePair(ps[1..], name, value);
      assert r == [ps[0]] + t;
      forall i, j | 0 <= i < j < |r| && r[i].key == name ensures r[j].key != name {
        assert r[i] == t[i - 1] && r[j] == t[j - 1];
      }
    }
  }

  /** `set(name, value)` leaves the pairs of every other name as they were, in order. */
  lemma {:induction false} SetParamKeepsOthers(ps: seq<Param>, name: string, value: string)
    ensures WithoutKey(SetParam(ps, name, value), name) == WithoutKey(ps, name)
  {
    if ps == [] {
    } else if ps[0].key == name {
      var w := WithoutKey(ps[1..], name);
      assert ([Param(name, value)] + w)[1..] == w;
      WithoutAbsentKey(w, name);
    } else {
      SetParamKeepsOthers(ps[1..], name, value);
      assert ([ps[0]] + SetParam(ps[1..], name, value))[1..] == SetParam(ps[1..], name, value);
    }
  }

  /** A second `set` of the same name undoes the first. */
  lemma {:induction false} SetParamTwice(ps: seq<Param>, name: string, a: string, b: string)
    ensures SetParam(SetParam(ps, name, a), name, b) == SetParam(ps, name, b)
  {
    if ps == [] {
    } else if ps[0].key == name {
      var w := WithoutKey(ps[1..], name);
      assert ([Param(name, a)] + w)[1..] == w;
      WithoutAbsentKey(w, name);
    } else {
      SetParamTwice(ps[1..], name, a, b);
      assert ([ps[0]] + SetParam(ps[1..], name, a))[1..] == SetParam(ps[1..], name, a);
    }
  }
}
