/**
 * The selection store: which charts are on the dashboard, in the order they
 * were switched on, and for each chart name how many times it has been
 * switched on (its render key, used to remount the chart).
 */
module Store {
  import Seqs

  /** A snapshot of the store. A name without a render key reads as 0. */
  datatype State = State(selectedGraphs: seq<string>, renderKeys: map<string, nat>)

  /** The state the store is created with: nothing selected, no render keys. */
  const Initial := State([], map[])

  function RenderKey(s: State, name: string): nat {
    if name in s.renderKeys then s.renderKeys[name] else 0
  }

  /** No name is selected twice. */
  ghost predicate NoDuplicates(names: seq<string>) {
    forall i, j :: 0 <= i < j < |names| ==> names[i] != names[j]
  }

  /** Every name but `name`. */
  function Without(names: seq<string>, name: string): (r: seq<string>)
    ensures name !in r
    ensures forall g :: g != name ==> multiset(r)[g] == multiset(names)[g]
    ensures forall g :: g in r ==> g in names
  {
    Seqs.FilterMultiset(names, g => g != name, name);
    forall g | g != name ensures multiset(Seqs.Filter(names, g => g != name))[g] == multiset(names)[g] {
      Seqs.FilterMultiset(names, g => g != name, g);
    }
    Seqs.Filter(names, g => g != name)
  }

  /**
   * The updater of `toggleGraph(name)`: a selected name is removed
   * (every occurrence) and the render keys are kept; an unselected name is
   * appended and its render key goes up by one.
   */
  function Toggle(s: State, name: string): (r: State)
    ensures name in s.selectedGraphs ==> name !in r.selectedGraphs && r.renderKeys == s.renderKeys
    ensures name !in s.selectedGraphs ==> r.selectedGraphs == s.selectedGraphs + [name]
                                          && RenderKey(r, name) == RenderKey(s, name) + 1
    ensures forall g :: g != name ==>
              RenderKey(r, g) == RenderKey(s, g) && multiset(r.selectedGraphs)[g] == multiset(s.selectedGraphs)[g]
  {
    if name in s.selectedGraphs then
      State(Without(s.selectedGraphs, name), s.renderKeys)
    else
      State(s.selectedGraphs + [name], s.renderKeys[name := RenderKey(s, name) + 1])
  }

  /** Render keys never go down. */
  lemma ToggleKeepsKeysGrowing(s: State, name: string)
    ensures forall g :: RenderKey(Toggle(s, name), g) >= RenderKey(s, g)
  {
    forall g ensures RenderKey(Toggle(s, name), g) >= RenderKey(s, g) {
      if g == name && name in s.selectedGraphs {
        assert Toggle(s, name).renderKeys == s.renderKeys;
      }
    }
  }

  /** `r` is `s` with some elements left out, the rest in their order. */
  predicate IsSubsequence(r: seq<string>, s: seq<string>) {
    if r == [] then true
    else if s == [] then false
    else if r[0] == s[0] then IsSubsequence(r[1..], s[1..])
    else IsSubsequence(r, s[1..])
  }

  /** Removing a name keeps the other selected names in their order. */
  lemma {:induction false} WithoutKeepsOrder(names: seq<string>, name: string)
    ensures IsSubsequence(Without(names, name), names)
  {
    if names != [] {
      WithoutKeepsOrder(names[1..], name);
      if names[0] != name {
        assert Without(names, name) == [names[0]] + Without(names[1..], name);
        assert Without(names, name)[1..] == Without(names[1..], name);
      } else {
        assert Without(names, name) == Without(names[1..], name);
        SubsequenceSkip(Without(names[1..], name), names);
      }
    }
  }

  /** A subsequence of the tail that does not start with the head is a subsequence of the whole. */
  lemma SubsequenceSkip(r: seq<string>, s: seq<string>)
    requires s != [] && IsSubsequence(r, s[1..]) && (r != [] ==> r[0] != s[0])
    ensures IsSubsequence(r, s)
  {
  }

  /** A toggle keeps a selection free of duplicates. */
  lemma ToggleNoDuplicates(s: State, name: string)
    requires NoDuplicates(s.selectedGraphs)
    ensures NoDuplicates(Toggle(s, name).selectedGraphs)
  {
    var r := Toggle(s, name).selectedGraphs;
    if name in s.selectedGraphs {
      forall i, j | 0 <= i < j < |r| ensures r[i] != r[j] {
        FilterNoDuplicates(s.selectedGraphs, name);
      }
    }
  }

  lemma {:induction false} FilterNoDuplicates(names: seq<string>, name: string)
    requires NoDuplicates(names)
    ensures NoDuplicates(Without(names, name))
  {
    if names != [] {
      var tail := names[1..];
      assert NoDuplicates(tail) by {
        forall i, j | 0 <= i < j < |tail| ensures tail[i] != tail[j] {
          assert tail[i] == names[i + 1] && tail[j] == names[j + 1];
        }
      }
      FilterNoDuplicates(tail, name);
      if names[0] != name {
        assert names[0] !in tail by {
          forall i | 0 <= i < |tail| ensures tail[i] != names[0] {
            assert tail[i] == names[i + 1];
          }
        }
        assert Without(names, name) == [names[0]] + Without(tail, name);
        assert names[0] !in Without(tail, name);
      }
    }
  }

  /** Switching a name on and then off again gives back the same selection. */
  lemma {:induction false} ToggleOnThenOff(s: State, name: string)
    requires name !in s.selectedGraphs
    ensures Toggle(Toggle(s, name), name).selectedGraphs == s.selectedGraphs
    ensures RenderKey(Toggle(Toggle(s, name), name), name) == RenderKey(s, name) + 1
  {
    WithoutAbsent(s.selectedGraphs, name);
    assert Without(s.selectedGraphs + [name], name) == Without(s.selectedGraphs, name) + Without([name], name) by {
      Seqs.FilterAppend(s.selectedGraphs, [name], g => g != name);
    }
  }

  lemma {:induction false} WithoutAbsent(names: seq<string>, name: string)
    requires name !in names
    ensures Without(names, name) == names
  {
    forall i | 0 <= i < |names| ensures names[i] != name {
      assert names[i] in names;
    }
    Seqs.FilterAll(names, g => g != name);
  }

  /**
   * Switching a name off and then on again selects the same names, with
   * that name moved to the end.
   */
  lemma ToggleOffThenOn(s: State, name: string)
    requires name in s.selectedGraphs
    ensures Toggle(Toggle(s, name), name).selectedGraphs == Without(s.selectedGraphs, name) + [name]
    ensures forall g :: g in Toggle(Toggle(s, name), name).selectedGraphs <==> g in s.selectedGraphs
  {
    var r := Toggle(Toggle(s, name), name).selectedGraphs;
    forall g ensures g in r <==> g in s.selectedGraphs {
      if g != name {
        assert multiset(r)[g] == multiset(s.selectedGraphs)[g];
      } else {
        assert r[|r| - 1] == name;
      }
    }
  }

  /** The store after a sequence of toggles from the initial state. */
  function Run(names: seq<string>): State {
    if names == [] then Initial else Toggle(Run(names[..|names| - 1]), names[|names| - 1])
  }

  /**
   * From the initial state, a name is selected exactly when it has been
   * toggled an odd number of times, its render key is the number of times
   * it was switched on (every other toggle, starting with the first), and
   * no name is ever selected twice.
   */
  lemma {:induction false} RunCountsToggles(names: seq<string>)
    ensures forall g :: g in Run(names).selectedGraphs <==> multiset(names)[g] % 2 == 1
    ensures forall g :: RenderKey(Run(names), g) == (multiset(names)[g] + 1) / 2
    ensures NoDuplicates(Run(names).selectedGraphs)
  {
    if names != [] {
      var init := names[..|names| - 1];
      var n := names[|names| - 1];
      assert names == init + [n];
      RunCountsToggles(init);
      ToggleNoDuplicates(Run(init), n);
      ToggleCounts(Run(init), multiset(init), n);
    }
  }

  /** One more toggle keeps the selection and the keys in step with the toggle counts. */
  lemma ToggleCounts(s: State, m: multiset<string>, n: string)
    requires forall g :: g in s.selectedGraphs <==> m[g] % 2 == 1
    requires forall g :: RenderKey(s, g) == (m[g] + 1) / 2
    ensures forall g :: g in Toggle(s, n).selectedGraphs <==> (m + multiset{n})[g] % 2 == 1
    ensures forall g :: RenderKey(Toggle(s, n), g) == ((m + multiset{n})[g] + 1) / 2
  {
    forall g ensures g in Toggle(s, n).selectedGraphs <==> (m + multiset{n})[g] % 2 == 1 {
      ToggleParity(s, m, n, g);
    }
  }

  lemma ToggleParity(s: State, m: multiset<string>, n: string, g: string)
    requires g in s.selectedGraphs <==> m[g] % 2 == 1
    ensures g in Toggle(s, n).selectedGraphs <==> (m + multiset{n})[g] % 2 == 1
  {
    if g != n {
      assert multiset(Toggle(s, n).selectedGraphs)[g] == multiset(s.selectedGraphs)[g];
      assert (g in Toggle(s, n).selectedGraphs) == (g in s.selectedGraphs);
    }
  }

  /** The store object: a mutable cell that `toggleGraph` replaces with the updater's result. */
  class SelectionStore {
    var selectedGraphs: seq<string>
    var renderKeys: map<string, nat>

    function Snapshot(): State
      reads this
    {
      State(selectedGraphs, renderKeys)
    }

    constructor ()
      ensures Snapshot() == Initial
    {
      selectedGraphs := [];
      renderKeys := map[];
    }

    method ToggleGraph(name: string)
      modifies this
      ensures Snapshot() == Toggle(old(Snapshot()), name)
    {
      if name in selectedGraphs {
        selectedGraphs := Without(selectedGraphs, name);
      } else {
        var key := if name in renderKeys then renderKeys[name] else 0;
        renderKeys := renderKeys[name := key + 1];
        selectedGraphs := selectedGraphs + [name];
      }
    }
  }
}
