/** `Array.prototype.map`, `filter` and spreading of nested arrays, on sequences. */
module Seqs {

  /** `s.map(f)`. */
  function Map<A, B>(s: seq<A>, f: A -> B): (r: seq<B>)
    ensures |r| == |s|
    ensures forall i :: 0 <= i < |s| ==> r[i] == f(s[i])
  {
    if s == [] then [] else [f(s[0])] + Map(s[1..], f)
  }

  /** `s.filter(p)`. */
  function Filter<A>(s: seq<A>, p: A -> bool): (r: seq<A>)
    ensures |r| <= |s|
    ensures forall x :: x in r ==> x in s && p(x)
  {
    if s == [] then []
    else if p(s[0]) then [s[0]] + Filter(s[1..], p)
    else Filter(s[1..], p)
  }

  /** The elements `p` keeps are all of `s` that satisfy it, each as often as in `s`. */
  lemma {:induction false} FilterMultiset<A>(s: seq<A>, p: A -> bool, x: A)
    ensures multiset(Filter(s, p))[x] == if p(x) then multiset(s)[x] else 0
  {
    if s != [] {
      FilterMultiset(s[1..], p, x);
      assert s == [s[0]] + s[1..];
    }
  }

  lemma {:induction false} MapAppend<A, B>(s: seq<A>, t: seq<A>, f: A -> B)
    ensures Map(s + t, f) == Map(s, f) + Map(t, f)
  {
  }

  /** The image of a prefix is part of the image of the whole. */
  lemma MapPrefix<A, B>(s: seq<A>, n: nat, f: A -> B)
    requires n <= |s|
    ensures multiset(Map(s[..n], f)) <= multiset(Map(s, f))
  {
    assert s == s[..n] + s[n..];
    MapAppend(s[..n], s[n..], f);
  }

  lemma {:induction false} FilterAppend<A>(s: seq<A>, t: seq<A>, p: A -> bool)
    ensures Filter(s + t, p) == Filter(s, p) + Filter(t, p)
  {
    if s == [] {
      assert s + t == t;
    } else {
      var u := s + t;
      assert u[0] == s[0] && u[1..] == s[1..] + t;
      FilterAppend(s[1..], t, p);
      if p(s[0]) {
        calc {
          Filter(u, p);
          [s[0]] + Filter(s[1..] + t, p);
          [s[0]] + (Filter(s[1..], p) + Filter(t, p));
          ([s[0]] + Filter(s[1..], p)) + Filter(t, p);
        }
      }
    }
  }

  /** Filtering keeps everything when every element passes. */
  lemma {:induction false} FilterAll<A>(s: seq<A>, p: A -> bool)
    requires forall i :: 0 <= i < |s| ==> p(s[i])
    ensures Filter(s, p) == s
  {
    if s != [] {
      FilterAll(s[1..], p);
    }
  }

  /** `[].concat(...ss)`: the inner sequences one after another. */
  function Flatten<A>(ss: seq<seq<A>>): (r: seq<A>) {
    if ss == [] then [] else Flatten(ss[..|ss| - 1]) + ss[|ss| - 1]
  }

  lemma FlattenSnoc<A>(ss: seq<seq<A>>, s: seq<A>)
    ensures Flatten(ss + [s]) == Flatten(ss) + s
  {
    assert (ss + [s])[..|ss|] == ss;
  }

  /** One more element of a loop over `s`. */
  lemma MapSnoc<A, B>(s: seq<A>, i: nat, f: A -> B)
    requires i < |s|
    ensures Map(s[..i + 1], f) == Map(s[..i], f) + [f(s[i])]
  {
    assert s[..i + 1] == s[..i] + [s[i]];
    MapAppend(s[..i], [s[i]], f);
  }

  /** Everything that passes the filter is kept. */
  lemma FilterContains<A>(s: seq<A>, p: A -> bool)
    ensures forall x :: x in s && p(x) ==> x in Filter(s, p)
  {
    forall x | x in s && p(x) ensures x in Filter(s, p) {
      FilterMultiset(s, p, x);
      assert x in multiset(s);
    }
  }

  /**
   * `s.filter(p).length` counts the elements that pass `p`, and the rest of
   * `s` is the elements that fail it.
   */
  lemma {:induction false} FilterCount<A>(s: seq<A>, p: A -> bool)
    ensures |Filter(s, p)| == multiset(Map(s, p))[true]
    ensures |s| - |Filter(s, p)| == multiset(Map(s, p))[false]
  {
    if s != [] {
      FilterCount(s[1..], p);
      assert Map(s, p) == [p(s[0])] + Map(s[1..], p);
      assert multiset(Map(s, p)) == multiset{p(s[0])} + multiset(Map(s[1..], p));
    }
  }
}
