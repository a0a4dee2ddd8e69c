/** Order-preserving merges of sequences, used to say in which order entries leave and re-enter a queue. */
module Sequences {

  /** The sequence s is a merge of a and b: both appear in s in their own order, and nothing else does. */
  ghost predicate Interleaves<T>(s: seq<T>, a: seq<T>, b: seq<T>)
  {
    if s == [] then
      a == [] && b == []
    else
      var init, last := s[..|s| - 1], s[|s| - 1];
      || (a != [] && a[|a| - 1] == last && Interleaves(init, a[..|a| - 1], b))
      || (b != [] && b[|b| - 1] == last && Interleaves(init, a, b[..|b| - 1]))
  }

  /** The sequence t is s and one element more. */
  ghost predicate OneMore<T>(s: seq<T>, t: seq<T>, x: T) {
    t != [] && t[..|t| - 1] == s && t[|t| - 1] == x
  }

  lemma InterleavesAddLeft<T>(s: seq<T>, a: seq<T>, b: seq<T>, t: seq<T>, c: seq<T>, x: T)
    requires Interleaves(s, a, b) && OneMore(s, t, x) && OneMore(a, c, x)
    ensures Interleaves(t, c, b)
  {
  }

  lemma InterleavesAddRight<T>(s: seq<T>, a: seq<T>, b: seq<T>, t: seq<T>, c: seq<T>, x: T)
    requires Interleaves(s, a, b) && OneMore(s, t, x) && OneMore(b, c, x)
    ensures Interleaves(t, a, c)
  {
  }

  /** A merge loses nothing and invents nothing. */
  lemma {:induction false} InterleavesContents<T>(s: seq<T>, a: seq<T>, b: seq<T>)
    requires Interleaves(s, a, b)
    ensures multiset(s) == multiset(a) + multiset(b)
    ensures |s| == |a| + |b|
    decreases |s|
  {
    if s != [] {
      var init, last := s[..|s| - 1], s[|s| - 1];
      assert s == init + [last];
      if a != [] && a[|a| - 1] == last && Interleaves(init, a[..|a| - 1], b) {
        assert a == a[..|a| - 1] + [last];
        InterleavesContents(init, a[..|a| - 1], b);
      } else {
        assert b == b[..|b| - 1] + [last];
        InterleavesContents(init, a, b[..|b| - 1]);
      }
    }
  }

  /** A merge with nothing on one side is the other side. */
  lemma {:induction false} InterleavesNothing<T>(s: seq<T>, a: seq<T>)
    requires Interleaves(s, a, []) || Interleaves(s, [], a)
    ensures s == a
    decreases |s|
  {
    if s != [] {
      InterleavesNothing(s[..|s| - 1], a[..|a| - 1]);
      assert s == s[..|s| - 1] + [s[|s| - 1]] && a == a[..|a| - 1] + [a[|a| - 1]];
    }
  }

  /** The part of a sequence before the first occurrence of an element, or all of it. */
  function BeforeFirst<T(==)>(s: seq<T>, x: T): seq<T> {
    if s == [] || s[0] == x then [] else [s[0]] + BeforeFirst(s[1..], x)
  }

  lemma {:induction false} BeforeFirstWhole<T>(s: seq<T>, x: T)
    ensures BeforeFirst(s, x) == s <==> x !in s
  {
    if s != [] {
      BeforeFirstWhole(s[1..], x);
    }
  }
}
