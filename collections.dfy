/**
 * Sequence helpers shared by the model: the list comprehensions of the
 * source (a filter keeping order, a map) and distinctness.
 */
module Collections {

  /** The elements of `s` that satisfy `p`, in their order in `s`. */
  function Filter<T(==)>(p: T -> bool, s: seq<T>): (r: seq<T>)
    ensures |r| <= |s|
    ensures forall x :: x in r ==> x in s && p(x)
  {
    if s == [] then [] else (if p(s[0]) then [s[0]] else []) + Filter(p, s[1..])
  }

  /** `f` applied to every element of `s`, in order. */
  function Map<T, U>(f: T -> U, s: seq<T>): seq<U>
  {
    seq(|s|, i requires 0 <= i < |s| => f(s[i]))
  }

  predicate Distinct<T(==)>(s: seq<T>)
  {
    forall i, j :: 0 <= i < j < |s| ==> s[i] != s[j]
  }

  /** Filter drops nothing that satisfies `p`. */
  lemma {:induction false} FilterKeeps<T>(p: T -> bool, s: seq<T>, x: T)
    requires x in s && p(x)
    ensures x in Filter(p, s)
  {
    if s[0] != x {
      FilterKeeps(p, s[1..], x);
    }
  }

  lemma AppendAssociates<T>(a: seq<T>, b: seq<T>, c: seq<T>)
    ensures (a + b) + c == a + (b + c)
  {
  }

  /** Dropping `a` elements and then `b` more drops `a + b`. */
  lemma DropDrop<T>(s: seq<T>, a: nat, b: nat)
    requires a <= |s| && b <= |s| - a
    ensures s[a..][b..] == s[a + b..]
  {
  }

  /** Filtering a concatenation filters each part and keeps them in order. */
  lemma {:induction false} FilterAppend<T>(p: T -> bool, a: seq<T>, b: seq<T>)
    ensures Filter(p, a + b) == Filter(p, a) + Filter(p, b)
  {
    if a == [] {
      assert a + b == b;
    } else {
      assert (a + b)[0] == a[0];
      assert (a + b)[1..] == a[1..] + b;
      FilterAppend(p, a[1..], b);
    }
  }

  /** If `f` is injective on the elements of `s`, it is still so on what a filter keeps. */
  lemma {:induction false} FilterKeepsDistinct<T, U>(f: T -> U, p: T -> bool, s: seq<T>)
    requires Distinct(Map(f, s))
    ensures Distinct(Map(f, Filter(p, s)))
  {
    if s != [] {
      var rest := Filter(p, s[1..]);
      assert Map(f, s[1..]) == Map(f, s)[1..];
      FilterKeepsDistinct(f, p, s[1..]);
      if p(s[0]) {
        assert Filter(p, s) == [s[0]] + rest;
        forall k | 0 <= k < |rest|
          ensures f(s[0]) != f(rest[k])
        {
          assert rest[k] in s[1..];
          var m :| 0 <= m < |s[1..]| && s[1..][m] == rest[k];
          assert Map(f, s)[0] != Map(f, s)[m + 1];
        }
        assert Map(f, Filter(p, s)) == [f(s[0])] + Map(f, rest);
      } else {
        assert Filter(p, s) == rest;
      }
    }
  }

  lemma DistinctConcat<T>(a: seq<T>, b: seq<T>)
    requires Distinct(a) && Distinct(b)
    requires forall x :: x in b ==> x !in a
    ensures Distinct(a + b)
  {
    forall i, j | 0 <= i < j < |a + b|
      ensures (a + b)[i] != (a + b)[j]
    {
      if i < |a| && |a| <= j {
        assert b[j - |a|] in b;
      }
    }
  }
}
