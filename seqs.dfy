/** Sequence operations that the scripts use through Python lists. */
module Seqs {
  import opened Results

  /** Variable, coordinate and column names. */
  type Name = string

  /** `a` is `b` with some elements left out, the rest in the same order. */
  ghost predicate Subsequence<T>(a: seq<T>, b: seq<T>)
  {
    if a == [] then true
    else if b == [] then false
    else (a[0] == b[0] && Subsequence(a[1..], b[1..])) || Subsequence(a, b[1..])
  }

  /** The elements of a list, as a set. */
  function Elems<T>(s: seq<T>): set<T>
  {
    set x | x in s
  }

  /** Extending a prefix by one element adds that element to its set. */
  lemma ElemsPrefix<T>(s: seq<T>, i: nat)
    requires i < |s|
    ensures Elems(s[..i + 1]) == Elems(s[..i]) + {s[i]}
  {
    assert s[..i + 1] == s[..i] + [s[i]];
  }

  /** The elements of a concatenation are those of its two parts. */
  lemma ElemsAppend<T>(a: seq<T>, b: seq<T>)
    ensures Elems(a + b) == Elems(a) + Elems(b)
  {
  }

  /** No element occurs twice, as for the keys of a dictionary. */
  predicate Distinct<T(==)>(s: seq<T>)
  {
    forall i, j :: 0 <= i < j < |s| ==> s[i] != s[j]
  }

  /** The list `s` with every element of `xs` taken out, in the original order. */
  function Excluding<T(==, !new)>(s: seq<T>, xs: set<T>): (r: seq<T>)
    ensures forall y :: y in r <==> y in s && y !in xs
    ensures |r| <= |s|
    ensures Distinct(s) ==> Distinct(r)
  {
    if s == [] then []
    else if s[0] in xs then Excluding(s[1..], xs)
    else [s[0]] + Excluding(s[1..], xs)
  }

  /** Taking elements out keeps the others in their original order. */
  lemma {:induction false} ExcludingOrder<T(!new)>(s: seq<T>, xs: set<T>)
    ensures Subsequence(Excluding(s, xs), s)
  {
    if s != [] {
      ExcludingOrder(s[1..], xs);
      var r := Excluding(s, xs);
      if s[0] !in xs {
        assert r[0] == s[0] && r[1..] == Excluding(s[1..], xs);
      }
    }
  }

  /** Taking out `a` and then `b` is taking out both at once. */
  lemma {:induction false} ExcludingTwice<T(!new)>(s: seq<T>, a: set<T>, b: set<T>)
    ensures Excluding(Excluding(s, a), b) == Excluding(s, a + b)
  {
    if s != [] {
      ExcludingTwice(s[1..], a, b);
    }
  }

  /** Taking out names that are not there changes nothing. */
  lemma {:induction false} ExcludingAbsent<T(!new)>(s: seq<T>, xs: set<T>)
    requires forall x :: x in xs ==> x !in s
    ensures Excluding(s, xs) == s
  {
    if s != [] {
      ExcludingAbsent(s[1..], xs);
    }
  }

  /** Two lists without repeats and without common elements make one without repeats. */
  lemma DistinctAppend<T>(a: seq<T>, b: seq<T>)
    requires Distinct(a) && Distinct(b)
    requires forall x :: x in a ==> x !in b
    ensures Distinct(a + b)
  {
    forall i, j | 0 <= i < j < |a + b|
      ensures (a + b)[i] != (a + b)[j]
    {
      if i < |a| && j >= |a| {
        assert (a + b)[i] in a && (a + b)[j] in b;
      }
    }
  }

  /** Cutting out position i takes one copy of `s[i]` out of the multiset. */
  lemma MultisetRemoveAt<T>(s: seq<T>, i: nat)
    requires i < |s|
    ensures multiset(s[..i] + s[i + 1..]) == multiset(s) - multiset{s[i]}
  {
    assert s == s[..i] + [s[i]] + s[i + 1..];
  }

  /** Two permutations of each other stay so when the first element of one is cut out of both. */
  lemma PermutationTail<T>(a: seq<T>, b: seq<T>) returns (i: nat)
    requires multiset(a) == multiset(b) && a != []
    ensures i < |b| && b[i] == a[0]
    ensures multiset(a[1..]) == multiset(b[..i] + b[i + 1..])
  {
    assert a[0] in multiset(a);
    i :| 0 <= i < |b| && b[i] == a[0];
    MultisetRemoveAt(a, 0);
    assert a[..0] + a[1..] == a[1..];
    MultisetRemoveAt(b, i);
  }

  /** The position of the first occurrence of `x`, as Python's `list.index`. */
  function IndexOf<T(==)>(s: seq<T>, x: T): (i: nat)
    requires x in s
    ensures i < |s| && s[i] == x && x !in s[..i]
  {
    if s[0] == x then 0 else 1 + IndexOf(s[1..], x)
  }

  /**
   * Python's `list.remove(x)`: the list without the first occurrence of `x`,
   * or None where Python raises ValueError because `x` is not in the list.
   */
  function RemoveFirst<T(==)>(s: seq<T>, x: T): (r: Option<seq<T>>)
    ensures r.None? <==> x !in s
    ensures r.Some? ==> r.value == s[..IndexOf(s, x)] + s[IndexOf(s, x) + 1..]
    ensures r.Some? ==> |r.value| == |s| - 1
    ensures r.Some? ==> multiset(r.value) == multiset(s) - multiset{x}
  {
    if x !in s then None
    else
      var i := IndexOf(s, x);
      assert s == s[..i] + [s[i]] + s[i + 1..];
      Some(s[..i] + s[i + 1..])
  }

  /** In a list without repetitions an element occurs exactly once. */
  lemma {:induction false} DistinctOccursOnce<T>(s: seq<T>, x: T)
    requires Distinct(s) && x in s
    ensures multiset(s)[x] == 1
  {
    if s[0] == x {
      assert x !in s[1..];
      assert s == [s[0]] + s[1..];
    } else {
      DistinctOccursOnce(s[1..], x);
      assert s == [s[0]] + s[1..];
    }
  }
}
