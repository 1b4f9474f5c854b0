/** Sequence helpers that stand for the Python built-ins the analysis calls:
    slicing with a step of -1, `sum`, `max` and `list.sort`. */
module Seqs {

  /** `s[::-1]`: the same elements in the opposite order. */
  function Reverse<T>(s: seq<T>): (r: seq<T>)
    ensures |r| == |s|
    ensures forall i :: 0 <= i < |s| ==> r[i] == s[|s| - 1 - i]
  {
    if |s| == 0 then [] else Reverse(s[1..]) + [s[0]]
  }

  /** Reversing twice gives back the original sequence. */
  lemma ReverseReverse<T>(s: seq<T>)
    ensures Reverse(Reverse(s)) == s
  {
    var r := Reverse(Reverse(s));
    assert forall i :: 0 <= i < |s| ==> r[i] == s[i];
  }

  /** Reversal keeps every element with its multiplicity. */
  lemma {:induction false} ReversePermutes<T>(s: seq<T>)
    ensures multiset(Reverse(s)) == multiset(s)
  {
    if |s| > 0 {
      ReversePermutes(s[1..]);
      assert s == [s[0]] + s[1..];
    }
  }

  /** Python's `sum`: a left fold with `+` starting from 0. */
  function Sum(s: seq<real>): real
  {
    if |s| == 0 then 0.0 else Sum(s[..|s| - 1]) + s[|s| - 1]
  }

  /** Summing `n` copies of `c` gives `n * c`. */
  lemma {:induction false} SumConstant(s: seq<real>, c: real)
    requires forall i :: 0 <= i < |s| ==> s[i] == c
    ensures Sum(s) == |s| as real * c
  {
    if |s| > 0 {
      SumConstant(s[..|s| - 1], c);
    }
  }

  /** Python's `max` of a non-empty list: an element no other element exceeds. */
  function Max(s: seq<real>): (m: real)
    requires |s| > 0
    ensures m in s
    ensures forall i :: 0 <= i < |s| ==> s[i] <= m
  {
    if |s| == 1 then s[0]
    else
      var m := Max(s[..|s| - 1]);
      assert forall i :: 0 <= i < |s| - 1 ==> s[..|s| - 1][i] == s[i];
      if s[|s| - 1] > m then s[|s| - 1] else m
  }

  predicate Sorted(s: seq<real>)
  {
    forall i, j :: 0 <= i < j < |s| ==> s[i] <= s[j]
  }

  /** Putting an element no greater than any other in front keeps a sequence sorted. */
  lemma SortedCons(a: real, s: seq<real>)
    requires Sorted(s)
    requires forall k :: 0 <= k < |s| ==> a <= s[k]
    ensures Sorted([a] + s)
  {
    var r := [a] + s;
    assert forall k :: 0 < k < |r| ==> r[k] == s[k - 1];
  }

  /** A lower bound of every element of `s` and of `x` bounds every element of a
      sequence holding the elements of `s` and `x`. */
  lemma LowerBound(a: real, s: seq<real>, x: real, t: seq<real>)
    requires multiset(t) == multiset(s) + multiset{x}
    requires a <= x
    requires forall k :: 0 <= k < |s| ==> a <= s[k]
    ensures forall k :: 0 <= k < |t| ==> a <= t[k]
  {
    forall k | 0 <= k < |t|
      ensures a <= t[k]
    {
      assert t[k] in multiset(t);
      if t[k] != x {
        assert t[k] in multiset(s);
        var j :| 0 <= j < |s| && s[j] == t[k];
      }
    }
  }

  /** Inserts `x` into a sorted sequence, before the first element not below it. */
  function Insert(x: real, s: seq<real>): (r: seq<real>)
    requires Sorted(s)
    ensures |r| == |s| + 1
    ensures Sorted(r)
    ensures multiset(r) == multiset(s) + multiset{x}
  {
    if |s| == 0 then [x]
    else if x <= s[0] then
      SortedCons(x, s);
      [x] + s
    else
      var rest := Insert(x, s[1..]);
      assert s == [s[0]] + s[1..];
      LowerBound(s[0], s[1..], x, rest);
      SortedCons(s[0], rest);
      [s[0]] + rest
  }

  /** `list.sort()` on reals: an ascending permutation of the input. Any correct sort
      gives this same sequence (`SortedUnique`), so the algorithm does not matter. */
  function Sort(s: seq<real>): (r: seq<real>)
    ensures |r| == |s|
    ensures Sorted(r)
    ensures multiset(r) == multiset(s)
  {
    if |s| == 0 then []
    else
      assert s == [s[0]] + s[1..];
      Insert(s[0], Sort(s[1..]))
  }

  /** The first element of an ascending sequence is its least. */
  lemma HeadIsLeast(a: seq<real>, y: real)
    requires Sorted(a) && |a| > 0
    requires y in multiset(a)
    ensures a[0] <= y
  {
    var k :| 0 <= k < |a| && a[k] == y;
  }

  /** Dropping the head of a sequence removes one occurrence of it from the multiset. */
  lemma TailMultiset(a: seq<real>)
    requires |a| > 0
    ensures multiset(a[1..]) == multiset(a) - multiset{a[0]}
  {
    assert a == [a[0]] + a[1..];
  }

  /** Two ascending sequences holding the same elements are equal. */
  lemma {:induction false} SortedUnique(a: seq<real>, b: seq<real>)
    requires Sorted(a) && Sorted(b)
    requires multiset(a) == multiset(b)
    ensures a == b
  {
    assert |a| == |multiset(a)| == |multiset(b)| == |b|;
    if |a| > 0 {
      HeadIsLeast(b, a[0]);
      HeadIsLeast(a, b[0]);
      assert a[0] == b[0];
      TailMultiset(a);
      TailMultiset(b);
      SortedUnique(a[1..], b[1..]);
    }
  }
}
