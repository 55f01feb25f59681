/** Python's `sorted` on a list of strings. Equal strings are identical, so
    stability is invisible and the sorted arrangement of a list is unique. */
module Sorting {
  import opened Text

  /** Every pair of positions is in `<=` order. */
  ghost predicate Sorted(s: seq<string>)
  {
    forall i, j :: 0 <= i < j < |s| ==> LessEq(s[i], s[j])
  }

  /** Inserts `w` before the first element it is `<=` to. */
  function Insert(w: string, s: seq<string>): (r: seq<string>)
    requires Sorted(s)
    ensures Sorted(r)
    ensures multiset(r) == multiset(s) + multiset{w}
    decreases |s|
  {
    if |s| == 0 then [w]
    else if LessEq(w, s[0]) then
      InsertFrontSorted(w, s);
      [w] + s
    else
      var rest := Insert(w, s[1..]);
      LessEqTotal(w, s[0]);
      assert s == [s[0]] + s[1..];
      forall x | x in rest
        ensures LessEq(s[0], x)
      {
        assert x in multiset(rest);
        if x != w {
          assert x in s[1..];
        }
      }
      ConsSorted(s[0], rest);
      [s[0]] + rest
  }

  lemma InsertFrontSorted(w: string, s: seq<string>)
    requires Sorted(s) && |s| > 0 && LessEq(w, s[0])
    ensures Sorted([w] + s)
  {
    forall j | 1 <= j < |s| + 1
      ensures LessEq(w, ([w] + s)[j])
    {
      if j > 1 {
        LessEqTransitive(w, s[0], s[j - 1]);
      }
    }
  }

  lemma ConsSorted(x: string, s: seq<string>)
    requires Sorted(s)
    requires forall y :: y in s ==> LessEq(x, y)
    ensures Sorted([x] + s)
  {
    var r := [x] + s;
    forall i, j | 0 <= i < j < |r|
      ensures LessEq(r[i], r[j])
    {
      assert r[j] == s[j - 1];
      if i > 0 {
        assert r[i] == s[i - 1];
      }
    }
  }

  /** Insertion sort: a sorted permutation of its input. */
  function Sort(words: seq<string>): (r: seq<string>)
    ensures Sorted(r)
    ensures multiset(r) == multiset(words)
    decreases |words|
  {
    if |words| == 0 then []
    else
      assert words == [words[0]] + words[1..];
      Insert(words[0], Sort(words[1..]))
  }

  /** The least element of a sorted sequence is its head: every element is
      above it. */
  lemma HeadIsLeast(a: seq<string>, x: string)
    requires Sorted(a) && x in multiset(a)
    ensures LessEq(a[0], x)
  {
    var j :| 0 <= j < |a| && a[j] == x;
    if j == 0 {
      LessEqReflexive(x);
    }
  }

  /** Two sorted permutations of each other start with the same string. */
  lemma SameHead(a: seq<string>, b: seq<string>)
    requires Sorted(a) && Sorted(b) && |a| > 0
    requires multiset(a) == multiset(b)
    ensures |b| > 0 && a[0] == b[0]
  {
    assert a[0] in multiset(b);
    assert b[0] in multiset(a);
    HeadIsLeast(a, b[0]);
    HeadIsLeast(b, a[0]);
    LessEqAntisymmetric(a[0], b[0]);
  }

  /** Dropping the head of a non-empty sequence removes one copy of it. */
  lemma TailMultiset(a: seq<string>)
    requires |a| > 0
    ensures multiset(a[1..]) == multiset(a) - multiset{a[0]}
  {
    assert a == [a[0]] + a[1..];
  }

  /** Two sorted arrangements of the same strings are equal, so `Sort` is the
      result Python's `sorted` returns. */
  lemma {:induction false} SortedUnique(a: seq<string>, b: seq<string>)
    requires Sorted(a) && Sorted(b)
    requires multiset(a) == multiset(b)
    ensures a == b
    decreases |a|
  {
    if |a| > 0 {
      SameHead(a, b);
      TailMultiset(a);
      TailMultiset(b);
      SortedUnique(a[1..], b[1..]);
      assert a == [a[0]] + a[1..] && b == [b[0]] + b[1..];
    } else {
      assert |b| == |multiset(b)| == 0;
    }
  }
}
