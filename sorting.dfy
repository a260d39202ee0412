/** Sorting by a string key, as `sortedBy { it.name }` (Kotlin, comparing
    UTF-16 code units) and `sorted(...)` (Python, comparing code points) do:
    an insertion sort whose key is a code sequence ordered by `LexLess`. */
module Sorting {

  import opened Text

  /** a is at most b in the lexicographic order. */
  predicate Leq(a: seq<int>, b: seq<int>) {
    !LexLess(b, a)
  }

  lemma LeqTransitive(a: seq<int>, b: seq<int>, c: seq<int>)
    requires Leq(a, b) && Leq(b, c)
    ensures Leq(a, c)
  {
    LexLessTotal(a, b);
    LexLessTotal(b, c);
    if LexLess(c, a) && a != b && b != c {
      LexLessTransitive(a, b, c);
      LexLessTransitive(a, c, a);
      LexLessIrreflexive(a);
    }
  }

  predicate SortedBy<T>(s: seq<T>, key: T -> seq<int>) {
    forall i, j :: 0 <= i < j < |s| ==> Leq(key(s[i]), key(s[j]))
  }

  predicate AdjacentSorted<T>(s: seq<T>, key: T -> seq<int>) {
    forall i :: 0 < i < |s| ==> Leq(key(s[i - 1]), key(s[i]))
  }

  /** x placed before the first element whose key is larger than its own, so
      it comes after every element with an equal key. */
  function Insert<T>(x: T, s: seq<T>, key: T -> seq<int>): (r: seq<T>)
    ensures |r| == |s| + 1
    ensures r[0] == x || (|s| > 0 && r[0] == s[0])
  {
    if |s| == 0 || LexLess(key(x), key(s[0])) then [x] + s
    else [s[0]] + Insert(x, s[1..], key)
  }

  /** The elements inserted one by one, first to last. */
  function SortBy<T>(s: seq<T>, key: T -> seq<int>): (r: seq<T>)
    ensures |r| == |s|
  {
    if |s| == 0 then [] else Insert(s[|s| - 1], SortBy(s[..|s| - 1], key), key)
  }

  lemma {:induction false} InsertSorted<T>(x: T, s: seq<T>, key: T -> seq<int>)
    requires AdjacentSorted(s, key)
    ensures AdjacentSorted(Insert(x, s, key), key)
    ensures multiset(Insert(x, s, key)) == multiset(s) + multiset{x}
  {
    if |s| == 0 || LexLess(key(x), key(s[0])) {
      if |s| > 0 {
        LexLessAsymmetric(key(x), key(s[0]));
      }
    } else {
      InsertSorted(x, s[1..], key);
      assert s == [s[0]] + s[1..];
    }
  }

  lemma LexLessAsymmetric(a: seq<int>, b: seq<int>)
    requires LexLess(a, b)
    ensures Leq(a, b)
  {
    if LexLess(b, a) {
      LexLessTransitive(a, b, a);
      LexLessIrreflexive(a);
    }
  }

  lemma {:induction false} AdjacentToPairwise<T>(s: seq<T>, key: T -> seq<int>)
    requires AdjacentSorted(s, key)
    ensures SortedBy(s, key)
  {
    if |s| > 1 {
      var pre := s[..|s| - 1];
      AdjacentToPairwise(pre, key);
      forall i | 0 <= i < |s| - 1
        ensures Leq(key(s[i]), key(s[|s| - 1]))
      {
        if i < |s| - 2 {
          assert pre[i] == s[i] && pre[|s| - 2] == s[|s| - 2];
          LeqTransitive(key(s[i]), key(s[|s| - 2]), key(s[|s| - 1]));
        }
      }
      forall i, j | 0 <= i < j < |s|
        ensures Leq(key(s[i]), key(s[j]))
      {
        if j < |s| - 1 {
          assert pre[i] == s[i] && pre[j] == s[j];
        }
      }
    }
  }

  lemma {:induction false} SortByAdjacent<T>(s: seq<T>, key: T -> seq<int>)
    ensures AdjacentSorted(SortBy(s, key), key)
    ensures multiset(SortBy(s, key)) == multiset(s)
  {
    if |s| > 0 {
      var pre := s[..|s| - 1];
      SortByAdjacent(pre, key);
      InsertSorted(s[|s| - 1], SortBy(pre, key), key);
      assert s == pre + [s[|s| - 1]];
    }
  }

  /** The result is ordered by key and holds exactly the input's elements. */
  lemma SortByCorrect<T>(s: seq<T>, key: T -> seq<int>)
    ensures SortedBy(SortBy(s, key), key)
    ensures multiset(SortBy(s, key)) == multiset(s)
  {
    SortByAdjacent(s, key);
    AdjacentToPairwise(SortBy(s, key), key);
  }
}
