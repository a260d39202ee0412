/** Flattening a nested structure item by item, and the prefix facts the
    capped loops over such structures need. */
module Flatten {

  /** The concatenation of f over s, first to last. */
  function ConcatMap<T, U>(f: T -> seq<U>, s: seq<T>): seq<U> {
    if |s| == 0 then [] else ConcatMap(f, s[..|s| - 1]) + f(s[|s| - 1])
  }

  predicate IsPrefix<U(==)>(a: seq<U>, b: seq<U>) {
    |a| <= |b| && b[..|a|] == a
  }

  lemma AppendAssociates<T>(a: seq<T>, b: seq<T>, c: seq<T>)
    ensures a + b + c == a + (b + c)
  {
  }

  lemma TakeAll<T>(s: seq<T>)
    ensures s[..|s|] == s
  {
  }

  lemma PrefixTransitive<U>(a: seq<U>, b: seq<U>, c: seq<U>)
    requires IsPrefix(a, b) && IsPrefix(b, c)
    ensures IsPrefix(a, c)
  {
    assert c[..|b|][..|a|] == c[..|a|];
  }

  lemma PrefixExtend<U>(p: seq<U>, a: seq<U>, b: seq<U>)
    requires IsPrefix(a, b)
    ensures IsPrefix(p + a, p + b)
  {
    assert (p + b)[..|p + a|] == p + b[..|a|];
  }

  lemma ConcatMapNext<T, U>(f: T -> seq<U>, s: seq<T>, i: int)
    requires 0 <= i < |s|
    ensures ConcatMap(f, s[..i + 1]) == ConcatMap(f, s[..i]) + f(s[i])
  {
    assert s[..i + 1][..i] == s[..i];
  }

  lemma {:induction false} ConcatMapAppend<T, U>(f: T -> seq<U>, a: seq<T>, b: seq<T>)
    ensures ConcatMap(f, a + b) == ConcatMap(f, a) + ConcatMap(f, b)
  {
    if |b| == 0 {
      assert a + b == a;
    } else {
      var pre := b[..|b| - 1];
      ConcatMapAppend(f, a, pre);
      assert (a + b)[..|a + b| - 1] == a + pre;
    }
  }

  /** Flattening from the front: the first item, then the rest. */
  lemma {:induction false} ConcatMapCons<T, U>(f: T -> seq<U>, s: seq<T>)
    requires |s| > 0
    ensures ConcatMap(f, s) == f(s[0]) + ConcatMap(f, s[1..])
  {
    assert s == [s[0]] + s[1..];
    ConcatMapAppend(f, [s[0]], s[1..]);
    assert [s[0]][..0] == [];
  }

  /** The items of a prefix flatten to a prefix of the whole. */
  lemma ConcatMapPrefix<T, U>(f: T -> seq<U>, s: seq<T>, i: int)
    requires 0 <= i <= |s|
    ensures IsPrefix(ConcatMap(f, s[..i]), ConcatMap(f, s))
  {
    assert s[..i] + s[i..] == s;
    ConcatMapAppend(f, s[..i], s[i..]);
    var a, b := ConcatMap(f, s[..i]), ConcatMap(f, s[i..]);
    assert (a + b)[..|a|] == a;
  }

  /** A prefix of the flattening up to item i is a prefix of the flattening
      of all the items. */
  lemma {:induction false} LiftPrefix<T, U>(f: T -> seq<U>, s: seq<T>, i: int, before: seq<U>, out: seq<U>)
    requires 0 <= i < |s|
    requires IsPrefix(out, before + ConcatMap(f, s[..i]) + f(s[i]))
    ensures IsPrefix(out, before + ConcatMap(f, s))
  {
    var b, c := ConcatMap(f, s[..i + 1]), ConcatMap(f, s);
    ConcatMapNext(f, s, i);
    assert IsPrefix(out, before + b) by {
      assert before + ConcatMap(f, s[..i]) + f(s[i]) == before + b;
    }
    ConcatMapPrefix(f, s, i + 1);
    PrefixExtend(before, b, c);
    PrefixTransitive(out, before + b, before + c);
  }

  /** Every element of the flattening comes from one item. */
  lemma {:induction false} ConcatMapMember<T, U>(f: T -> seq<U>, s: seq<T>, x: U)
    requires x in ConcatMap(f, s)
    ensures exists j :: 0 <= j < |s| && x in f(s[j])
  {
    var pre := s[..|s| - 1];
    if x in ConcatMap(f, pre) {
      ConcatMapMember(f, pre, x);
      var j :| 0 <= j < |pre| && x in f(pre[j]);
      assert s[j] == pre[j];
    } else {
      assert x in f(s[|s| - 1]);
    }
  }

  /** The flattening's length is the sum of the items' lengths, so it grows
      with the number of items taken. */
  lemma ConcatMapLengthMonotone<T, U>(f: T -> seq<U>, s: seq<T>, i: int, j: int)
    requires 0 <= i <= j <= |s|
    ensures |ConcatMap(f, s[..i])| <= |ConcatMap(f, s[..j])|
  {
    assert s[..j][..i] == s[..i];
    ConcatMapPrefix(f, s[..j], i);
  }
}
