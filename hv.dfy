/** Pure specification of hypervectors and of the elementwise operations the
    engine performs on them. Bipolar hypervectors and their accumulators are
    exact small integers, so they are `int`; binary hypervectors are `bool`.
    The imperative code in HdcCore, the encoder and the Python mirror is proved
    against these functions, and the algebraic laws are proved here once. */
module HV {

  /** Every entry is +1 or -1. */
  predicate IsBipolar(v: seq<int>) {
    forall i :: 0 <= i < |v| ==> v[i] == 1 || v[i] == -1
  }

  function Zeros(n: nat): seq<int> {
    seq(n, _ => 0)
  }

  function Ones(n: nat): seq<int> {
    seq(n, _ => 1)
  }

  /** Elementwise product: binding of bipolar vectors. */
  function Bind(a: seq<int>, b: seq<int>): seq<int>
    requires |a| == |b|
  {
    seq(|a|, i requires 0 <= i < |a| => a[i] * b[i])
  }

  /** Elementwise exclusive or: binding of binary vectors. */
  function Xor(a: seq<bool>, b: seq<bool>): seq<bool>
    requires |a| == |b|
  {
    seq(|a|, i requires 0 <= i < |a| => a[i] != b[i])
  }

  /** Elementwise sum: bundling into an accumulator. */
  function Add(a: seq<int>, b: seq<int>): seq<int>
    requires |a| == |b|
  {
    seq(|a|, i requires 0 <= i < |a| => a[i] + b[i])
  }

  /** A binary entry counted as a vote of +1 (true) or -1 (false). */
  function Vote(b: bool): int {
    if b then 1 else -1
  }

  function AddVotes(acc: seq<int>, hv: seq<bool>): seq<int>
    requires |acc| == |hv|
  {
    seq(|acc|, i requires 0 <= i < |acc| => acc[i] + Vote(hv[i]))
  }

  /** The sign rule of the on-device engine: zero counts as positive. */
  function SignOf(v: int): int {
    if v >= 0 then 1 else -1
  }

  function Sign(a: seq<int>): seq<int> {
    seq(|a|, i requires 0 <= i < |a| => SignOf(a[i]))
  }

  function SignBinary(a: seq<int>): seq<bool> {
    seq(|a|, i requires 0 <= i < |a| => a[i] >= 0)
  }

  /** Dot product, accumulated from the first index to the last. */
  function Dot(a: seq<int>, b: seq<int>): int
    requires |a| == |b|
  {
    if |a| == 0 then 0 else Dot(a[..|a| - 1], b[..|b| - 1]) + a[|a| - 1] * b[|b| - 1]
  }

  /** Number of positions where two binary vectors differ. */
  function Hamming(a: seq<bool>, b: seq<bool>): int
    requires |a| == |b|
  {
    if |a| == 0 then 0
    else Hamming(a[..|a| - 1], b[..|b| - 1]) + (if a[|a| - 1] != b[|b| - 1] then 1 else 0)
  }

  /** Number of occurrences of `x` in `s`. */
  function Count<T(==)>(s: seq<T>, x: T): nat {
    if |s| == 0 then 0 else (if s[0] == x then 1 else 0) + Count(s[1..], x)
  }

  /** Circular left rotation by `k` positions, 0 <= k <= |s|. */
  function Rotate<T>(s: seq<T>, k: nat): seq<T>
    requires k <= |s|
  {
    s[k..] + s[..k]
  }

  /** All vectors in `vs` have length `n`. */
  predicate AllLen(vs: seq<seq<int>>, n: nat) {
    forall k :: 0 <= k < |vs| ==> |vs[k]| == n
  }

  /** The bundle of a list of vectors of length `n`, added in list order. */
  function SumAll(n: nat, vs: seq<seq<int>>): (r: seq<int>)
    requires AllLen(vs, n)
    ensures |r| == n
  {
    if |vs| == 0 then Zeros(n) else Add(SumAll(n, vs[..|vs| - 1]), vs[|vs| - 1])
  }

  // ---------------------------------------------------------------- binding

  lemma BindCommutes(a: seq<int>, b: seq<int>)
    requires |a| == |b|
    ensures Bind(a, b) == Bind(b, a)
  {
    assert forall i :: 0 <= i < |a| ==> Bind(a, b)[i] == Bind(b, a)[i];
  }

  /** Binding twice with the same bipolar vector is the identity. */
  lemma BindSelfInverse(a: seq<int>, b: seq<int>)
    requires |a| == |b| && IsBipolar(b)
    ensures Bind(Bind(a, b), b) == a
  {
    forall i | 0 <= i < |a|
      ensures Bind(Bind(a, b), b)[i] == a[i]
    {
      assert b[i] * b[i] == 1;
      calc {
        Bind(Bind(a, b), b)[i];
        (a[i] * b[i]) * b[i];
        a[i] * (b[i] * b[i]);
      }
    }
  }

  /** The product of two bipolar vectors is bipolar. */
  lemma BindIsBipolar(a: seq<int>, b: seq<int>)
    requires |a| == |b| && IsBipolar(a) && IsBipolar(b)
    ensures IsBipolar(Bind(a, b))
  {
  }

  lemma XorCommutes(a: seq<bool>, b: seq<bool>)
    requires |a| == |b|
    ensures Xor(a, b) == Xor(b, a)
  {
  }

  lemma XorSelfInverse(a: seq<bool>, b: seq<bool>)
    requires |a| == |b|
    ensures Xor(Xor(a, b), b) == a
  {
  }

  // ----------------------------------------------------------- sign rules

  lemma SignIsBipolar(a: seq<int>)
    ensures |Sign(a)| == |a| && IsBipolar(Sign(a))
  {
  }

  /** The sign of a bipolar vector is itself, so normalising twice changes nothing. */
  lemma SignFixesBipolar(v: seq<int>)
    requires IsBipolar(v)
    ensures Sign(v) == v
  {
  }

  lemma SignIdempotent(a: seq<int>)
    ensures Sign(Sign(a)) == Sign(a)
  {
    SignIsBipolar(a);
    SignFixesBipolar(Sign(a));
  }

  /** An all-zero accumulator normalises to all +1. */
  lemma SignOfZeros(n: nat)
    ensures Sign(Zeros(n)) == Ones(n)
  {
  }

  /** The boolean normalisation agrees position by position with the bipolar one. */
  lemma SignBinaryAgrees(a: seq<int>)
    ensures |SignBinary(a)| == |a|
    ensures forall i :: 0 <= i < |a| ==> (SignBinary(a)[i] <==> Sign(a)[i] == 1)
  {
  }

  // ------------------------------------------------------ dot and hamming

  lemma {:induction false} DotSymmetric(a: seq<int>, b: seq<int>)
    requires |a| == |b|
    ensures Dot(a, b) == Dot(b, a)
  {
    if |a| > 0 {
      DotSymmetric(a[..|a| - 1], b[..|b| - 1]);
    }
  }

  /** A bipolar vector has squared norm D, so dot(v, v) / D == 1. */
  lemma {:induction false} DotSelfBipolar(v: seq<int>)
    requires IsBipolar(v)
    ensures Dot(v, v) == |v|
  {
    if |v| > 0 {
      var w := v[..|v| - 1];
      assert IsBipolar(w);
      DotSelfBipolar(w);
      assert v[|v| - 1] * v[|v| - 1] == 1;
    }
  }

  /** A sum of squares is never negative. */
  lemma {:induction false} DotSelfNonNegative(v: seq<int>)
    ensures Dot(v, v) >= 0
  {
    if |v| > 0 {
      DotSelfNonNegative(v[..|v| - 1]);
      assert v[|v| - 1] * v[|v| - 1] >= 0;
    }
  }

  lemma {:induction false} HammingSymmetric(a: seq<bool>, b: seq<bool>)
    requires |a| == |b|
    ensures Hamming(a, b) == Hamming(b, a)
  {
    if |a| > 0 {
      HammingSymmetric(a[..|a| - 1], b[..|b| - 1]);
    }
  }

  lemma {:induction false} HammingBounds(a: seq<bool>, b: seq<bool>)
    requires |a| == |b|
    ensures 0 <= Hamming(a, b) <= |a|
  {
    if |a| > 0 {
      HammingBounds(a[..|a| - 1], b[..|b| - 1]);
    }
  }

  /** Distance zero exactly for equal vectors. */
  lemma {:induction false} HammingZeroIff(a: seq<bool>, b: seq<bool>)
    requires |a| == |b|
    ensures Hamming(a, b) == 0 <==> a == b
  {
    if |a| > 0 {
      var a', b' := a[..|a| - 1], b[..|b| - 1];
      HammingZeroIff(a', b');
      HammingBounds(a', b');
      assert a == a' + [a[|a| - 1]] && b == b' + [b[|b| - 1]];
    }
  }

  // -------------------------------------------------------------- rotation

  lemma RotateAt<T>(s: seq<T>, k: nat, i: int)
    requires k < |s| && 0 <= i < |s|
    ensures Rotate(s, k)[i] == s[(i + k) % |s|]
  {
    if i < |s| - k {
      assert (i + k) % |s| == i + k;
    } else {
      assert (i + k) % |s| == i + k - |s|;
    }
  }

  /** A rotation by zero is a copy. */
  lemma RotateZero<T>(s: seq<T>)
    ensures Rotate(s, 0) == s
  {
  }

  // -------------------------------------------------------------- counting

  /** Switching one entry that is not `x` to `x` adds one occurrence. */
  lemma {:induction false} CountUpdate<T>(s: seq<T>, q: int, x: T)
    requires 0 <= q < |s| && s[q] != x
    ensures Count(s[q := x], x) == Count(s, x) + 1
  {
    if q > 0 {
      assert s[q := x][1..] == s[1..][q - 1 := x];
      CountUpdate(s[1..], q - 1, x);
    } else {
      assert s[q := x][1..] == s[1..];
    }
  }

  lemma {:induction false} CountAll<T>(n: nat, x: T)
    ensures Count(seq(n, _ => x), x) == n
  {
    if n > 0 {
      assert seq(n, _ => x)[1..] == seq(n - 1, _ => x);
      CountAll(n - 1, x);
    }
  }

  lemma {:induction false} CountNone<T>(s: seq<T>, x: T)
    requires forall i :: 0 <= i < |s| ==> s[i] != x
    ensures Count(s, x) == 0
  {
    if |s| > 0 {
      CountNone(s[1..], x);
    }
  }

  // ------------------------------------------------------------- bundling

  lemma AddCommutes(a: seq<int>, b: seq<int>)
    requires |a| == |b|
    ensures Add(a, b) == Add(b, a)
  {
  }

  lemma AddAssociates(a: seq<int>, b: seq<int>, c: seq<int>)
    requires |a| == |b| == |c|
    ensures Add(Add(a, b), c) == Add(a, Add(b, c))
  {
  }

  lemma AddZeros(a: seq<int>)
    ensures Add(a, Zeros(|a|)) == a
  {
  }

  /** Bundling a concatenation is the sum of the two bundles. */
  lemma {:induction false} SumAllConcat(n: nat, ps: seq<seq<int>>, qs: seq<seq<int>>)
    requires AllLen(ps, n) && AllLen(qs, n)
    ensures AllLen(ps + qs, n)
    ensures |SumAll(n, ps)| == n && |SumAll(n, qs)| == n
    ensures SumAll(n, ps + qs) == Add(SumAll(n, ps), SumAll(n, qs))
  {
    if |qs| == 0 {
      assert ps + qs == ps;
      AddZeros(SumAll(n, ps));
    } else {
      var qs' := qs[..|qs| - 1];
      var q := qs[|qs| - 1];
      assert (ps + qs)[..|ps + qs| - 1] == ps + qs';
      SumAllConcat(n, ps, qs');
      AddAssociates(SumAll(n, ps), SumAll(n, qs'), q);
    }
  }

  /** Removing one vector from the list takes it out of the bundle. */
  lemma SumAllRemove(n: nat, vs: seq<seq<int>>, i: int)
    requires AllLen(vs, n) && 0 <= i < |vs|
    ensures AllLen(vs[..i] + vs[i + 1..], n)
    ensures |SumAll(n, vs[..i] + vs[i + 1..])| == n
    ensures SumAll(n, vs) == Add(SumAll(n, vs[..i] + vs[i + 1..]), vs[i])
  {
    assert vs == vs[..i] + ([vs[i]] + vs[i + 1..]);
    SumAllConcat(n, vs[..i], [vs[i]] + vs[i + 1..]);
    SumAllConcat(n, [vs[i]], vs[i + 1..]);
    SumAllConcat(n, vs[..i], vs[i + 1..]);
    assert [vs[i]][..0] == [];
    assert SumAll(n, [vs[i]]) == Add(Zeros(n), vs[i]);
    AddCommutes(Zeros(n), vs[i]);
    AddZeros(vs[i]);
    AddCommutes(vs[i], SumAll(n, vs[i + 1..]));
    AddAssociates(SumAll(n, vs[..i]), SumAll(n, vs[i + 1..]), vs[i]);
  }

  /** The bundle does not depend on the order in which vectors were added. */
  lemma {:induction false} SumAllPermutation(n: nat, ps: seq<seq<int>>, qs: seq<seq<int>>)
    requires AllLen(ps, n) && AllLen(qs, n)
    requires multiset(ps) == multiset(qs)
    ensures SumAll(n, ps) == SumAll(n, qs)
  {
    if |qs| > 0 {
      var q := qs[|qs| - 1];
      var qs' := qs[..|qs| - 1];
      var i := MatchIndex(ps, qs);
      var ps' := ps[..i] + ps[i + 1..];
      SumAllRemove(n, ps, i);
      SumAllPermutation(n, ps', qs');
      assert SumAll(n, qs) == Add(SumAll(n, qs'), q);
    } else {
      assert |ps| == 0;
    }
  }

  /** The last element of `qs` occurs in `ps`, and removing one copy from
      each leaves equal multisets. */
  lemma MatchIndex(ps: seq<seq<int>>, qs: seq<seq<int>>) returns (i: int)
    requires multiset(ps) == multiset(qs) && |qs| > 0
    ensures 0 <= i < |ps| && ps[i] == qs[|qs| - 1]
    ensures multiset(ps[..i] + ps[i + 1..]) == multiset(qs[..|qs| - 1])
  {
    var q := qs[|qs| - 1];
    assert qs == qs[..|qs| - 1] + [q];
    assert q in multiset(ps);
    i :| 0 <= i < |ps| && ps[i] == q;
    assert ps == ps[..i] + [q] + ps[i + 1..];
    assert multiset(ps[..i] + ps[i + 1..]) == multiset(ps) - multiset{q};
    assert multiset(qs[..|qs| - 1]) == multiset(qs) - multiset{q};
  }

  /** `f` applied to every element, in order. */
  function MapSeq<A, B>(f: A --> B, s: seq<A>): (r: seq<B>)
    requires forall i :: 0 <= i < |s| ==> f.requires(s[i])
    ensures |r| == |s|
  {
    if |s| == 0 then [] else MapSeq(f, s[..|s| - 1]) + [f(s[|s| - 1])]
  }

  lemma {:induction false} MapSeqAt<A, B>(f: A --> B, s: seq<A>)
    requires forall x :: f.requires(x)
    ensures forall i :: 0 <= i < |s| ==> MapSeq(f, s)[i] == f(s[i])
  {
    if |s| > 0 {
      MapSeqAt(f, s[..|s| - 1]);
    }
  }

  lemma {:induction false} MapSeqConcat<A, B>(f: A --> B, a: seq<A>, b: seq<A>)
    requires forall x :: f.requires(x)
    ensures MapSeq(f, a + b) == MapSeq(f, a) + MapSeq(f, b)
  {
    if |b| == 0 {
      assert a + b == a;
    } else {
      assert (a + b)[..|a + b| - 1] == a + b[..|b| - 1];
      MapSeqConcat(f, a, b[..|b| - 1]);
    }
  }

  lemma MapSeqRemove<A, B>(f: A --> B, s: seq<A>, i: int)
    requires forall x :: f.requires(x)
    requires 0 <= i < |s|
    ensures multiset(MapSeq(f, s)) == multiset(MapSeq(f, s[..i] + s[i + 1..])) + multiset{f(s[i])}
  {
    var pre, post := s[..i], s[i + 1..];
    assert s == pre + ([s[i]] + post);
    MapSeqConcat(f, pre, [s[i]] + post);
    MapSeqConcat(f, [s[i]], post);
    MapSeqConcat(f, pre, post);
  }

  lemma MapSeqMultisetStep<A, B>(f: A --> B, s: seq<A>, t: seq<A>, i: int)
    requires forall x :: f.requires(x)
    requires 0 <= i < |s| && |t| > 0 && s[i] == t[|t| - 1]
    requires multiset(MapSeq(f, s[..i] + s[i + 1..])) == multiset(MapSeq(f, t[..|t| - 1]))
    ensures multiset(MapSeq(f, s)) == multiset(MapSeq(f, t))
  {
    MapSeqRemove(f, s, i);
  }

  lemma MultisetRemoveAt<A>(s: seq<A>, i: int)
    requires 0 <= i < |s|
    ensures multiset(s[..i] + s[i + 1..]) == multiset(s) - multiset{s[i]}
  {
    assert s == s[..i] + [s[i]] + s[i + 1..];
  }

  /** Mapping two orderings of the same elements gives two orderings of the same images. */
  lemma {:induction false} MapSeqMultiset<A, B>(f: A --> B, s: seq<A>, t: seq<A>)
    requires forall x :: f.requires(x)
    requires multiset(s) == multiset(t)
    ensures multiset(MapSeq(f, s)) == multiset(MapSeq(f, t))
  {
    if |t| > 0 {
      var x := t[|t| - 1];
      var t' := t[..|t| - 1];
      MultisetRemoveAt(t, |t| - 1);
      assert t[..|t| - 1] + t[|t|..] == t';
      assert x in multiset(s);
      var i :| 0 <= i < |s| && s[i] == x;
      MultisetRemoveAt(s, i);
      MapSeqMultiset(f, s[..i] + s[i + 1..], t');
      MapSeqMultisetStep(f, s, t, i);
    } else {
      assert |s| == 0;
    }
  }
}
