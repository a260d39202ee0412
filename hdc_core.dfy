/** The hyperdimensional vector algebra of the on-device engine (HdcCore.kt):
    seeded vector generation by a partial Fisher-Yates shuffle, bind, bundle,
    sign normalisation, cosine similarity, Hamming distance and rotation.

    Every operation is an index loop. Arrays the source writes (`out`, `acc`)
    are arrays here; arrays it only reads are passed as their contents, a
    `seq`. A Kotlin `require` that fails becomes `ok == false` (or a `Failure`)
    and, as in the source, is checked before anything is written. */
module HdcCore {

  import opened Wrappers
  import opened HV

  /** The seeded generator, `kotlin.random.Random(seed)`, as a given function:
      `draw(seed, D, i)` is what the i-th call `nextInt(D - i)` returns when a
      generator seeded with `seed` produces a vector of length D. */
  type Draw = (bv64, nat, nat) -> int

  /** `nextInt(bound)` returns a value in [0, bound). */
  ghost predicate DrawInRange(draw: Draw) {
    forall seed: bv64, d: nat, i: nat :: i < d ==> 0 <= draw(seed, d, i) < d - i
  }

  /** Kotlin's `Double.roundToInt()` (round half up), over the reals. */
  function RoundToInt(x: real): int {
    (x + 0.5).Floor
  }

  lemma RoundFractionBounds(d: nat, p: real)
    requires 0.0 <= p <= 1.0
    ensures 0 <= RoundToInt(d as real * p) <= d
  {
    assert 0.0 <= d as real * p <= d as real;
  }

  // ------------------------------------------------- the shuffle, as a function

  function Iota(n: nat): seq<int> {
    seq(n, i => i)
  }

  function Swap(s: seq<int>, i: nat, j: nat): seq<int>
    requires i < |s| && j < |s|
  {
    s[i := s[j]][j := s[i]]
  }

  /** The index array `idx` after the first `n` steps of the shuffle. */
  function ShuffledIdx(d: nat, n: nat, seed: bv64, draw: Draw): (idx: seq<int>)
    requires n <= d && DrawInRange(draw)
    ensures |idx| == d
  {
    if n == 0 then Iota(d)
    else Swap(ShuffledIdx(d, n - 1, seed, draw), n - 1, n - 1 + draw(seed, d, n - 1))
  }

  /** The positions chosen by the first `n` steps: the prefix idx[..n]. */
  function Selected(d: nat, n: nat, seed: bv64, draw: Draw): seq<int>
    requires n <= d && DrawInRange(draw)
  {
    ShuffledIdx(d, n, seed, draw)[..n]
  }

  /** A vector of length d holding `on` at the positions in `sel` and `off` elsewhere. */
  function Mark<T>(d: nat, sel: seq<int>, on: T, off: T): seq<T> {
    seq(d, p => if p in sel then on else off)
  }

  /** What `randomBipolar` returns: -1 everywhere except +1 at the selected positions. */
  function BipolarSpec(d: nat, numPos: nat, seed: bv64, draw: Draw): seq<int>
    requires numPos <= d && DrawInRange(draw)
  {
    Mark(d, Selected(d, numPos, seed, draw), 1, -1)
  }

  /** What `randomBinary` returns: true exactly at the selected positions. */
  function BinarySpec(d: nat, numTrue: nat, seed: bv64, draw: Draw): seq<bool>
    requires numTrue <= d && DrawInRange(draw)
  {
    Mark(d, Selected(d, numTrue, seed, draw), true, false)
  }

  /** `idx` stays a permutation of 0..d-1: in range and without repeats. */
  lemma {:induction false} ShuffledIdxPermutation(d: nat, n: nat, seed: bv64, draw: Draw)
    requires n <= d && DrawInRange(draw)
    ensures forall k :: 0 <= k < d ==> 0 <= ShuffledIdx(d, n, seed, draw)[k] < d
    ensures forall k, l :: 0 <= k < l < d ==> ShuffledIdx(d, n, seed, draw)[k] != ShuffledIdx(d, n, seed, draw)[l]
  {
    if n > 0 {
      ShuffledIdxPermutation(d, n - 1, seed, draw);
    }
  }

  /** One more step appends one position that was not selected before. */
  lemma SelectedStep(d: nat, n: nat, seed: bv64, draw: Draw)
    requires n < d && DrawInRange(draw)
    ensures var q := ShuffledIdx(d, n + 1, seed, draw)[n];
      && 0 <= q < d
      && q !in Selected(d, n, seed, draw)
      && Selected(d, n + 1, seed, draw) == Selected(d, n, seed, draw) + [q]
  {
    var prev := ShuffledIdx(d, n, seed, draw);
    var j := n + draw(seed, d, n);
    ShuffledIdxPermutation(d, n, seed, draw);
    var cur := ShuffledIdx(d, n + 1, seed, draw);
    assert cur == Swap(prev, n, j);
    assert cur[n] == prev[j];
    assert cur[..n] == prev[..n];
    assert cur[..n + 1] == prev[..n] + [prev[j]];
    forall k | 0 <= k < n ensures prev[k] != prev[j] { }
  }

  lemma MarkExtend<T>(d: nat, sel: seq<int>, q: int, on: T, off: T)
    requires 0 <= q < d
    ensures Mark(d, sel + [q], on, off) == Mark(d, sel, on, off)[q := on]
  {
  }

  /** Exactly n positions carry `on`: the count promised for numPos and numTrue. */
  lemma {:induction false} SelectedCount<T>(d: nat, n: nat, seed: bv64, draw: Draw, on: T, off: T)
    requires n <= d && DrawInRange(draw) && on != off
    ensures Count(Mark(d, Selected(d, n, seed, draw), on, off), on) == n
  {
    if n == 0 {
      CountNone(Mark(d, Selected(d, n, seed, draw), on, off), on);
    } else {
      SelectedCount(d, n - 1, seed, draw, on, off);
      SelectedStep(d, n - 1, seed, draw);
      var q := ShuffledIdx(d, n, seed, draw)[n - 1];
      var before := Mark(d, Selected(d, n - 1, seed, draw), on, off);
      MarkExtend(d, Selected(d, n - 1, seed, draw), q, on, off);
      CountUpdate(before, q, on);
    }
  }

  /** The generated vector has length d, is bipolar, and has exactly numPos entries +1. */
  lemma BipolarSpecShape(d: nat, numPos: nat, seed: bv64, draw: Draw)
    requires numPos <= d && DrawInRange(draw)
    ensures |BipolarSpec(d, numPos, seed, draw)| == d
    ensures IsBipolar(BipolarSpec(d, numPos, seed, draw))
    ensures Count(BipolarSpec(d, numPos, seed, draw), 1) == numPos
  {
    SelectedCount(d, numPos, seed, draw, 1, -1);
  }

  // ------------------------------------------------------ vector generation

  /** One step of the shuffle: it swaps idx[i] with idx[i + draw] and marks
      the position that lands at idx[i], which is in range. */
  lemma ShuffleStep<T>(d: nat, i: nat, seed: bv64, draw: Draw, on: T, off: T)
    requires i < d && DrawInRange(draw)
    ensures var prev, cur := ShuffledIdx(d, i, seed, draw), ShuffledIdx(d, i + 1, seed, draw);
      && cur == Swap(prev, i, i + draw(seed, d, i))
      && 0 <= cur[i] < d
      && Mark(d, cur[..i + 1], on, off) == Mark(d, prev[..i], on, off)[cur[i] := on]
  {
    var prev, cur := ShuffledIdx(d, i, seed, draw), ShuffledIdx(d, i + 1, seed, draw);
    ShuffledIdxPermutation(d, i + 1, seed, draw);
    assert cur[..i] == prev[..i];
    assert cur[..i + 1] == prev[..i] + [cur[i]];
    MarkExtend(d, prev[..i], cur[i], on, off);
  }

  /** The shuffle loop both generators share: start with `off` everywhere and
      the identity permutation, and for i < count swap idx[i] with a random
      idx[j], j in [i, d), and mark position idx[i]. */
  method ShuffleMark<T>(d: nat, count: nat, seed: bv64, draw: Draw, on: T, off: T) returns (hv: seq<T>)
    requires count <= d && DrawInRange(draw)
    ensures hv == Mark(d, Selected(d, count, seed, draw), on, off)
  {
    var h := new T[d](_ => off);
    var idx := new int[d](k => k);
    assert idx[..] == Iota(d);
    for i := 0 to count
      invariant idx[..] == ShuffledIdx(d, i, seed, draw)
      invariant h[..] == Mark(d, idx[..i], on, off)
    {
      ghost var marked := h[..];
      SwapAt(idx, i, i + draw(seed, d, i));
      ShuffleStep(d, i, seed, draw, on, off);
      h[idx[i]] := on;
      assert h[..] == marked[idx[i] := on];
    }
    hv := h[..];
  }

  /** The swap of idx[i] and idx[j] in place. */
  method SwapAt(idx: array<int>, i: nat, j: nat)
    requires i < idx.Length && j < idx.Length
    modifies idx
    ensures idx[..] == Swap(old(idx[..]), i, j)
  {
    var t := idx[i];
    idx[i] := idx[j];
    idx[j] := t;
  }

  /** `randomBipolar`: D > 0 and posFraction in [0, 1] are required; the result
      has length D, entries +1/-1, and exactly round(D * posFraction) entries +1. */
  method RandomBipolar(d: int, posFraction: real, seed: bv64, draw: Draw) returns (r: Result<seq<int>>)
    requires DrawInRange(draw)
    ensures r.Success? <==> d > 0 && 0.0 <= posFraction <= 1.0
    ensures r.Success? ==>
      var numPos := RoundToInt(d as real * posFraction);
      && 0 <= numPos <= d
      && |r.value| == d && IsBipolar(r.value) && Count(r.value, 1) == numPos
      && r.value == BipolarSpec(d, numPos, seed, draw)
  {
    if d <= 0 {
      return Failure("D must be > 0");
    }
    if !(0.0 <= posFraction <= 1.0) {
      return Failure("posFraction must be between 0.0 and 1.0");
    }
    var numPos := RoundToInt(d as real * posFraction);
    RoundFractionBounds(d, posFraction);
    var hv := ShuffleMark(d, numPos, seed, draw, 1, -1);
    BipolarSpecShape(d, numPos, seed, draw);
    r := Success(hv);
  }

  /** `randomBinary`: the same checks and shuffle; exactly round(D * trueFraction) entries are true. */
  method RandomBinary(d: int, trueFraction: real, seed: bv64, draw: Draw) returns (r: Result<seq<bool>>)
    requires DrawInRange(draw)
    ensures r.Success? <==> d > 0 && 0.0 <= trueFraction <= 1.0
    ensures r.Success? ==>
      var numTrue := RoundToInt(d as real * trueFraction);
      && 0 <= numTrue <= d
      && |r.value| == d && Count(r.value, true) == numTrue
      && r.value == BinarySpec(d, numTrue, seed, draw)
  {
    if d <= 0 {
      return Failure("D must be > 0");
    }
    if !(0.0 <= trueFraction <= 1.0) {
      return Failure("trueFraction must be between 0.0 and 1.0");
    }
    var numTrue := RoundToInt(d as real * trueFraction);
    RoundFractionBounds(d, trueFraction);
    var hv := ShuffleMark(d, numTrue, seed, draw, true, false);
    SelectedCount(d, numTrue, seed, draw, true, false);
    r := Success(hv);
  }

  // ------------------------------------------------------- bind and bundle

  /** `bindBipolar`: out[i] := a[i] * b[i]; refuses a size mismatch of a, b or out. */
  method BindBipolar(a: seq<int>, b: seq<int>, out: array<int>) returns (ok: bool)
    modifies out
    ensures ok <==> |a| == |b| && out.Length == |a|
    ensures ok ==> out[..] == Bind(a, b)
    ensures !ok ==> out[..] == old(out[..])
  {
    if |a| != |b| || out.Length != |a| {
      return false;
    }
    for i := 0 to |a|
      invariant forall k :: 0 <= k < i ==> out[k] == a[k] * b[k]
    {
      out[i] := a[i] * b[i];
    }
    ok := true;
  }

  /** `bindBinary`: out[i] := a[i] xor b[i]; refuses a size mismatch. */
  method BindBinary(a: seq<bool>, b: seq<bool>, out: array<bool>) returns (ok: bool)
    modifies out
    ensures ok <==> |a| == |b| && out.Length == |a|
    ensures ok ==> out[..] == Xor(a, b)
    ensures !ok ==> out[..] == old(out[..])
  {
    if |a| != |b| || out.Length != |a| {
      return false;
    }
    for i := 0 to |a|
      invariant forall k :: 0 <= k < i ==> out[k] == (a[k] != b[k])
    {
      out[i] := a[i] != b[i];
    }
    ok := true;
  }

  /** `bundleInto`: acc[i] += hv[i]; nothing else changes. */
  method BundleInto(acc: array<int>, hv: seq<int>) returns (ok: bool)
    modifies acc
    ensures ok <==> acc.Length == |hv|
    ensures ok ==> acc[..] == Add(old(acc[..]), hv)
    ensures !ok ==> acc[..] == old(acc[..])
  {
    if acc.Length != |hv| {
      return false;
    }
    for i := 0 to |hv|
      invariant forall k :: 0 <= k < i ==> acc[k] == old(acc[k]) + hv[k]
      invariant forall k :: i <= k < |hv| ==> acc[k] == old(acc[k])
    {
      acc[i] := acc[i] + hv[i];
    }
    ok := true;
  }

  /** `bundleIntoBinary`: acc[i] += (hv[i] ? 1 : -1). */
  method BundleIntoBinary(acc: array<int>, hv: seq<bool>) returns (ok: bool)
    modifies acc
    ensures ok <==> acc.Length == |hv|
    ensures ok ==> acc[..] == AddVotes(old(acc[..]), hv)
    ensures !ok ==> acc[..] == old(acc[..])
  {
    if acc.Length != |hv| {
      return false;
    }
    for i := 0 to |hv|
      invariant forall k :: 0 <= k < i ==> acc[k] == old(acc[k]) + Vote(hv[k])
      invariant forall k :: i <= k < |hv| ==> acc[k] == old(acc[k])
    {
      acc[i] := acc[i] + (if hv[i] then 1 else -1);
    }
    ok := true;
  }

  /** `signNormalize`, in place: v >= 0 becomes +1, v < 0 becomes -1. */
  method SignNormalize(acc: array<int>)
    modifies acc
    ensures acc[..] == Sign(old(acc[..]))
  {
    for i := 0 to acc.Length
      invariant forall k :: 0 <= k < i ==> acc[k] == SignOf(old(acc[k]))
      invariant forall k :: i <= k < acc.Length ==> acc[k] == old(acc[k])
    {
      acc[i] := if acc[i] >= 0 then 1 else -1;
    }
  }

  /** `normalizeBinary`: out[i] := acc[i] >= 0 for every index of acc. There is
      no size check: an `out` shorter than acc is filled as far as it goes and
      then the write past its end throws (ok == false); entries of a longer
      `out` beyond |acc| are left alone. */
  method NormalizeBinary(acc: seq<int>, out: array<bool>) returns (ok: bool)
    modifies out
    ensures ok <==> |acc| <= out.Length
    ensures var n := if |acc| <= out.Length then |acc| else out.Length;
      && out[..n] == SignBinary(acc)[..n]
      && out[n..] == old(out[n..])
  {
    var n := if |acc| <= out.Length then |acc| else out.Length;
    for i := 0 to n
      invariant forall k :: 0 <= k < i ==> out[k] == (acc[k] >= 0)
      invariant forall k :: i <= k < out.Length ==> out[k] == old(out[k])
    {
      out[i] := acc[i] >= 0;
    }
    ok := |acc| <= out.Length;
  }

  // ----------------------------------------------------------- similarity

  lemma DotPrefix(a: seq<int>, b: seq<int>, i: int)
    requires |a| == |b| && 0 <= i < |a|
    ensures Dot(a[..i + 1], b[..i + 1]) == Dot(a[..i], b[..i]) + a[i] * b[i]
  {
    assert a[..i + 1][..i] == a[..i] && b[..i + 1][..i] == b[..i];
  }

  /** `cosine`. With `assumeUnitNormBipolar` it is dot / D, which is 1 for a
      bipolar vector against itself; otherwise dot / sqrt(|a|^2 |b|^2), and 0
      when that denominator is 0. A size mismatch is refused; dot / D on empty
      vectors is the float NaN, reported here as a Failure. `sqrt` is given. */
  method Cosine(a: seq<int>, b: seq<int>, assumeUnitNormBipolar: bool, sqrt: real -> real) returns (r: Result<real>)
    ensures r.Failure? <==> |a| != |b| || (assumeUnitNormBipolar && |a| == 0)
    ensures r.Success? && assumeUnitNormBipolar ==> r.value == Dot(a, b) as real / |a| as real
    ensures r.Success? && assumeUnitNormBipolar && a == b && IsBipolar(a) ==> r.value == 1.0
    ensures r.Success? && !assumeUnitNormBipolar ==>
      var denom := sqrt((Dot(a, a) * Dot(b, b)) as real);
      r.value == if denom == 0.0 then 0.0 else Dot(a, b) as real / denom
  {
    if |a| != |b| {
      return Failure("cosine: size mismatch");
    }
    if assumeUnitNormBipolar {
      var dot := DotLoop(a, b);
      if |a| == 0 {
        return Failure("NaN");
      }
      var n := |a| as real;
      if a == b && IsBipolar(a) {
        DotSelfBipolar(a);
        assert dot as real == n;
        assert n / n == 1.0;
      }
      return Success(dot as real / n);
    } else {
      var dot, na, nb := DotNormsLoop(a, b);
      var denom := sqrt((na * nb) as real);
      return Success(if denom == 0.0 then 0.0 else dot as real / denom);
    }
  }

  /** The loop of the unit-norm branch of `cosine`: the dot product. */
  method DotLoop(a: seq<int>, b: seq<int>) returns (dot: int)
    requires |a| == |b|
    ensures dot == Dot(a, b)
  {
    dot := 0;
    for i := 0 to |a|
      invariant dot == Dot(a[..i], b[..i])
    {
      DotPrefix(a, b, i);
      dot := dot + a[i] * b[i];
    }
    assert a[..|a|] == a && b[..|b|] == b;
  }

  /** The loop of the general branch of `cosine`: the dot product and both squared norms. */
  method DotNormsLoop(a: seq<int>, b: seq<int>) returns (dot: int, na: int, nb: int)
    requires |a| == |b|
    ensures dot == Dot(a, b) && na == Dot(a, a) && nb == Dot(b, b)
  {
    dot, na, nb := 0, 0, 0;
    for i := 0 to |a|
      invariant dot == Dot(a[..i], b[..i])
      invariant na == Dot(a[..i], a[..i]) && nb == Dot(b[..i], b[..i])
    {
      DotPrefix(a, b, i);
      DotPrefix(a, a, i);
      DotPrefix(b, b, i);
      var ai := a[i];
      var bi := b[i];
      dot := dot + ai * bi;
      na := na + ai * ai;
      nb := nb + bi * bi;
    }
    assert a[..|a|] == a && b[..|b|] == b;
  }

  /** `hammingDistance`: the number of differing positions, in 0..D; refuses a size mismatch. */
  method HammingDistance(a: seq<bool>, b: seq<bool>) returns (r: Result<int>)
    ensures r.Failure? <==> |a| != |b|
    ensures r.Success? ==> r.value == Hamming(a, b) && 0 <= r.value <= |a|
  {
    if |a| != |b| {
      return Failure("hammingDistance: size mismatch");
    }
    var diff := 0;
    for i := 0 to |a|
      invariant diff == Hamming(a[..i], b[..i])
    {
      assert a[..i + 1][..i] == a[..i] && b[..i + 1][..i] == b[..i];
      if a[i] != b[i] {
        diff := diff + 1;
      }
    }
    assert a[..|a|] == a && b[..|b|] == b;
    HammingBounds(a, b);
    r := Success(diff);
  }

  // -------------------------------------------------------------- rotation

  /** Kotlin's `%` on Int: the remainder takes the sign of the dividend. */
  function TruncRem(x: int, m: int): int
    requires m > 0
  {
    if x >= 0 then x % m else -((-x) % m)
  }

  /** The shift `((k % D) + D) % D` of permuteLeft, with Kotlin's `%`. */
  function Shift(k: int, d: int): int
    requires d > 0
  {
    TruncRem(TruncRem(k, d) + d, d)
  }

  lemma MulAtLeast(a: int, d: int)
    requires a >= 1 && d > 0
    ensures a * d >= d
  {
  }

  lemma MulSub(a: int, b: int, d: int)
    ensures (a - b) * d == a * d - b * d
  {
  }

  lemma MulAdd(a: int, b: int, d: int)
    ensures (a + b) * d == a * d + b * d
  {
  }

  /** Euclidean division is unique: x == q * d + r with 0 <= r < d fixes x / d and x % d. */
  lemma ModOf(x: int, d: int, q: int, r: int)
    requires d > 0 && x == q * d + r && 0 <= r < d
    ensures x / d == q && x % d == r
  {
    var q', r' := x / d, x % d;
    assert q' * d + r' == x;
    if q' > q {
      MulAtLeast(q' - q, d);
      MulSub(q', q, d);
    } else if q' < q {
      MulAtLeast(q - q', d);
      MulSub(q, q', d);
    }
  }

  lemma ModAddMod(i: int, k: int, d: int)
    requires d > 0
    ensures (i + k % d) % d == (i + k) % d
  {
    var m := i + k % d;
    var qk, qm := k / d, m / d;
    assert k == qk * d + k % d;
    assert m == qm * d + m % d;
    MulAdd(qk, qm, d);
    ModOf(i + k, d, qk + qm, m % d);
  }

  /** The shift is k mod D, in [0, D), for negative k as well. */
  lemma ShiftIsMod(k: int, d: int)
    requires d > 0
    ensures Shift(k, d) == k % d
  {
    if k >= 0 {
      var r := k % d;
      ModOf(r + d, d, 1, r);
    } else {
      var q, r := (-k) / d, (-k) % d;
      assert -k == q * d + r;
      if r == 0 {
        ModOf(d, d, 1, 0);
        ModOf(k, d, -q, 0);
      } else {
        ModOf(d - r, d, 0, d - r);
        MulAdd(-q - 1, 1, d);
        ModOf(k, d, -q - 1, d - r);
      }
    }
  }

  /** Rotating by the shift moves position i + k (mod D) to position i. */
  lemma RotateByShift<T>(a: seq<T>, k: int, i: int)
    requires 0 <= i < |a|
    ensures 0 <= Shift(k, |a|) < |a|
    ensures Rotate(a, Shift(k, |a|))[i] == a[(i + k) % |a|]
  {
    ShiftIsMod(k, |a|);
    RotateAt(a, Shift(k, |a|), i);
    ModAddMod(i, k, |a|);
  }

  /** The two copy loops of `permuteLeft` for a shift s in (0, D):
      a[s..D-1] goes to out[0..tail-1] and a[0..s-1] to out[tail..D-1], as far
      as `out` reaches. */
  method RotateInto<T>(a: seq<T>, s: int, out: array<T>)
    requires 0 < s < |a|
    modifies out
    ensures var n := if out.Length < |a| then out.Length else |a|;
      && out[..n] == Rotate(a, s)[..n]
      && out[n..] == old(out[n..])
  {
    var d := |a|;
    var tail := d - s;
    var n := if out.Length < d then out.Length else d;
    for i := 0 to if tail < n then tail else n
      invariant forall p :: 0 <= p < i ==> out[p] == a[p + s]
      invariant forall p :: i <= p < out.Length ==> out[p] == old(out[p])
    {
      out[i] := a[i + s];
    }
    if tail < n {
      for i := 0 to n - tail
        invariant forall p :: 0 <= p < tail ==> out[p] == a[p + s]
        invariant forall p :: 0 <= p < i ==> out[tail + p] == a[p]
        invariant forall p :: tail + i <= p < out.Length ==> out[p] == old(out[p])
      {
        out[tail + i] := a[i];
      }
    }
    assert Rotate(a, s) == a[s..] + a[..s];
  }

  /** `permuteLeft` (both overloads): circular left rotation by k mod D into
      `out`, so out[i] == a[(i + k) mod D]; a shift of 0 is a plain copy.
      D > 0 is required. There is no size check on `out`: a shorter `out` is
      written as far as it goes before the failing write (a zero shift copies
      nothing, as System.arraycopy checks first); entries past D are untouched. */
  method PermuteLeft<T>(a: seq<T>, k: int, out: array<T>) returns (ok: bool)
    modifies out
    ensures ok <==> |a| > 0 && out.Length >= |a|
    ensures ok ==> forall i :: 0 <= i < |a| ==> out[i] == a[(i + k) % |a|]
    ensures |a| > 0 ==>
      var s := Shift(k, |a|);
      var n := if out.Length < |a| then (if s == 0 then 0 else out.Length) else |a|;
      && 0 <= s < |a|
      && out[..n] == Rotate(a, s)[..n]
      && out[n..] == old(out[n..])
    ensures |a| == 0 ==> out[..] == old(out[..])
  {
    var d := |a|;
    if d == 0 {
      return false;
    }
    var s := TruncRem(TruncRem(k, d) + d, d);
    if s == 0 {
      if out.Length < d {
        return false;
      }
      for i := 0 to d
        invariant forall p :: 0 <= p < i ==> out[p] == a[p]
        invariant forall p :: i <= p < out.Length ==> out[p] == old(out[p])
      {
        out[i] := a[i];
      }
      forall i | 0 <= i < d ensures out[i] == a[(i + k) % d] {
        RotateByShift(a, k, i);
        RotateZero(a);
      }
      return true;
    }
    RotateInto(a, s, out);
    ok := out.Length >= d;
    if ok {
      forall i | 0 <= i < d ensures out[i] == a[(i + k) % d] {
        RotateByShift(a, k, i);
      }
    }
  }
}
