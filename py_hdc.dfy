/** The hypervector primitives shared by the two Python scripts
    (HDC_Class_Builder.py and HDC_Inference.py define them identically):
    seeded bipolar vectors, the masked sign bundle with its fixed tie vector,
    the memoised opcode and method vectors, and the APK structure both
    scripts walk. numpy's RandomState draws and md5 are given functions. */
module PyHdc {

  import opened Wrappers
  import opened HV

  /** `RandomState(seed).randint(0, 2, size=D)[i] == 1`, the i-th draw of the
      generator seeded with `seed`. Given. */
  type Bits = (int, nat) -> bool

  /** `int(md5(s.encode("utf-8")).hexdigest()[:8], 16)`. Given. */
  type Md5Seed = string -> int

  /** The seed of the tie vector of `sign_bundle`. */
  const TieSeed: int := 0xC0FFEE

  /** `_bipolar_from_seed`: D draws of 0 or 1, each 0 replaced by -1. */
  function BipolarFromSeed(bits: Bits, seed: int, d: nat): (v: seq<int>)
    ensures |v| == d && IsBipolar(v)
  {
    seq(d, i requires 0 <= i < d => if bits(seed, i) then 1 else -1)
  }

  function Tie(bits: Bits, n: nat): seq<int> {
    BipolarFromSeed(bits, TieSeed, n)
  }

  /** The sign of each accumulator entry, a zero taking the tie vector's entry. */
  function SignBundleSpec(acc: seq<int>, tie: seq<int>): seq<int>
    requires |tie| == |acc|
  {
    seq(|acc|, i requires 0 <= i < |acc| => if acc[i] > 0 then 1 else if acc[i] < 0 then -1 else tie[i])
  }

  /** `sign_bundle`: `out[acc > 0] = 1`, `out[acc < 0] = -1`, and only when
      some entry is zero, `out[acc == 0] = tie[acc == 0]`. */
  method SignBundle(bits: Bits, acc: seq<int>) returns (r: seq<int>)
    ensures r == SignBundleSpec(acc, Tie(bits, |acc|))
  {
    var out := new int[|acc|];
    for i := 0 to |acc|
      invariant forall k :: 0 <= k < i && acc[k] > 0 ==> out[k] == 1
    {
      if acc[i] > 0 {
        out[i] := 1;
      }
    }
    for i := 0 to |acc|
      invariant forall k :: 0 <= k < |acc| && acc[k] > 0 ==> out[k] == 1
      invariant forall k :: 0 <= k < i && acc[k] < 0 ==> out[k] == -1
    {
      if acc[i] < 0 {
        out[i] := -1;
      }
    }
    var anyZero := false;
    for i := 0 to |acc|
      invariant anyZero <==> exists k :: 0 <= k < i && acc[k] == 0
    {
      if acc[i] == 0 {
        anyZero := true;
      }
    }
    if anyZero {
      var tie := Tie(bits, |acc|);
      for i := 0 to |acc|
        invariant forall k :: 0 <= k < |acc| && acc[k] > 0 ==> out[k] == 1
        invariant forall k :: 0 <= k < |acc| && acc[k] < 0 ==> out[k] == -1
        invariant forall k :: 0 <= k < i && acc[k] == 0 ==> out[k] == tie[k]
      {
        if acc[i] == 0 {
          out[i] := tie[i];
        }
      }
    }
    r := out[..];
  }

  /** The bundle is bipolar, keeps the sign of every non-zero entry, takes
      the tie vector at the zeros, and corrects a bipolar input to itself. */
  lemma SignBundleShape(acc: seq<int>, tie: seq<int>)
    requires |tie| == |acc| && IsBipolar(tie)
    ensures var r := SignBundleSpec(acc, tie);
      |r| == |acc| && IsBipolar(r) &&
      (forall i :: 0 <= i < |acc| ==> (acc[i] != 0 ==> r[i] * acc[i] > 0) && (acc[i] == 0 ==> r[i] == tie[i])) &&
      (IsBipolar(acc) ==> r == acc)
  {
  }

  /** The Python bundle and the on-device one (whose zero counts as +1) agree
      exactly when the tie vector is +1 at every zero of the accumulator. */
  lemma SignBundleVersusSign(acc: seq<int>, tie: seq<int>)
    requires |tie| == |acc| && IsBipolar(tie)
    ensures SignBundleSpec(acc, tie) == Sign(acc) <==>
      forall i :: 0 <= i < |acc| && acc[i] == 0 ==> tie[i] == 1
  {
    if SignBundleSpec(acc, tie) == Sign(acc) {
      forall i | 0 <= i < |acc| && acc[i] == 0
        ensures tie[i] == 1
      {
        assert SignBundleSpec(acc, tie)[i] == Sign(acc)[i];
      }
    }
  }

  // ------------------------------------------------------ memoised vectors

  /** The opcode and method vectors are seeded in separate namespaces. */
  function OpcodeVecSpec(bits: Bits, md5: Md5Seed, op: string, d: nat): seq<int> {
    BipolarFromSeed(bits, md5("OPC::" + op), d)
  }

  function MethodVecSpec(bits: Bits, md5: Md5Seed, name: string, d: nat): seq<int> {
    BipolarFromSeed(bits, md5("MTH::" + name), d)
  }

  /** No opcode's seed string is a method's seed string. */
  lemma NamespacesDisjoint(op: string, name: string)
    ensures "OPC::" + op != "MTH::" + name
  {
    assert ("OPC::" + op)[0] != ("MTH::" + name)[0];
  }

  /** The module-level `opcode_cache` and `method_cache` dicts, keyed on
      (name, D). */
  class VectorCache {
    const bits: Bits
    const md5: Md5Seed
    var opcodeCache: map<(string, nat), seq<int>>
    var methodCache: map<(string, nat), seq<int>>

    /** Every cached vector is the one its key seeds. */
    ghost predicate Valid()
      reads this
    {
      (forall k :: k in opcodeCache ==> opcodeCache[k] == OpcodeVecSpec(bits, md5, k.0, k.1)) &&
      (forall k :: k in methodCache ==> methodCache[k] == MethodVecSpec(bits, md5, k.0, k.1))
    }

    constructor(bits: Bits, md5: Md5Seed)
      ensures Valid() && this.bits == bits && this.md5 == md5
      ensures opcodeCache == map[] && methodCache == map[]
    {
      this.bits := bits;
      this.md5 := md5;
      opcodeCache := map[];
      methodCache := map[];
    }

    /** `opcode_vec`: the cached vector for (op, D), else a fresh one, stored. */
    method OpcodeVec(op: string, d: nat) returns (v: seq<int>)
      requires Valid()
      modifies this
      ensures Valid() && v == OpcodeVecSpec(bits, md5, op, d)
      ensures opcodeCache == old(opcodeCache)[(op, d) := v] && methodCache == old(methodCache)
    {
      var key := (op, d);
      if key in opcodeCache {
        v := opcodeCache[key];
        return;
      }
      v := BipolarFromSeed(bits, md5("OPC::" + op), d);
      opcodeCache := opcodeCache[key := v];
    }

    /** `method_name_to_vec`: the same memoisation for method names. */
    method MethodNameToVec(name: string, d: nat) returns (v: seq<int>)
      requires Valid()
      modifies this
      ensures Valid() && v == MethodVecSpec(bits, md5, name, d)
      ensures methodCache == old(methodCache)[(name, d) := v] && opcodeCache == old(opcodeCache)
    {
      var key := (name, d);
      if key in methodCache {
        v := methodCache[key];
        return;
      }
      v := BipolarFromSeed(bits, md5("MTH::" + name), d);
      methodCache := methodCache[key := v];
    }
  }

  // ---------------------------------------------------------- bound pairs

  /** `bind(opcode_vec(op), method_name_to_vec(name))` for a pair (name, op). */
  function PairVec(bits: Bits, md5: Md5Seed, d: nat, p: (string, string)): (r: seq<int>)
    ensures |r| == d
  {
    Bind(OpcodeVecSpec(bits, md5, p.1, d), MethodVecSpec(bits, md5, p.0, d))
  }

  /** The accumulator after `acc += bind(...)` over the pairs, in order. */
  function BundlePairs(bits: Bits, md5: Md5Seed, d: nat, ps: seq<(string, string)>): (r: seq<int>)
    ensures |r| == d
  {
    if |ps| == 0 then Zeros(d)
    else Add(BundlePairs(bits, md5, d, ps[..|ps| - 1]), PairVec(bits, md5, d, ps[|ps| - 1]))
  }

  lemma BundlePairsNext(bits: Bits, md5: Md5Seed, d: nat, ps: seq<(string, string)>, p: (string, string))
    ensures BundlePairs(bits, md5, d, ps + [p]) == Add(BundlePairs(bits, md5, d, ps), PairVec(bits, md5, d, p))
  {
    assert (ps + [p])[..|ps|] == ps;
  }

  /** One step of the opcode loops: binding the pair's two vectors and adding
      the result extends the bundle by that pair. */
  lemma BundlePairsStep(bits: Bits, md5: Md5Seed, d: nat, ps: seq<(string, string)>, p: (string, string),
                        acc: seq<int>, ov: seq<int>, mvec: seq<int>)
    requires acc == BundlePairs(bits, md5, d, ps)
    requires ov == OpcodeVecSpec(bits, md5, p.1, d) && mvec == MethodVecSpec(bits, md5, p.0, d)
    ensures Add(acc, Bind(ov, mvec)) == BundlePairs(bits, md5, d, ps + [p])
  {
    BundlePairsNext(bits, md5, d, ps, p);
  }

  /** Appending an entry's k-th pair to the pairs before it. */
  lemma EntryPairsStep(used: seq<(string, string)>, e: (string, seq<string>), k: int, ps: seq<(string, string)>)
    requires 0 <= k < |e.1| && ps == used + EntryPairs(e)[..k]
    ensures ps + [(e.0, e.1[k])] == used + EntryPairs(e)[..k + 1]
  {
    assert EntryPairs(e)[..k + 1] == EntryPairs(e)[..k] + [(e.0, e.1[k])];
  }

  /** Each accumulator entry is bounded by the number of pairs (so a 32-bit
      accumulator cannot overflow under the 10000-pair cap) and has its
      parity. */
  lemma {:induction false} BundlePairsBound(bits: Bits, md5: Md5Seed, d: nat, ps: seq<(string, string)>)
    ensures forall i :: 0 <= i < d ==>
      -|ps| <= BundlePairs(bits, md5, d, ps)[i] <= |ps| && (BundlePairs(bits, md5, d, ps)[i] + |ps|) % 2 == 0
  {
    if |ps| > 0 {
      var pre := ps[..|ps| - 1];
      BundlePairsBound(bits, md5, d, pre);
      var v := PairVec(bits, md5, d, ps[|ps| - 1]);
      BindIsBipolar(OpcodeVecSpec(bits, md5, ps[|ps| - 1].1, d), MethodVecSpec(bits, md5, ps[|ps| - 1].0, d));
      assert IsBipolar(v);
    }
  }

  /** Bundling a concatenation adds the two bundles. */
  lemma {:induction false} BundlePairsConcat(bits: Bits, md5: Md5Seed, d: nat, a: seq<(string, string)>, b: seq<(string, string)>)
    ensures BundlePairs(bits, md5, d, a + b) == Add(BundlePairs(bits, md5, d, a), BundlePairs(bits, md5, d, b))
  {
    if |b| == 0 {
      assert a + b == a;
    } else {
      var pre := b[..|b| - 1];
      BundlePairsConcat(bits, md5, d, a, pre);
      assert (a + b)[..|a + b| - 1] == a + pre;
      AddAssociates(BundlePairs(bits, md5, d, a), BundlePairs(bits, md5, d, pre), PairVec(bits, md5, d, b[|b| - 1]));
    }
  }

  /** The pairs (name, op) of a method's opcodes, in order. */
  function EntryPairs(e: (string, seq<string>)): (r: seq<(string, string)>)
    ensures |r| == |e.1|
  {
    seq(|e.1|, i requires 0 <= i < |e.1| => (e.0, e.1[i]))
  }

  /** The pairs of an entry whose opcodes are clipped to k. */
  lemma EntryPairsClip(e: (string, seq<string>), k: int)
    requires 0 <= k <= |e.1|
    ensures EntryPairs((e.0, e.1[..k])) == EntryPairs(e)[..k]
  {
  }

  // ------------------------------------------------------- the APK walked

  /** What `method.get_code()` and `code.get_bc()` give: no code, a decoding
      that raises, or the instruction mnemonics. */
  datatype Code = NoCode | Broken | Instructions(ops: seq<string>)

  datatype PyMethod = PyMethod(className: string, name: string, code: Code)

  /** A dex file; `parses` is false when `DalvikVMFormat` raises. */
  datatype Dex = Dex(parses: bool, methods: seq<PyMethod>)

  /** An APK; `parses` is false when `APK(path)` raises. `allDex` is
      `get_all_dex()`, `mainDex` is `get_dex()` (None when empty). */
  datatype Apk = Apk(parses: bool, allDex: seq<Dex>, mainDex: Option<Dex>)

  /** The dex list walked: all dex files, else the main one, else none. */
  function DexList(apk: Apk): Option<seq<Dex>> {
    if |apk.allDex| > 0 then Some(apk.allDex)
    else if apk.mainDex.None? then None
    else Some([apk.mainDex.value])
  }

  function FullName(m: PyMethod): string {
    m.className + "->" + m.name
  }

  function Min(a: int, b: int): int {
    if a <= b then a else b
  }

  /** The first `cap` elements, none when cap <= 0. */
  function Capped<T>(s: seq<T>, cap: int): (r: seq<T>)
    ensures |r| <= |s| && r == s[..|r|]
    ensures |r| == if cap <= 0 then 0 else Min(cap, |s|)
  {
    if cap <= 0 then [] else s[..Min(cap, |s|)]
  }
}
