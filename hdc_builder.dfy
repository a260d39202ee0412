/** The class-vector builder (HDC_Class_Builder.py): the capped extraction
    of each method's opcodes into an insertion-ordered dict, the encoding of
    an app as the sign bundle of its first bound (opcode, method) pairs, and
    the accumulation of the benign and malware class vectors over paired,
    sorted file listings. */
module HdcBuilder {

  import opened Wrappers
  import opened HV
  import opened Text
  import opened Sorting
  import opened Flatten
  import opened PyHdc

  /** `max_ops`: the default cap on extracted and encoded opcodes. */
  const MaxOps: int := 10000

  // ------------------------------------------------------------ the dict

  /** A Python dict from method name to opcodes, in insertion order. */
  type Dict = seq<(string, seq<string>)>

  /** `dict[k] = v`: a present key keeps its position and takes the new
      value; a new key goes last. */
  function DictSet(dict: Dict, k: string, v: seq<string>): Dict {
    if |dict| == 0 then [(k, v)]
    else if dict[0].0 == k then [(k, v)] + dict[1..]
    else [dict[0]] + DictSet(dict[1..], k, v)
  }

  predicate DistinctKeys(dict: Dict) {
    forall i, j :: 0 <= i < j < |dict| ==> dict[i].0 != dict[j].0
  }

  function SumLens(dict: Dict): nat {
    if |dict| == 0 then 0 else |dict[0].1| + SumLens(dict[1..])
  }

  /** Storing keeps the keys distinct, holds (k, v), keeps every other entry
      and adds no other, and grows the stored opcodes by at most |v|. */
  lemma DictSetMeaning(dict: Dict, k: string, v: seq<string>)
    requires DistinctKeys(dict)
    ensures var r := DictSet(dict, k, v);
      DistinctKeys(r) && (k, v) in r &&
      (forall e :: e in r ==> e == (k, v) || (e in dict && e.0 != k)) &&
      (forall e :: e in dict && e.0 != k ==> e in r) &&
      SumLens(r) <= SumLens(dict) + |v|
  {
    DictSetSound(dict, k, v);
    DictSetKeeps(dict, k, v);
  }

  /** The keys stay distinct and every stored entry is (k, v) or an entry of
      another key. */
  lemma {:induction false} DictSetSound(dict: Dict, k: string, v: seq<string>)
    requires DistinctKeys(dict)
    ensures var r := DictSet(dict, k, v);
      DistinctKeys(r) && forall e :: e in r ==> e == (k, v) || (e in dict && e.0 != k)
  {
    if |dict| > 0 && dict[0].0 != k {
      var tail := dict[1..];
      assert DistinctKeys(tail) by {
        forall i, j | 0 <= i < j < |tail|
          ensures tail[i].0 != tail[j].0
        {
          assert tail[i] == dict[i + 1] && tail[j] == dict[j + 1];
        }
      }
      DictSetSound(tail, k, v);
      var r := DictSet(dict, k, v);
      assert r == [dict[0]] + DictSet(tail, k, v);
      forall e | e in tail
        ensures e.0 != dict[0].0
      {
        var j :| 0 <= j < |tail| && tail[j] == e;
        assert dict[j + 1] == e;
      }
      forall i, j | 0 <= i < j < |r|
        ensures r[i].0 != r[j].0
      {
        if i == 0 {
          assert r[j] in DictSet(tail, k, v);
        }
      }
      assert dict == [dict[0]] + tail;
    } else if |dict| > 0 {
      var r := DictSet(dict, k, v);
      forall i, j | 0 <= i < j < |r|
        ensures r[i].0 != r[j].0
      {
        assert r[j] == dict[j];
        if i > 0 {
          assert r[i] == dict[i];
        } else {
          assert dict[0].0 != dict[j].0;
        }
      }
      forall e | e in r
        ensures e == (k, v) || (e in dict && e.0 != k)
      {
        var j :| 0 <= j < |r| && r[j] == e;
        if j > 0 {
          assert dict[0].0 != dict[j].0;
        }
      }
    }
  }

  /** (k, v) is stored, every entry of another key is kept, and the stored
      total grows by at most |v|. */
  lemma {:induction false} DictSetKeeps(dict: Dict, k: string, v: seq<string>)
    ensures var r := DictSet(dict, k, v);
      (k, v) in r && (forall e :: e in dict && e.0 != k ==> e in r) && SumLens(r) <= SumLens(dict) + |v|
  {
    if |dict| > 0 {
      var tail := dict[1..];
      assert dict == [dict[0]] + tail;
      if dict[0].0 != k {
        DictSetKeeps(tail, k, v);
        assert DictSet(dict, k, v) == [dict[0]] + DictSet(tail, k, v);
      }
    }
  }

  // ------------------------------------------------------ the extraction

  /** The loop state of `extract_opcodes_by_method_fast`; `done` is set by
      the two early `return method_to_opcodes`. */
  datatype Progress = Progress(dict: Dict, total: int, done: bool)

  /** One method: skipped without code, on a decoding error or with no
      opcodes; otherwise its opcodes clipped to the remaining budget are
      stored under `class->name`. */
  function MethodStep(st: Progress, m: PyMethod, maxTotal: int): Progress {
    if st.done || !m.code.Instructions? || |m.code.ops| == 0 then st
    else
      var remaining := maxTotal - st.total;
      if remaining <= 0 then Progress(st.dict, st.total, true)
      else
        var clipped := m.code.ops[..Min(remaining, |m.code.ops|)];
        var total := st.total + |clipped|;
        Progress(DictSet(st.dict, FullName(m), clipped), total, total >= maxTotal)
  }

  function MethodsFold(st: Progress, ms: seq<PyMethod>, maxTotal: int): Progress
    decreases |ms|
  {
    if |ms| == 0 then st else MethodsFold(MethodStep(st, ms[0], maxTotal), ms[1..], maxTotal)
  }

  /** The dex files in order, stopping once done; None when a dex file that
      is reached does not parse (the outer `except` returns `{}`). */
  function DexFold(st: Progress, dexes: seq<Dex>, maxTotal: int): Option<Progress>
    decreases |dexes|
  {
    if |dexes| == 0 || st.done then Some(st)
    else if !dexes[0].parses then None
    else DexFold(MethodsFold(st, dexes[0].methods, maxTotal), dexes[1..], maxTotal)
  }

  function ExtractSpec(apk: Apk, maxTotal: int): Dict {
    if !apk.parses || DexList(apk).None? then []
    else
      var r := DexFold(Progress([], 0, false), DexList(apk).value, maxTotal);
      if r.None? then [] else r.value.dict
  }

  lemma {:induction false} DoneFold(st: Progress, ms: seq<PyMethod>, maxTotal: int)
    requires st.done
    ensures MethodsFold(st, ms, maxTotal) == st
    decreases |ms|
  {
    if |ms| > 0 {
      DoneFold(st, ms[1..], maxTotal);
    }
  }

  /** `extract_opcodes_by_method_fast`. */
  method ExtractOpcodesByMethod(apk: Apk, maxTotalOps: int) returns (r: Dict)
    ensures r == ExtractSpec(apk, maxTotalOps)
  {
    if !apk.parses {
      return [];
    }
    var dexList: seq<Dex>;
    if |apk.allDex| > 0 {
      dexList := apk.allDex;
    } else if apk.mainDex.None? {
      return [];
    } else {
      dexList := [apk.mainDex.value];
    }
    var methodToOpcodes: Dict := [];
    var totalOps := 0;
    ghost var target := DexFold(Progress([], 0, false), dexList, maxTotalOps);
    for di := 0 to |dexList|
      invariant DexFold(Progress(methodToOpcodes, totalOps, false), dexList[di..], maxTotalOps) == target
    {
      var dex := dexList[di];
      assert dexList[di..][1..] == dexList[di + 1..];
      if !dex.parses {
        return [];
      }
      var done;
      methodToOpcodes, totalOps, done := ExtractMethods(dex.methods, methodToOpcodes, totalOps, maxTotalOps);
      if done {
        return methodToOpcodes;
      }
    }
    return methodToOpcodes;
  }

  /** The method loop of one dex file; `done` reports the early return. */
  method ExtractMethods(methods: seq<PyMethod>, dict: Dict, total: int, maxTotalOps: int)
    returns (dict': Dict, total': int, done: bool)
    ensures Progress(dict', total', done) == MethodsFold(Progress(dict, total, false), methods, maxTotalOps)
  {
    dict', total' := dict, total;
    for mi := 0 to |methods|
      invariant MethodsFold(Progress(dict', total', false), methods[mi..], maxTotalOps)
        == MethodsFold(Progress(dict, total, false), methods, maxTotalOps)
    {
      var m := methods[mi];
      assert methods[mi..][1..] == methods[mi + 1..];
      if !m.code.Instructions? {
        continue;
      }
      var opList := m.code.ops;
      if |opList| == 0 {
        continue;
      }
      var methodName := m.className + "->" + m.name;
      var remaining := maxTotalOps - total';
      if remaining <= 0 {
        DoneFold(Progress(dict', total', true), methods[mi + 1..], maxTotalOps);
        return dict', total', true;
      }
      var clipped := opList[..Min(remaining, |opList|)];
      dict' := DictSet(dict', methodName, clipped);
      total' := total' + |clipped|;
      if total' >= maxTotalOps {
        DoneFold(Progress(dict', total', true), methods[mi + 1..], maxTotalOps);
        return dict', total', true;
      }
    }
    done := false;
  }

  // ------------------------------------------------- extraction properties

  /** Every method of the dex files of the list. */
  function MethodSet(dexes: seq<Dex>): set<PyMethod> {
    set d, m | d in dexes && m in d.methods :: m
  }

  /** A stored entry: a non-empty prefix of the opcodes of a method so named. */
  predicate StoredFrom(u: set<PyMethod>, e: (string, seq<string>)) {
    exists m :: m in u && FullName(m) == e.0 && m.code.Instructions? && 0 < |e.1| && IsPrefix(e.1, m.code.ops)
  }

  predicate ExtractInv(st: Progress, u: set<PyMethod>, maxTotal: int) {
    DistinctKeys(st.dict) &&
    (forall e :: e in st.dict ==> StoredFrom(u, e)) &&
    0 <= SumLens(st.dict) <= st.total &&
    (maxTotal > 0 ==> st.total <= maxTotal) &&
    (maxTotal <= 0 ==> st.total == 0 && st.dict == [])
  }

  lemma MethodStepInv(st: Progress, m: PyMethod, u: set<PyMethod>, maxTotal: int)
    requires ExtractInv(st, u, maxTotal) && m in u
    ensures ExtractInv(MethodStep(st, m, maxTotal), u, maxTotal)
  {
    if !(st.done || !m.code.Instructions? || |m.code.ops| == 0) && maxTotal - st.total > 0 {
      var clipped := m.code.ops[..Min(maxTotal - st.total, |m.code.ops|)];
      DictSetMeaning(st.dict, FullName(m), clipped);
      assert StoredFrom(u, (FullName(m), clipped));
    }
  }

  lemma {:induction false} MethodsFoldInv(st: Progress, ms: seq<PyMethod>, u: set<PyMethod>, maxTotal: int)
    requires ExtractInv(st, u, maxTotal) && forall m :: m in ms ==> m in u
    ensures ExtractInv(MethodsFold(st, ms, maxTotal), u, maxTotal)
    decreases |ms|
  {
    if |ms| > 0 {
      MethodStepInv(st, ms[0], u, maxTotal);
      MethodsFoldInv(MethodStep(st, ms[0], maxTotal), ms[1..], u, maxTotal);
    }
  }

  lemma {:induction false} DexFoldInv(st: Progress, dexes: seq<Dex>, u: set<PyMethod>, maxTotal: int)
    requires ExtractInv(st, u, maxTotal) && MethodSet(dexes) <= u
    ensures DexFold(st, dexes, maxTotal).Some? ==> ExtractInv(DexFold(st, dexes, maxTotal).value, u, maxTotal)
    decreases |dexes|
  {
    if |dexes| > 0 && !st.done && dexes[0].parses {
      assert forall m :: m in dexes[0].methods ==> m in MethodSet(dexes);
      MethodsFoldInv(st, dexes[0].methods, u, maxTotal);
      assert MethodSet(dexes[1..]) <= MethodSet(dexes) by {
        forall m | m in MethodSet(dexes[1..])
          ensures m in MethodSet(dexes)
        {
          var d :| d in dexes[1..] && m in d.methods;
          assert d in dexes;
        }
      }
      DexFoldInv(MethodsFold(st, dexes[0].methods, maxTotal), dexes[1..], u, maxTotal);
    }
  }

  /** The extracted dict has distinct keys; each value is a non-empty prefix
      of the opcodes of a method of the APK with that name; at most
      `maxTotal` opcodes are stored in all; nothing is stored when
      maxTotal <= 0 or the APK does not parse. */
  lemma ExtractShape(apk: Apk, maxTotal: int)
    ensures var r := ExtractSpec(apk, maxTotal);
      DistinctKeys(r) &&
      (!apk.parses ==> r == []) &&
      (DexList(apk).Some? ==> forall e :: e in r ==> StoredFrom(MethodSet(DexList(apk).value), e)) &&
      (maxTotal > 0 ==> SumLens(r) <= maxTotal) &&
      (maxTotal <= 0 ==> r == [])
  {
    if apk.parses && DexList(apk).Some? {
      var u := MethodSet(DexList(apk).value);
      DexFoldInv(Progress([], 0, false), DexList(apk).value, u, maxTotal);
    }
  }

  // ----------------------------------------------------------- encoding

  /** The (method, opcode) pairs of the dict, in dict order. */
  function PairsOf(dict: Dict): seq<(string, string)> {
    ConcatMap(EntryPairs, dict)
  }

  /** `encode_app_from_method_opcodes`: the sign bundle of the first
      `maxOps` bound pairs. */
  function EncodeSpec(bits: Bits, md5: Md5Seed, d: nat, dict: Dict, maxOps: int): seq<int> {
    SignBundleSpec(BundlePairs(bits, md5, d, Capped(PairsOf(dict), maxOps)), Tie(bits, d))
  }

  lemma PairsPrefix(dict: Dict, e: int, k: int)
    requires 0 <= e < |dict| && 0 <= k <= |dict[e].1|
    ensures IsPrefix(PairsOf(dict[..e]) + EntryPairs(dict[e])[..k], PairsOf(dict))
  {
    var p := PairsOf(dict[..e]);
    PrefixExtend(p, EntryPairs(dict[e])[..k], EntryPairs(dict[e]));
    ConcatMapNext(EntryPairs, dict, e);
    ConcatMapPrefix(EntryPairs, dict, e + 1);
    PrefixTransitive(p + EntryPairs(dict[e])[..k], PairsOf(dict[..e + 1]), PairsOf(dict));
  }

  /** The pairs taken when the loops stop: all of them under the cap, else
      the first `cap`. */
  lemma CappedPairs(all: seq<(string, string)>, used: seq<(string, string)>, cap: int)
    requires IsPrefix(used, all)
    requires |used| < cap ==> used == all
    requires |used| <= (if cap <= 0 then 0 else cap)
    ensures used == Capped(all, cap)
  {
  }

  /** The inner loop of `encode_app_from_method_opcodes`: each opcode's
      vector bound to the method's is added to the accumulator. */
  method EncodeOps(cache: VectorCache, methodName: string, ops: seq<string>, d: nat, acc: seq<int>, opsUsed: int,
                   maxOps: int, ghost used: seq<(string, string)>)
    returns (acc': seq<int>, opsUsed': int, ghost used': seq<(string, string)>)
    requires cache.Valid() && acc == BundlePairs(cache.bits, cache.md5, d, used) && opsUsed == |used|
    requires opsUsed + |ops| <= maxOps
    modifies cache
    ensures cache.Valid() && used' == used + EntryPairs((methodName, ops))
    ensures acc' == BundlePairs(cache.bits, cache.md5, d, used') && opsUsed' == |used'|
  {
    var mvec := cache.MethodNameToVec(methodName, d);
    acc', opsUsed', used' := acc, opsUsed, used;
    ghost var entry := EntryPairs((methodName, ops));
    for k := 0 to |ops|
      invariant cache.Valid() && mvec == MethodVecSpec(cache.bits, cache.md5, methodName, d)
      invariant used' == used + entry[..k]
      invariant acc' == BundlePairs(cache.bits, cache.md5, d, used') && opsUsed' == |used'|
    {
      var ov := cache.OpcodeVec(ops[k], d);
      BundlePairsStep(cache.bits, cache.md5, d, used', (methodName, ops[k]), acc', ov, mvec);
      EntryPairsStep(used, (methodName, ops), k, used');
      acc' := Add(acc', Bind(ov, mvec));
      used' := used' + [(methodName, ops[k])];
      opsUsed' := opsUsed' + 1;
      if opsUsed' >= maxOps {
        assert k + 1 == |ops|;
        break;
      }
    }
    assert entry[..|ops|] == entry;
  }

  /** `encode_app_from_method_opcodes`. */
  method EncodeApp(cache: VectorCache, dict: Dict, d: nat, maxOpsPerApp: int) returns (r: seq<int>)
    requires cache.Valid()
    modifies cache
    ensures cache.Valid() && r == EncodeSpec(cache.bits, cache.md5, d, dict, maxOpsPerApp)
  {
    var acc := Zeros(d);
    var opsUsed := 0;
    ghost var used: seq<(string, string)> := [];
    for e := 0 to |dict|
      invariant cache.Valid()
      invariant acc == BundlePairs(cache.bits, cache.md5, d, used) && opsUsed == |used|
      invariant IsPrefix(used, PairsOf(dict))
      invariant opsUsed < maxOpsPerApp ==> used == PairsOf(dict[..e])
      invariant opsUsed <= (if maxOpsPerApp <= 0 then 0 else maxOpsPerApp)
    {
      if opsUsed >= maxOpsPerApp {
        break;
      }
      var (methodName, opList) := dict[e];
      var remaining := maxOpsPerApp - opsUsed;
      var ops := opList[..Min(remaining, |opList|)];
      ghost var before := used;
      acc, opsUsed, used := EncodeOps(cache, methodName, ops, d, acc, opsUsed, maxOpsPerApp, used);
      EntryPairsClip(dict[e], |ops|);
      PairsPrefix(dict, e, |ops|);
      if |ops| == |opList| {
        assert EntryPairs(dict[e])[..|ops|] == EntryPairs(dict[e]);
        ConcatMapNext(EntryPairs, dict, e);
      }
    }
    if opsUsed < maxOpsPerApp {
      TakeAll(dict);
    }
    CappedPairs(PairsOf(dict), used, maxOpsPerApp);
    r := SignBundle(cache.bits, acc);
  }

  /** An app's bundle is bipolar; a non-positive cap encodes the tie vector
      alone. */
  lemma EncodeShape(bits: Bits, md5: Md5Seed, d: nat, dict: Dict, maxOps: int)
    ensures IsBipolar(EncodeSpec(bits, md5, d, dict, maxOps))
    ensures |EncodeSpec(bits, md5, d, dict, maxOps)| == d
    ensures maxOps <= 0 ==> EncodeSpec(bits, md5, d, dict, maxOps) == Tie(bits, d)
  {
    SignBundleShape(BundlePairs(bits, md5, d, Capped(PairsOf(dict), maxOps)), Tie(bits, d));
  }

  // ------------------------------------------------------ class vectors

  predicate IsApkName(f: string) {
    EndsWith(LowerAscii(f), ".apk")
  }

  function ApkFiles(fs: seq<string>): seq<string> {
    if |fs| == 0 then []
    else ApkFiles(fs[..|fs| - 1]) + (if IsApkName(fs[|fs| - 1]) then [fs[|fs| - 1]] else [])
  }

  function ByCodePoints(f: string): seq<int> {
    CodePoints(f)
  }

  /** `sorted(f for f in os.listdir(folder) if f.lower().endswith(".apk"))`. */
  function Listing(fs: seq<string>): seq<string> {
    SortBy(ApkFiles(fs), ByCodePoints)
  }

  /** `min(len(benign_files), len(malware_files), max_apks)`, as `range` uses it. */
  function NumPairs(nb: int, nm: int, maxApks: int): nat {
    var n := Min(Min(nb, nm), maxApks);
    if n < 0 then 0 else n
  }

  /** What an app adds to its class accumulator: its encoding, or nothing
      when the extraction is empty. */
  function AppVector(bits: Bits, md5: Md5Seed, d: nat, apk: Apk): (r: seq<int>)
    ensures |r| == d
    ensures forall i :: 0 <= i < d ==> -1 <= r[i] <= 1
  {
    var dict := ExtractSpec(apk, MaxOps);
    if |dict| > 0 then
      EncodeShape(bits, md5, d, dict, MaxOps);
      EncodeSpec(bits, md5, d, dict, MaxOps)
    else Zeros(d)
  }

  /** The class accumulator after the first n apps of a listing. */
  function ClassAcc(bits: Bits, md5: Md5Seed, d: nat, files: seq<string>, apkOf: string -> Apk, n: nat): (r: seq<int>)
    requires n <= |files|
    ensures |r| == d
  {
    if n == 0 then Zeros(d)
    else Add(ClassAcc(bits, md5, d, files, apkOf, n - 1), AppVector(bits, md5, d, apkOf(files[n - 1])))
  }

  /** One app of a class: `if x_map: acc += encode_app_from_method_opcodes(x_map, D)`. */
  method AccumulateApp(cache: VectorCache, acc: seq<int>, apk: Apk, d: nat) returns (acc': seq<int>)
    requires cache.Valid() && |acc| == d
    modifies cache
    ensures cache.Valid() && acc' == Add(acc, AppVector(cache.bits, cache.md5, d, apk))
  {
    var xMap := ExtractOpcodesByMethod(apk, MaxOps);
    if |xMap| > 0 {
      var v := EncodeApp(cache, xMap, d, MaxOps);
      acc' := Add(acc, v);
    } else {
      AddZeros(acc);
      acc' := acc;
    }
  }

  /** The `for i in range(num_files)` loop: app i of each listing goes
      into its class accumulator. */
  method AccumulateClasses(cache: VectorCache, benignFiles: seq<string>, malwareFiles: seq<string>,
                           benignApk: string -> Apk, malwareApk: string -> Apk, d: nat, numFiles: nat)
    returns (benignAcc: seq<int>, malwareAcc: seq<int>)
    requires cache.Valid() && numFiles <= |benignFiles| && numFiles <= |malwareFiles|
    modifies cache
    ensures cache.Valid()
    ensures benignAcc == ClassAcc(cache.bits, cache.md5, d, benignFiles, benignApk, numFiles)
    ensures malwareAcc == ClassAcc(cache.bits, cache.md5, d, malwareFiles, malwareApk, numFiles)
  {
    benignAcc := Zeros(d);
    malwareAcc := Zeros(d);
    for i := 0 to numFiles
      invariant cache.Valid()
      invariant benignAcc == ClassAcc(cache.bits, cache.md5, d, benignFiles, benignApk, i)
      invariant malwareAcc == ClassAcc(cache.bits, cache.md5, d, malwareFiles, malwareApk, i)
    {
      benignAcc := AccumulateApp(cache, benignAcc, benignApk(benignFiles[i]), d);
      malwareAcc := AccumulateApp(cache, malwareAcc, malwareApk(malwareFiles[i]), d);
    }
  }

  /** `build_class_vectors_together`: file i of each sorted listing is
      processed in step i, for as many steps as the shorter listing and
      `max_apks` allow; each class vector is the sign bundle of its
      accumulator. `benignApk` and `malwareApk` give the APK stored under a
      file name of each folder. */
  method BuildClassVectorsTogether(cache: VectorCache, benignFolder: seq<string>, malwareFolder: seq<string>,
                                   benignApk: string -> Apk, malwareApk: string -> Apk, d: nat, maxApks: int)
    returns (benignVec: seq<int>, malwareVec: seq<int>)
    requires cache.Valid()
    modifies cache
    ensures cache.Valid()
    ensures var bf, mf := Listing(benignFolder), Listing(malwareFolder);
      var n := NumPairs(|bf|, |mf|, maxApks);
      benignVec == SignBundleSpec(ClassAcc(cache.bits, cache.md5, d, bf, benignApk, n), Tie(cache.bits, d)) &&
      malwareVec == SignBundleSpec(ClassAcc(cache.bits, cache.md5, d, mf, malwareApk, n), Tie(cache.bits, d))
  {
    var benignFiles := Listing(benignFolder);
    var malwareFiles := Listing(malwareFolder);
    var numFiles := NumPairs(|benignFiles|, |malwareFiles|, maxApks);
    var benignAcc, malwareAcc := AccumulateClasses(cache, benignFiles, malwareFiles, benignApk, malwareApk, d, numFiles);
    benignVec := SignBundle(cache.bits, benignAcc);
    malwareVec := SignBundle(cache.bits, malwareAcc);
  }

  /** The listing holds exactly the `.apk` names of the folder (any letter
      case), in code-point order. */
  lemma {:induction false} ListingMeaning(fs: seq<string>)
    ensures SortedBy(Listing(fs), ByCodePoints)
    ensures multiset(Listing(fs)) == multiset(ApkFiles(fs))
    ensures forall f :: f in ApkFiles(fs) <==> f in fs && IsApkName(f)
  {
    SortByCorrect(ApkFiles(fs), ByCodePoints);
    ApkFilesMeaning(fs);
  }

  lemma {:induction false} ApkFilesMeaning(fs: seq<string>)
    ensures forall f :: f in ApkFiles(fs) <==> f in fs && IsApkName(f)
  {
    if |fs| > 0 {
      ApkFilesMeaning(fs[..|fs| - 1]);
      assert fs == fs[..|fs| - 1] + [fs[|fs| - 1]];
    }
  }

  /** An app whose extraction is empty leaves its class accumulator as it was. */
  lemma EmptyAppAddsNothing(bits: Bits, md5: Md5Seed, d: nat, files: seq<string>, apkOf: string -> Apk, i: nat)
    requires i < |files| && ExtractSpec(apkOf(files[i]), MaxOps) == []
    ensures ClassAcc(bits, md5, d, files, apkOf, i + 1) == ClassAcc(bits, md5, d, files, apkOf, i)
  {
    AddZeros(ClassAcc(bits, md5, d, files, apkOf, i));
  }

  /** After n apps each class accumulator entry lies in [-n, n], far inside
      the 32-bit accumulator for `max_apks` = 300. */
  lemma {:induction false} ClassAccBound(bits: Bits, md5: Md5Seed, d: nat, files: seq<string>, apkOf: string -> Apk, n: nat)
    requires n <= |files|
    ensures forall i :: 0 <= i < d ==> -(n as int) <= ClassAcc(bits, md5, d, files, apkOf, n)[i] <= n
  {
    if n > 0 {
      ClassAccBound(bits, md5, d, files, apkOf, n - 1);
      var v := AppVector(bits, md5, d, apkOf(files[n - 1]));
      AddUnitBound(ClassAcc(bits, md5, d, files, apkOf, n - 1), v, n - 1);
    }
  }

  /** Adding a vector with entries in [-1, 1] widens the bound by one. */
  lemma AddUnitBound(a: seq<int>, b: seq<int>, n: nat)
    requires |a| == |b|
    requires forall i :: 0 <= i < |a| ==> -(n as int) <= a[i] <= n
    requires forall i :: 0 <= i < |b| ==> -1 <= b[i] <= 1
    ensures forall i :: 0 <= i < |a| ==> -(n as int) - 1 <= Add(a, b)[i] <= n + 1
  {
  }
}
