# AndroidCodeClassifier in Dafny

This project models the classification core of AndroidCodeClassifier, an
Android app that labels an APK as benign or malware, and proves properties of
the model.

- **Opcode dump.** The app lists the `classes*.dex` entries of the archive.
  It walks their classes, methods and instructions in name order and writes up
  to `maxLines` lines of the form `"<method> <opcode>"`.
- **HDC path.** A dump is encoded by hyperdimensional computing:
  - every method and opcode gets a seeded random bipolar (±1) vector; opcodes
    may instead come from a selectively loaded dictionary;
  - each line adds the bound (elementwise product) pair to an accumulator;
  - the sign of the accumulator is compared by cosine with a benign and a
    malware class vector.
- **Classical path.** The same dump is turned into `api_<opcode>` tokens. A
  random forest and an RBF support-vector machine, both loaded from JSON,
  classify those tokens.
- **Python mirror.** An offline Python pipeline builds the class vectors and
  classifies test APKs the same way. Its sign rule breaks ties with a fixed
  tie vector, and its final comparison is strict.

Modules follow the source files:

| module | models |
|---|---|
| `HdcCore` | the vector algebra of `HdcCore.kt`, as imperative methods over arrays |
| `Seeds` | the 64-bit seed mixing of the encoder |
| `Encoder` | class `OpcodeMethodEncoder`, with its accumulator, scratch array and memo caches; also the needed-opcode collection and the label rule of the activity |
| `HvLoader` | the selective dictionary loader, over a stream of JSON fields |
| `RfForest` | the JSON random forest: parsing, featurising, descent and voting |
| `SvmRbf` | the RBF SVM: load checks, reserved indices, dense features, decision and label |
| `DexAnalyzer` | the dex-entry listing and the capped opcode dump |
| `ClassicFeatures` | the tokenisation of a dump for the classical models |
| `PyHdc` | what both Python scripts share: seeded vectors, memo caches, the sign bundle, bound pairs |
| `HdcBuilder` | `HDC_Class_Builder.py`: capped extraction, capped encoding, class vector building |
| `HdcInference` | `HDC_Inference.py`: the capped test vector, cosine and the strict label |

Shared specification modules:
- `HV`: vector operations as functions, with their algebra.
- `Text`: trim, split, `String.hashCode`, lexical order.
- `Sorting`: a sort by key, proved sorted and a permutation.
- `Flatten`: concatenation of mapped sequences, and prefixes.
- `FeatureNames`: the name-to-index map.
- `Lookup`: the `HvLookupFloat` record.
- `Wrappers`: Option and Result.

Inputs the code gets from libraries are parameters of the model:
- Kotlin `Random(seed).nextInt(D - i)` is a function `draw(seed, D, i)` that is
  required to land in `[0, D - i)`.
- numpy's `RandomState(seed).randint(0, 2)` is a function giving bits.
- md5 is a function from strings to seeds.
- `exp` and `sqrt` are function-typed parameters.
- The parsed JSON documents, zip entries and dex files are datatypes.

The methods that change state are proved against specification functions. The
lemmas then state what those functions mean.

## Model

Paths are relative to the repository root. Kotlin files live under
`app/src/main/java/com/example/androidcodeclassifier/`.

| member | source | states |
|---|---|---|
| HdcCore.RandomBipolar | app/src/main/java/com/example/androidcodeclassifier/HdcCore.kt:12-25 | succeeds iff D > 0 and posFraction is in [0,1]; the result has D entries, all ±1, exactly round(D·posFraction) of them +1, and equals the partial Fisher–Yates marking of the given draws |
| HdcCore.RandomBinary | app/src/main/java/com/example/androidcodeclassifier/HdcCore.kt:29-42 | succeeds iff D > 0 and trueFraction is in [0,1]; the result has D entries, exactly round(D·trueFraction) of them true |
| HdcCore.ShuffleMark | app/src/main/java/com/example/androidcodeclassifier/HdcCore.kt:18-23 | the swap loop over `idx` marks exactly the first `count` entries of the shuffled index sequence |
| HdcCore.SwapAt | app/src/main/java/com/example/androidcodeclassifier/HdcCore.kt:21 | idx[i] and idx[j] trade places in the array and nothing else changes |
| HdcCore.ShuffledIdxPermutation | app/src/main/java/com/example/androidcodeclassifier/HdcCore.kt:18-22 | after any number of swap steps `idx` stays a permutation of 0..D-1: in range and pairwise distinct |
| HdcCore.SelectedCount | app/src/main/java/com/example/androidcodeclassifier/HdcCore.kt:19-23 | marking the first n shuffled indices sets exactly n entries |
| HdcCore.BipolarSpecShape | app/src/main/java/com/example/androidcodeclassifier/HdcCore.kt:16-24 | the generated vector has length D, is bipolar, and has exactly numPos entries +1 |
| HdcCore.RoundFractionBounds | app/src/main/java/com/example/androidcodeclassifier/HdcCore.kt:17 | for a fraction in [0,1], round(D·p) lies in 0..D, so every `nextInt(D - i)` has a positive bound |
| HdcCore.BindBipolar | app/src/main/java/com/example/androidcodeclassifier/HdcCore.kt:46-51 | succeeds iff a, b and out have one size; then out is the elementwise product, and otherwise out is unchanged |
| HdcCore.BindBinary | app/src/main/java/com/example/androidcodeclassifier/HdcCore.kt:55-60 | succeeds iff the sizes agree; then out is the elementwise XOR, and otherwise out is unchanged |
| HdcCore.BundleInto | app/src/main/java/com/example/androidcodeclassifier/HdcCore.kt:65-68 | succeeds iff the sizes agree; then the accumulator gains hv elementwise, and otherwise it is unchanged |
| HdcCore.BundleIntoBinary | app/src/main/java/com/example/androidcodeclassifier/HdcCore.kt:81-86 | succeeds iff the sizes agree; then each entry gains +1 for true and -1 for false |
| HdcCore.SignNormalize | app/src/main/java/com/example/androidcodeclassifier/HdcCore.kt:72-77 | the accumulator becomes the sign of its old contents, with zero going to +1 |
| HdcCore.NormalizeBinary | app/src/main/java/com/example/androidcodeclassifier/HdcCore.kt:90-95 | out[i] becomes acc[i] >= 0 for every index that out has; succeeds iff out is long enough; entries past \|acc\| are untouched |
| HdcCore.Cosine | app/src/main/java/com/example/androidcodeclassifier/HdcCore.kt:99-119 | fails iff the sizes differ or the unit-norm branch meets empty vectors; the unit-norm branch gives dot/D, which is 1 for a bipolar vector against itself; the general branch gives dot/sqrt(‖a‖²‖b‖²), or 0 when that is 0 |
| HdcCore.DotLoop | app/src/main/java/com/example/androidcodeclassifier/HdcCore.kt:104 | the loop computes the dot product |
| HdcCore.DotNormsLoop | app/src/main/java/com/example/androidcodeclassifier/HdcCore.kt:109-115 | the loop computes the dot product and both squared norms together |
| HdcCore.HammingDistance | app/src/main/java/com/example/androidcodeclassifier/HdcCore.kt:123-128 | fails iff the sizes differ; otherwise it is the number of differing positions, which lies in 0..D |
| HdcCore.ShiftIsMod | app/src/main/java/com/example/androidcodeclassifier/HdcCore.kt:134 | `((k % D) + D) % D`, with Kotlin's truncating `%`, equals the mathematical k mod D for every k, negative k included |
| HdcCore.RotateByShift | app/src/main/java/com/example/androidcodeclassifier/HdcCore.kt:134-139 | rotating by that shift puts a[(i + k) mod D] at position i |
| HdcCore.RotateInto | app/src/main/java/com/example/androidcodeclassifier/HdcCore.kt:136-140 | the two copy loops write the left rotation by s as far as out reaches, and nothing else |
| HdcCore.PermuteLeft | app/src/main/java/com/example/androidcodeclassifier/HdcCore.kt:132-153 | both overloads: succeeds iff D > 0 and out holds D entries; then out[i] == a[(i + k) mod D]; a zero shift is a copy; a short out is written only as far as the source's loops get |
| HV.BindCommutes | app/src/main/java/com/example/androidcodeclassifier/HdcCore.kt:49 | binding is commutative |
| HV.BindSelfInverse | app/src/main/java/com/example/androidcodeclassifier/HdcCore.kt:49 | binding twice with a bipolar vector gives back the original |
| HV.BindIsBipolar | app/src/main/java/com/example/androidcodeclassifier/HdcCore.kt:49 | the bind of two bipolar vectors is bipolar |
| HV.XorCommutes | app/src/main/java/com/example/androidcodeclassifier/HdcCore.kt:58 | XOR binding is commutative |
| HV.XorSelfInverse | app/src/main/java/com/example/androidcodeclassifier/HdcCore.kt:58 | XOR binding twice with the same vector gives back the original |
| HV.SignIsBipolar | app/src/main/java/com/example/androidcodeclassifier/HdcCore.kt:72-77 | sign normalisation keeps the length and yields a bipolar vector |
| HV.SignFixesBipolar | app/src/main/java/com/example/androidcodeclassifier/HdcCore.kt:72-77 | sign normalisation leaves a bipolar vector unchanged |
| HV.SignIdempotent | app/src/main/java/com/example/androidcodeclassifier/HdcCore.kt:72-77 | sign normalisation is idempotent |
| HV.SignOfZeros | app/src/main/java/com/example/androidcodeclassifier/HdcCore.kt:75 | an all-zero accumulator normalises to all +1 |
| HV.SignBinaryAgrees | app/src/main/java/com/example/androidcodeclassifier/HdcCore.kt:90-95 | the binary normalisation is true exactly where the bipolar one is +1 |
| HV.DotSymmetric | app/src/main/java/com/example/androidcodeclassifier/HdcCore.kt:99-119 | the dot product, and so the cosine, is symmetric |
| HV.DotSelfBipolar | app/src/main/java/com/example/androidcodeclassifier/HdcCore.kt:103 | a bipolar vector has dot product D with itself, so its norm is sqrt(D) |
| HV.HammingSymmetric | app/src/main/java/com/example/androidcodeclassifier/HdcCore.kt:123-128 | the Hamming distance is symmetric |
| HV.HammingBounds | app/src/main/java/com/example/androidcodeclassifier/HdcCore.kt:123-128 | the Hamming distance lies in 0..D |
| HV.HammingZeroIff | app/src/main/java/com/example/androidcodeclassifier/HdcCore.kt:123-128 | the Hamming distance is 0 iff the vectors are equal |
| HV.RotateAt | app/src/main/java/com/example/androidcodeclassifier/HdcCore.kt:137-139 | a rotation by k < D puts s[(i + k) mod D] at position i |
| HV.RotateZero | app/src/main/java/com/example/androidcodeclassifier/HdcCore.kt:135 | a rotation by 0 is the identity |
| HV.AddCommutes | app/src/main/java/com/example/androidcodeclassifier/HdcCore.kt:65-68 | bundling is commutative |
| HV.AddAssociates | app/src/main/java/com/example/androidcodeclassifier/HdcCore.kt:65-68 | bundling is associative |
| HV.SumAllConcat | app/src/main/java/com/example/androidcodeclassifier/HdcCore.kt:65-68 | the bundle of a concatenation is the sum of the two bundles |
| HV.SumAllPermutation | app/src/main/java/com/example/androidcodeclassifier/HdcCore.kt:65-68 | bundling a permutation of the vectors gives the same accumulator |
| Seeds.SeedForLowBits | app/src/main/java/com/example/androidcodeclassifier/OpcodeMethodEncoder.kt:52-56 | with 64-bit wrap-around, the low 32 bits of seedFor xor baseSeed are the low 32 bits of h·123456789; the shifted hash cancels there |
| Text.Utf16Units | app/src/main/java/com/example/androidcodeclassifier/OpcodeMethodEncoder.kt:53 | the UTF-16 form that `String.hashCode` runs over consists of 16-bit units, at least one per character |
| Text.IndexOf | app/src/main/java/com/example/androidcodeclassifier/OpcodeMethodEncoder.kt:30 | the first position of a character, or -1 iff it is absent; this is the split point of `split(' ', limit = 2)` |
| Text.TrimShape | app/src/main/java/com/example/androidcodeclassifier/OpcodeMethodEncoder.kt:30 | a non-empty trimmed line neither starts nor ends with whitespace |
| Text.TrimIdempotent | app/src/main/java/com/example/androidcodeclassifier/MainActivity.kt:119-123 | trimming is idempotent, so re-trimming the kept lines in `addLine` changes nothing |
| Text.LexLessIrreflexive | app/src/main/java/com/example/androidcodeclassifier/APKDexAnalyzer.kt:39 | string order by UTF-16 units is irreflexive |
| Text.LexLessTotal | app/src/main/java/com/example/androidcodeclassifier/APKDexAnalyzer.kt:39 | any two distinct names are ordered one way or the other |
| Text.LexLessTransitive | app/src/main/java/com/example/androidcodeclassifier/APKDexAnalyzer.kt:39 | the order is transitive |
| Sorting.SortByCorrect | app/src/main/java/com/example/androidcodeclassifier/APKDexAnalyzer.kt:39 | sorting by a key yields a sequence ordered by that key that is a permutation of its input |
| Encoder.EncoderBipolar | app/src/main/java/com/example/androidcodeclassifier/OpcodeMethodEncoder.kt:64-75 | the encoder's unchecked generator succeeds iff round(D·posFraction) <= D, since otherwise `nextInt` gets a non-positive bound; on success the vector has D entries, all ±1, with max(numPos, 0) of them +1 |
| Encoder.DictionaryOverride | app/src/main/java/com/example/androidcodeclassifier/OpcodeMethodEncoder.kt:41-49 | an opcode in the dictionary resolves to its dictionary vector, any other opcode to the generated "O" vector, and a method always to the generated "M" vector |
| Encoder.OpcodeMethodEncoder.constructor | app/src/main/java/com/example/androidcodeclassifier/OpcodeMethodEncoder.kt:8-18 | a new encoder has the given settings, a zero accumulator and empty caches |
| Encoder.OpcodeMethodEncoder.Reset | app/src/main/java/com/example/androidcodeclassifier/OpcodeMethodEncoder.kt:20 | zeroes the accumulator and leaves both caches as they were |
| Encoder.OpcodeMethodEncoder.RandomBipolar | app/src/main/java/com/example/androidcodeclassifier/OpcodeMethodEncoder.kt:64-75 | the private generator equals the encoder's bipolar specification |
| Encoder.OpcodeMethodEncoder.TokenHv | app/src/main/java/com/example/androidcodeclassifier/OpcodeMethodEncoder.kt:58-61 | the token vector is generated from seedFor(ns, token) |
| Encoder.OpcodeMethodEncoder.ResolveOpcode | app/src/main/java/com/example/androidcodeclassifier/OpcodeMethodEncoder.kt:41-44 | a dictionary entry wins over the generated vector |
| Encoder.OpcodeMethodEncoder.ResolveMethod | app/src/main/java/com/example/androidcodeclassifier/OpcodeMethodEncoder.kt:47-49 | a method name always gets the generated "M" vector |
| Encoder.OpcodeMethodEncoder.LookupMethod | app/src/main/java/com/example/androidcodeclassifier/OpcodeMethodEncoder.kt:23 | `getOrPut` returns the resolved vector; the method cache gains or keeps exactly that entry and the opcode cache is unchanged |
| Encoder.OpcodeMethodEncoder.LookupOpcode | app/src/main/java/com/example/androidcodeclassifier/OpcodeMethodEncoder.kt:24 | the same for the opcode cache |
| Encoder.OpcodeMethodEncoder.StoreMethod | app/src/main/java/com/example/androidcodeclassifier/OpcodeMethodEncoder.kt:23 | storing a correctly resolved method vector keeps every cached vector equal to its resolution |
| Encoder.OpcodeMethodEncoder.StoreOpcode | app/src/main/java/com/example/androidcodeclassifier/OpcodeMethodEncoder.kt:24 | the same for the opcode cache |
| Encoder.OpcodeMethodEncoder.Pair | app/src/main/java/com/example/androidcodeclassifier/OpcodeMethodEncoder.kt:25 | the bound pair of a method and an opcode has D entries |
| Encoder.OpcodeMethodEncoder.Add | app/src/main/java/com/example/androidcodeclassifier/OpcodeMethodEncoder.kt:22-27 | succeeds iff both vectors resolve; then the accumulator gains the bound pair, and otherwise it is unchanged; each cache gains exactly the entry it looked up |
| Encoder.OpcodeMethodEncoder.Contribution | app/src/main/java/com/example/androidcodeclassifier/OpcodeMethodEncoder.kt:29-33 | the contribution of a line has D entries |
| Encoder.OpcodeMethodEncoder.AddLine | app/src/main/java/com/example/androidcodeclassifier/OpcodeMethodEncoder.kt:29-33 | a line whose trimmed form has no space changes nothing; any other line is `add` of its two halves split at the first space |
| Encoder.OpcodeMethodEncoder.FinalizeVector | app/src/main/java/com/example/androidcodeclassifier/OpcodeMethodEncoder.kt:35-39 | returns the sign of the accumulator, bipolar and of length D, without modifying the accumulator |
| Encoder.OpcodeMethodEncoder.Contributions | app/src/main/java/com/example/androidcodeclassifier/MainActivity.kt:168 | one contribution of length D per line |
| Encoder.OpcodeMethodEncoder.AllSucceedIff | app/src/main/java/com/example/androidcodeclassifier/MainActivity.kt:168 | a session succeeds iff every one of its lines does |
| Encoder.OpcodeMethodEncoder.EncodeLines | app/src/main/java/com/example/androidcodeclassifier/MainActivity.kt:167-169 | one round of reset, addLine over all lines and finalize succeeds iff every line does; the accumulator is then the sum of the line contributions and the vector is its sign |
| Encoder.OpcodeMethodEncoder.SessionStep | app/src/main/java/com/example/androidcodeclassifier/MainActivity.kt:168 | each further line adds its contribution to the session sum |
| Encoder.OpcodeMethodEncoder.EncodingOrderFree | app/src/main/java/com/example/androidcodeclassifier/OpcodeMethodEncoder.kt:22-27 | the accumulator depends only on the multiset of lines added, not on their order |
| Encoder.OpcodeMethodEncoder.ContributionsAsMap | app/src/main/java/com/example/androidcodeclassifier/MainActivity.kt:168 | the contributions are the per-line map of `Contribution` |
| Encoder.CollectNeeded | app/src/main/java/com/example/androidcodeclassifier/MainActivity.kt:115-127 | keeps the trimmed lines that split into two parts, in order, and collects their opcodes |
| Encoder.NeededCoversKept | app/src/main/java/com/example/androidcodeclassifier/MainActivity.kt:115-127 | every kept line splits, and its opcode is in the needed set, so the dictionary covers every opcode the session looks up |
| Encoder.Decide | app/src/main/java/com/example/androidcodeclassifier/MainActivity.kt:193 | the label is 1 (benign) iff s0 >= s1, and 2 otherwise |
| HvLoader.Quantize | app/src/main/java/com/example/androidcodeclassifier/HvOpcodeSelectiveLoader.kt:49-68 | succeeds iff the array holds at least expectedDim values; the result then has exactly expectedDim entries, all ±1 |
| HvLoader.QuantizeAt | app/src/main/java/com/example/androidcodeclassifier/HvOpcodeSelectiveLoader.kt:57 | entry i is +1 iff value i is >= 0 |
| HvLoader.QuantizeIgnoresTail | app/src/main/java/com/example/androidcodeclassifier/HvOpcodeSelectiveLoader.kt:56-61 | values past expectedDim change nothing |
| HvLoader.ReadVectorAdaptDim | app/src/main/java/com/example/androidcodeclassifier/HvOpcodeSelectiveLoader.kt:49-68 | the counting loop computes that quantisation and fails exactly when the total is short |
| HvLoader.LoadSelectiveOpcodes | app/src/main/java/com/example/androidcodeclassifier/HvOpcodeSelectiveLoader.kt:11-46 | the streaming loops compute the loader's specification; the result carries dimension expectedDim and no methods |
| HvLoader.IngestConcat | app/src/main/java/com/example/androidcodeclassifier/HvOpcodeSelectiveLoader.kt:26-34 | ingesting a concatenation is ingesting both parts in turn, stopping at the first failure |
| HvLoader.IngestFailsIff | app/src/main/java/com/example/androidcodeclassifier/HvOpcodeSelectiveLoader.kt:28-30 | ingestion fails iff some needed entry has fewer than expectedDim values |
| HvLoader.IngestKeys | app/src/main/java/com/example/androidcodeclassifier/HvOpcodeSelectiveLoader.kt:28-33 | a key is in the result iff it was there before or is a needed key of the stream |
| HvLoader.IngestQuantized | app/src/main/java/com/example/androidcodeclassifier/HvOpcodeSelectiveLoader.kt:29-30 | every stored vector has length expectedDim and is bipolar |
| HvLoader.IngestKeepsOthers | app/src/main/java/com/example/androidcodeclassifier/HvOpcodeSelectiveLoader.kt:30 | an entry whose key the stream does not mention is kept unchanged |
| HvLoader.IngestLastWins | app/src/main/java/com/example/androidcodeclassifier/HvOpcodeSelectiveLoader.kt:29-30 | for a key that repeats, the last occurrence in the stream wins |
| HvLoader.LoadShape | app/src/main/java/com/example/androidcodeclassifier/HvOpcodeSelectiveLoader.kt:22-45 | on success every stored key is needed, and every needed key found under "opcodes" is stored; every vector has length expectedDim and is bipolar; there are no methods and the dimension is expectedDim |
| HvLoader.LoadFailsIff | app/src/main/java/com/example/androidcodeclassifier/HvOpcodeSelectiveLoader.kt:24-37 | loading fails iff a needed entry under an "opcodes" field is rejected, that is, has fewer than expectedDim values; other fields are skipped |
| FeatureNames.NameIndexShape | app/src/main/java/com/example/androidcodeclassifier/RfJsonForest.kt:35-39 | the index holds exactly the feature names; it maps each name to a position holding it, and when a name repeats the last position wins |
| FeatureNames.IndexOrMinusOneMeaning | app/src/main/java/com/example/androidcodeclassifier/RfJsonForest.kt:75-76 | an unknown name maps to -1, and a known name to a position in range that holds it |
| FeatureNames.BuildIndex | app/src/main/java/com/example/androidcodeclassifier/RfJsonForest.kt:35-39 | the loop builds that index |
| RfForest.NormalizeSumsToOne | app/src/main/java/com/example/androidcodeclassifier/RfJsonForest.kt:59-66 | non-empty leaf probabilities sum to 1, both when a positive sum divides them and in the uniform fallback |
| RfForest.NormalizeBounds | app/src/main/java/com/example/androidcodeclassifier/RfJsonForest.kt:59-66 | for non-negative raw values, every probability lies in [0,1] |
| RfForest.ParseLeaf | app/src/main/java/com/example/androidcodeclassifier/RfJsonForest.kt:46-69 | unwraps `[[…]]` to its first inner array and normalises it; the detected class count becomes the maximum of itself and the leaf size |
| RfForest.ParseNode | app/src/main/java/com/example/androidcodeclassifier/RfJsonForest.kt:71-82 | a node with "value" is a Leaf, any other one a Split on the name's index or -1; the detected count becomes the largest leaf size seen |
| RfForest.LoadForest | app/src/main/java/com/example/androidcodeclassifier/RfJsonForest.kt:30-97 | the tree loop computes the forest specification: the name index, the trees, n_estimators and the class count (2 when no leaf is found) |
| RfForest.TreesPrefixFails | app/src/main/java/com/example/androidcodeclassifier/RfJsonForest.kt:84-86 | the first tree that fails decides the load |
| RfForest.NodeSpecShape | app/src/main/java/com/example/androidcodeclassifier/RfJsonForest.kt:71-82 | every leaf of a parsed tree is normalised, and every split index is below the number of names |
| RfForest.SplitFeatureIndex | app/src/main/java/com/example/androidcodeclassifier/RfJsonForest.kt:75-80 | a split's feature index is the position of its name, or -1 for an unknown name |
| RfForest.TreesSpecShape | app/src/main/java/com/example/androidcodeclassifier/RfJsonForest.kt:84-86 | every tree of a loaded forest has that shape |
| RfForest.TreesFailIff | app/src/main/java/com/example/androidcodeclassifier/RfJsonForest.kt:84-86 | loading the trees fails iff some tree fails |
| RfForest.DetectedBounds | app/src/main/java/com/example/androidcodeclassifier/RfJsonForest.kt:67 | the detected count is at least every tree's largest leaf and equals one of them |
| RfForest.LoadShape | app/src/main/java/com/example/androidcodeclassifier/RfJsonForest.kt:88-96 | one tree per JSON tree, the name index of the feature names, n_estimators defaulting to the tree count; nClasses is at least every tree's largest leaf and equal to one of them, or 2 when no leaf has a class; every leaf is normalised and every split index is in range |
| RfForest.LoadFailsIff | app/src/main/java/com/example/androidcodeclassifier/RfJsonForest.kt:30-97 | loading fails iff some tree fails to parse |
| RfForest.TokenCountsAt | app/src/main/java/com/example/androidcodeclassifier/RfJsonForest.kt:106-111 | each feature index counts the tokens naming it, and only indices of known names are present |
| RfForest.FeaturizeAt | app/src/main/java/com/example/androidcodeclassifier/RfJsonForest.kt:106-115 | the value at an index is the method count or opcode count when that slot is named that way, else the token count; an index nobody names reads 0 |
| RfForest.FeaturizeIgnoresUnknown | app/src/main/java/com/example/androidcodeclassifier/RfJsonForest.kt:108-110 | an unknown token changes nothing |
| RfForest.FeaturizeMinusOne | app/src/main/java/com/example/androidcodeclassifier/RfJsonForest.kt:101-103 | `X.get(-1)` is 0 |
| RfForest.Featurize | app/src/main/java/com/example/androidcodeclassifier/RfJsonForest.kt:106-115 | the counting loop computes that feature map |
| RfForest.EvalReachesLeaf | app/src/main/java/com/example/androidcodeclassifier/RfJsonForest.kt:118-129 | the descent always ends at a leaf of the tree |
| RfForest.EvalTree | app/src/main/java/com/example/androidcodeclassifier/RfJsonForest.kt:118-129 | the `while (true)` descent equals the recursive evaluation that goes left iff x.get(idx) <= threshold |
| RfForest.EvalAtLeast | app/src/main/java/com/example/androidcodeclassifier/RfJsonForest.kt:136 | when every leaf has at least n entries, so does the one reached |
| RfForest.Predict | app/src/main/java/com/example/androidcodeclassifier/RfJsonForest.kt:132-143 | when every leaf has at least nClasses entries: the probabilities are the summed votes divided by their mass (or by 1 when it is 0), and the label is the first index of the maximum |
| RfForest.AccumulateVotes | app/src/main/java/com/example/androidcodeclassifier/RfJsonForest.kt:136 | adds the first nClasses entries of a leaf into the accumulator |
| RfForest.SumArray | app/src/main/java/com/example/androidcodeclassifier/RfJsonForest.kt:138 | the loop computes the vote mass |
| RfForest.ArgMaxFirst | app/src/main/java/com/example/androidcodeclassifier/RfJsonForest.kt:140-142 | the result is in range and holds the maximum, and no earlier index does, so ties go to the lowest index |
| RfForest.RescaleSumsToOne | app/src/main/java/com/example/androidcodeclassifier/RfJsonForest.kt:138-139 | votes with positive mass rescale to probabilities summing to 1 |
| RfForest.EvalExact | app/src/main/java/com/example/androidcodeclassifier/RfJsonForest.kt:118-129 | when every leaf has exactly n entries summing to 1, so does the one reached |
| RfForest.VotesMass | app/src/main/java/com/example/androidcodeclassifier/RfJsonForest.kt:134-137 | the vote mass is the number of trees |
| RfForest.AtLeastWithinMax | app/src/main/java/com/example/androidcodeclassifier/RfJsonForest.kt:67 | leaves of at least n entries, none longer than n, have exactly n |
| RfForest.LoadedForestSumsToOne | app/src/main/java/com/example/androidcodeclassifier/RfJsonForest.kt:88-143 | for a loaded forest with at least one tree whose leaves all reach the detected class count, the predicted probabilities sum to 1 |
| RfForest.LeavesAtLeastMax | app/src/main/java/com/example/androidcodeclassifier/RfJsonForest.kt:67 | a tree whose leaves all have at least n entries has a largest leaf of at least n |
| SvmRbf.LoadFailsIff | app/src/main/java/com/example/androidcodeclassifier/SvmRbf.kt:22-91 | loading fails iff there are no support vectors, some row is narrower than the first, the first dual-coefficient row does not have one entry per vector, there is no intercept, the classes are not exactly 2, gamma is missing, or a scale of the wrong width is given |
| SvmRbf.LoadShape | app/src/main/java/com/example/androidcodeclassifier/SvmRbf.kt:37-65 | a loaded model is well formed: n is the first row's width, each support vector is its row cut to n, alpha is the first dual row, the bias is the first intercept, the scale has every zero replaced by 1 and other entries kept, and the name index is built from the feature names |
| SvmRbf.ResolveReservedMeaning | app/src/main/java/com/example/androidcodeclassifier/SvmRbf.kt:67-77 | when both reserved names are found their indices are used; when either is missing and there are n-2 names, the slots are n-2 and n-1; otherwise each slot is whatever was found |
| SvmRbf.FeaturizeDense | app/src/main/java/com/example/androidcodeclassifier/SvmRbf.kt:96-113 | the result has length n; each entry is the token count of a known index below n, overwritten in a reserved slot in range, then divided by the scale |
| SvmRbf.FeaturizeIgnoresUnknown | app/src/main/java/com/example/androidcodeclassifier/SvmRbf.kt:100-103 | an unknown token changes no column |
| SvmRbf.SqDist | app/src/main/java/com/example/androidcodeclassifier/SvmRbf.kt:116-123 | the loop computes the sum of squared differences over x's indices |
| SvmRbf.SqDistBounds | app/src/main/java/com/example/androidcodeclassifier/SvmRbf.kt:116-123 | the squared distance is >= 0, and 0 when x equals the support vector's prefix |
| SvmRbf.DecisionValue | app/src/main/java/com/example/androidcodeclassifier/SvmRbf.kt:125-133 | the loop computes bias + Σ alpha_j·exp(-gamma·sqDist(x, sv_j)) |
| SvmRbf.AddKernelTerm | app/src/main/java/com/example/androidcodeclassifier/SvmRbf.kt:128-129 | one loop step adds alpha_j·exp(-gamma·sqDist(x, sv_j)) to the partial kernel sum |
| SvmRbf.KernelSumZero | app/src/main/java/com/example/androidcodeclassifier/SvmRbf.kt:128-131 | with every alpha 0 the kernel sum is 0 |
| SvmRbf.DecisionZeroAlpha | app/src/main/java/com/example/androidcodeclassifier/SvmRbf.kt:125-133 | with every alpha 0 the decision value is the bias |
| SvmRbf.KernelSumBound | app/src/main/java/com/example/androidcodeclassifier/SvmRbf.kt:128-131 | for non-negative alphas and gamma, and an exp that is positive and at most exp(0) on non-positive inputs, the kernel sum lies in [0, exp(0)·Σ alpha] |
| SvmRbf.Predict | app/src/main/java/com/example/androidcodeclassifier/SvmRbf.kt:135-140 | the label is classes[1] iff the decision value is >= 0, else classes[0]; the pair (1-p1, p1) sums to 1, with p1 the sigmoid of the decision value, strictly inside (0,1) |
| SvmRbf.SigmoidBounds | app/src/main/java/com/example/androidcodeclassifier/SvmRbf.kt:137 | 1/(1+e) lies strictly between 0 and 1 for e > 0 |
| DexAnalyzer.ListDexEntries | app/src/main/java/com/example/androidcodeclassifier/APKDexAnalyzer.kt:73-107 | the entry loop computes the listing specification |
| DexAnalyzer.ListSpecMeaning | app/src/main/java/com/example/androidcodeclassifier/APKDexAnalyzer.kt:84-100 | the listing holds exactly the non-directory `classes*.dex` entries; an entry carries bytes iff bytes were asked for and its size is in 1..maxEntryBytes |
| DexAnalyzer.ListSpecEmptyIff | app/src/main/java/com/example/androidcodeclassifier/APKDexAnalyzer.kt:31-34 | the listing is empty iff the archive has no dex entry |
| DexAnalyzer.ListSpecAppend | app/src/main/java/com/example/androidcodeclassifier/APKDexAnalyzer.kt:82-103 | the listing keeps archive order: the listing of two runs of entries is the first run's listing followed by the second's |
| DexAnalyzer.MethodLines | app/src/main/java/com/example/androidcodeclassifier/APKDexAnalyzer.kt:45-49 | a method without an implementation has no lines; otherwise there is one line `"<name> <opcode>"` per instruction, in order |
| DexAnalyzer.EmitInstructions | app/src/main/java/com/example/androidcodeclassifier/APKDexAnalyzer.kt:46-53 | the instruction loop either appends every line below the cap, or stops with exactly the cap of lines, a prefix of what it would have appended |
| DexAnalyzer.EmitMethods | app/src/main/java/com/example/androidcodeclassifier/APKDexAnalyzer.kt:44-54 | the same over a class's methods, skipping those without an implementation |
| DexAnalyzer.EmitClasses | app/src/main/java/com/example/androidcodeclassifier/APKDexAnalyzer.kt:43-55 | the same over a dex file's classes |
| DexAnalyzer.DumpFirstOpcodes | app/src/main/java/com/example/androidcodeclassifier/APKDexAnalyzer.kt:23-69 | the dump equals its specification: null without dex entries, for a negative maxLines (the negative list capacity throws and is caught) or when a corrupt entry is reached before the cap, otherwise the first lines in name order |
| DexAnalyzer.MethodLinesNext | app/src/main/java/com/example/androidcodeclassifier/APKDexAnalyzer.kt:47-50 | each instruction extends the method's lines by its own line |
| DexAnalyzer.CorruptDump | app/src/main/java/com/example/androidcodeclassifier/APKDexAnalyzer.kt:39-68 | an entry that fails to load, reached before the cap, makes the whole dump null, with no partial output |
| DexAnalyzer.FinishedDump | app/src/main/java/com/example/androidcodeclassifier/APKDexAnalyzer.kt:39-58 | the loop's lines are the dump when no corrupt entry was reached |
| DexAnalyzer.CappedDump | app/src/main/java/com/example/androidcodeclassifier/APKDexAnalyzer.kt:52 | after `break@outer` the lines are a prefix of all lines and no later corrupt entry counts as reached |
| DexAnalyzer.DumpShape | app/src/main/java/com/example/androidcodeclassifier/APKDexAnalyzer.kt:36-58 | a dump exists only for maxLines >= 0; it has at most max(maxLines, 1) lines and is a prefix of all lines in name order; it is shorter only when it holds every line; it has at least one line when any instruction exists, even for maxLines = 0 |
| DexAnalyzer.DumpNoneIff | app/src/main/java/com/example/androidcodeclassifier/APKDexAnalyzer.kt:29-68 | the dump is null iff there is no dex entry, maxLines is negative, or a corrupt entry is reached before the cap |
| DexAnalyzer.SortedOrigin | app/src/main/java/com/example/androidcodeclassifier/APKDexAnalyzer.kt:39 | every sorted entry is a listed dex entry of the archive |
| DexAnalyzer.EntryLineOrigin | app/src/main/java/com/example/androidcodeclassifier/APKDexAnalyzer.kt:43-49 | every line of a dex file comes from an instruction of one of its methods |
| DexAnalyzer.DumpLineOrigin | app/src/main/java/com/example/androidcodeclassifier/APKDexAnalyzer.kt:39-50 | every dumped line is `method + " " + opcode` for an instruction of a loaded dex entry of the archive |
| ClassicFeatures.ExtractOpcodeTokens | app/src/main/java/com/example/androidcodeclassifier/ClassicFeatureExtractor.kt:16-47 | without a dump the features are empty; otherwise the loop yields the tokens, the distinct-method count and the kept-line count |
| ClassicFeatures.ExtractConcat | app/src/main/java/com/example/androidcodeclassifier/ClassicFeatureExtractor.kt:33-43 | extraction splits over concatenated dumps, so line order is kept and each line contributes on its own |
| ClassicFeatures.SingleLine | app/src/main/java/com/example/androidcodeclassifier/ClassicFeatureExtractor.kt:34-42 | a blank line or one without a space contributes nothing; any other line contributes `"api_" + opcode`, its method and one count |
| ClassicFeatures.CountsAgree | app/src/main/java/com/example/androidcodeclassifier/ClassicFeatureExtractor.kt:40-46 | opcodeCount equals the number of tokens, and methodCount is at most that |
| ClassicFeatures.TokensMeaning | app/src/main/java/com/example/androidcodeclassifier/ClassicFeatureExtractor.kt:36-41 | every token is `"api_" + opcode` of some kept line, and a method is counted iff it is the method of some kept line |
| ClassicFeatures.TokensSound | app/src/main/java/com/example/androidcodeclassifier/ClassicFeatureExtractor.kt:36-41 | every token is `"api_" + opcode` of some kept line |
| ClassicFeatures.MethodsSound | app/src/main/java/com/example/androidcodeclassifier/ClassicFeatureExtractor.kt:36-41 | every counted method is the method of some kept line |
| ClassicFeatures.MethodsComplete | app/src/main/java/com/example/androidcodeclassifier/ClassicFeatureExtractor.kt:36-41 | the method of every kept line is counted |
| ClassicFeatures.ParseDumpLine | app/src/main/java/com/example/androidcodeclassifier/APKDexAnalyzer.kt:49 | a dumped line `name + " " + opcode` parses back into its two parts when the name has no space and the line has no surrounding whitespace |
| PyHdc.BipolarFromSeed | python_code/HDC_Class_Builder.py:39-43 | the seeded vector has D entries, all ±1 |
| PyHdc.SignBundle | python_code/HDC_Inference.py:62-69 | the mask assignments compute the sign bundle with the 0xC0FFEE tie vector |
| PyHdc.SignBundleShape | python_code/HDC_Class_Builder.py:70-77 | the result is bipolar, +1 where acc > 0, -1 where acc < 0, and the tie entry where acc = 0 |
| PyHdc.SignBundleVersusSign | python_code/HDC_Class_Builder.py:70-77 | the Python sign bundle agrees with the Kotlin sign (zero to +1) iff the tie vector is +1 at every zero of the accumulator |
| PyHdc.NamespacesDisjoint | python_code/HDC_Class_Builder.py:46-63 | an opcode seed string never equals a method seed string |
| PyHdc.VectorCache.constructor | python_code/HDC_Class_Builder.py:46-63 | both memo caches start empty |
| PyHdc.VectorCache.OpcodeVec | python_code/HDC_Class_Builder.py:46-53 | returns the vector seeded by md5("OPC::" + op), the cached one if present; the cache then maps (op, D) to it and the method cache is unchanged |
| PyHdc.VectorCache.MethodNameToVec | python_code/HDC_Class_Builder.py:56-63 | the same for "MTH::" and the method cache |
| PyHdc.PairVec | python_code/HDC_Class_Builder.py:131 | a bound pair has D entries |
| PyHdc.BundlePairs | python_code/HDC_Class_Builder.py:123-134 | the accumulator of any list of pairs has D entries |
| PyHdc.BundlePairsNext | python_code/HDC_Class_Builder.py:131 | each further pair adds its bound vector |
| PyHdc.BundlePairsBound | python_code/HDC_Class_Builder.py:123-134 | every accumulator entry lies in [-n, n] for n pairs, so the int32 accumulator cannot overflow at the caps used |
| PyHdc.BundlePairsConcat | python_code/HDC_Class_Builder.py:125-134 | bundling a concatenation adds the two bundles |
| PyHdc.EntryPairs | python_code/HDC_Class_Builder.py:125-130 | a method entry yields one (method, opcode) pair per opcode |
| PyHdc.EntryPairsClip | python_code/HDC_Class_Builder.py:130 | clipping the op list clips its pairs the same way |
| PyHdc.Capped | python_code/HDC_Inference.py:101-114 | a cap keeps a prefix of length min(cap, n), or nothing for a cap <= 0 |
| HdcBuilder.DictSetMeaning | python_code/HDC_Class_Builder.py:109 | storing into the ordered dict keeps keys distinct, holds the new entry, keeps every other entry and adds no other; the stored total grows by at most the new list's length |
| HdcBuilder.DictSetSound | python_code/HDC_Class_Builder.py:109 | after storing, keys stay distinct and every entry is the new one or an entry of another key |
| HdcBuilder.DictSetKeeps | python_code/HDC_Class_Builder.py:109 | after storing, the new entry is present, every entry of another key is kept and the stored total grows by at most the new list's length |
| HdcBuilder.DoneFold | python_code/HDC_Class_Builder.py:105-112 | once extraction has returned, later methods change nothing |
| HdcBuilder.ExtractOpcodesByMethod | python_code/HDC_Class_Builder.py:80-118 | the nested loops compute the extraction specification, with the early returns and `{}` on a parse failure |
| HdcBuilder.ExtractMethods | python_code/HDC_Class_Builder.py:95-114 | the loop over one dex file's methods ends in the method fold's state, reporting the two early returns as `done` |
| HdcBuilder.MethodStepInv | python_code/HDC_Class_Builder.py:96-112 | one method step keeps the extraction invariant |
| HdcBuilder.MethodsFoldInv | python_code/HDC_Class_Builder.py:95-114 | the method loop keeps it |
| HdcBuilder.DexFoldInv | python_code/HDC_Class_Builder.py:93-115 | the dex loop keeps it |
| HdcBuilder.ExtractShape | python_code/HDC_Class_Builder.py:80-118 | the result has distinct keys; each entry is a non-empty prefix of the ops of a method of the APK under its full name; the stored total is at most max_total_ops; the result is `{}` when the APK does not parse or the cap is <= 0 |
| HdcBuilder.PairsPrefix | python_code/HDC_Class_Builder.py:125-130 | the pairs visited so far are a prefix of all pairs in map order |
| HdcBuilder.CappedPairs | python_code/HDC_Class_Builder.py:126-134 | a prefix that stops only at the cap or at the end is exactly the capped list |
| HdcBuilder.EncodeOps | python_code/HDC_Class_Builder.py:130-134 | the inner loop within the budget adds exactly the method's pairs |
| HdcBuilder.EncodeApp | python_code/HDC_Class_Builder.py:121-135 | the result is the sign bundle of the bound pairs of the first max_ops_per_app pairs in map order |
| HdcBuilder.EncodeShape | python_code/HDC_Class_Builder.py:121-135 | the app vector is bipolar of length D, and is the tie vector when the cap is <= 0 |
| HdcBuilder.AppVector | python_code/HDC_Class_Builder.py:153-159 | an app's contribution has length D and entries in [-1, 1] |
| HdcBuilder.ClassAcc | python_code/HDC_Class_Builder.py:147-159 | a class accumulator has length D |
| HdcBuilder.AccumulateApp | python_code/HDC_Class_Builder.py:156-159 | an app adds its encoding when its map is non-empty, and nothing otherwise |
| HdcBuilder.AccumulateClasses | python_code/HDC_Class_Builder.py:147-159 | the pairing loop fills both class accumulators over the first num_files files |
| HdcBuilder.BuildClassVectorsTogether | python_code/HDC_Class_Builder.py:138-163 | each class vector is the sign bundle of its accumulator over the first min(#benign, #malware, max_apks) sorted `.apk` files |
| HdcBuilder.ListingMeaning | python_code/HDC_Class_Builder.py:143-144 | the listing is sorted by code point, is a permutation of the `.apk` names, and holds a name iff it is in the folder and ends in ".apk" in any case |
| HdcBuilder.ApkFilesMeaning | python_code/HDC_Class_Builder.py:143-144 | the filter keeps a name iff it ends in ".apk" ignoring case |
| HdcBuilder.EmptyAppAddsNothing | python_code/HDC_Class_Builder.py:156-159 | an app whose extraction is empty leaves its class accumulator unchanged |
| HdcBuilder.ClassAccBound | python_code/HDC_Class_Builder.py:140-159 | after n apps every class accumulator entry lies in [-n, n] |
| HdcInference.WalkInstructions | python_code/HDC_Inference.py:105-114 | the instruction loop adds the method's pairs up to the remaining budget |
| HdcInference.MethodWalkStep | python_code/HDC_Inference.py:90-114 | each method below the cap adds its capped pairs |
| HdcInference.WalkMethods | python_code/HDC_Inference.py:90-116 | the method loop computes the method walk, stopping at the cap |
| HdcInference.DexWalkStep | python_code/HDC_Inference.py:86-89 | each parsing dex below the cap continues the walk with its methods |
| HdcInference.ExtractTestVector | python_code/HDC_Inference.py:72-121 | the loops compute the test vector specification: zeros without dex or on a parse failure, else the sign bundle of the walked pairs |
| HdcInference.CappedAppend | python_code/HDC_Inference.py:101-114 | appending within the remaining budget is capping the whole |
| HdcInference.CappedFull | python_code/HDC_Inference.py:87-92 | once the cap is reached, nothing more is kept |
| HdcInference.MethodWalkCapped | python_code/HDC_Inference.py:90-114 | the method walk from a capped start is the cap of the start plus all method pairs |
| HdcInference.DexWalkCapped | python_code/HDC_Inference.py:86-116 | the dex walk fails iff a dex that does not parse is reached below the cap; otherwise it is the cap of all pairs |
| HdcInference.FailsShift | python_code/HDC_Inference.py:86-89 | a failure is reached in the list iff it is reached in the rest after the first dex |
| HdcInference.TestVectorMeaning | python_code/HDC_Inference.py:72-121 | the test vector is zeros when the APK does not parse, has no dex, or reaches a dex that does not parse; otherwise it is the sign bundle of the first max_opcodes pairs over all dex entries and methods |
| HdcInference.TestVectorShape | python_code/HDC_Inference.py:72-121 | the test vector has length D and is zeros or bipolar; when it is bipolar it bundles a prefix of at most max_opcodes of the pairs |
| HdcInference.CosineSymmetric | python_code/HDC_Inference.py:124-130 | cosine similarity is symmetric |
| HdcInference.DotZeros | python_code/HDC_Inference.py:127-130 | the zero vector has dot product 0 with anything |
| HdcInference.CosineZeroVector | python_code/HDC_Inference.py:128-129 | the zero vector has similarity 0 with anything |
| HdcInference.CosineSelfBipolar | python_code/HDC_Inference.py:124-130 | a non-empty bipolar vector has similarity 1 with itself |
| HdcInference.Rescale01Meaning | python_code/HDC_Inference.py:133-134 | 0.5·(c+1) maps [-1,1] onto [0,1], sends -1 to 0 and 1 to 1, and preserves order strictly |
| HdcInference.ClassifyRule | python_code/HDC_Inference.py:148 | the verdict is "benign" or "malware" |
| HdcInference.ClassifyVersusActivity | python_code/HDC_Inference.py:148 | the Python rule agrees with the app's rule at MainActivity.kt:193 iff the similarities differ; on a tie Python says malware and the app says benign |
| HdcInference.ClassifyApk | python_code/HDC_Inference.py:137-148 | the verdict is "benign" iff the test vector's similarity to the benign class is strictly greater than to the malware class |
| HdcInference.FallbackIsMalware | python_code/HDC_Inference.py:72-148 | an APK that falls back to the zero vector scores 0 against both classes and is classified as malware |

## Left out

- Floating point. Kotlin `Float`/`Double` and numpy float32 are modelled as
  exact reals, and the float accumulators of the encoder as `int`. Rounding
  in divisions, `exp`, `sqrt` and the sigmoid is not modelled. The one NaN the
  core can produce, the unit-norm `cosine` of empty vectors, is a Failure.
- `roundToInt` is modelled as floor(x + 1/2) on reals.
- Integer widths:
  - `Int` cast and wrap-around in `permuteLeft`'s `(k % D) + D` are not
    modelled (only D near 2^31 is affected);
  - the Python int32 accumulators are unbounded, and `PyHdc.BundlePairsBound`
    and `HdcBuilder.ClassAccBound` show that they stay within ±n;
  - the 64-bit seed arithmetic and `String.hashCode` are modelled exactly.
- The PRNGs (`kotlin.random.Random`, numpy `RandomState`) and md5 are
  function parameters. The model does not fix their bit-exact outputs.
- HdcCore.PermuteLeft: read-only array arguments are modelled as their
  contents, so the aliased call `permuteLeft(a, k, a)` is not modelled.
- Encoder.OpcodeMethodEncoder.constructor: D is a `nat`, since `FloatArray(D)`
  throws for a negative D before any method can run.
- Encoder.EncoderBipolar: the private generator is modelled on draws that land
  in range; a negative numPos gives all -1, since the loop does not run.
- JSON parsing, `JsonReader` streaming, number coercion (`nextDouble` or
  `nextString().toFloat()`) and malformed documents. The parsed forms are
  datatypes. `HvLoader` takes the top-level fields as a sequence of named
  entries.
- File, asset and archive I/O: `copyToCache`, `ZipFile`, `loadDexFromBytes`,
  writing and re-reading the dump file (taken as the identity on lines),
  `os.listdir`, and androguard's `APK`/`DalvikVMFormat`/`get_all_dex`. An APK
  is modelled as a flag for whether it parses plus its list of dex files, with
  the `get_dex` fallback.
- `os.path.join`: an APK file is looked up by name through a given function
  `apkOf`.
- A method whose code raises is modelled as raising before its first
  instruction is read. The partial additions of an exception part-way through
  `get_instructions` in `HDC_Inference.py` are not modelled.
- `str.lower` is modelled on ASCII letters only.
- numpy and torch in-place `+=` on tensors is modelled on values, as is the
  Python memo cache. The model keeps its get-or-store behaviour, not tensor
  aliasing.
- The class vectors that `HDC_Inference.py` loads are parameters of
  `classify_apk`.
- Sorting.SortByCorrect: the sort is proved ordered and a permutation.
  Stability is not stated, because names in one folder or archive are
  distinct.
- SvmRbf.SqDistBounds: proves that equal vectors are at distance 0, not the
  converse.
- The UI, coroutines, timing, memory, battery and power sampling of
  MainActivity.kt and ClassicModelsActivity.kt, and the Python scripts'
  `get_tail_sample`, threads, `set_seed` and printing.
- ClassVectorLoader.kt, JSON_Converter.py and Opcode_Method_Crawler.py are not
  part of this model. They are I/O wrappers around the functions above.
