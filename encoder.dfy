/** The session encoder (OpcodeMethodEncoder.kt): it turns "method opcode"
    lines into one bipolar fingerprint by bundling bind(M(method), O(opcode))
    into an accumulator, with memo caches for the token vectors. Also the two
    small rules of the activity that drives it: the needed-opcode collection
    and the benign/malware decision. */
module Encoder {

  import opened Wrappers
  import opened HV
  import opened Text
  import opened HdcCore
  import opened Lookup
  import opened Seeds

  /** The hash `seedFor` starts from. */
  function TokenHash(ns: string, token: string): bv32 {
    JavaHashCode(ns + ":" + token)
  }

  // --------------------------------------------------------- token vectors

  /** What the encoder's private `randomBipolar` yields. numPos = round(D * p);
      a negative numPos runs no step (all -1), and numPos > D makes the
      generator's `nextInt(0)` throw. */
  function EncoderBipolar(d: nat, posFraction: real, seed: bv64, draw: Draw): (r: Result<seq<int>>)
    requires DrawInRange(draw)
    ensures r.Success? <==> RoundToInt(d as real * posFraction) <= d
    ensures r.Success? ==>
      && |r.value| == d && IsBipolar(r.value)
      && Count(r.value, 1) == (if RoundToInt(d as real * posFraction) < 0 then 0 else RoundToInt(d as real * posFraction))
  {
    var numPos := RoundToInt(d as real * posFraction);
    if numPos > d then Failure("bound must be positive")
    else
      var n := if numPos < 0 then 0 else numPos;
      BipolarSpecShape(d, n, seed, draw);
      Success(BipolarSpec(d, n, seed, draw))
  }

  /** `tokenHv`: the vector generated from the token's own seed. */
  function TokenVec(d: nat, posFraction: real, baseSeed: bv64, draw: Draw, ns: string, token: string): Result<seq<int>>
    requires DrawInRange(draw)
  {
    EncoderBipolar(d, posFraction, SeedFor(baseSeed, SignExtend(TokenHash(ns, token))), draw)
  }

  /** `resolveOpcode`: the dictionary's vector if it has one for this opcode, else the "O" token vector. */
  function OpcodeVec(d: nat, posFraction: real, baseSeed: bv64, dict: Option<HvLookupFloat>, draw: Draw, opcode: string): Result<seq<int>>
    requires DrawInRange(draw)
  {
    if dict.Some? && opcode in dict.value.opcodes then Success(dict.value.opcodes[opcode])
    else TokenVec(d, posFraction, baseSeed, draw, "O", opcode)
  }

  /** `resolveMethod`: always the "M" token vector; the dictionary is never consulted. */
  function MethodVec(d: nat, posFraction: real, baseSeed: bv64, draw: Draw, methodName: string): Result<seq<int>>
    requires DrawInRange(draw)
  {
    TokenVec(d, posFraction, baseSeed, draw, "M", methodName)
  }

  /** The dictionary overrides the generated vector for opcodes; opcodes it
      does not hold, and all methods, get generated vectors. */
  lemma DictionaryOverride(d: nat, p: real, baseSeed: bv64, dict: Option<HvLookupFloat>, draw: Draw, token: string)
    requires DrawInRange(draw)
    ensures dict.Some? && token in dict.value.opcodes ==>
      OpcodeVec(d, p, baseSeed, dict, draw, token) == Success(dict.value.opcodes[token])
    ensures !(dict.Some? && token in dict.value.opcodes) ==>
      OpcodeVec(d, p, baseSeed, dict, draw, token) == OpcodeVec(d, p, baseSeed, None, draw, token)
    ensures MethodVec(d, p, baseSeed, draw, token) == TokenVec(d, p, baseSeed, draw, "M", token)
  {
  }

  // ------------------------------------------------------------- the class

  class OpcodeMethodEncoder {
    const D: nat
    const posFraction: real
    const baseSeed: bv64
    const dict: Option<HvLookupFloat>
    /** The seeded generator, given. */
    const draw: Draw
    const acc: array<int>
    /** Scratch array for the bound pair. */
    const tmp: array<int>
    var opcodeHv: map<string, seq<int>>
    var methodHv: map<string, seq<int>>

    function MethodSpec(methodName: string): Result<seq<int>>
      requires DrawInRange(draw)
    {
      MethodVec(D, posFraction, baseSeed, draw, methodName)
    }

    function OpcodeSpec(opcode: string): Result<seq<int>>
      requires DrawInRange(draw)
    {
      OpcodeVec(D, posFraction, baseSeed, dict, draw, opcode)
    }

    /** Every cached vector is the one its token resolves to: a hit returns
        exactly what a fresh resolution would. */
    ghost predicate Valid()
      reads this
    {
      && acc.Length == D && tmp.Length == D && acc != tmp
      && DrawInRange(draw)
      && (forall m :: m in methodHv ==> MethodSpec(m) == Success(methodHv[m]))
      && (forall o :: o in opcodeHv ==> OpcodeSpec(o) == Success(opcodeHv[o]))
    }

    constructor(D: nat, posFraction: real, baseSeed: bv64, dict: Option<HvLookupFloat>, draw: Draw)
      requires DrawInRange(draw)
      ensures Valid()
      ensures this.D == D && this.posFraction == posFraction && this.baseSeed == baseSeed
      ensures this.dict == dict && this.draw == draw
      ensures acc[..] == Zeros(D) && opcodeHv == map[] && methodHv == map[]
      ensures fresh(acc) && fresh(tmp)
    {
      this.D := D;
      this.posFraction := posFraction;
      this.baseSeed := baseSeed;
      this.dict := dict;
      this.draw := draw;
      acc := new int[D](_ => 0);
      tmp := new int[D](_ => 0);
      opcodeHv := map[];
      methodHv := map[];
    }

    /** `reset`: the accumulator becomes all zeros; both caches are kept. */
    method Reset()
      requires Valid()
      modifies acc
      ensures Valid()
      ensures acc[..] == Zeros(D)
      ensures opcodeHv == old(opcodeHv) && methodHv == old(methodHv)
    {
      for i := 0 to acc.Length
        invariant forall k :: 0 <= k < i ==> acc[k] == 0
      {
        acc[i] := 0;
      }
    }

    /** The private `randomBipolar`. */
    method RandomBipolar(seed: bv64) returns (r: Result<seq<int>>)
      requires DrawInRange(draw)
      ensures r == EncoderBipolar(D, posFraction, seed, draw)
    {
      var numPos := RoundToInt(D as real * posFraction);
      if numPos > D {
        return Failure("bound must be positive");
      }
      var hv := ShuffleMark(D, if numPos < 0 then 0 else numPos, seed, draw, 1, -1);
      r := Success(hv);
    }

    method TokenHv(ns: string, token: string) returns (r: Result<seq<int>>)
      requires DrawInRange(draw)
      ensures r == TokenVec(D, posFraction, baseSeed, draw, ns, token)
    {
      var seed := SeedFor(baseSeed, SignExtend(TokenHash(ns, token)));
      r := RandomBipolar(seed);
    }

    method ResolveOpcode(opcode: string) returns (r: Result<seq<int>>)
      requires DrawInRange(draw)
      ensures r == OpcodeSpec(opcode)
    {
      if dict.Some? && opcode in dict.value.opcodes {
        return Success(dict.value.opcodes[opcode]);
      }
      r := TokenHv("O", opcode);
    }

    method ResolveMethod(methodName: string) returns (r: Result<seq<int>>)
      requires DrawInRange(draw)
      ensures r == MethodSpec(methodName)
    {
      r := TokenHv("M", methodName);
    }

    /** `methodHv.getOrPut(method) { resolveMethod(method) }`. */
    method LookupMethod(methodName: string) returns (r: Result<seq<int>>)
      requires Valid()
      modifies this
      ensures Valid()
      ensures r == MethodSpec(methodName)
      ensures methodHv == if r.Success? then old(methodHv)[methodName := r.value] else old(methodHv)
      ensures opcodeHv == old(opcodeHv)
    {
      if methodName in methodHv {
        return Success(methodHv[methodName]);
      }
      r := ResolveMethod(methodName);
      if r.Success? {
        StoreMethod(methodName, r.value);
      }
    }

    /** Stores a resolved method vector in the cache. */
    method StoreMethod(methodName: string, v: seq<int>)
      requires Valid() && MethodSpec(methodName) == Success(v)
      modifies this
      ensures Valid()
      ensures methodHv == old(methodHv)[methodName := v] && opcodeHv == old(opcodeHv)
    {
      methodHv := methodHv[methodName := v];
    }

    /** `opcodeHv.getOrPut(opcode) { resolveOpcode(opcode) }`. */
    method LookupOpcode(opcode: string) returns (r: Result<seq<int>>)
      requires Valid()
      modifies this
      ensures Valid()
      ensures r == OpcodeSpec(opcode)
      ensures opcodeHv == if r.Success? then old(opcodeHv)[opcode := r.value] else old(opcodeHv)
      ensures methodHv == old(methodHv)
    {
      if opcode in opcodeHv {
        return Success(opcodeHv[opcode]);
      }
      r := ResolveOpcode(opcode);
      if r.Success? {
        StoreOpcode(opcode, r.value);
      }
    }

    /** Stores a resolved opcode vector in the cache. */
    method StoreOpcode(opcode: string, v: seq<int>)
      requires Valid() && OpcodeSpec(opcode) == Success(v)
      modifies this
      ensures Valid()
      ensures opcodeHv == old(opcodeHv)[opcode := v] && methodHv == old(methodHv)
    {
      opcodeHv := opcodeHv[opcode := v];
    }

    /** Whether `add(methodName, opcode)` completes: both vectors resolve and the
        opcode's has length D (a dictionary vector of another length makes
        `bindBipolar` refuse). */
    predicate AddSucceeds(methodName: string, opcode: string)
      requires DrawInRange(draw)
    {
      MethodSpec(methodName).Success? && OpcodeSpec(opcode).Success? && |OpcodeSpec(opcode).value| == D
    }

    /** The vector `add(methodName, opcode)` bundles: bind(M(methodName), O(opcode)). */
    function Pair(methodName: string, opcode: string): (v: seq<int>)
      requires DrawInRange(draw) && AddSucceeds(methodName, opcode)
      ensures |v| == D
    {
      Bind(MethodSpec(methodName).value, OpcodeSpec(opcode).value)
    }

    /** `add`: look both vectors up (storing them on a miss), bind them into
        tmp and bundle tmp into acc. On success acc[i] grows by M[i] * O[i] and
        nothing else of acc changes; the caches only grow, and an entry once
        stored never changes. A failure (the source throws) happens before acc
        is touched and keeps whatever was cached up to that point. */
    method Add(methodName: string, opcode: string) returns (ok: bool)
      requires Valid()
      modifies this, acc, tmp
      ensures Valid()
      ensures ok <==> AddSucceeds(methodName, opcode)
      ensures ok ==> acc[..] == HV.Add(old(acc[..]), Pair(methodName, opcode))
      ensures !ok ==> acc[..] == old(acc[..])
      ensures methodHv == if MethodSpec(methodName).Success? then old(methodHv)[methodName := MethodSpec(methodName).value] else old(methodHv)
      ensures opcodeHv == if MethodSpec(methodName).Success? && OpcodeSpec(opcode).Success?
        then old(opcodeHv)[opcode := OpcodeSpec(opcode).value] else old(opcodeHv)
    {
      var rm := LookupMethod(methodName);
      if rm.Failure? {
        return false;
      }
      var ro := LookupOpcode(opcode);
      if ro.Failure? {
        return false;
      }
      var m, o := rm.value, ro.value;
      ok := BindBipolar(m, o, tmp);
      if !ok {
        return;
      }
      var bundled := BundleInto(acc, tmp[..]);
    }

    /** What `addLine` does with a line: trim it and split it at the first
        space; None when there are fewer than two parts. */
    static function LinePair(line: string): Option<(string, string)> {
      SplitFirstSpace(Trim(line))
    }

    /** Whether `addLine(line)` completes. */
    predicate LineSucceeds(line: string)
      requires DrawInRange(draw)
    {
      LinePair(line).None? || AddSucceeds(LinePair(line).value.0, LinePair(line).value.1)
    }

    /** What `addLine(line)` adds to acc: its bound pair, or nothing (zeros)
        for a line without two parts. */
    function Contribution(line: string): (v: seq<int>)
      requires DrawInRange(draw)
      ensures |v| == D
    {
      match LinePair(line) {
        case None => Zeros(D)
        case Some((m, o)) => if AddSucceeds(m, o) then Pair(m, o) else Zeros(D)
      }
    }

    /** `addLine`: a line with fewer than two parts changes nothing; otherwise
        it is `add(parts[0], parts[1])`. */
    method AddLine(line: string) returns (ok: bool)
      requires Valid()
      modifies this, acc, tmp
      ensures Valid()
      ensures ok <==> LineSucceeds(line)
      ensures LinePair(line).None? ==>
        acc[..] == old(acc[..]) && methodHv == old(methodHv) && opcodeHv == old(opcodeHv)
      ensures ok ==> acc[..] == HV.Add(old(acc[..]), Contribution(line))
      ensures !ok ==> acc[..] == old(acc[..])
      ensures LinePair(line).Some? ==>
        var (m, o) := LinePair(line).value;
        && methodHv == (if MethodSpec(m).Success? then old(methodHv)[m := MethodSpec(m).value] else old(methodHv))
        && opcodeHv == (if MethodSpec(m).Success? && OpcodeSpec(o).Success?
             then old(opcodeHv)[o := OpcodeSpec(o).value] else old(opcodeHv))
    {
      var parts := SplitFirstSpace(Trim(line));
      if parts.None? {
        AddZeros(acc[..]);
        return true;
      }
      ok := Add(parts.value.0, parts.value.1);
    }

    /** `finalizeVector`: a sign-normalised copy of acc (zero becomes +1);
        acc itself is left as it is, so asking twice gives the same vector. */
    method FinalizeVector() returns (v: seq<int>)
      requires Valid()
      ensures v == Sign(acc[..]) && IsBipolar(v) && |v| == D
    {
      var out := new int[acc.Length];
      forall i | 0 <= i < acc.Length {
        out[i] := acc[i];
      }
      SignNormalize(out);
      v := out[..];
      SignIsBipolar(acc[..]);
    }

    /** What a session adds up: the contributions of the lines, in order. */
    function Contributions(lines: seq<string>): (cs: seq<seq<int>>)
      requires DrawInRange(draw)
      ensures |cs| == |lines| && AllLen(cs, D)
    {
      if |lines| == 0 then []
      else Contributions(lines[..|lines| - 1]) + [Contribution(lines[|lines| - 1])]
    }

    /** Every line of the session can be added. */
    predicate AllSucceed(lines: seq<string>)
      requires DrawInRange(draw)
    {
      |lines| == 0 || (AllSucceed(lines[..|lines| - 1]) && LineSucceeds(lines[|lines| - 1]))
    }

    lemma {:induction false} AllSucceedIff(lines: seq<string>)
      requires DrawInRange(draw)
      ensures AllSucceed(lines) <==> forall i :: 0 <= i < |lines| ==> LineSucceeds(lines[i])
    {
      if |lines| > 0 {
        AllSucceedIff(lines[..|lines| - 1]);
        assert forall i :: 0 <= i < |lines| - 1 ==> lines[..|lines| - 1][i] == lines[i];
      }
    }

    /** One encoding round of the activity: reset, add every line, finalise.
        The fingerprint is the sign of the sum of the lines' bound pairs. */
    method EncodeLines(lines: seq<string>) returns (ok: bool, v: seq<int>)
      requires Valid()
      modifies this, acc, tmp
      ensures Valid()
      ensures ok <==> AllSucceed(lines)
      ensures ok ==> acc[..] == SumAll(D, Contributions(lines)) && v == Sign(SumAll(D, Contributions(lines)))
    {
      Reset();
      for i := 0 to |lines|
        invariant Valid()
        invariant AllSucceed(lines[..i])
        invariant acc[..] == SumAll(D, Contributions(lines[..i]))
      {
        SessionStep(lines, i);
        var lineOk := AddLine(lines[i]);
        if !lineOk {
          AllSucceedIff(lines);
          return false, [];
        }
      }
      assert lines[..|lines|] == lines;
      v := FinalizeVector();
      ok := true;
    }

    lemma SessionStep(lines: seq<string>, i: int)
      requires DrawInRange(draw) && 0 <= i < |lines|
      ensures SumAll(D, Contributions(lines[..i + 1])) == HV.Add(SumAll(D, Contributions(lines[..i])), Contribution(lines[i]))
      ensures AllSucceed(lines[..i + 1]) <==> AllSucceed(lines[..i]) && LineSucceeds(lines[i])
    {
      assert lines[..i + 1][..i] == lines[..i];
    }

    /** The fingerprint does not depend on the order of the lines. */
    lemma EncodingOrderFree(lines1: seq<string>, lines2: seq<string>)
      requires DrawInRange(draw)
      requires multiset(lines1) == multiset(lines2)
      ensures SumAll(D, Contributions(lines1)) == SumAll(D, Contributions(lines2))
    {
      ContributionsAsMap(lines1);
      ContributionsAsMap(lines2);
      MapSeqMultiset(Contribution, lines1, lines2);
      SumAllPermutation(D, Contributions(lines1), Contributions(lines2));
    }

    lemma {:induction false} ContributionsAsMap(lines: seq<string>)
      requires DrawInRange(draw)
      ensures Contributions(lines) == MapSeq(Contribution, lines)
    {
      if |lines| > 0 {
        ContributionsAsMap(lines[..|lines| - 1]);
      }
    }
  }

  // ------------------------------------------------- rules of the activity

  /** The needed-opcode collection: each line is trimmed; blank lines and
      lines without a space are dropped; the rest are kept (trimmed) and their
      text after the first space is a needed opcode. */
  method CollectNeeded(lines: seq<string>) returns (kept: seq<string>, needed: set<string>)
    ensures kept == KeptLines(lines) && needed == NeededOpcodes(lines)
  {
    kept := [];
    needed := {};
    for i := 0 to |lines|
      invariant kept == KeptLines(lines[..i]) && needed == NeededOpcodes(lines[..i])
    {
      assert lines[..i + 1][..i] == lines[..i];
      var t := Trim(lines[i]);
      if |t| == 0 {
        continue;
      }
      var parts := SplitFirstSpace(t);
      if parts.Some? {
        kept := kept + [t];
        needed := needed + {parts.value.1};
      }
    }
    assert lines[..|lines|] == lines;
  }

  function KeptLines(lines: seq<string>): seq<string> {
    if |lines| == 0 then []
    else
      var t := Trim(lines[|lines| - 1]);
      KeptLines(lines[..|lines| - 1]) + (if SplitFirstSpace(t).Some? then [t] else [])
  }

  function NeededOpcodes(lines: seq<string>): set<string> {
    if |lines| == 0 then {}
    else
      var t := Trim(lines[|lines| - 1]);
      NeededOpcodes(lines[..|lines| - 1]) + (if SplitFirstSpace(t).Some? then {SplitFirstSpace(t).value.1} else {})
  }

  /** Every kept line still splits when the encoder trims it again, and its
      opcode is among the needed ones, so every opcode the encoder resolves
      was offered to the dictionary loader. */
  lemma {:induction false} NeededCoversKept(lines: seq<string>)
    ensures forall k :: 0 <= k < |KeptLines(lines)| ==>
      var t := KeptLines(lines)[k];
      && OpcodeMethodEncoder.LinePair(t).Some?
      && OpcodeMethodEncoder.LinePair(t).value.1 in NeededOpcodes(lines)
  {
    if |lines| > 0 {
      NeededCoversKept(lines[..|lines| - 1]);
      TrimIdempotent(lines[|lines| - 1]);
    }
  }

  /** The activity's label: 1 (benign) when the benign similarity is at least
      the malware one, 2 (malware) otherwise; a tie is benign. */
  function Decide(s0: real, s1: real): (verdict: int)
    ensures verdict == 1 || verdict == 2
    ensures verdict == 1 <==> s0 >= s1
  {
    if s0 >= s1 then 1 else 2
  }
}
