/** The selective dictionary loader (HvOpcodeSelectiveLoader.kt). The JSON
    document is modelled as the sequence of its top-level fields; an
    "opcodes" field holds its (key, number list) entries in document order.
    Tokenising and number parsing are not modelled. */
module HvLoader {

  import opened Wrappers
  import opened HV
  import opened Lookup

  datatype OpEntry = OpEntry(key: string, values: seq<real>)

  datatype TopField =
    | OpcodesField(entries: seq<OpEntry>)
    | OtherField(name: string)

  /** What `readVectorAdaptDim` yields: the sign (+1 for v >= 0, else -1) of
      each of the first `dim` values; fewer than `dim` values is an error, and
      so is a negative `dim` (the array allocation throws). */
  function Quantize(values: seq<real>, dim: int): (r: Result<seq<int>>)
    ensures r.Success? <==> 0 <= dim <= |values|
    ensures r.Success? ==> |r.value| == dim && IsBipolar(r.value)
  {
    if dim < 0 then Failure("negative array size")
    else if |values| < dim then Failure("Opcode vector length < expectedDim")
    else Success(seq(dim, i requires 0 <= i < dim => if values[i] >= 0.0 then 1 else -1))
  }

  /** Entry i of a quantised vector is the sign of the i-th source value. */
  lemma QuantizeAt(values: seq<real>, dim: int, i: int)
    requires 0 <= i < dim <= |values|
    ensures Quantize(values, dim).value[i] == (if values[i] >= 0.0 then 1 else -1)
  {
  }

  /** Values past index dim - 1 are read but do not affect the vector. */
  lemma QuantizeIgnoresTail(values: seq<real>, extra: seq<real>, dim: int)
    requires 0 <= dim <= |values|
    ensures Quantize(values + extra, dim) == Quantize(values, dim)
  {
    var a, b := Quantize(values + extra, dim).value, Quantize(values, dim).value;
    assert forall i :: 0 <= i < dim ==> a[i] == b[i];
    assert a == b;
  }

  method ReadVectorAdaptDim(values: seq<real>, expectedDim: int) returns (r: Result<seq<int>>)
    ensures r == Quantize(values, expectedDim)
  {
    if expectedDim < 0 {
      return Failure("negative array size");
    }
    var out := new int[expectedDim];
    var i := 0;
    var total := 0;
    while total < |values|
      invariant 0 <= total <= |values|
      invariant i == if total < expectedDim then total else expectedDim
      invariant forall k :: 0 <= k < i ==> out[k] == (if values[k] >= 0.0 then 1 else -1)
    {
      var v := values[total];
      if i < expectedDim {
        out[i] := if v >= 0.0 then 1 else -1;
        i := i + 1;
      }
      total := total + 1;
    }
    if total < expectedDim {
      return Failure("Opcode vector length < expectedDim");
    }
    assert out[..] == Quantize(values, expectedDim).value;
    r := Success(out[..]);
  }

  // ---------------------------------------------------------- whole document

  /** The opcode entries of the document, in order, across every "opcodes" field. */
  function OpcodeEntries(fields: seq<TopField>): seq<OpEntry> {
    if |fields| == 0 then []
    else (if fields[0].OpcodesField? then fields[0].entries else []) + OpcodeEntries(fields[1..])
  }

  /** Reading the entries into `m`: a needed key stores its quantised vector
      (a later one overwrites an earlier one), other keys are skipped, and the
      first failing vector aborts the load. */
  function Ingest(es: seq<OpEntry>, needed: set<string>, dim: int, m: map<string, seq<int>>): Result<map<string, seq<int>>> {
    if |es| == 0 then Success(m)
    else if es[0].key !in needed then Ingest(es[1..], needed, dim, m)
    else match Quantize(es[0].values, dim) {
      case Failure(e) => Failure(e)
      case Success(hv) => Ingest(es[1..], needed, dim, m[es[0].key := hv])
    }
  }

  /** What `loadSelectiveOpcodes` returns. */
  function LoadSpec(fields: seq<TopField>, needed: set<string>, dim: int): Result<HvLookupFloat> {
    match Ingest(OpcodeEntries(fields), needed, dim, map[]) {
      case Failure(e) => Failure(e)
      case Success(m) => Success(HvLookupFloat(m, map[], dim))
    }
  }

  method LoadSelectiveOpcodes(fields: seq<TopField>, neededOpcodes: set<string>, expectedDim: int)
    returns (r: Result<HvLookupFloat>)
    ensures r == LoadSpec(fields, neededOpcodes, expectedDim)
    ensures r.Success? ==> r.value.methods == map[] && r.value.dimension == expectedDim
  {
    var opMap: map<string, seq<int>> := map[];
    var f := 0;
    while f < |fields|
      invariant 0 <= f <= |fields|
      invariant Ingest(OpcodeEntries(fields), neededOpcodes, expectedDim, map[])
             == Ingest(OpcodeEntries(fields[f..]), neededOpcodes, expectedDim, opMap)
    {
      assert fields[f..][1..] == fields[f + 1..];
      var field := fields[f];
      assert OpcodeEntries(fields[f..])
          == (if field.OpcodesField? then field.entries else []) + OpcodeEntries(fields[f + 1..]);
      if field.OpcodesField? {
        var es := field.entries;
        assert es[0..] == es;
        var j := 0;
        while j < |es|
          invariant 0 <= j <= |es|
          invariant Ingest(OpcodeEntries(fields), neededOpcodes, expectedDim, map[])
                 == Ingest(es[j..] + OpcodeEntries(fields[f + 1..]), neededOpcodes, expectedDim, opMap)
        {
          assert (es[j..] + OpcodeEntries(fields[f + 1..]))[1..] == es[j + 1..] + OpcodeEntries(fields[f + 1..]);
          var key := es[j].key;
          if key in neededOpcodes {
            var hv := ReadVectorAdaptDim(es[j].values, expectedDim);
            if hv.Failure? {
              return Failure(hv.error);
            }
            opMap := opMap[key := hv.value];
          }
          j := j + 1;
        }
        assert es[|es|..] + OpcodeEntries(fields[f + 1..]) == OpcodeEntries(fields[f + 1..]);
      } else {
        assert OpcodeEntries(fields[f..]) == OpcodeEntries(fields[f + 1..]);
      }
      f := f + 1;
    }
    r := Success(HvLookupFloat(opMap, map[], expectedDim));
  }

  // --------------------------------------------------------------- properties

  lemma {:induction false} IngestConcat(a: seq<OpEntry>, b: seq<OpEntry>, needed: set<string>, dim: int, m: map<string, seq<int>>)
    ensures Ingest(a + b, needed, dim, m) ==
      match Ingest(a, needed, dim, m) {
        case Failure(e) => Failure(e)
        case Success(m') => Ingest(b, needed, dim, m')
      }
  {
    if |a| == 0 {
      assert a + b == b;
    } else {
      assert (a + b)[0] == a[0] && (a + b)[1..] == a[1..] + b;
      if a[0].key in needed && Quantize(a[0].values, dim).Success? {
        IngestConcat(a[1..], b, needed, dim, m[a[0].key := Quantize(a[0].values, dim).value]);
      } else if a[0].key !in needed {
        IngestConcat(a[1..], b, needed, dim, m);
      }
    }
  }

  /** A needed entry whose vector cannot be quantised. */
  predicate Rejected(e: OpEntry, needed: set<string>, dim: int) {
    e.key in needed && !(0 <= dim <= |e.values|)
  }

  /** The load fails exactly when some needed entry's vector fails to quantise. */
  lemma {:induction false} IngestFailsIff(es: seq<OpEntry>, needed: set<string>, dim: int, m: map<string, seq<int>>)
    ensures Ingest(es, needed, dim, m).Failure? <==>
      exists i :: 0 <= i < |es| && Rejected(es[i], needed, dim)
  {
    if |es| > 0 {
      if es[0].key in needed && Quantize(es[0].values, dim).Success? {
        IngestFailsIff(es[1..], needed, dim, m[es[0].key := Quantize(es[0].values, dim).value]);
      } else {
        IngestFailsIff(es[1..], needed, dim, m);
      }
      if exists i :: 0 <= i < |es[1..]| && Rejected(es[1..][i], needed, dim) {
        var i :| 0 <= i < |es[1..]| && Rejected(es[1..][i], needed, dim);
        assert es[i + 1] == es[1..][i];
      }
      if exists i :: 0 <= i < |es| && Rejected(es[i], needed, dim) {
        var i :| 0 <= i < |es| && Rejected(es[i], needed, dim);
        if i > 0 {
          assert es[1..][i - 1] == es[i];
        }
      }
    }
  }

  /** The keys kept are the starting keys plus exactly the needed keys that occur. */
  lemma {:induction false} IngestKeys(es: seq<OpEntry>, needed: set<string>, dim: int, m: map<string, seq<int>>, k: string)
    requires Ingest(es, needed, dim, m).Success?
    ensures k in Ingest(es, needed, dim, m).value <==>
      k in m || (k in needed && exists i :: 0 <= i < |es| && es[i].key == k)
  {
    if |es| > 0 {
      if es[0].key in needed {
        IngestKeys(es[1..], needed, dim, m[es[0].key := Quantize(es[0].values, dim).value], k);
      } else {
        IngestKeys(es[1..], needed, dim, m, k);
      }
      if exists i :: 0 <= i < |es[1..]| && es[1..][i].key == k {
        var i :| 0 <= i < |es[1..]| && es[1..][i].key == k;
        assert es[i + 1].key == k;
      }
      if exists i :: 0 <= i < |es| && es[i].key == k {
        var i :| 0 <= i < |es| && es[i].key == k;
        if i > 0 {
          assert es[1..][i - 1].key == k;
        }
      }
    }
  }

  /** Every stored vector has length dim and is bipolar, given that the starting map's are. */
  lemma {:induction false} IngestQuantized(es: seq<OpEntry>, needed: set<string>, dim: int, m: map<string, seq<int>>)
    requires forall k :: k in m ==> |m[k]| == dim && IsBipolar(m[k])
    requires Ingest(es, needed, dim, m).Success?
    ensures var res := Ingest(es, needed, dim, m).value;
      forall k :: k in res ==> |res[k]| == dim && IsBipolar(res[k])
  {
    if |es| > 0 {
      if es[0].key in needed {
        IngestQuantized(es[1..], needed, dim, m[es[0].key := Quantize(es[0].values, dim).value]);
      } else {
        IngestQuantized(es[1..], needed, dim, m);
      }
    }
  }

  /** Entries whose key is not k leave m[k] alone. */
  lemma {:induction false} IngestKeepsOthers(es: seq<OpEntry>, needed: set<string>, dim: int, m: map<string, seq<int>>, k: string)
    requires k in m
    requires forall i :: 0 <= i < |es| ==> es[i].key != k
    requires Ingest(es, needed, dim, m).Success?
    ensures k in Ingest(es, needed, dim, m).value && Ingest(es, needed, dim, m).value[k] == m[k]
  {
    if |es| > 0 {
      if es[0].key in needed {
        IngestKeepsOthers(es[1..], needed, dim, m[es[0].key := Quantize(es[0].values, dim).value], k);
      } else {
        IngestKeepsOthers(es[1..], needed, dim, m, k);
      }
    }
  }

  /** A needed key maps to the vector of its last occurrence. */
  lemma IngestLastWins(pre: seq<OpEntry>, vs: seq<real>, post: seq<OpEntry>, needed: set<string>, dim: int,
                       m: map<string, seq<int>>, k: string)
    requires k in needed
    requires forall i :: 0 <= i < |post| ==> post[i].key != k
    requires Ingest(pre + [OpEntry(k, vs)] + post, needed, dim, m).Success?
    ensures Quantize(vs, dim).Success?
    ensures k in Ingest(pre + [OpEntry(k, vs)] + post, needed, dim, m).value
    ensures Ingest(pre + [OpEntry(k, vs)] + post, needed, dim, m).value[k] == Quantize(vs, dim).value
  {
    var es := pre + [OpEntry(k, vs)] + post;
    assert es == pre + ([OpEntry(k, vs)] + post);
    IngestConcat(pre, [OpEntry(k, vs)] + post, needed, dim, m);
    var m1 := Ingest(pre, needed, dim, m).value;
    assert ([OpEntry(k, vs)] + post)[0] == OpEntry(k, vs) && ([OpEntry(k, vs)] + post)[1..] == post;
    IngestKeepsOthers(post, needed, dim, m1[k := Quantize(vs, dim).value], k);
  }

  /** Section properties of the loaded dictionary: its keys are exactly the
      needed opcodes present in the document, every vector is bipolar of
      length expectedDim, the method map is empty and the dimension is recorded. */
  lemma LoadShape(fields: seq<TopField>, needed: set<string>, dim: int)
    requires LoadSpec(fields, needed, dim).Success?
    ensures var d := LoadSpec(fields, needed, dim).value;
      && d.opcodes.Keys <= needed
      && (forall k :: k in d.opcodes ==> |d.opcodes[k]| == dim && IsBipolar(d.opcodes[k]))
      && (forall k :: k in needed && (exists i :: 0 <= i < |OpcodeEntries(fields)| && OpcodeEntries(fields)[i].key == k) ==> k in d.opcodes)
      && d.methods == map[] && d.dimension == dim
  {
    var es := OpcodeEntries(fields);
    var d := LoadSpec(fields, needed, dim).value;
    IngestQuantized(es, needed, dim, map[]);
    forall k | k in d.opcodes ensures k in needed {
      IngestKeys(es, needed, dim, map[], k);
    }
    forall k | k in needed && (exists i :: 0 <= i < |es| && es[i].key == k) ensures k in d.opcodes {
      IngestKeys(es, needed, dim, map[], k);
    }
  }

  /** The load fails exactly when a needed opcode's vector in the document is
      shorter than expectedDim (or expectedDim is negative). */
  lemma LoadFailsIff(fields: seq<TopField>, needed: set<string>, dim: int)
    ensures LoadSpec(fields, needed, dim).Failure? <==>
      exists i :: 0 <= i < |OpcodeEntries(fields)| && Rejected(OpcodeEntries(fields)[i], needed, dim)
  {
    var es := OpcodeEntries(fields);
    IngestFailsIff(es, needed, dim, map[]);
    assert LoadSpec(fields, needed, dim).Failure? <==> Ingest(es, needed, dim, map[]).Failure?;
  }
}
