/** The token extraction of the classical models (ClassicFeatureExtractor.kt):
    each dumped line `"<method> <opcode>"` becomes the token `"api_<opcode>"`,
    and the distinct method names and the kept lines are counted. */
module ClassicFeatures {

  import opened Wrappers
  import opened Text

  datatype Features = Features(tokens: seq<string>, methodCount: int, opcodeCount: int)

  /** A trimmed line split at its first space; None for a blank line or a
      line with a single part. */
  function ParseLine(line: string): Option<(string, string)> {
    var t := Trim(line);
    if |t| == 0 then None else SplitFirstSpace(t)
  }

  function TokensOf(lines: seq<string>): seq<string> {
    if |lines| == 0 then []
    else
      var p := ParseLine(lines[|lines| - 1]);
      TokensOf(lines[..|lines| - 1]) + (if p.Some? then ["api_" + p.value.1] else [])
  }

  function MethodsOf(lines: seq<string>): set<string> {
    if |lines| == 0 then {}
    else
      var p := ParseLine(lines[|lines| - 1]);
      MethodsOf(lines[..|lines| - 1]) + (if p.Some? then {p.value.0} else {})
  }

  /** The number of lines that parse. */
  function KeptCount(lines: seq<string>): nat {
    if |lines| == 0 then 0
    else KeptCount(lines[..|lines| - 1]) + (if ParseLine(lines[|lines| - 1]).Some? then 1 else 0)
  }

  /** `extractOpcodeTokens`: empty features when no dump was written. */
  function FeaturesSpec(dump: Option<seq<string>>): Features {
    if dump.None? then Features([], 0, 0)
    else Features(TokensOf(dump.value), |MethodsOf(dump.value)|, KeptCount(dump.value))
  }

  /** The `lines.forEach` loop of `extractOpcodeTokens`. */
  method ExtractOpcodeTokens(dump: Option<seq<string>>) returns (f: Features)
    ensures f == FeaturesSpec(dump)
  {
    if dump.None? {
      return Features([], 0, 0);
    }
    var lines := dump.value;
    var tokens: seq<string> := [];
    var uniqueMethods: set<string> := {};
    var opcodeCount := 0;
    for i := 0 to |lines|
      invariant tokens == TokensOf(lines[..i])
      invariant uniqueMethods == MethodsOf(lines[..i])
      invariant opcodeCount == KeptCount(lines[..i])
    {
      assert lines[..i + 1][..i] == lines[..i];
      var t := Trim(lines[i]);
      if |t| == 0 {
        continue;
      }
      var parts := SplitFirstSpace(t);
      if parts.None? {
        continue;
      }
      var (methodName, opcode) := parts.value;
      uniqueMethods := uniqueMethods + {methodName};
      tokens := tokens + ["api_" + opcode];
      opcodeCount := opcodeCount + 1;
    }
    assert lines[..|lines|] == lines;
    f := Features(tokens, |uniqueMethods|, opcodeCount);
  }

  // ---------------------------------------------------------------- lemmas

  /** Extraction distributes over concatenation of dumps: line order is kept
      and each line contributes on its own. */
  lemma {:induction false} ExtractConcat(a: seq<string>, b: seq<string>)
    ensures TokensOf(a + b) == TokensOf(a) + TokensOf(b)
    ensures MethodsOf(a + b) == MethodsOf(a) + MethodsOf(b)
    ensures KeptCount(a + b) == KeptCount(a) + KeptCount(b)
  {
    if |b| == 0 {
      assert a + b == a;
    } else {
      var pre := b[..|b| - 1];
      ExtractConcat(a, pre);
      assert (a + b)[..|a + b| - 1] == a + pre;
    }
  }

  /** A single line contributes its opcode token and method when it parses,
      and nothing otherwise (in particular a blank or one-word line). */
  lemma SingleLine(line: string)
    ensures ParseLine(line).None? ==>
      TokensOf([line]) == [] && MethodsOf([line]) == {} && KeptCount([line]) == 0
    ensures ParseLine(line).Some? ==>
      TokensOf([line]) == ["api_" + ParseLine(line).value.1] &&
      MethodsOf([line]) == {ParseLine(line).value.0} && KeptCount([line]) == 1
    ensures |Trim(line)| == 0 || ' ' !in Trim(line) ==> ParseLine(line).None?
  {
    assert [line][..0] == [];
    if ParseLine(line).Some? && |Trim(line)| > 0 {
      assert IndexOf(Trim(line), ' ') >= 0;
    }
  }

  /** The opcode count is the number of tokens, and no method is counted
      without a token: 0 <= methodCount <= opcodeCount. */
  lemma {:induction false} CountsAgree(lines: seq<string>)
    ensures KeptCount(lines) == |TokensOf(lines)|
    ensures |MethodsOf(lines)| <= |TokensOf(lines)|
  {
    if |lines| > 0 {
      CountsAgree(lines[..|lines| - 1]);
    }
  }

  /** Every token is `"api_" + opcode` for a line of the dump that parses
      with that opcode; every counted method is the method of such a line,
      and the method of every such line is counted. */
  lemma TokensMeaning(lines: seq<string>)
    ensures forall tok :: tok in TokensOf(lines) ==>
      exists i :: 0 <= i < |lines| && ParseLine(lines[i]).Some? && tok == "api_" + ParseLine(lines[i]).value.1
    ensures forall m :: m in MethodsOf(lines) <==>
      exists i :: 0 <= i < |lines| && ParseLine(lines[i]).Some? && m == ParseLine(lines[i]).value.0
  {
    TokensSound(lines);
    MethodsSound(lines);
    MethodsComplete(lines);
  }

  lemma {:induction false} TokensSound(lines: seq<string>)
    ensures forall tok :: tok in TokensOf(lines) ==>
      exists i :: 0 <= i < |lines| && ParseLine(lines[i]).Some? && tok == "api_" + ParseLine(lines[i]).value.1
  {
    if |lines| > 0 {
      var pre := lines[..|lines| - 1];
      TokensSound(pre);
      assert forall i :: 0 <= i < |pre| ==> pre[i] == lines[i];
    }
  }

  lemma {:induction false} MethodsSound(lines: seq<string>)
    ensures forall m :: m in MethodsOf(lines) ==>
      exists i :: 0 <= i < |lines| && ParseLine(lines[i]).Some? && m == ParseLine(lines[i]).value.0
  {
    if |lines| > 0 {
      var pre := lines[..|lines| - 1];
      MethodsSound(pre);
      assert forall i :: 0 <= i < |pre| ==> pre[i] == lines[i];
    }
  }

  lemma {:induction false} MethodsComplete(lines: seq<string>)
    ensures forall i :: 0 <= i < |lines| && ParseLine(lines[i]).Some? ==> ParseLine(lines[i]).value.0 in MethodsOf(lines)
  {
    if |lines| > 0 {
      var pre := lines[..|lines| - 1];
      MethodsComplete(pre);
      forall i | 0 <= i < |lines| && ParseLine(lines[i]).Some?
        ensures ParseLine(lines[i]).value.0 in MethodsOf(lines)
      {
        if i < |pre| {
          assert pre[i] == lines[i];
        }
      }
    }
  }

  /** A line as the opcode dump writes it, `name + " " + opcode`, parses back
      into its two parts when the name holds no space and the line has no
      surrounding whitespace. */
  lemma ParseDumpLine(name: string, opcode: string)
    requires |name| > 0 && ' ' !in name && !IsWhitespace(name[0])
    requires |opcode| > 0 && !IsWhitespace(opcode[|opcode| - 1])
    ensures ParseLine(name + " " + opcode) == Some((name, opcode))
  {
    var s := name + " " + opcode;
    assert TrimStart(s) == s;
    assert TrimEnd(s) == s;
    var k := IndexOf(s, ' ');
    assert s[|name|] == ' ';
    assert s[..|name|] == name && s[|name| + 1..] == opcode;
  }
}
