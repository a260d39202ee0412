/** The feature-name index both classical models build at load time
    (RfJsonForest.kt and SvmRbf.kt): every name of the "feature_names" list
    is mapped to its position, a later duplicate overwriting an earlier one. */
module FeatureNames {

  /** The index after storing positions 0 .. |names| - 1 in order. */
  function NameIndex(names: seq<string>): map<string, int> {
    if |names| == 0 then map[]
    else NameIndex(names[..|names| - 1])[names[|names| - 1] := |names| - 1]
  }

  /** The index holds exactly the listed names, each at the LAST position
      where it occurs. */
  lemma {:induction false} NameIndexShape(names: seq<string>)
    ensures forall k :: k in NameIndex(names) <==> k in names
    ensures forall k :: k in NameIndex(names) ==>
      0 <= NameIndex(names)[k] < |names| && names[NameIndex(names)[k]] == k
    ensures forall k, j :: k in NameIndex(names) && 0 <= j < |names| && names[j] == k ==>
      j <= NameIndex(names)[k]
  {
    if |names| > 0 {
      var pre := names[..|names| - 1];
      NameIndexShape(pre);
      assert names == pre + [names[|names| - 1]];
      forall k | k in names
        ensures k in NameIndex(names)
      {
        var j :| 0 <= j < |names| && names[j] == k;
        if j < |names| - 1 {
          assert pre[j] == k;
        }
      }
    }
  }

  /** A name's index, or -1 when it is not listed (`fnameToIdx[fname] ?: -1`). */
  function IndexOrMinusOne(index: map<string, int>, name: string): int {
    if name in index then index[name] else -1
  }

  /** The lookup answers -1 exactly for an unlisted name, and otherwise a
      position that holds the name, the last such position. */
  lemma IndexOrMinusOneMeaning(names: seq<string>, name: string)
    ensures var r := IndexOrMinusOne(NameIndex(names), name);
      (r == -1 <==> name !in names) &&
      (r != -1 ==>
        0 <= r < |names| && names[r] == name &&
        forall j :: 0 <= j < |names| && names[j] == name ==> j <= r)
  {
    NameIndexShape(names);
  }

  /** The `for (i in 0 until names.length()) index[names.getString(i)] = i` loop. */
  method BuildIndex(names: seq<string>) returns (index: map<string, int>)
    ensures index == NameIndex(names)
  {
    index := map[];
    for i := 0 to |names|
      invariant index == NameIndex(names[..i])
    {
      assert names[..i + 1][..i] == names[..i];
      index := index[names[i] := i];
    }
    assert names[..|names|] == names;
  }

  /** How many tokens are known features with index i. */
  function Occurrences(tokens: seq<string>, index: map<string, int>, i: int): nat {
    if |tokens| == 0 then 0
    else
      var t := tokens[|tokens| - 1];
      Occurrences(tokens[..|tokens| - 1], index, i) + (if t in index && index[t] == i then 1 else 0)
  }
}
