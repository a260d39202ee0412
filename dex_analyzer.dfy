/** The opcode dump (APKDexAnalyzer.kt): selecting the `classes*.dex`
    entries of the archive, then emitting one `"method opcode"` line per
    instruction, entries in name order, up to a global line cap. The archive
    and the dex files are modelled by their listing: entries with a name, a
    directory flag, a size and what their bytes load to. */
module DexAnalyzer {

  import opened Wrappers
  import opened Text
  import opened Sorting
  import opened Flatten

  datatype DexMethod = DexMethod(name: string, implementation: Option<seq<string>>)

  datatype DexClass = DexClass(methods: seq<DexMethod>)

  /** An entry's bytes, given by what loading them as a dex file yields:
      its classes, or None when the loader throws. */
  datatype Bytes = Bytes(dex: Option<seq<DexClass>>)

  datatype ZipEntry = ZipEntry(name: string, isDirectory: bool, size: int, bytes: Bytes)

  datatype DexEntry = DexEntry(name: string, size: int, bytes: Option<Bytes>)

  /** The default `maxEntryBytes`, 32 MiB. */
  const MaxEntryBytes: int := 32 * 1024 * 1024

  // ------------------------------------------------------------ selection

  predicate IsDexEntry(e: ZipEntry) {
    !e.isDirectory && StartsWith(e.name, "classes") && EndsWith(e.name, ".dex")
  }

  /** A selected entry; its bytes are read only when asked to and when its
      size lies in 1 .. maxEntryBytes. */
  function DexEntryOf(e: ZipEntry, readBytes: bool, maxEntryBytes: int): DexEntry {
    DexEntry(e.name, e.size, if readBytes && 1 <= e.size <= maxEntryBytes then Some(e.bytes) else None)
  }

  function ListSpec(entries: seq<ZipEntry>, readBytes: bool, maxEntryBytes: int): seq<DexEntry> {
    if |entries| == 0 then []
    else
      var e := entries[|entries| - 1];
      ListSpec(entries[..|entries| - 1], readBytes, maxEntryBytes)
        + (if IsDexEntry(e) then [DexEntryOf(e, readBytes, maxEntryBytes)] else [])
  }

  /** `listDexEntriesFromUri`: the `while (entries.hasMoreElements())` scan. */
  method ListDexEntries(entries: seq<ZipEntry>, readBytes: bool, maxEntryBytes: int) returns (out: seq<DexEntry>)
    ensures out == ListSpec(entries, readBytes, maxEntryBytes)
  {
    out := [];
    var i := 0;
    while i < |entries|
      invariant 0 <= i <= |entries|
      invariant out == ListSpec(entries[..i], readBytes, maxEntryBytes)
    {
      assert entries[..i + 1][..i] == entries[..i];
      var e := entries[i];
      i := i + 1;
      if e.isDirectory {
        continue;
      }
      if StartsWith(e.name, "classes") && EndsWith(e.name, ".dex") {
        if !readBytes {
          out := out + [DexEntry(e.name, e.size, None)];
        } else if 1 <= e.size <= maxEntryBytes {
          out := out + [DexEntry(e.name, e.size, Some(e.bytes))];
        } else {
          out := out + [DexEntry(e.name, e.size, None)];
        }
      }
    }
    assert entries[..|entries|] == entries;
  }

  /** The listing keeps exactly the dex entries, in archive order, and an
      entry carries bytes exactly when they were asked for and its size is in
      1 .. maxEntryBytes. */
  lemma {:induction false} ListSpecMeaning(entries: seq<ZipEntry>, readBytes: bool, maxEntryBytes: int)
    ensures |ListSpec(entries, readBytes, maxEntryBytes)| <= |entries|
    ensures forall d :: d in ListSpec(entries, readBytes, maxEntryBytes) ==>
      exists e :: e in entries && IsDexEntry(e) && d == DexEntryOf(e, readBytes, maxEntryBytes)
    ensures forall e :: e in entries && IsDexEntry(e) ==>
      DexEntryOf(e, readBytes, maxEntryBytes) in ListSpec(entries, readBytes, maxEntryBytes)
    ensures forall d :: d in ListSpec(entries, readBytes, maxEntryBytes) ==>
      (d.bytes.Some? <==> readBytes && 1 <= d.size <= maxEntryBytes)
  {
    if |entries| > 0 {
      var pre := entries[..|entries| - 1];
      ListSpecMeaning(pre, readBytes, maxEntryBytes);
      assert entries == pre + [entries[|entries| - 1]];
    }
  }

  /** The listing keeps archive order: listing two runs of entries one after
      the other lists the first run's dex entries before the second's. */
  lemma {:induction false} ListSpecAppend(a: seq<ZipEntry>, b: seq<ZipEntry>, readBytes: bool, maxEntryBytes: int)
    ensures ListSpec(a + b, readBytes, maxEntryBytes) ==
      ListSpec(a, readBytes, maxEntryBytes) + ListSpec(b, readBytes, maxEntryBytes)
    decreases |b|
  {
    if |b| == 0 {
      assert a + b == a;
    } else {
      var b' := b[..|b| - 1];
      ListSpecAppend(a, b', readBytes, maxEntryBytes);
      assert (a + b)[..|a + b| - 1] == a + b';
      assert (a + b)[|a + b| - 1] == b[|b| - 1];
    }
  }

  /** The listing is empty exactly when the archive has no dex entry. */
  lemma {:induction false} ListSpecEmptyIff(entries: seq<ZipEntry>, readBytes: bool, maxEntryBytes: int)
    ensures |ListSpec(entries, readBytes, maxEntryBytes)| == 0 <==>
      forall i :: 0 <= i < |entries| ==> !IsDexEntry(entries[i])
  {
    if |entries| > 0 {
      var pre := entries[..|entries| - 1];
      ListSpecEmptyIff(pre, readBytes, maxEntryBytes);
      assert forall i :: 0 <= i < |pre| ==> pre[i] == entries[i];
    }
  }

  // ------------------------------------------------------------- emission

  /** The lines of one method: `"<method name> <opcode>"` per instruction;
      none for a method without an implementation. */
  function MethodLines(m: DexMethod): (r: seq<string>)
    ensures m.implementation.Some? ==> |r| == |m.implementation.value|
    ensures m.implementation.Some? ==> forall i :: 0 <= i < |r| ==>
      r[i] == m.name + " " + m.implementation.value[i]
    ensures m.implementation.None? ==> r == []
  {
    if m.implementation.None? then []
    else
      var insns := m.implementation.value;
      seq(|insns|, i requires 0 <= i < |insns| => m.name + " " + insns[i])
  }

  function ClassLines(c: DexClass): seq<string> {
    ConcatMap(MethodLines, c.methods)
  }

  /** A selected entry whose bytes were read but do not load. */
  predicate Corrupt(d: DexEntry) {
    d.bytes.Some? && d.bytes.value.dex.None?
  }

  function EntryLines(d: DexEntry): seq<string> {
    if d.bytes.Some? && d.bytes.value.dex.Some? then ConcatMap(ClassLines, d.bytes.value.dex.value) else []
  }

  /** Every line of every loadable entry, in order: entry, class, method, instruction. */
  function AllLines(es: seq<DexEntry>): seq<string> {
    ConcatMap(EntryLines, es)
  }

  /** The number of lines emitted before the loop stops: `++count >= maxLines`
      is tested after a line is added, so at least one line is emitted when
      maxLines is 0 (a negative maxLines fails earlier, at the list's capacity). */
  function Budget(maxLines: int): int {
    if maxLines < 1 then 1 else maxLines
  }

  /** A corrupt entry is loaded (and the dump fails) when fewer lines than the
      budget precede it. */
  predicate CorruptReached(es: seq<DexEntry>, budget: int) {
    exists k :: 0 <= k < |es| && Corrupt(es[k]) && |AllLines(es[..k])| < budget
  }

  function Min(a: int, b: int): int {
    if a <= b then a else b
  }

  function ByName(d: DexEntry): seq<int> {
    Utf16(d.name)
  }

  /** What `dumpFirstOpcodesToFile` writes: None when the archive has no dex
      entry, when maxLines is negative (the line list's initial capacity
      min(maxLines, 10000) is then negative, which throws and is caught), or
      when a corrupt entry is reached; otherwise the first Budget(maxLines)
      lines of the entries taken in name order. */
  function DumpSpec(zip: seq<ZipEntry>, maxLines: int): Option<seq<string>> {
    var es := ListSpec(zip, true, MaxEntryBytes);
    if |es| == 0 then None
    else if Min(maxLines, 10000) < 0 then None
    else
      var sorted := SortBy(es, ByName);
      if CorruptReached(sorted, Budget(maxLines)) then None
      else Some(AllLines(sorted)[..Min(Budget(maxLines), |AllLines(sorted)|)])
  }

  /** What one emission step leaves: either every line of `spec` appended
      with the count still under the budget, or the budget reached, the
      lines then a prefix of `before + spec`. */
  predicate Emitted(before: seq<string>, spec: seq<string>, out: seq<string>, full: bool, maxLines: int) {
    (full ==> |out| == Budget(maxLines) && IsPrefix(out, before + spec)) &&
    (!full ==> out == before + spec && |out| < Budget(maxLines))
  }

  /** The `for (insn in impl.instructions)` loop, with the `++count >= maxLines`
      test after each added line. */
  method EmitInstructions(m: DexMethod, lines: seq<string>, count: int, maxLines: int)
    returns (out: seq<string>, count': int, full: bool)
    requires m.implementation.Some?
    requires count == |lines| < Budget(maxLines)
    ensures count' == |out| && Emitted(lines, MethodLines(m), out, full, maxLines)
  {
    var insns := m.implementation.value;
    out, count' := lines, count;
    for k := 0 to |insns|
      invariant out == lines + MethodLines(m)[..k] && count' == |out| < Budget(maxLines)
    {
      var line := m.name + " " + insns[k];
      MethodLinesNext(m, k);
      out := out + [line];
      count' := count' + 1;
      if count' >= maxLines {
        PrefixExtend(lines, MethodLines(m)[..k + 1], MethodLines(m));
        return out, count', true;
      }
    }
    assert MethodLines(m)[..|insns|] == MethodLines(m);
    full := false;
  }

  /** The `for (m in cls.methods)` loop; a method without an implementation
      is skipped. */
  method EmitMethods(methods: seq<DexMethod>, lines: seq<string>, count: int, maxLines: int)
    returns (out: seq<string>, count': int, full: bool)
    requires count == |lines| < Budget(maxLines)
    ensures count' == |out| && Emitted(lines, ConcatMap(MethodLines, methods), out, full, maxLines)
  {
    out, count' := lines, count;
    for m := 0 to |methods|
      invariant out == lines + ConcatMap(MethodLines, methods[..m]) && count' == |out| < Budget(maxLines)
    {
      ConcatMapNext(MethodLines, methods, m);
      if methods[m].implementation.None? {
        continue;
      }
      out, count', full := EmitInstructions(methods[m], out, count', maxLines);
      if full {
        LiftPrefix(MethodLines, methods, m, lines, out);
        return;
      }
    }
    TakeAll(methods);
    full := false;
  }

  /** The `for (cls in dexFile.classes)` loop. */
  method EmitClasses(classes: seq<DexClass>, lines: seq<string>, count: int, maxLines: int)
    returns (out: seq<string>, count': int, full: bool)
    requires count == |lines| < Budget(maxLines)
    ensures count' == |out| && Emitted(lines, ConcatMap(ClassLines, classes), out, full, maxLines)
  {
    out, count' := lines, count;
    for c := 0 to |classes|
      invariant out == lines + ConcatMap(ClassLines, classes[..c]) && count' == |out| < Budget(maxLines)
    {
      ConcatMapNext(ClassLines, classes, c);
      out, count', full := EmitMethods(classes[c].methods, out, count', maxLines);
      if full {
        LiftPrefix(ClassLines, classes, c, lines, out);
        return;
      }
    }
    TakeAll(classes);
    full := false;
  }

  /** `dumpFirstOpcodesToFile`: the `outer@` loop over the entries sorted by
      name; `break@outer` is the `full` answer of the inner loops. */
  method DumpFirstOpcodes(zip: seq<ZipEntry>, maxLines: int) returns (r: Option<seq<string>>)
    ensures r == DumpSpec(zip, maxLines)
  {
    var dexEntries := ListDexEntries(zip, true, MaxEntryBytes);
    if |dexEntries| == 0 {
      return None;
    }
    if Min(maxLines, 10000) < 0 {
      // `ArrayList(capacity)` refuses a negative capacity; the catch returns null.
      return None;
    }
    var sorted := SortBy(dexEntries, ByName);
    var lines: seq<string> := [];
    var count := 0;
    var full := false;
    for e := 0 to |sorted|
      invariant lines == AllLines(sorted[..e]) && count == |lines| < Budget(maxLines)
      invariant forall k :: 0 <= k < e ==> !Corrupt(sorted[k])
    {
      ConcatMapNext(EntryLines, sorted, e);
      var bytes := sorted[e].bytes;
      if bytes.None? {
        continue;
      }
      var dexFile := bytes.value.dex;
      if dexFile.None? {
        CorruptDump(zip, maxLines, sorted, e);
        return None;
      }
      lines, count, full := EmitClasses(dexFile.value, lines, count, maxLines);
      if full {
        CappedDump(sorted, e, lines);
        break;
      }
    }
    if !full {
      TakeAll(sorted);
    }
    FinishedDump(zip, maxLines, sorted, lines);
    r := Some(lines);
  }

  // --------------------------------------------------------------- proofs

  lemma MethodLinesNext(m: DexMethod, k: int)
    requires m.implementation.Some? && 0 <= k < |m.implementation.value|
    ensures MethodLines(m)[..k + 1] == MethodLines(m)[..k] + [m.name + " " + m.implementation.value[k]]
  {
  }

  /** Loading entry e of the sorted list fails: the dump is None. */
  lemma CorruptDump(zip: seq<ZipEntry>, maxLines: int, sorted: seq<DexEntry>, e: int)
    requires |ListSpec(zip, true, MaxEntryBytes)| > 0 && maxLines >= 0
    requires sorted == SortBy(ListSpec(zip, true, MaxEntryBytes), ByName)
    requires 0 <= e < |sorted| && Corrupt(sorted[e]) && |AllLines(sorted[..e])| < Budget(maxLines)
    ensures DumpSpec(zip, maxLines) == None
  {
  }

  /** The loop ended, by reaching the cap or after the last entry: the lines
      are the dump. */
  lemma FinishedDump(zip: seq<ZipEntry>, maxLines: int, sorted: seq<DexEntry>, lines: seq<string>)
    requires |ListSpec(zip, true, MaxEntryBytes)| > 0 && maxLines >= 0
    requires sorted == SortBy(ListSpec(zip, true, MaxEntryBytes), ByName)
    requires
      (IsPrefix(lines, AllLines(sorted)) && |lines| == Budget(maxLines) && !CorruptReached(sorted, |lines|)) ||
      (lines == AllLines(sorted) && |lines| < Budget(maxLines) && forall k :: 0 <= k < |sorted| ==> !Corrupt(sorted[k]))
    ensures DumpSpec(zip, maxLines) == Some(lines)
  {
    if |lines| < Budget(maxLines) {
      assert AllLines(sorted)[..|AllLines(sorted)|] == AllLines(sorted);
    }
  }

  /** The cap reached inside entry e: the lines are the first ones of the
      whole dump, and no later entry is loaded. */
  lemma CappedDump(sorted: seq<DexEntry>, e: int, lines: seq<string>)
    requires 0 <= e < |sorted| && !Corrupt(sorted[e])
    requires IsPrefix(lines, AllLines(sorted[..e]) + EntryLines(sorted[e]))
    requires forall j :: 0 <= j < e ==> !Corrupt(sorted[j])
    ensures IsPrefix(lines, AllLines(sorted))
    ensures !CorruptReached(sorted, |lines|)
  {
    ConcatMapNext(EntryLines, sorted, e);
    ConcatMapPrefix(EntryLines, sorted, e + 1);
    PrefixTransitive(lines, AllLines(sorted[..e + 1]), AllLines(sorted));
    forall j | e < j < |sorted|
      ensures |AllLines(sorted[..j])| >= |lines|
    {
      assert sorted[..j][..e + 1] == sorted[..e + 1];
      ConcatMapPrefix(EntryLines, sorted[..j], e + 1);
    }
  }

  // ------------------------------------------------------- dump properties

  function Sorted(zip: seq<ZipEntry>): seq<DexEntry> {
    SortBy(ListSpec(zip, true, MaxEntryBytes), ByName)
  }

  /** A dump exists only for maxLines >= 0; it holds at most Budget(maxLines)
      lines, the first lines of the entries in name order; fewer only when
      every line is emitted; at least one whenever an instruction exists,
      even when maxLines is 0. */
  lemma DumpShape(zip: seq<ZipEntry>, maxLines: int)
    ensures var r := DumpSpec(zip, maxLines);
      r.Some? ==>
        maxLines >= 0 &&
        |r.value| <= Budget(maxLines) &&
        IsPrefix(r.value, AllLines(Sorted(zip))) &&
        (|r.value| < Budget(maxLines) ==> r.value == AllLines(Sorted(zip))) &&
        (|AllLines(Sorted(zip))| > 0 ==> |r.value| >= 1)
  {
  }

  /** The dump fails exactly when the archive has no dex entry, maxLines is
      negative, or an entry whose bytes do not load is reached before the cap. */
  lemma DumpNoneIff(zip: seq<ZipEntry>, maxLines: int)
    ensures DumpSpec(zip, maxLines).None? <==>
      (forall i :: 0 <= i < |zip| ==> !IsDexEntry(zip[i])) ||
      maxLines < 0 ||
      CorruptReached(Sorted(zip), Budget(maxLines))
  {
    ListSpecEmptyIff(zip, true, MaxEntryBytes);
  }

  /** An instruction with opcode `op` of method `m` of a class of a dex entry
      of the archive that is read and loads. */
  predicate InstructionOf(zip: seq<ZipEntry>, m: DexMethod, op: string) {
    exists e, c :: e in zip && IsDexEntry(e) && 1 <= e.size <= MaxEntryBytes &&
      e.bytes.dex.Some? && c in e.bytes.dex.value && m in c.methods &&
      m.implementation.Some? && op in m.implementation.value
  }

  /** The sorted entries are listed entries of the archive. */
  lemma {:induction false} SortedOrigin(zip: seq<ZipEntry>, d: DexEntry)
    requires d in Sorted(zip)
    ensures exists e :: e in zip && IsDexEntry(e) && d == DexEntryOf(e, true, MaxEntryBytes)
  {
    var es := ListSpec(zip, true, MaxEntryBytes);
    SortByCorrect(es, ByName);
    assert d in multiset(es);
    assert d in es;
    ListSpecMeaning(zip, true, MaxEntryBytes);
  }

  predicate LineOfInstruction(m: DexMethod, op: string, line: string) {
    m.implementation.Some? && op in m.implementation.value && line == m.name + " " + op
  }

  /** A line of a loaded entry comes from one of its instructions. */
  lemma {:induction false} EntryLineOrigin(classes: seq<DexClass>, line: string)
    requires line in ConcatMap(ClassLines, classes)
    ensures exists c, m, op :: c in classes && m in c.methods && LineOfInstruction(m, op, line)
  {
    ConcatMapMember(ClassLines, classes, line);
    var ci :| 0 <= ci < |classes| && line in ClassLines(classes[ci]);
    var c := classes[ci];
    ConcatMapMember(MethodLines, c.methods, line);
    var mi :| 0 <= mi < |c.methods| && line in MethodLines(c.methods[mi]);
    var m := c.methods[mi];
    var k :| 0 <= k < |MethodLines(m)| && MethodLines(m)[k] == line;
    assert LineOfInstruction(m, m.implementation.value[k], line);
    assert c in classes && m in c.methods;
  }

  /** Every dumped line is `"<method name> <opcode>"` for an instruction of
      a method of a dex entry of the archive. */
  lemma {:induction false} DumpLineOrigin(zip: seq<ZipEntry>, maxLines: int, line: string)
    requires DumpSpec(zip, maxLines).Some? && line in DumpSpec(zip, maxLines).value
    ensures exists m, op :: InstructionOf(zip, m, op) && line == m.name + " " + op
  {
    var sorted := Sorted(zip);
    assert line in AllLines(sorted);
    ConcatMapMember(EntryLines, sorted, line);
    var j :| 0 <= j < |sorted| && line in EntryLines(sorted[j]);
    SortedOrigin(zip, sorted[j]);
    var e :| e in zip && IsDexEntry(e) && sorted[j] == DexEntryOf(e, true, MaxEntryBytes);
    EntryLineOrigin(e.bytes.dex.value, line);
    var c, m, op :| c in e.bytes.dex.value && m in c.methods && LineOfInstruction(m, op, line);
    assert InstructionOf(zip, m, op);
  }
}
