/**
The address index over the modules of a request: modules sorted by start address, with missing
sizes back-filled and the debug file of the first module rewritten for the lookup.
*/
module ModuleLookup {
  import opened Common

  /** The parts of an object info that the index neither reads nor writes. */
  type OtherInfo(==,!new)

  datatype ObjectInfo = ObjectInfo(
    imageAddr: u64,
    imageSize: Option<u64>,
    debugFile: Option<string>,
    other: OtherInfo)

  datatype ModuleEntry = ModuleEntry(moduleIndex: nat, info: ObjectInfo)

  datatype AddrMode = Abs | Rel(moduleIndex: nat)

  /** The rewrite rules are regular expressions; here they are any partial function on names. */
  type RewriteRules = string -> Option<string>

  function Start(e: ModuleEntry): u64 { e.info.imageAddr }

  function Index(e: ModuleEntry): nat { e.moduleIndex }

  datatype SortKey = ByStart | ByIndex

  function KeyOf(key: SortKey, e: ModuleEntry): nat {
    match key
    case ByStart => Start(e)
    case ByIndex => Index(e)
  }

  /** A missing size counts as 0. */
  function Size(info: ObjectInfo): u64 {
    match info.imageSize
    case Some(size) => size
    case None => 0
  }

  // ---------------------------------------------------------------------------------------------
  // Sorting

  predicate SortedBy(s: seq<ModuleEntry>, key: SortKey) {
    forall i, j :: 0 <= i < j < |s| ==> KeyOf(key, s[i]) <= KeyOf(key, s[j])
  }

  function Insert(e: ModuleEntry, s: seq<ModuleEntry>, key: SortKey): seq<ModuleEntry> {
    if s == [] || KeyOf(key, s[|s| - 1]) <= KeyOf(key, e) then s + [e]
    else Insert(e, s[..|s| - 1], key) + [s[|s| - 1]]
  }

  /** The stable sort of the standard library, by a key. */
  function Sort(s: seq<ModuleEntry>, key: SortKey): seq<ModuleEntry> {
    if s == [] then [] else Insert(s[|s| - 1], Sort(s[..|s| - 1], key), key)
  }

  lemma {:induction false} InsertKeeps(e: ModuleEntry, s: seq<ModuleEntry>, key: SortKey)
    requires SortedBy(s, key)
    ensures SortedBy(Insert(e, s, key), key)
    ensures multiset(Insert(e, s, key)) == multiset(s) + multiset{e}
  {
    InsertElements(e, s, key);
    if s != [] && KeyOf(key, s[|s| - 1]) > KeyOf(key, e) {
      var init := s[..|s| - 1];
      InsertKeeps(e, init, key);
      var r := Insert(e, init, key);
      forall i | 0 <= i < |r| ensures KeyOf(key, r[i]) <= KeyOf(key, s[|s| - 1]) {
        assert r[i] in multiset(r);
        assert r[i] == e || r[i] in multiset(init);
      }
    }
  }

  lemma {:induction false} InsertElements(e: ModuleEntry, s: seq<ModuleEntry>, key: SortKey)
    ensures multiset(Insert(e, s, key)) == multiset(s) + multiset{e}
  {
    if s != [] && KeyOf(key, s[|s| - 1]) > KeyOf(key, e) {
      InsertElements(e, s[..|s| - 1], key);
      assert s == s[..|s| - 1] + [s[|s| - 1]];
    }
  }

  lemma {:induction false} SortSorts(s: seq<ModuleEntry>, key: SortKey)
    ensures SortedBy(Sort(s, key), key)
    ensures multiset(Sort(s, key)) == multiset(s)
    ensures |Sort(s, key)| == |s|
  {
    if s != [] {
      var init := s[..|s| - 1];
      SortSorts(init, key);
      InsertKeeps(s[|s| - 1], Sort(init, key), key);
      assert s == init + [s[|s| - 1]];
    }
    assert |multiset(Sort(s, key))| == |Sort(s, key)| && |multiset(s)| == |s|;
  }

  /** Start address first, then the position in the request. */
  predicate Before(a: ModuleEntry, b: ModuleEntry) {
    Start(a) < Start(b) || (Start(a) == Start(b) && Index(a) < Index(b))
  }

  predicate InOrder(s: seq<ModuleEntry>) {
    forall i, j :: 0 <= i < j < |s| ==> Before(s[i], s[j])
  }

  /** Stability: entries that came later in the request stay after those with the same start. */
  lemma {:induction false} InsertInOrder(e: ModuleEntry, s: seq<ModuleEntry>)
    requires InOrder(s) && forall i :: 0 <= i < |s| ==> Index(s[i]) < Index(e)
    ensures InOrder(Insert(e, s, ByStart))
  {
    if s != [] && Start(s[|s| - 1]) > Start(e) {
      var init := s[..|s| - 1];
      InsertInOrder(e, init);
      InsertKeeps(e, init, ByStart);
      var r := Insert(e, init, ByStart);
      forall i | 0 <= i < |r| ensures Before(r[i], s[|s| - 1]) {
        assert r[i] in multiset(r);
        assert r[i] == e || r[i] in multiset(init);
      }
    }
  }

  // ---------------------------------------------------------------------------------------------
  // Building the index

  function Enumerate(infos: seq<ObjectInfo>): (s: seq<ModuleEntry>)
    ensures |s| == |infos|
  {
    seq(|infos|, i requires 0 <= i < |infos| => ModuleEntry(i, infos[i]))
  }

  lemma {:induction false} SortEnumerated(infos: seq<ObjectInfo>)
    ensures var s := Sort(Enumerate(infos), ByStart);
      && InOrder(s) && SortedBy(s, ByStart) && |s| == |infos| && multiset(s) == multiset(Enumerate(infos))
  {
    SortSorts(Enumerate(infos), ByStart);
    if infos != [] {
      var n := |infos| - 1;
      assert Enumerate(infos)[..n] == Enumerate(infos[..n]);
      SortEnumerated(infos[..n]);
      var s := Sort(Enumerate(infos[..n]), ByStart);
      forall i | 0 <= i < |s| ensures Index(s[i]) < n {
        assert s[i] in multiset(s);
        assert s[i] in Enumerate(infos[..n]);
      }
      InsertInOrder(Enumerate(infos)[n], s);
    }
  }

  function FilledSize(s: seq<ModuleEntry>, i: nat): Option<u64>
    requires SortedBy(s, ByStart) && i < |s|
  {
    if i + 1 < |s| && Size(s[i].info) == 0 then
      var size: u64 := Start(s[i + 1]) - Start(s[i]);
      Some(size)
    else s[i].info.imageSize
  }

  function WithSize(e: ModuleEntry, size: Option<u64>): ModuleEntry {
    e.(info := e.info.(imageSize := size))
  }

  function WithDebugFile(e: ModuleEntry, file: Option<string>): ModuleEntry {
    e.(info := e.info.(debugFile := file))
  }

  /** Every missing size now spans up to the next start. */
  function BackFilled(s: seq<ModuleEntry>): (r: seq<ModuleEntry>)
    requires SortedBy(s, ByStart)
    ensures |r| == |s|
  {
    seq(|s|, i requires 0 <= i < |s| => WithSize(s[i], FilledSize(s, i)))
  }

  /** The rewritten name of the first module, if there is one. */
  function NewDebugFile(s: seq<ModuleEntry>, rewrite: RewriteRules): Option<string> {
    if s != [] && s[0].info.debugFile.Some? then rewrite(s[0].info.debugFile.value) else None
  }

  function RewriteFirst(s: seq<ModuleEntry>, rewrite: RewriteRules): (r: (seq<ModuleEntry>, Option<string>))
    ensures |r.0| == |s|
  {
    if NewDebugFile(s, rewrite).Some? then
      (s[0 := WithDebugFile(s[0], NewDebugFile(s, rewrite))], s[0].info.debugFile)
    else (s, None)
  }

  /** The entries of a new index, and the debug file that was replaced. */
  function New(infos: seq<ObjectInfo>, rewrite: RewriteRules): (seq<ModuleEntry>, Option<string>) {
    SortEnumerated(infos);
    RewriteFirst(BackFilled(Sort(Enumerate(infos), ByStart)), rewrite)
  }

  function RestoreFirst(s: seq<ModuleEntry>, original: Option<string>): (r: seq<ModuleEntry>)
    ensures |r| == |s|
  {
    if s != [] && original.Some? then s[0 := WithDebugFile(s[0], original)] else s
  }

  function Infos(s: seq<ModuleEntry>): seq<ObjectInfo> {
    seq(|s|, i requires 0 <= i < |s| => s[i].info)
  }

  function Inner(s: seq<ModuleEntry>, original: Option<string>): seq<ObjectInfo> {
    Infos(Sort(RestoreFirst(s, original), ByIndex))
  }

  /** The loop over all entries but the last. */
  method BackFillSizes(sorted: seq<ModuleEntry>) returns (entries: seq<ModuleEntry>)
    requires SortedBy(sorted, ByStart)
    ensures entries == BackFilled(sorted)
  {
    entries := sorted;
    if |entries| > 1 {
      for i := 0 to |entries| - 1
        invariant |entries| == |sorted|
        invariant forall j :: 0 <= j < i ==> entries[j] == BackFilled(sorted)[j]
        invariant forall j :: i <= j < |entries| ==> entries[j] == sorted[j]
      {
        var nextAddr := Start(entries[i + 1]);
        assert KeyOf(ByStart, sorted[i]) <= KeyOf(ByStart, sorted[i + 1]);
        if Size(entries[i].info) == 0 {
          var entryAddr := Start(entries[i]);
          var size: u64 := nextAddr - entryAddr;
          entries := entries[i := WithSize(entries[i], Some(size))];
        }
      }
    }
    assert entries == BackFilled(sorted);
  }

  class Lookup {
    var modules: seq<ModuleEntry>
    var originalFirstDebugFile: Option<string>

    constructor (rewriteFirstModule: RewriteRules, infos: seq<ObjectInfo>)
      ensures (modules, originalFirstDebugFile) == New(infos, rewriteFirstModule)
    {
      var sorted := Sort(Enumerate(infos), ByStart);
      SortEnumerated(infos);
      var entries := BackFillSizes(sorted);

      var original := None;
      if entries != [] && entries[0].info.debugFile.Some? {
        var newDebugFile := rewriteFirstModule(entries[0].info.debugFile.value);
        if newDebugFile.Some? {
          original := entries[0].info.debugFile;
          entries := entries[0 := WithDebugFile(entries[0], newDebugFile)];
        }
      }
      modules := entries;
      originalFirstDebugFile := original;
    }

    /** Gives the object infos back in the order of the request. */
    method IntoInner() returns (infos: seq<ObjectInfo>)
      modifies this
      ensures infos == Inner(old(modules), old(originalFirstDebugFile))
    {
      if originalFirstDebugFile.Some? && modules != [] {
        modules := modules[0 := WithDebugFile(modules[0], originalFirstDebugFile)];
      }
      modules := Sort(modules, ByIndex);
      infos := Infos(modules);
    }
  }

  // ---------------------------------------------------------------------------------------------
  // Undoing the index

  /** Module `j` comes after module `i` by address, and by position for equal addresses. */
  predicate Follows(infos: seq<ObjectInfo>, i: nat, j: nat)
    requires i < |infos| && j < |infos|
  {
    Before(ModuleEntry(i, infos[i]), ModuleEntry(j, infos[j]))
  }

  /** No module comes before module `i`. */
  predicate IsFirst(infos: seq<ObjectInfo>, i: nat)
    requires i < |infos|
  {
    forall k: nat :: k < |infos| && k != i ==> Follows(infos, i, k)
  }

  predicate IsNext(infos: seq<ObjectInfo>, i: nat, j: nat)
    requires i < |infos| && j < |infos|
  {
    Follows(infos, i, j) && forall k: nat :: k < |infos| && Follows(infos, i, k) ==> k == j || Follows(infos, j, k)
  }

  predicate EndsAt(info: ObjectInfo, size: Option<u64>, end: u64) {
    size.Some? && info.imageAddr + size.value == end
  }

  /** What the size of module `i` becomes: a stated size is kept; otherwise the module ends exactly
      where the next one starts, and the last one keeps its missing or zero size. */
  ghost predicate Fills(infos: seq<ObjectInfo>, i: nat, size: Option<u64>)
    requires i < |infos|
  {
    if Size(infos[i]) != 0 then size == infos[i].imageSize
    else if exists j: nat :: j < |infos| && Follows(infos, i, j) then
      exists j: nat :: j < |infos| && IsNext(infos, i, j) && EndsAt(infos[i], size, infos[j].imageAddr)
    else size == infos[i].imageSize
  }

  predicate HasIndices(s: seq<ModuleEntry>) {
    && (forall i :: 0 <= i < |s| ==> Index(s[i]) < |s|)
    && (forall i, j :: 0 <= i < j < |s| ==> Index(s[i]) != Index(s[j]))
  }

  /** Sorting entries that carry the indices below `n` puts each at its index. */
  lemma {:induction false} SortedAtIndex(s: seq<ModuleEntry>, i: nat)
    requires HasIndices(s) && SortedBy(s, ByIndex) && i < |s|
    ensures Index(s[i]) == i
  {
    LowerBound(s, i);
    UpperBound(s, i);
  }

  lemma {:induction false} LowerBound(s: seq<ModuleEntry>, i: nat)
    requires HasIndices(s) && SortedBy(s, ByIndex) && i < |s|
    ensures Index(s[i]) >= i
  {
    if i > 0 {
      LowerBound(s, i - 1);
    }
  }

  lemma {:induction false} UpperBound(s: seq<ModuleEntry>, i: nat)
    requires HasIndices(s) && SortedBy(s, ByIndex) && i < |s|
    ensures Index(s[i]) <= i
    decreases |s| - i
  {
    if i + 1 < |s| {
      UpperBound(s, i + 1);
    }
  }

  /** Two sequences with the same elements: what is distinct in one is distinct in the other. */
  lemma PermutationKeepsIndices(s: seq<ModuleEntry>, r: seq<ModuleEntry>)
    requires multiset(s) == multiset(r) && HasIndices(s)
    ensures HasIndices(r)
  {
    assert |s| == |multiset(s)| == |multiset(r)| == |r|;
    forall i | 0 <= i < |r| ensures Index(r[i]) < |r| {
      assert r[i] in multiset(r);
      assert r[i] in s;
    }
    forall i, j | 0 <= i < j < |r| ensures Index(r[i]) != Index(r[j]) {
      if Index(r[i]) == Index(r[j]) {
        assert r[i] in multiset(r) && r[j] in multiset(r);
        assert r[i] in s && r[j] in s;
        assert r[i] == r[j];
        TwiceInMultiset(r, i, j);
        OnceInMultiset(s, r[i]);
      }
    }
  }

  lemma TwiceInMultiset(r: seq<ModuleEntry>, i: nat, j: nat)
    requires i < j < |r| && r[i] == r[j]
    ensures multiset(r)[r[i]] >= 2
  {
    assert r == r[..i] + [r[i]] + r[i + 1..j] + [r[j]] + r[j + 1..];
  }

  lemma {:induction false} OnceInMultiset(s: seq<ModuleEntry>, e: ModuleEntry)
    requires forall i, j :: 0 <= i < j < |s| ==> Index(s[i]) != Index(s[j])
    ensures multiset(s)[e] <= 1
  {
    if s != [] {
      var init := s[..|s| - 1];
      assert s == init + [s[|s| - 1]];
      OnceInMultiset(init, e);
      if e == s[|s| - 1] {
        assert e !in init;
        assert e !in multiset(init);
      }
    }
  }

  /** The sorted entries of a request: every entry is the module with its index. */
  lemma SortedEntries(infos: seq<ObjectInfo>)
    ensures var s := Sort(Enumerate(infos), ByStart);
      && |s| == |infos| && InOrder(s) && SortedBy(s, ByStart) && HasIndices(s)
      && (forall p :: 0 <= p < |s| ==> s[p] == ModuleEntry(Index(s[p]), infos[Index(s[p])]))
  {
    SortEnumerated(infos);
    var s := Sort(Enumerate(infos), ByStart);
    PermutationKeepsIndices(Enumerate(infos), s);
    forall p | 0 <= p < |s| ensures s[p] == ModuleEntry(Index(s[p]), infos[Index(s[p])]) {
      assert s[p] in multiset(s);
      assert s[p] in Enumerate(infos);
    }
  }

  lemma PositionOf(infos: seq<ObjectInfo>, i: nat) returns (p: nat)
    requires i < |infos|
    ensures var s := Sort(Enumerate(infos), ByStart); p < |s| && s[p] == ModuleEntry(i, infos[i])
  {
    SortEnumerated(infos);
    var s := Sort(Enumerate(infos), ByStart);
    assert Enumerate(infos)[i] in multiset(s);
    p :| 0 <= p < |s| && s[p] == Enumerate(infos)[i];
  }

  lemma BackFillFills(infos: seq<ObjectInfo>, p: nat)
    requires p < |infos|
    ensures var s := Sort(Enumerate(infos), ByStart);
      && |s| == |infos| && SortedBy(s, ByStart) && Index(s[p]) < |infos|
      && Fills(infos, Index(s[p]), FilledSize(s, p))
  {
    SortedEntries(infos);
    var s := Sort(Enumerate(infos), ByStart);
    var i := Index(s[p]);
    forall k: nat | k < |infos| && Follows(infos, i, k)
      ensures p + 1 < |s| && (k == Index(s[p + 1]) || Follows(infos, Index(s[p + 1]), k))
    {
      var q := PositionOf(infos, k);
      assert q < p ==> Before(s[q], s[p]);
      assert q > p + 1 ==> Before(s[p + 1], s[q]);
    }
    if p + 1 < |s| {
      assert Before(s[p], s[p + 1]);
      assert IsNext(infos, i, Index(s[p + 1]));
    }
  }

  lemma RestoreUndoesRewrite(s: seq<ModuleEntry>, rewrite: RewriteRules)
    ensures var (r, original) := RewriteFirst(s, rewrite); RestoreFirst(r, original) == s
  {
  }

  /** Sorting the back-filled entries by index puts module `i` at `i`, with only its size changed. */
  lemma BackFilledAt(infos: seq<ObjectInfo>, i: nat)
    requires i < |infos|
    ensures var s := Sort(Enumerate(infos), ByStart);
      && SortedBy(s, ByStart)
      && var r := Sort(BackFilled(s), ByIndex);
         && |r| == |infos|
         && r[i].info == infos[i].(imageSize := r[i].info.imageSize)
         && Fills(infos, i, r[i].info.imageSize)
  {
    SortedEntries(infos);
    var b := BackFilled(Sort(Enumerate(infos), ByStart));
    SortSorts(b, ByIndex);
    var r := Sort(b, ByIndex);
    assert HasIndices(b);
    PermutationKeepsIndices(b, r);
    SortedAtIndex(r, i);
    assert r[i] in multiset(r);
    assert r[i] in b;
    var p :| 0 <= p < |b| && b[p] == r[i];
    BackFillFills(infos, p);
  }

  /** For any module list and any rewrite rules, taking the infos out of a new index gives the same
      list back: same length, original order, original debug files, and nothing changed but the
      missing or zero sizes. */
  lemma InnerUndoesNew(infos: seq<ObjectInfo>, rewrite: RewriteRules)
    ensures var (modules, original) := New(infos, rewrite);
      var out := Inner(modules, original);
      && |out| == |infos|
      && forall i :: 0 <= i < |infos| ==>
           out[i] == infos[i].(imageSize := out[i].imageSize) && Fills(infos, i, out[i].imageSize)
  {
    SortedEntries(infos);
    var b := BackFilled(Sort(Enumerate(infos), ByStart));
    RestoreUndoesRewrite(b, rewrite);
    var (modules, original) := New(infos, rewrite);
    var out := Inner(modules, original);
    assert out == Infos(Sort(b, ByIndex));
    SortSorts(b, ByIndex);
    forall i | 0 <= i < |infos|
      ensures out[i] == infos[i].(imageSize := out[i].imageSize) && Fills(infos, i, out[i].imageSize)
    {
      BackFilledAt(infos, i);
    }
  }
}
