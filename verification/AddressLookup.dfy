/**
Looking an address up in the module index, and the addresses that a lookup exposes.  The binary
search of the standard library may return any match; everything here holds for every search that
does what is documented.
*/
module AddressLookup {
  import opened Common
  import opened ModuleLookup

  // ---------------------------------------------------------------------------------------------
  // The binary search of the standard library

  datatype SearchResult = Found(index: nat) | NotFound(index: nat)

  /** What the standard library documents: a match, of several an arbitrary one, or else the place
      to insert at. */
  predicate IsSearchResult(s: seq<ModuleEntry>, addr: u64, r: SearchResult) {
    match r
    case Found(i) => i < |s| && Start(s[i]) == addr
    case NotFound(i) =>
      && i <= |s|
      && (forall k :: 0 <= k < i ==> Start(s[k]) < addr)
      && (forall k :: i <= k < |s| ==> Start(s[k]) > addr)
  }

  type Search = (seq<ModuleEntry>, u64) -> SearchResult

  ghost predicate Documented(search: Search) {
    forall s, addr :: SortedBy(s, ByStart) ==> IsSearchResult(s, addr, search(s, addr))
  }

  /** The number of entries that start at or below the address. */
  function CountUpTo(s: seq<ModuleEntry>, addr: u64): (n: nat)
    requires SortedBy(s, ByStart)
    ensures n <= |s|
    ensures forall k :: 0 <= k < |s| ==> (Start(s[k]) <= addr <==> k < n)
  {
    if s == [] then 0
    else
      var n := |s| - 1;
      assert forall k :: 0 <= k < n ==> KeyOf(ByStart, s[k]) <= KeyOf(ByStart, s[n]);
      if Start(s[n]) <= addr then |s| else CountUpTo(s[..n], addr)
  }

  function SimpleSearch(s: seq<ModuleEntry>, addr: u64): SearchResult {
    if !SortedBy(s, ByStart) then NotFound(0)
    else
      var n := CountUpTo(s, addr);
      if n > 0 && Start(s[n - 1]) == addr then Found(n - 1) else NotFound(n)
  }

  /** There is a documented search. */
  lemma SimpleSearchIsDocumented()
    ensures Documented(SimpleSearch)
  {
    forall s, addr: u64 | SortedBy(s, ByStart) ensures IsSearchResult(s, addr, SimpleSearch(s, addr)) {
      var n := CountUpTo(s, addr);
      if n > 0 {
        assert forall k :: 0 <= k < n ==> KeyOf(ByStart, s[k]) <= KeyOf(ByStart, s[n - 1]);
      }
    }
  }

  // ---------------------------------------------------------------------------------------------
  // Lookup

  function CheckedAdd(a: u64, b: u64): Option<u64> {
    var sum: int := a + b;
    if sum < U64_LIMIT then Some(sum as u64) else None
  }

  function CheckedSub(a: u64, b: u64): Option<u64> {
    if b <= a then Some((a - b) as u64) else None
  }

  function WithIndex(s: seq<ModuleEntry>, moduleIndex: nat): Option<ModuleEntry> {
    if s == [] then None
    else if Index(s[0]) == moduleIndex then Some(s[0])
    else WithIndex(s[1..], moduleIndex)
  }

  /** The position that a search result leads to, or -1. */
  function PositionIn(r: SearchResult): int {
    match r
    case Found(i) => i
    case NotFound(i) => i - 1
  }

  function GetModuleByAddr(search: Search, s: seq<ModuleEntry>, addr: u64, mode: AddrMode): Option<ModuleEntry> {
    match mode
    case Rel(moduleIndex) => WithIndex(s, moduleIndex)
    case Abs =>
      var at := PositionIn(search(s, addr));
      if at < 0 || at >= |s| then None
      else
        var entry := s[at];
        match CheckedAdd(Start(entry), Size(entry.info))
        case None => None
        case Some(end) => if end < addr && Size(entry.info) != 0 then None else Some(entry)
  }

  /** An entry with the greatest start that is not above the address. */
  predicate Closest(s: seq<ModuleEntry>, addr: u64, e: ModuleEntry) {
    e in s && Start(e) <= addr && forall m :: m in s && Start(m) <= addr ==> Start(m) <= Start(e)
  }

  /** A module of size 0 is open-ended; any other must end, without overflow, at or after the
      address. */
  predicate Accepts(e: ModuleEntry, addr: u64) {
    Size(e.info) == 0 || (Start(e) + Size(e.info) < U64_LIMIT && addr <= Start(e) + Size(e.info))
  }

  /** Lookup picks a closest entry and returns it exactly when that entry accepts the address. */
  lemma LookupPicksClosest(search: Search, s: seq<ModuleEntry>, addr: u64)
    requires Documented(search) && SortedBy(s, ByStart)
    ensures var r := GetModuleByAddr(search, s, addr, Abs);
      && (r.Some? ==> Closest(s, addr, r.value) && Accepts(r.value, addr))
      && (r.None? ==> (forall m :: m in s ==> Start(m) > addr)
                      || exists e :: Closest(s, addr, e) && !Accepts(e, addr))
  {
    assert IsSearchResult(s, addr, search(s, addr));
    var at := PositionIn(search(s, addr));
    if at >= 0 {
      forall m | m in s && Start(m) <= addr ensures Start(m) <= Start(s[at]) {
        var k :| 0 <= k < |s| && s[k] == m;
      }
      assert Closest(s, addr, s[at]);
    }
  }

  predicate DistinctStarts(s: seq<ModuleEntry>) {
    forall i, j :: 0 <= i < j < |s| ==> Start(s[i]) != Start(s[j])
  }

  /** The reference: the last entry that starts at or below the address. */
  function LinearScan(s: seq<ModuleEntry>, addr: u64): Option<ModuleEntry> {
    if s == [] then None
    else
      var last := s[|s| - 1];
      if Start(last) <= addr then (if Accepts(last, addr) then Some(last) else None)
      else LinearScan(s[..|s| - 1], addr)
  }

  lemma {:induction false} ScanAt(s: seq<ModuleEntry>, addr: u64, at: nat)
    requires SortedBy(s, ByStart) && at < |s| && Start(s[at]) <= addr
    requires at + 1 < |s| ==> Start(s[at + 1]) > addr
    ensures LinearScan(s, addr) == if Accepts(s[at], addr) then Some(s[at]) else None
  {
    if at + 1 < |s| {
      assert Start(s[|s| - 1]) > addr;
      ScanAt(s[..|s| - 1], addr, at);
    }
  }

  lemma {:induction false} ScanNone(s: seq<ModuleEntry>, addr: u64)
    requires forall k :: 0 <= k < |s| ==> Start(s[k]) > addr
    ensures LinearScan(s, addr).None?
  {
    if s != [] {
      ScanNone(s[..|s| - 1], addr);
    }
  }

  /** With distinct starts the binary search is a linear scan. */
  lemma LookupRefinesScan(search: Search, s: seq<ModuleEntry>, addr: u64)
    requires Documented(search) && SortedBy(s, ByStart) && DistinctStarts(s)
    ensures GetModuleByAddr(search, s, addr, Abs) == LinearScan(s, addr)
  {
    assert IsSearchResult(s, addr, search(s, addr));
    var at := PositionIn(search(s, addr));
    if at < 0 {
      ScanNone(s, addr);
    } else {
      assert at + 1 < |s| ==> Start(s[at]) < Start(s[at + 1]);
      ScanAt(s, addr, at);
    }
  }

  /** The entries of a new index keep the sorted starts and have the back-filled sizes. */
  lemma NewEntries(infos: seq<ObjectInfo>, rewrite: RewriteRules)
    ensures var s := Sort(Enumerate(infos), ByStart); var m := New(infos, rewrite).0;
      && SortedBy(s, ByStart) && |s| == |m| == |infos|
      && forall k :: 0 <= k < |m| ==> Start(m[k]) == Start(s[k]) && m[k].info.imageSize == FilledSize(s, k)
  {
    SortedEntries(infos);
  }

  lemma NewIsSorted(infos: seq<ObjectInfo>, rewrite: RewriteRules)
    ensures SortedBy(New(infos, rewrite).0, ByStart)
  {
    NewEntries(infos, rewrite);
    var s := Sort(Enumerate(infos), ByStart);
    var m := New(infos, rewrite).0;
    forall i, j | 0 <= i < j < |m| ensures Start(m[i]) <= Start(m[j]) {
      assert KeyOf(ByStart, s[i]) <= KeyOf(ByStart, s[j]);
    }
  }

  /** If no module of a request states a size, a new index resolves every address from the first
      start upwards. */
  lemma NoSizesResolveAll(search: Search, infos: seq<ObjectInfo>, rewrite: RewriteRules, addr: u64)
    requires Documented(search)
    requires forall i :: 0 <= i < |infos| ==> Size(infos[i]) == 0
    requires exists i :: 0 <= i < |infos| && infos[i].imageAddr <= addr
    ensures GetModuleByAddr(search, New(infos, rewrite).0, addr, Abs).Some?
  {
    NewIsSorted(infos, rewrite);
    var m := New(infos, rewrite).0;
    assert IsSearchResult(m, addr, search(m, addr));
    var at := PositionIn(search(m, addr));
    var i :| 0 <= i < |infos| && infos[i].imageAddr <= addr;
    SomeStartBelow(infos, rewrite, i);
    assert at >= 0;
    OpenSizeAt(infos, rewrite, at);
    assert at + 1 < |m| && Start(m[at + 1]) <= addr ==> Start(m[at + 1]) == addr == Start(m[at]);
  }

  lemma SomeStartBelow(infos: seq<ObjectInfo>, rewrite: RewriteRules, i: nat)
    requires i < |infos|
    ensures var m := New(infos, rewrite).0; exists p :: 0 <= p < |m| && Start(m[p]) == infos[i].imageAddr
  {
    NewEntries(infos, rewrite);
    var p := PositionOf(infos, i);
    assert Start(New(infos, rewrite).0[p]) == infos[i].imageAddr;
  }

  /** A module without a stated size is open-ended or ends where the next one starts. */
  lemma OpenSizeAt(infos: seq<ObjectInfo>, rewrite: RewriteRules, k: nat)
    requires forall i :: 0 <= i < |infos| ==> Size(infos[i]) == 0
    requires k < |New(infos, rewrite).0|
    ensures var m := New(infos, rewrite).0;
      Size(m[k].info) == 0 || (k + 1 < |m| && Start(m[k]) + Size(m[k].info) == Start(m[k + 1]))
  {
    NewEntries(infos, rewrite);
    SortedEntries(infos);
    var s := Sort(Enumerate(infos), ByStart);
    assert s[k].info == infos[Index(s[k])];
  }

  // ---------------------------------------------------------------------------------------------
  // Exposed addresses

  datatype LookupResult = LookupResult(moduleIndex: nat, info: ObjectInfo, relativeAddr: Option<u64>)

  predicate SupportsAbsolute(info: ObjectInfo) {
    info.imageAddr != 0
  }

  function AbsToRel(info: ObjectInfo, addr: u64): Option<u64> {
    if SupportsAbsolute(info) then CheckedSub(addr, info.imageAddr) else None
  }

  function RelToAbs(info: ObjectInfo, addr: u64): Option<u64> {
    if SupportsAbsolute(info) then CheckedAdd(info.imageAddr, addr) else None
  }

  function LookupCache(search: Search, s: seq<ModuleEntry>, addr: u64, mode: AddrMode): Option<LookupResult> {
    match GetModuleByAddr(search, s, addr, mode)
    case None => None
    case Some(entry) =>
      Some(LookupResult(entry.moduleIndex, entry.info,
                        if mode.Abs? then AbsToRel(entry.info, addr) else Some(addr)))
  }

  function PreferredMode(r: LookupResult): AddrMode {
    if SupportsAbsolute(r.info) then Abs else Rel(r.moduleIndex)
  }

  function ExposePreferred(r: LookupResult, addr: u64): u64 {
    if SupportsAbsolute(r.info) then
      (match RelToAbs(r.info, addr) case Some(a) => a case None => 0)
    else addr
  }

  /** Looks the exposed address up again, in the preferred mode. */
  function Again(search: Search, s: seq<ModuleEntry>, r: LookupResult, relativeAddr: u64): Option<LookupResult> {
    LookupCache(search, s, ExposePreferred(r, relativeAddr), PreferredMode(r))
  }

  predicate FindsAgain(search: Search, s: seq<ModuleEntry>, r: LookupResult, relativeAddr: u64) {
    var again := Again(search, s, r, relativeAddr);
    again.Some? && again.value.moduleIndex == r.moduleIndex
  }

  /** What every new index is: entries in order of start and index, each index once. */
  predicate IsIndex(s: seq<ModuleEntry>) {
    InOrder(s) && HasIndices(s)
  }

  lemma NewIsIndex(infos: seq<ObjectInfo>, rewrite: RewriteRules)
    ensures IsIndex(New(infos, rewrite).0)
  {
    SortedEntries(infos);
    var s := Sort(Enumerate(infos), ByStart);
    var m := New(infos, rewrite).0;
    assert forall k :: 0 <= k < |m| ==> Start(m[k]) == Start(s[k]) && Index(m[k]) == Index(s[k]);
    forall i, j | 0 <= i < j < |m| ensures Before(m[i], m[j]) && Index(m[i]) != Index(m[j]) {
      assert Before(s[i], s[j]);
    }
  }

  lemma IndexIsSorted(s: seq<ModuleEntry>)
    requires IsIndex(s)
    ensures SortedBy(s, ByStart)
  {
    assert forall i, j :: 0 <= i < j < |s| ==> Before(s[i], s[j]);
  }

  /** An absolute hit on a module at a non-zero start exposes the very address that was looked up;
      one on a module at 0 has no relative address to expose. */
  lemma AbsoluteHitStable(search: Search, s: seq<ModuleEntry>, addr: u64)
    requires Documented(search) && SortedBy(s, ByStart) && LookupCache(search, s, addr, Abs).Some?
    ensures var r := LookupCache(search, s, addr, Abs).value;
      if r.info.imageAddr == 0 then r.relativeAddr == None
      else
        && r.relativeAddr.Some? && r.info.imageAddr + r.relativeAddr.value == addr
        && PreferredMode(r) == Abs && ExposePreferred(r, r.relativeAddr.value) == addr
        && Again(search, s, r, r.relativeAddr.value) == Some(r)
  {
    LookupPicksClosest(search, s, addr);
  }

  lemma {:induction false} WithIndexAt(s: seq<ModuleEntry>, i: nat) returns (p: nat)
    requires WithIndex(s, i).Some?
    ensures p < |s| && s[p] == WithIndex(s, i).value && Index(s[p]) == i
  {
    if Index(s[0]) == i {
      p := 0;
    } else {
      var q := WithIndexAt(s[1..], i);
      p := q + 1;
    }
  }

  lemma {:induction false} WithIndexFinds(s: seq<ModuleEntry>, p: nat)
    requires p < |s| && forall k :: 0 <= k < p ==> Index(s[k]) != Index(s[p])
    ensures WithIndex(s, Index(s[p])) == Some(s[p])
  {
    if p > 0 {
      WithIndexFinds(s[1..], p - 1);
    }
  }

  /** A relative lookup finds exactly the module with the index, wherever it is in memory, and
      leaves the address as it is. */
  lemma RelativeLookupIff(search: Search, s: seq<ModuleEntry>, addr: u64, i: nat)
    requires IsIndex(s)
    ensures forall m :: m in s && Index(m) == i <==> GetModuleByAddr(search, s, addr, Rel(i)) == Some(m)
    ensures LookupCache(search, s, addr, Rel(i)).None? <==> forall m :: m in s ==> Index(m) != i
    ensures forall m :: m in s && Index(m) == i ==>
      LookupCache(search, s, addr, Rel(i)) == Some(LookupResult(i, m.info, Some(addr)))
  {
    forall m | m in s && Index(m) == i ensures WithIndex(s, i) == Some(m) {
      var p :| 0 <= p < |s| && s[p] == m;
      WithIndexFinds(s, p);
    }
    if WithIndex(s, i).Some? {
      var p := WithIndexAt(s, i);
    }
  }

  /** What a new index has for module `i`: the module of the request with its size filled and, if it
      is the first by address, its debug file rewritten. */
  predicate IsPrepared(infos: seq<ObjectInfo>, rewrite: RewriteRules, i: nat, info: ObjectInfo)
    requires i < |infos|
  {
    && info == infos[i].(imageSize := info.imageSize, debugFile := info.debugFile)
    && info.debugFile ==
         if IsFirst(infos, i) && infos[i].debugFile.Some? && rewrite(infos[i].debugFile.value).Some? then
           rewrite(infos[i].debugFile.value)
         else infos[i].debugFile
  }

  /** In a new index, exactly the modules of the request are found by their position in it. */
  lemma NewRelativeLookup(search: Search, infos: seq<ObjectInfo>, rewrite: RewriteRules, addr: u64, i: nat)
    ensures var r := LookupCache(search, New(infos, rewrite).0, addr, Rel(i));
      && (r.Some? <==> i < |infos|)
      && (r.Some? ==>
            && r.value.moduleIndex == i && r.value.relativeAddr == Some(addr)
            && IsPrepared(infos, rewrite, i, r.value.info) && Fills(infos, i, r.value.info.imageSize))
  {
    NewIsIndex(infos, rewrite);
    SortedEntries(infos);
    var m := New(infos, rewrite).0;
    assert |m| == |infos|;
    RelativeLookupIff(search, m, addr, i);
    if i < |infos| {
      var p := ModuleLookup.PositionOf(infos, i);
      NewAt(infos, rewrite, p);
      assert m[p] in m;
    } else {
      forall e | e in m ensures Index(e) != i {
        var p :| 0 <= p < |m| && m[p] == e;
        NewAt(infos, rewrite, p);
      }
    }
  }

  lemma NewAt(infos: seq<ObjectInfo>, rewrite: RewriteRules, p: nat)
    requires p < |infos|
    ensures var s := Sort(Enumerate(infos), ByStart); var m := New(infos, rewrite).0;
      && |m| == |s| == |infos| && Index(m[p]) == Index(s[p]) < |infos|
      && IsPrepared(infos, rewrite, Index(m[p]), m[p].info)
      && Fills(infos, Index(m[p]), m[p].info.imageSize)
  {
    SortedEntries(infos);
    BackFillFills(infos, p);
    FirstInOrder(infos, p);
  }

  /** The first entry of an index is the first module by address, and by position for equal ones. */
  lemma FirstInOrder(infos: seq<ObjectInfo>, p: nat)
    requires p < |infos|
    ensures var s := Sort(Enumerate(infos), ByStart);
      |s| == |infos| && Index(s[p]) < |infos| && (IsFirst(infos, Index(s[p])) <==> p == 0)
  {
    SortedEntries(infos);
    var s := Sort(Enumerate(infos), ByStart);
    if p == 0 {
      forall k: nat | k < |infos| && k != Index(s[0]) ensures Follows(infos, Index(s[0]), k) {
        var q := ModuleLookup.PositionOf(infos, k);
        assert Before(s[0], s[q]);
      }
    } else {
      assert Before(s[0], s[p]) && Index(s[0]) != Index(s[p]);
      assert s[0] == ModuleEntry(Index(s[0]), infos[Index(s[0])]);
      assert !Follows(infos, Index(s[p]), Index(s[0]));
    }
  }

  /** A relative lookup in a module at 0 exposes the relative address, which finds it again. */
  lemma RelativeAtZeroStable(search: Search, s: seq<ModuleEntry>, addr: u64, i: nat)
    requires LookupCache(search, s, addr, Rel(i)).Some?
    requires LookupCache(search, s, addr, Rel(i)).value.info.imageAddr == 0
    ensures var r := LookupCache(search, s, addr, Rel(i)).value;
      PreferredMode(r) == Rel(i) && Again(search, s, r, addr) == Some(r)
  {
    var p := WithIndexAt(s, i);
  }

  /** When an exposed relative address is inside its module. */
  predicate OffsetInside(s: seq<ModuleEntry>, info: ObjectInfo, offset: u64) {
    && info.imageAddr + offset < U64_LIMIT
    && (Size(info) == 0 || (info.imageAddr + Size(info) < U64_LIMIT && offset <= Size(info)))
    && forall m :: m in s && Start(m) > info.imageAddr ==> info.imageAddr + offset < Start(m)
  }

  /** No module with the same start comes after module `i` in the request. */
  predicate LastOfStart(s: seq<ModuleEntry>, start: u64, i: nat) {
    forall m :: m in s && Start(m) == start ==> Index(m) <= i
  }

  /** The offset is inside the module and nothing hides the module there. */
  predicate OffsetIsStable(s: seq<ModuleEntry>, info: ObjectInfo, offset: u64, i: nat) {
    OffsetInside(s, info, offset) && LastOfStart(s, info.imageAddr, i)
  }

  /** No other module has the same start. */
  predicate OnlyOfStart(s: seq<ModuleEntry>, start: u64, i: nat) {
    forall m :: m in s && Start(m) == start ==> Index(m) == i
  }

  /** For any other relative lookup past the start of its module, whichever documented search is
      used, the exposed address finds the module again if and only if the sum does not overflow,
      the offset is inside the module and before the next start, and no later module of the request
      has the same start. */
  lemma RelativeStableIff(search: Search, s: seq<ModuleEntry>, offset: u64, i: nat)
    requires Documented(search) && IsIndex(s) && offset > 0
    requires LookupCache(search, s, offset, Rel(i)).Some?
    requires LookupCache(search, s, offset, Rel(i)).value.info.imageAddr != 0
    ensures var r := LookupCache(search, s, offset, Rel(i)).value;
      && PreferredMode(r) == Abs
      && (FindsAgain(search, s, r, offset) <==> OffsetIsStable(s, r.info, offset, i))
      && (FindsAgain(search, s, r, offset) ==> Again(search, s, r, offset) == Some(r))
  {
    var p := WithIndexAt(s, i);
    StableAt(search, s, p, offset);
  }

  lemma StableAt(search: Search, s: seq<ModuleEntry>, p: nat, offset: u64)
    requires Documented(search) && IsIndex(s) && p < |s| && Start(s[p]) != 0 && offset > 0
    ensures var r := LookupResult(Index(s[p]), s[p].info, Some(offset));
      && (FindsAgain(search, s, r, offset) <==> OffsetIsStable(s, r.info, offset, Index(s[p])))
      && (FindsAgain(search, s, r, offset) ==> Again(search, s, r, offset) == Some(r))
  {
    IndexIsSorted(s);
    if OffsetIsStable(s, s[p].info, offset, Index(s[p])) {
      InsideIsFound(search, s, p, offset);
    } else {
      OutsideIsNotFound(search, s, p, offset);
    }
  }

  lemma InsideIsFound(search: Search, s: seq<ModuleEntry>, p: nat, offset: u64)
    requires Documented(search) && IsIndex(s) && SortedBy(s, ByStart) && p < |s| && offset > 0
    requires OffsetIsStable(s, s[p].info, offset, Index(s[p]))
    ensures GetModuleByAddr(search, s, Start(s[p]) + offset, Abs) == Some(s[p])
  {
    var exposed: u64 := Start(s[p]) + offset;
    var at := PositionIn(search(s, exposed));
    assert IsSearchResult(s, exposed, search(s, exposed));
    if p + 1 < |s| {
      assert Before(s[p], s[p + 1]) && s[p + 1] in s;
      assert Start(s[p + 1]) > exposed;
    }
    assert at == p;
  }

  lemma OutsideIsNotFound(search: Search, s: seq<ModuleEntry>, p: nat, offset: u64)
    requires Documented(search) && IsIndex(s) && SortedBy(s, ByStart) && p < |s| && Start(s[p]) != 0 && offset > 0
    requires !OffsetIsStable(s, s[p].info, offset, Index(s[p]))
    ensures !FindsAgain(search, s, LookupResult(Index(s[p]), s[p].info, Some(offset)), offset)
  {
    var r := LookupResult(Index(s[p]), s[p].info, Some(offset));
    var exposed := ExposePreferred(r, offset);
    LookupPicksClosest(search, s, exposed);
    var at := PositionIn(search(s, exposed));
    assert IsSearchResult(s, exposed, search(s, exposed));
  }

  /** At the start of its module, the standard library leaves open which of several modules with
      this start it finds: every documented search finds the module again if and only if the offset
      is inside the module and no other module has the same start. */
  lemma RelativeStartStableIff(s: seq<ModuleEntry>, i: nat, e: ModuleEntry)
    requires IsIndex(s) && WithIndex(s, i) == Some(e) && Start(e) != 0
    ensures (forall search: Search :: Documented(search) ==>
               FindsAgain(search, s, LookupResult(i, e.info, Some(0)), 0))
      <==> OffsetInside(s, e.info, 0) && OnlyOfStart(s, Start(e), i)
  {
    IndexIsSorted(s);
    var p := WithIndexAt(s, i);
    var r := LookupResult(i, e.info, Some(0));
    if OffsetInside(s, e.info, 0) && OnlyOfStart(s, Start(e), i) {
      forall search: Search | Documented(search) ensures FindsAgain(search, s, r, 0) {
        StartIsFound(search, s, p);
      }
    } else {
      var search := AnotherIsFound(s, p);
    }
  }

  lemma StartIsFound(search: Search, s: seq<ModuleEntry>, p: nat)
    requires Documented(search) && IsIndex(s) && SortedBy(s, ByStart) && p < |s| && Start(s[p]) != 0
    requires OffsetInside(s, s[p].info, 0) && OnlyOfStart(s, Start(s[p]), Index(s[p]))
    ensures FindsAgain(search, s, LookupResult(Index(s[p]), s[p].info, Some(0)), 0)
  {
    assert IsSearchResult(s, Start(s[p]), search(s, Start(s[p])));
    var at := PositionIn(search(s, Start(s[p])));
    assert s[at] in s;
  }

  /** If another module has the same start, there is a documented search that finds this one. */
  lemma AnotherIsFound(s: seq<ModuleEntry>, p: nat) returns (search: Search)
    requires IsIndex(s) && SortedBy(s, ByStart) && p < |s| && Start(s[p]) != 0
    requires !OffsetInside(s, s[p].info, 0) || !OnlyOfStart(s, Start(s[p]), Index(s[p]))
    ensures Documented(search) && !FindsAgain(search, s, LookupResult(Index(s[p]), s[p].info, Some(0)), 0)
  {
    var start := Start(s[p]);
    var q := p;
    if m :| m in s && Start(m) == start && Index(m) != Index(s[p]) {
      q :| 0 <= q < |s| && s[q] == m;
    }
    SimpleSearchIsDocumented();
    search := (t: seq<ModuleEntry>, addr: u64) =>
      if t == s && addr == start then Found(q) else SimpleSearch(t, addr);
  }

  /** Two modules may share a start.  Then a relative address of the first is exposed as an
      absolute one that finds the second. */
  lemma SharedStartUnstable(search: Search, other: OtherInfo)
    requires Documented(search)
    ensures var info := ObjectInfo(0x1000, Some(0x100), None, other);
      var s := [ModuleEntry(0, info), ModuleEntry(1, info)];
      && IsIndex(s)
      && LookupCache(search, s, 0x10, Rel(0)).Some?
      && var r := LookupCache(search, s, 0x10, Rel(0)).value;
         && r.moduleIndex == 0
         && Again(search, s, r, 0x10).Some? && Again(search, s, r, 0x10).value.moduleIndex == 1
  {
    var info := ObjectInfo(0x1000, Some(0x100), None, other);
    var s := [ModuleEntry(0, info), ModuleEntry(1, info)];
    assert SortedBy(s, ByStart) && Start(s[0]) == Start(s[1]) == 0x1000;
    assert IsSearchResult(s, 0x1010, search(s, 0x1010));
    assert search(s, 0x1010) == NotFound(2);
    assert WithIndex(s, 0) == Some(s[0]);
    var r := LookupCache(search, s, 0x10, Rel(0)).value;
    assert ExposePreferred(r, 0x10) == 0x1010;
  }
}
