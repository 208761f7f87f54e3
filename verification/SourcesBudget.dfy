/**
The modules and source files of one request and the budget that bounds their total size.  A
minified file or source file that does not fit into what remains of the budget is replaced by an
error; whatever is retained is charged exactly once.
*/
module SourcesBudget {
  import opened Common
  import Strings
  import Sums
  import A = ArtifactLookup

  datatype Module = Module(
    absPath: string,
    debugId: Option<A.DebugId>,
    wasFetched: bool,
    sourceFileBase: Option<string>,
    minifiedSource: Option<A.Entry>)

  /** A module that is known but not fetched; `None` stands for the empty entry, an error. */
  function Unfetched(absPath: string, debugId: Option<A.DebugId>): Module {
    Module(absPath, debugId, false, None, None)
  }

  /** The size of the contents that an entry keeps in memory. */
  function Retained(entry: A.Entry): nat {
    match entry.file
    case Ok(CachedFile(Some(contents), _)) => |contents|
    case _ => 0
  }

  function RetainedBy(m: Module): nat {
    if m.minifiedSource.Some? then Retained(m.minifiedSource.value) else 0
  }

  function Charged(remaining: nat, entry: A.Entry): (r: (nat, A.Entry))
    ensures r.0 + Retained(r.1) == remaining
    ensures r.1 == entry <==> Retained(entry) <= remaining
    ensures r.1 != entry ==> r.1 == entry.(file := Err(A.NotFound))
  {
    if entry.file.Err? then (remaining, entry)
    else if Retained(entry) > remaining then (remaining, entry.(file := Err(A.NotFound)))
    else (remaining - Retained(entry), entry)
  }

  /** The base for source files is the source map's URL if there is one, else the module's path. */
  function SourceFileBase(minified: A.Entry, absPath: string): string {
    match minified.file
    case Ok(CachedFile(_, Some(Remote(url)))) => url
    case _ => absPath
  }

  datatype Lookup = Lookup(
    modules: map<string, Module>,
    files: map<A.FileKey, A.Entry>,
    remaining: nat)

  function WithModule(l: Lookup, absPath: string): Lookup {
    if absPath in l.modules then l
    else l.(modules := l.modules[absPath := Unfetched(absPath, None)])
  }

  /** `fetched` is what fetching the minified file gives, if it is fetched. */
  function WithFetchedModule(l: Lookup, absPath: string, fetched: A.Entry): Lookup {
    var known := WithModule(l, absPath);
    var m := known.modules[absPath];
    if m.wasFetched then known
    else
      var (remaining, minified) := Charged(l.remaining, fetched);
      var fetchedModule := m.(wasFetched := true, minifiedSource := Some(minified),
                              sourceFileBase := Some(SourceFileBase(minified, m.absPath)));
      known.(modules := known.modules[absPath := fetchedModule], remaining := remaining)
  }

  function WithSourceFile(l: Lookup, key: A.FileKey, fetched: A.Entry): Lookup {
    if key in l.files then l
    else
      var (remaining, file) := Charged(l.remaining, fetched);
      l.(files := l.files[key := file], remaining := remaining)
  }

  datatype Event =
    | Prepare(absPath: string)
    | GetModule(absPath: string, fetched: A.Entry)
    | GetSourceFile(key: A.FileKey, fetched: A.Entry)

  function Next(l: Lookup, event: Event): Lookup {
    match event
    case Prepare(absPath) => WithModule(l, absPath)
    case GetModule(absPath, fetched) => WithFetchedModule(l, absPath, fetched)
    case GetSourceFile(key, fetched) => WithSourceFile(l, key, fetched)
  }

  function Run(l: Lookup, events: seq<Event>): Lookup
    decreases |events|
  {
    if events == [] then l else Run(Next(l, events[0]), events[1..])
  }

  // ---------------------------------------------------------------------------------------------
  // Conservation

  function ModuleSizes(modules: map<string, Module>): map<string, nat> {
    map path | path in modules :: RetainedBy(modules[path])
  }

  function FileSizes(files: map<A.FileKey, A.Entry>): map<A.FileKey, nat> {
    map key | key in files :: Retained(files[key])
  }

  /** The size of all minified and source files that are retained. */
  ghost function Total(l: Lookup): nat {
    Sums.Sum(ModuleSizes(l.modules)) + Sums.Sum(FileSizes(l.files))
  }

  predicate Inv(l: Lookup) {
    forall path :: path in l.modules && !l.modules[path].wasFetched ==> l.modules[path].minifiedSource.None?
  }

  lemma ModuleTotal(l: Lookup, absPath: string, m: Module)
    ensures Sums.Sum(ModuleSizes(l.modules[absPath := m]))
         + (if absPath in l.modules then RetainedBy(l.modules[absPath]) else 0)
         == Sums.Sum(ModuleSizes(l.modules)) + RetainedBy(m)
  {
    assert ModuleSizes(l.modules[absPath := m]) == ModuleSizes(l.modules)[absPath := RetainedBy(m)];
    Sums.SumUpdate(ModuleSizes(l.modules), absPath, RetainedBy(m));
  }

  lemma PrepareConserves(l: Lookup, absPath: string)
    requires Inv(l)
    ensures Inv(WithModule(l, absPath)) && Total(WithModule(l, absPath)) == Total(l)
  {
    ModuleTotal(l, absPath, Unfetched(absPath, None));
  }

  lemma StepConserves(l: Lookup, event: Event)
    requires Inv(l)
    ensures Inv(Next(l, event))
    ensures Next(l, event).remaining + Total(Next(l, event)) == l.remaining + Total(l)
  {
    match event
    case Prepare(absPath) =>
      PrepareConserves(l, absPath);
    case GetModule(absPath, fetched) =>
      PrepareConserves(l, absPath);
      var known := WithModule(l, absPath);
      if !known.modules[absPath].wasFetched {
        ModuleTotal(known, absPath, Next(l, event).modules[absPath]);
      }
    case GetSourceFile(key, fetched) =>
      if key !in l.files {
        var file := Charged(l.remaining, fetched).1;
        assert FileSizes(l.files[key := file]) == FileSizes(l.files)[key := Retained(file)];
        Sums.SumUpdate(FileSizes(l.files), key, Retained(file));
      }
  }

  /** Over any sequence of requests, what remains and what is retained add up to the budget. */
  lemma {:induction false} BudgetIsConserved(l: Lookup, events: seq<Event>)
    requires Inv(l)
    ensures Inv(Run(l, events))
    ensures Run(l, events).remaining + Total(Run(l, events)) == l.remaining + Total(l)
    decreases |events|
  {
    if events != [] {
      StepConserves(l, events[0]);
      BudgetIsConserved(Next(l, events[0]), events[1..]);
    }
  }

  /** What was fetched stays for the rest of the request. */
  lemma {:induction false} FetchedStays(l: Lookup, events: seq<Event>)
    ensures forall key :: key in l.files ==> key in Run(l, events).files && Run(l, events).files[key] == l.files[key]
    ensures forall path :: path in l.modules && l.modules[path].wasFetched ==>
      path in Run(l, events).modules && Run(l, events).modules[path] == l.modules[path]
    ensures Run(l, events).remaining <= l.remaining
    decreases |events|
  {
    if events != [] {
      FetchedStays(Next(l, events[0]), events[1..]);
    }
  }

  /** The same request, made again after anything else, is answered in the same way and charges
      nothing. */
  lemma RepeatedRequestIsFree(l: Lookup, event: Event, between: seq<Event>, again: Event)
    requires event.GetModule? || event.GetSourceFile?
    requires match again
      case GetModule(path, _) => event.GetModule? && event.absPath == path
      case GetSourceFile(key, _) => event.GetSourceFile? && event.key == key
      case Prepare(_) => false
    ensures var before := Run(Next(l, event), between); Next(before, again) == before
    ensures event.GetModule? ==>
      Run(Next(l, event), between).modules[event.absPath] == Next(l, event).modules[event.absPath]
    ensures event.GetSourceFile? ==>
      Run(Next(l, event), between).files[event.key] == Next(l, event).files[event.key]
  {
    FetchedStays(Next(l, event), between);
  }

  // ---------------------------------------------------------------------------------------------
  // Refusals

  function Cost(event: Event): nat {
    match event
    case Prepare(_) => 0
    case GetModule(_, fetched) => Retained(fetched)
    case GetSourceFile(_, fetched) => Retained(fetched)
  }

  function Costs(events: seq<Event>): nat {
    if events == [] then 0 else Cost(events[0]) + Costs(events[1..])
  }

  /** Whether a request is the first for its module or file. */
  predicate IsFirst(l: Lookup, events: seq<Event>, i: nat)
    requires i < |events|
  {
    match events[i]
    case Prepare(_) => false
    case GetModule(path, _) =>
      !(path in l.modules && l.modules[path].wasFetched)
      && forall j :: 0 <= j < i && events[j].GetModule? ==> events[j].absPath != path
    case GetSourceFile(key, _) =>
      key !in l.files && forall j :: 0 <= j < i && events[j].GetSourceFile? ==> events[j].key != key
  }

  /** What a request was answered with. */
  predicate Answered(l: Lookup, event: Event) {
    match event
    case Prepare(path) => path in l.modules
    case GetModule(path, fetched) => path in l.modules && l.modules[path].minifiedSource == Some(fetched)
    case GetSourceFile(key, fetched) => key in l.files && l.files[key] == fetched
  }

  /** If everything that is fetched fits into the budget, nothing is refused: every first request
      for a module or file retains just what was fetched. */
  lemma {:induction false} NothingRefusedIfAllFits(l: Lookup, events: seq<Event>, i: nat)
    requires Costs(events) <= l.remaining
    requires i < |events| && IsFirst(l, events, i)
    ensures Answered(Run(l, events), events[i])
    decreases |events|
  {
    var next := Next(l, events[0]);
    assert Costs(events[1..]) <= next.remaining;
    if i == 0 {
      FetchedStays(next, events[1..]);
    } else {
      forall j | 0 <= j < i - 1 ensures events[1..][j] == events[j + 1] {
      }
      assert IsFirst(next, events[1..], i - 1);
      NothingRefusedIfAllFits(next, events[1..], i - 1);
    }
  }

  /** What is kept of a fetched file while so much of the budget remains. */
  predicate IsKept(kept: A.Entry, fetched: A.Entry, remaining: nat) {
    && kept.uri == fetched.uri && kept.resolvedWith == fetched.resolvedWith
    && kept.file == if Retained(fetched) <= remaining then fetched.file else Err(A.NotFound)
  }

  /** The sources of a module are relative to the URL of its source map, if the minified file that
      was kept refers to one, or else to the path of the module. */
  predicate IsBaseOf(base: string, minified: A.Entry, absPath: string) {
    if minified.file.Ok? && minified.file.value.sourcemapUrl.Some? && minified.file.value.sourcemapUrl.value.Remote?
    then minified.file.value.sourcemapUrl == Some(A.Remote(base))
    else base == absPath
  }

  /** What is known of a module before it is fetched. */
  function Known(l: Lookup, path: string): Module {
    if path in l.modules then l.modules[path] else Unfetched(path, None)
  }

  ghost predicate IsFetchedModule(m: Module, known: Module, fetched: A.Entry, remaining: nat) {
    && m.wasFetched && m.absPath == known.absPath && m.debugId == known.debugId
    && m.minifiedSource.Some? && IsKept(m.minifiedSource.value, fetched, remaining)
    && m.sourceFileBase.Some? && IsBaseOf(m.sourceFileBase.value, m.minifiedSource.value, known.absPath)
  }

  /** How a first request is settled: by what was fetched and by what remained of the budget then. */
  ghost predicate Settled(l: Lookup, end: Lookup, event: Event, remaining: nat) {
    match event
    case Prepare(_) => true
    case GetModule(path, fetched) =>
      path in end.modules && IsFetchedModule(end.modules[path], Known(l, path), fetched, remaining)
    case GetSourceFile(key, fetched) => key in end.files && IsKept(end.files[key], fetched, remaining)
  }

  lemma FirstIsSettled(l: Lookup, event: Event)
    requires IsFirst(l, [event], 0)
    ensures Settled(l, Next(l, event), event, l.remaining)
  {
  }

  lemma RunOfPrefix(l: Lookup, events: seq<Event>, i: nat)
    requires 0 < i <= |events|
    ensures Run(l, events[..i]) == Run(Next(l, events[0]), events[1..][..i - 1])
  {
    assert events[..i][1..] == events[1..][..i - 1];
  }

  /** Whatever is requested before and after, the first request for a module or file decides what
      the rest of the request sees of it: the file if it fitted into what remained of the budget just
      then, and an error if it did not; for a module also where its sources are looked up. */
  lemma {:induction false} FirstRequestDecides(l: Lookup, events: seq<Event>, i: nat)
    requires i < |events| && IsFirst(l, events, i)
    ensures Settled(l, Run(l, events), events[i], Run(l, events[..i]).remaining)
    decreases |events|
  {
    var next := Next(l, events[0]);
    if i == 0 {
      assert IsFirst(l, [events[0]], 0);
      FirstIsSettled(l, events[0]);
      FetchedStays(next, events[1..]);
    } else {
      forall j | 0 <= j < i - 1 ensures events[1..][j] == events[j + 1] {
      }
      assert IsFirst(next, events[1..], i - 1);
      RunOfPrefix(l, events, i);
      assert events[i].GetModule? ==> Known(next, events[i].absPath) == Known(l, events[i].absPath);
      FirstRequestDecides(next, events[1..], i - 1);
    }
  }

  // ---------------------------------------------------------------------------------------------
  // The lookup of a request

  const ASYNC_PREFIX := "async "

  function StripAsync(path: string): string {
    if Strings.StartsWith(path, ASYNC_PREFIX) then path[|ASYNC_PREFIX|..] else path
  }

  /** One prefix is taken off, and nothing else. */
  lemma AsyncIsStripped(path: string)
    ensures StripAsync("async " + path) == path
    ensures !Strings.StartsWith(path, "async ") ==> StripAsync(path) == path
  {
    assert ("async " + path)[|ASYNC_PREFIX|..] == path;
  }

  function Prepared(l: Lookup, frames: seq<string>): Lookup {
    if frames == [] then l
    else WithModule(Prepared(l, frames[..|frames| - 1]), StripAsync(frames[|frames| - 1]))
  }

  /** Preparing makes exactly the paths of the frames known, and charges nothing. */
  lemma {:induction false} PreparedKnows(l: Lookup, frames: seq<string>)
    requires Inv(l)
    ensures Inv(Prepared(l, frames)) && Total(Prepared(l, frames)) == Total(l)
    ensures Prepared(l, frames).remaining == l.remaining && Prepared(l, frames).files == l.files
    ensures forall path :: path in Prepared(l, frames).modules <==>
      path in l.modules || exists i :: 0 <= i < |frames| && StripAsync(frames[i]) == path
    ensures forall path :: path in l.modules ==> Prepared(l, frames).modules[path] == l.modules[path]
  {
    if frames != [] {
      var init := frames[..|frames| - 1];
      PreparedKnows(l, init);
      PrepareConserves(Prepared(l, init), StripAsync(frames[|frames| - 1]));
      forall path ensures path in Prepared(l, frames).modules <==>
          path in l.modules || exists i :: 0 <= i < |frames| && StripAsync(frames[i]) == path {
        if i :| 0 <= i < |frames| && StripAsync(frames[i]) == path {
          assert i < |init| ==> StripAsync(init[i]) == path;
        }
      }
    }
  }

  /** Of the first `k` listed modules, number `i` is the last with the path. */
  predicate IsLast(listed: seq<(string, Option<A.DebugId>)>, k: nat, i: int, path: string) {
    0 <= i < k <= |listed| && listed[i].0 == path && forall j :: i < j < k ==> listed[j].0 != path
  }

  /** The module is unfetched and has the debug id that was listed last for the path. */
  ghost predicate IsListed(listed: seq<(string, Option<A.DebugId>)>, k: nat, m: Module, path: string) {
    exists i :: IsLast(listed, k, i, path) && m == Unfetched(path, listed[i].1)
  }

  /** The modules are those of the first `k` listed ones, none of them fetched. */
  ghost predicate AreListed(listed: seq<(string, Option<A.DebugId>)>, k: nat, modules: map<string, Module>)
    requires k <= |listed|
  {
    && (forall i :: 0 <= i < k ==> listed[i].0 in modules)
    && forall path :: path in modules ==> IsListed(listed, k, modules[path], path)
  }

  lemma ListOneMore(listed: seq<(string, Option<A.DebugId>)>, k: nat, modules: map<string, Module>)
    requires k < |listed| && AreListed(listed, k, modules)
    ensures AreListed(listed, k + 1, modules[listed[k].0 := Unfetched(listed[k].0, listed[k].1)])
  {
    var more := modules[listed[k].0 := Unfetched(listed[k].0, listed[k].1)];
    forall path | path in more ensures IsListed(listed, k + 1, more[path], path) {
      if path == listed[k].0 {
        assert IsLast(listed, k + 1, k, path);
      } else {
        var i :| IsLast(listed, k, i, path) && modules[path] == Unfetched(path, listed[i].1);
        assert IsLast(listed, k + 1, i, path);
      }
    }
  }

  lemma EmptyTotal(l: Lookup)
    requires l.modules == map[] && l.files == map[]
    ensures Inv(l) && Total(l) == 0
  {
  }

  class SourceMapLookup {
    var modules: map<string, Module>
    var files: map<A.FileKey, A.Entry>
    var remaining: nat
    ghost const budget: nat

    ghost function State(): Lookup
      reads this
    {
      Lookup(modules, files, remaining)
    }

    ghost predicate Valid()
      reads this
    {
      Inv(State()) && remaining + Total(State()) == budget
    }

    /** A request lists its modules; without a configured maximum the budget is the largest size. */
    constructor (listed: seq<(string, Option<A.DebugId>)>, maximum: Option<u64>)
      ensures Valid() && files == map[]
      ensures remaining == budget == if maximum.Some? then maximum.value else U64_LIMIT - 1
      ensures AreListed(listed, |listed|, modules)
    {
      modules, files := map[], map[];
      remaining := if maximum.Some? then maximum.value else U64_LIMIT - 1;
      budget := if maximum.Some? then maximum.value else U64_LIMIT - 1;
      new;
      EmptyTotal(State());
      for k := 0 to |listed|
        invariant Valid() && files == map[] && remaining == budget
        invariant AreListed(listed, k, modules)
      {
        ListOneMore(listed, k, modules);
        assert listed[k].0 in modules ==> IsListed(listed, k, modules[listed[k].0], listed[k].0);
        List(listed[k].0, listed[k].1);
      }
    }

    /** Adds a module of the request, or replaces one that is not fetched. */
    method List(codeFile: string, debugId: Option<A.DebugId>)
      requires Valid() && (codeFile in modules ==> !modules[codeFile].wasFetched)
      modifies this`modules
      ensures Valid() && modules == old(modules)[codeFile := Unfetched(codeFile, debugId)]
    {
      ModuleTotal(State(), codeFile, Unfetched(codeFile, debugId));
      modules := modules[codeFile := Unfetched(codeFile, debugId)];
    }

    /** Takes an old SDK's prefix off the frames' paths, in place, and makes the paths known. */
    method PrepareModules(frames: array<string>)
      requires Valid()
      modifies this, frames
      ensures Valid() && State() == Prepared(old(State()), old(frames[..]))
      ensures forall i :: 0 <= i < frames.Length ==> frames[i] == StripAsync(old(frames[i]))
    {
      ghost var was := frames[..];
      for i := 0 to frames.Length
        invariant Valid() && State() == Prepared(old(State()), was[..i])
        invariant forall j :: 0 <= j < i ==> frames[j] == StripAsync(was[j])
        invariant forall j :: i <= j < frames.Length ==> frames[j] == was[j]
      {
        if Strings.StartsWith(frames[i], ASYNC_PREFIX) {
          frames[i] := frames[i][|ASYNC_PREFIX|..];
        }
        assert was[..i + 1][..i] == was[..i];
        PrepareModule(frames[i]);
      }
      assert was[..frames.Length] == was;
    }

    method PrepareModule(absPath: string)
      requires Valid()
      modifies this
      ensures Valid() && State() == WithModule(old(State()), absPath)
    {
      PrepareConserves(State(), absPath);
      if absPath !in modules {
        modules := modules[absPath := Unfetched(absPath, None)];
      }
    }

    method ApplySourcesBudget(entry: A.Entry) returns (r: A.Entry)
      modifies this`remaining
      ensures (remaining, r) == Charged(old(remaining), entry)
    {
      match entry.file
      case Err(_) =>
        return entry;
      case Ok(file) =>
        var size := if file.contents.Some? then |file.contents.value| else 0;
        if size > remaining {
          return entry.(file := Err(A.NotFound));
        }
        remaining := remaining - size;
        return entry;
    }

    method GetModule(absPath: string, fetched: A.Entry) returns (r: Module)
      requires Valid()
      modifies this
      ensures Valid() && State() == WithFetchedModule(old(State()), absPath, fetched)
      ensures absPath in modules && r == modules[absPath] && r.wasFetched
    {
      StepConserves(State(), Event.GetModule(absPath, fetched));
      if absPath !in modules {
        modules := modules[absPath := Unfetched(absPath, None)];
      }
      r := modules[absPath];
      if r.wasFetched {
        return;
      }
      var minified := ApplySourcesBudget(fetched);
      r := r.(wasFetched := true, minifiedSource := Some(minified),
              sourceFileBase := Some(SourceFileBase(minified, r.absPath)));
      modules := modules[absPath := r];
    }

    method GetSourceFile(key: A.FileKey, fetched: A.Entry) returns (r: A.Entry)
      requires Valid()
      modifies this
      ensures Valid() && State() == WithSourceFile(old(State()), key, fetched)
      ensures key in files && r == files[key]
    {
      StepConserves(State(), Event.GetSourceFile(key, fetched));
      if key !in files {
        var file := ApplySourcesBudget(fetched);
        files := files[key := file];
      }
      r := files[key];
    }
  }
}

/** Sums over finite maps. */
module Sums {

  ghost function Sum<K>(m: map<K, nat>): nat
    decreases |m|
  {
    if m == map[] then 0
    else
      var k :| k in m;
      m[k] + Sum(m - {k})
  }

  lemma {:induction false} SumRemove<K>(m: map<K, nat>, k: K)
    requires k in m
    ensures Sum(m) == m[k] + Sum(m - {k})
    decreases |m|
  {
    var j :| j in m && Sum(m) == m[j] + Sum(m - {j});
    if j != k {
      SumRemove(m - {j}, k);
      SumRemove(m - {k}, j);
      assert m - {j} - {k} == m - {k} - {j};
    }
  }

  lemma SumUpdate<K>(m: map<K, nat>, k: K, n: nat)
    ensures Sum(m[k := n]) + (if k in m then m[k] else 0) == Sum(m) + n
  {
    SumRemove(m[k := n], k);
    if k in m {
      SumRemove(m, k);
      assert m[k := n] - {k} == m - {k};
    } else {
      assert m[k := n] - {k} == m;
    }
  }
}
