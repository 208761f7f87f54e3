/**
Looking files up in artifact bundles.  A bundle is an immutable partial map, and one URI always
opens to the same bundle.  The cache of found files is shared by all requests and drops the
contents of source maps, which are taken from the bundle again when they are needed.
*/
module ArtifactLookup {
  import opened Common
  import FileStems
  import Strings
  import JoinPaths

  /** URIs are ordered, as keys of the ordered map of bundles. */
  type Uri = nat
  type DebugId(==,!new)
  type Contents = seq<byte>

  datatype SourceFileType = MinifiedSource | SourceMap | Source

  datatype FileKey =
    | MinifiedKey(minifiedPath: string, minifiedDebugId: Option<DebugId>)
    | SourceMapKey(mapPath: Option<string>, mapDebugId: Option<DebugId>)
    | SourceKey(sourcePath: string)
  {
    function FileType(): SourceFileType {
      match this
      case MinifiedKey(_, _) => MinifiedSource
      case SourceMapKey(_, _) => SourceMap
      case SourceKey(_) => Source
    }

    function DebugId(): Option<DebugId> {
      match this
      case MinifiedKey(_, id) => id
      case SourceMapKey(_, id) => id
      case SourceKey(_) => None
    }

    function AbsPath(): Option<string> {
      match this
      case MinifiedKey(path, _) => Some(path)
      case SourceMapKey(path, _) => path
      case SourceKey(path) => Some(path)
    }
  }

  type Link = s: string | !Strings.StartsWith(s, "data:")

  /** A source map reference in a descriptor; a `data:` URL stands for what it decodes to, if it
      does. */
  datatype Reference = Link(url: Link) | DataUrl(decoded: Option<Contents>)

  datatype Descriptor = Descriptor(contents: Option<Contents>, sourceMappingUrl: Option<Reference>)

  datatype Bundle = Bundle(
    byDebugId: map<(DebugId, SourceFileType), Descriptor>,
    byUrl: map<string, Descriptor>)

  datatype CacheError = NotFound | Malformed | OtherError

  datatype SourceMapUrl = Data(contents: Contents) | Remote(url: string)

  datatype CachedFile = CachedFile(contents: Option<Contents>, sourcemapUrl: Option<SourceMapUrl>)

  datatype CachedFileUri =
    | IndividualFile(artifact: Uri)
    | ScrapedFile
    | Bundled(bundle: Uri, key: FileKey)

  datatype ResolvedWith = ByDebugId | ByUrl | ByOther(tag: int)

  datatype Entry = Entry(uri: CachedFileUri, file: Result<CachedFile, CacheError>, resolvedWith: ResolvedWith)

  function FromDescriptor(absPath: Option<string>, d: Descriptor): Result<CachedFile, CacheError> {
    var url := match d.sourceMappingUrl
      case None => Ok(None)
      case Some(reference) =>
        match absPath
        case None => Err(Malformed)
        case Some(path) =>
          match reference
          case Link(url) => Ok(Some(Remote(JoinPaths.Joined(path, url))))
          case DataUrl(None) => Err(Malformed)
          case DataUrl(Some(decoded)) => Ok(Some(Data(decoded)));
    match url
    case Err(error) => Err(error)
    case Ok(sourcemapUrl) =>
      match d.contents
      case None => Err(Malformed)
      case Some(contents) => Ok(CachedFile(Some(contents), sourcemapUrl))
  }

  // ---------------------------------------------------------------------------------------------
  // Finding a descriptor

  function FirstUrl(bundle: Bundle, urls: seq<string>): Option<Descriptor> {
    if urls == [] then None
    else if urls[0] in bundle.byUrl then Some(bundle.byUrl[urls[0]])
    else FirstUrl(bundle, urls[1..])
  }

  predicate HasDebugId(bundle: Bundle, key: FileKey) {
    key.DebugId().Some? && (key.DebugId().value, key.FileType()) in bundle.byDebugId
  }

  /** The lookup in one bundle that is done when the contents of a source map are needed again. */
  function GetDescriptorFromBundle(bundle: Bundle, key: FileKey): Option<Descriptor> {
    if HasDebugId(bundle, key) then Some(bundle.byDebugId[(key.DebugId().value, key.FileType())])
    else
      match key.AbsPath()
      case None => None
      case Some(path) => FirstUrl(bundle, FileStems.CandidateUrls(path))
  }

  /** A bundle of this request; it may have failed to download or to open. */
  datatype Slot = Slot(uri: Uri, bundle: Result<Bundle, CacheError>, resolvedWith: ResolvedWith)

  /** The ordered map of the bundles, by URI. */
  predicate IsOrdered(slots: seq<Slot>) {
    forall i, j :: 0 <= i < j < |slots| ==> slots[i].uri < slots[j].uri
  }

  predicate Open(slot: Slot) {
    slot.bundle.Ok?
  }

  /** No open bundle knows the key by its debug id. */
  predicate NoneHasDebugId(slots: seq<Slot>, key: FileKey) {
    forall i :: 0 <= i < |slots| && Open(slots[i]) ==> !HasDebugId(slots[i].bundle.value, key)
  }

  predicate SlotHasUrl(slot: Slot, url: string) {
    Open(slot) && url in slot.bundle.value.byUrl
  }

  predicate NoneHasUrl(slots: seq<Slot>, url: string) {
    forall i :: 0 <= i < |slots| ==> !SlotHasUrl(slots[i], url)
  }

  lemma {:induction false} FirstUrlAt(bundle: Bundle, urls: seq<string>, k: nat)
    requires k < |urls| && urls[k] in bundle.byUrl
    requires forall j :: 0 <= j < k ==> urls[j] !in bundle.byUrl
    ensures FirstUrl(bundle, urls) == Some(bundle.byUrl[urls[k]])
  {
    if k > 0 {
      FirstUrlAt(bundle, urls[1..], k - 1);
    }
  }

  // ---------------------------------------------------------------------------------------------
  // The shared cache

  /** Source maps are cached without their contents. */
  function Stripped(key: FileKey, entry: Entry): Entry {
    if key.SourceMapKey? && entry.file.Ok? then
      entry.(file := Ok(entry.file.value.(contents := None)))
    else entry
  }

  /** What a lookup of `key` in the bundle `uri` yields. */
  predicate FoundIn(entry: Entry, uri: Uri, key: FileKey, bundle: Bundle) {
    && entry.uri == Bundled(uri, key)
    && GetDescriptorFromBundle(bundle, key).Some?
    && entry.file == FromDescriptor(key.AbsPath(), GetDescriptorFromBundle(bundle, key).value)
  }

  /** Every cached file is the one that its bundle gives for its key, but for dropped contents. */
  ghost predicate Sound(cache: Cache, store: Uri -> Bundle) {
    forall uri, key :: (uri, key) in cache ==> SoundAt(cache[(uri, key)].0, uri, key, store)
  }

  ghost predicate SoundAt(entry: Entry, uri: Uri, key: FileKey, store: Uri -> Bundle) {
    exists full :: entry == Stripped(key, full) && FoundIn(full, uri, key, store(uri))
  }

  type Cache = map<(Uri, FileKey), (Entry, ResolvedWith)>

  /** The first of the bundles for which the key is cached. */
  function FirstCached(cache: Cache, uris: seq<Uri>, key: FileKey): Option<(Uri, Entry, ResolvedWith)> {
    if uris == [] then None
    else if (uris[0], key) in cache then
      var (entry, resolvedWith) := cache[(uris[0], key)];
      Some((uris[0], entry, resolvedWith))
    else FirstCached(cache, uris[1..], key)
  }

  class FileInBundleCache {
    /** What each URI opens to. */
    ghost const store: Uri -> Bundle
    var cache: Cache

    ghost predicate Valid()
      reads this
    {
      Sound(cache, store)
    }

    constructor (ghost store: Uri -> Bundle)
      ensures Valid() && this.store == store && cache == map[]
    {
      this.store := store;
      cache := map[];
    }

    method TryGet(uris: seq<Uri>, key: FileKey) returns (r: Option<(Uri, Entry, ResolvedWith)>)
      ensures r == FirstCached(cache, uris, key)
    {
      for i := 0 to |uris|
        invariant FirstCached(cache, uris, key) == FirstCached(cache, uris[i..], key)
      {
        var lookupKey := (uris[i], key);
        if lookupKey in cache {
          var (entry, resolvedWith) := cache[lookupKey];
          return Some((lookupKey.0, entry, resolvedWith));
        }
      }
      r := None;
    }

    method Insert(uri: Uri, key: FileKey, resolvedWith: ResolvedWith, entry: Entry)
      modifies this
      ensures cache == old(cache)[(uri, key) := (Stripped(key, entry), resolvedWith)]
      ensures old(Valid()) && FoundIn(entry, uri, key, store(uri)) ==> Valid()
    {
      var fileEntry := entry;
      if key.SourceMapKey? && fileEntry.file.Ok? {
        fileEntry := fileEntry.(file := Ok(fileEntry.file.value.(contents := None)));
      }
      cache := cache[(uri, key) := (fileEntry, resolvedWith)];
      if old(Valid()) && FoundIn(entry, uri, key, store(uri)) {
        forall u, k | (u, k) in cache ensures SoundAt(cache[(u, k)].0, u, k, store) {
          if (u, k) != (uri, key) {
            assert old(cache)[(u, k)] == cache[(u, k)];
          } else {
            assert fileEntry == Stripped(key, entry);
          }
        }
      }
    }

    /** The cache may drop what it likes at any time. */
    method Evict(keys: set<(Uri, FileKey)>)
      modifies this
      ensures cache == old(cache) - keys
      ensures old(Valid()) ==> Valid()
    {
      cache := cache - keys;
    }
  }

  // ---------------------------------------------------------------------------------------------
  // The fetcher of one request

  /** The last bundle, in the order of URIs, that has the key by its debug id. */
  function FindByDebugId(slots: seq<Slot>, key: FileKey): Option<Entry> {
    if slots == [] then None
    else
      var last := slots[|slots| - 1];
      if Open(last) && HasDebugId(last.bundle.value, key) then
        var d := last.bundle.value.byDebugId[(key.DebugId().value, key.FileType())];
        Some(Entry(Bundled(last.uri, key), FromDescriptor(key.AbsPath(), d), ByDebugId))
      else FindByDebugId(slots[..|slots| - 1], key)
  }

  /** The last bundle that has the URL. */
  function FindByUrl(slots: seq<Slot>, key: FileKey, url: string): Option<Entry> {
    if slots == [] then None
    else
      var last := slots[|slots| - 1];
      if SlotHasUrl(last, url) then
        var d := last.bundle.value.byUrl[url];
        Some(Entry(Bundled(last.uri, key), FromDescriptor(key.AbsPath(), d), last.resolvedWith))
      else FindByUrl(slots[..|slots| - 1], key, url)
  }

  /** The first URL that some bundle has. */
  function FindByUrls(slots: seq<Slot>, key: FileKey, urls: seq<string>): Option<Entry> {
    if urls == [] then None
    else
      match FindByUrl(slots, key, urls[0])
      case Some(entry) => Some(entry)
      case None => FindByUrls(slots, key, urls[1..])
  }

  function FindByPath(slots: seq<Slot>, key: FileKey): Option<Entry> {
    match key.AbsPath()
    case None => None
    case Some(path) => FindByUrls(slots, key, FileStems.CandidateUrls(path))
  }

  /** An individual artifact, and what fetching it gives. */
  datatype Artifact = Artifact(remote: Uri, file: Result<CachedFile, CacheError>, resolvedWith: ResolvedWith)

  function FirstArtifact(artifacts: map<string, Artifact>, urls: seq<string>): Option<Entry> {
    if urls == [] then None
    else if urls[0] in artifacts then
      var a := artifacts[urls[0]];
      Some(Entry(IndividualFile(a.remote), a.file, a.resolvedWith))
    else FirstArtifact(artifacts, urls[1..])
  }

  function FindArtifact(artifacts: map<string, Artifact>, key: FileKey): Option<Entry> {
    match key.AbsPath()
    case None => None
    case Some(path) => FirstArtifact(artifacts, FileStems.CandidateUrls(path))
  }

  /** The documented order: by debug id in all known bundles, then by path, then an artifact. */
  function Resolve(slots: seq<Slot>, artifacts: map<string, Artifact>, key: FileKey): Option<Entry> {
    OrElse(if key.DebugId().Some? then FindByDebugId(slots, key) else None,
           OrElse(FindByPath(slots, key), FindArtifact(artifacts, key)))
  }

  function UrisFromLast(slots: seq<Slot>): seq<Uri> {
    if slots == [] then [] else [slots[|slots| - 1].uri] + UrisFromLast(slots[..|slots| - 1])
  }

  function InsertSlot(slots: seq<Slot>, slot: Slot): seq<Slot> {
    if slots == [] || slots[|slots| - 1].uri < slot.uri then slots + [slot]
    else InsertSlot(slots[..|slots| - 1], slot) + [slots[|slots| - 1]]
  }

  predicate Known(slots: seq<Slot>, uri: Uri) {
    exists i :: 0 <= i < |slots| && slots[i].uri == uri
  }

  ghost predicate SlotsMatch(slots: seq<Slot>, store: Uri -> Bundle) {
    forall i :: 0 <= i < |slots| && Open(slots[i]) ==> slots[i].bundle.value == store(slots[i].uri)
  }

  lemma {:induction false} InsertMembers(slots: seq<Slot>, slot: Slot)
    ensures forall x :: x in InsertSlot(slots, slot) <==> x == slot || x in slots
  {
    if slots != [] && slots[|slots| - 1].uri >= slot.uri {
      InsertMembers(slots[..|slots| - 1], slot);
      assert slots == slots[..|slots| - 1] + [slots[|slots| - 1]];
    }
  }

  lemma {:induction false} InsertKeepsOrder(slots: seq<Slot>, slot: Slot)
    requires IsOrdered(slots) && !Known(slots, slot.uri)
    ensures IsOrdered(InsertSlot(slots, slot))
  {
    if slots != [] && slots[|slots| - 1].uri >= slot.uri {
      var init, last := slots[..|slots| - 1], slots[|slots| - 1];
      assert last.uri != slot.uri;
      InsertKeepsOrder(init, slot);
      InsertMembers(init, slot);
      var r := InsertSlot(init, slot);
      forall i | 0 <= i < |r| ensures r[i].uri < last.uri {
        assert r[i] in r;
      }
    }
  }

  lemma InsertKeeps(slots: seq<Slot>, slot: Slot, store: Uri -> Bundle)
    requires IsOrdered(slots) && SlotsMatch(slots, store) && !Known(slots, slot.uri)
    requires Open(slot) ==> slot.bundle.value == store(slot.uri)
    ensures IsOrdered(InsertSlot(slots, slot)) && SlotsMatch(InsertSlot(slots, slot), store)
    ensures slot in InsertSlot(slots, slot) && forall x :: x in slots ==> x in InsertSlot(slots, slot)
  {
    InsertKeepsOrder(slots, slot);
    InsertMembers(slots, slot);
    var r := InsertSlot(slots, slot);
    forall i | 0 <= i < |r| && Open(r[i]) ensures r[i].bundle.value == store(r[i].uri) {
      assert r[i] in r;
    }
  }

  datatype ApiResult =
    | IndividualArtifact(absPath: string, artifact: Artifact)
    | ArtifactBundle(uri: Uri, fetched: Result<Bundle, CacheError>, resolvedWith: ResolvedWith)

  /** Fetching a bundle fails or gives the bundle of its URI. */
  ghost predicate ApiMatches(results: seq<ApiResult>, store: Uri -> Bundle) {
    forall i :: 0 <= i < |results| && results[i].ArtifactBundle? && results[i].fetched.Ok? ==>
      results[i].fetched.value == store(results[i].uri)
  }

  /** The bundles and artifacts of a request. */
  datatype Sources = Sources(slots: seq<Slot>, artifacts: map<string, Artifact>)

  /** Takes in one result, unless its path or its bundle is known. */
  function Absorb(known: Sources, result: ApiResult): Sources {
    match result
    case IndividualArtifact(absPath, artifact) =>
      if absPath in known.artifacts then known
      else known.(artifacts := known.artifacts[absPath := artifact])
    case ArtifactBundle(uri, fetched, resolvedWith) =>
      if Known(known.slots, uri) then known
      else known.(slots := InsertSlot(known.slots, Slot(uri, fetched, resolvedWith)))
  }

  predicate Includes(sources: Sources, result: ApiResult) {
    match result
    case IndividualArtifact(path, _) => path in sources.artifacts
    case ArtifactBundle(uri, _, _) => Known(sources.slots, uri)
  }

  /** What is known after an answer of the API, and whether any of it is new. */
  function Merged(known: Sources, results: seq<ApiResult>): (Sources, bool) {
    if results == [] then (known, false)
    else
      var (sources, isNew) := Merged(known, results[..|results| - 1]);
      var last := results[|results| - 1];
      (Absorb(sources, last), isNew || !Includes(sources, last))
  }

  predicate MayAsk(key: FileKey, hasRelease: bool) {
    key.DebugId().Some? || (key.AbsPath().Some? && hasRelease)
  }

  function AfterQuery(known: Sources, key: FileKey, hasRelease: bool, results: Option<seq<ApiResult>>)
    : (Sources, bool)
  {
    if MayAsk(key, hasRelease) && results.Some? then Merged(known, results.value) else (known, false)
  }

  /** The API is asked for a key with a debug id unless a known bundle has the debug id, and for a
      key without one unless it can be resolved already. */
  function AfterFetch(known: Sources, key: FileKey, hasRelease: bool, results: Option<seq<ApiResult>>): Sources {
    var found := if key.DebugId().Some? then FindByDebugId(known.slots, key)
                 else OrElse(FindByPath(known.slots, key), FindArtifact(known.artifacts, key));
    if found.Some? then known else AfterQuery(known, key, hasRelease, results).0
  }

  ghost predicate InOrder(sources: Sources, store: Uri -> Bundle) {
    IsOrdered(sources.slots) && SlotsMatch(sources.slots, store)
  }

  /** Nothing known is lost or replaced. */
  ghost predicate Grew(a: Sources, b: Sources) {
    && |a.slots| <= |b.slots| && (forall slot :: slot in a.slots ==> slot in b.slots)
    && |a.artifacts| <= |b.artifacts|
    && forall path :: path in a.artifacts ==> path in b.artifacts && b.artifacts[path] == a.artifacts[path]
  }

  function Size(sources: Sources): nat {
    |sources.slots| + |sources.artifacts|
  }

  lemma AbsorbGrows(known: Sources, result: ApiResult, store: Uri -> Bundle)
    requires InOrder(known, store)
    requires result.ArtifactBundle? && result.fetched.Ok? ==> result.fetched.value == store(result.uri)
    ensures InOrder(Absorb(known, result), store) && Grew(known, Absorb(known, result))
    ensures Includes(Absorb(known, result), result)
    ensures Size(Absorb(known, result)) == if Includes(known, result) then Size(known) else Size(known) + 1
  {
    if result.ArtifactBundle? && !Known(known.slots, result.uri) {
      var slot := Slot(result.uri, result.fetched, result.resolvedWith);
      InsertKeeps(known.slots, slot, store);
      InsertLength(known.slots, slot);
    }
  }

  lemma {:induction false} InsertLength(slots: seq<Slot>, slot: Slot)
    ensures |InsertSlot(slots, slot)| == |slots| + 1
  {
    if slots != [] && slots[|slots| - 1].uri >= slot.uri {
      InsertLength(slots[..|slots| - 1], slot);
    }
  }

  lemma GrewIncludes(a: Sources, b: Sources, result: ApiResult)
    requires Grew(a, b) && Includes(a, result)
    ensures Includes(b, result)
  {
    if result.ArtifactBundle? {
      var i :| 0 <= i < |a.slots| && a.slots[i].uri == result.uri;
      assert a.slots[i] in b.slots;
    }
  }

  /** What was known stays as it was, everything in the answer becomes known, and the answer is
      new exactly if it changes anything. */
  lemma {:induction false} MergedGrows(known: Sources, results: seq<ApiResult>, store: Uri -> Bundle)
    requires InOrder(known, store) && ApiMatches(results, store)
    ensures InOrder(Merged(known, results).0, store) && Grew(known, Merged(known, results).0)
    ensures forall i :: 0 <= i < |results| ==> Includes(Merged(known, results).0, results[i])
    ensures Merged(known, results).1 <==> Merged(known, results).0 != known
    ensures Merged(known, results).1 <==> Size(Merged(known, results).0) > Size(known)
  {
    if results != [] {
      var init, last := results[..|results| - 1], results[|results| - 1];
      MergedGrows(known, init, store);
      var (before, _) := Merged(known, init);
      AbsorbGrows(before, last, store);
      forall i | 0 <= i < |init| ensures Includes(Absorb(before, last), init[i]) {
        GrewIncludes(before, Absorb(before, last), init[i]);
      }
    }
  }

  /** The very artifact or bundle of a result is known. */
  predicate Holds(sources: Sources, result: ApiResult) {
    match result
    case IndividualArtifact(path, artifact) => path in sources.artifacts && sources.artifacts[path] == artifact
    case ArtifactBundle(uri, fetched, how) => Slot(uri, fetched, how) in sources.slots
  }

  predicate SameSource(a: ApiResult, b: ApiResult) {
    match a
    case IndividualArtifact(path, _) => b.IndividualArtifact? && b.absPath == path
    case ArtifactBundle(uri, _, _) => b.ArtifactBundle? && b.uri == uri
  }

  /** Number `i` of an answer is the first for its path or bundle, and that was not known before. */
  ghost predicate IsNews(known: Sources, results: seq<ApiResult>, i: nat) {
    i < |results| && !Includes(known, results[i]) && forall j :: 0 <= j < i ==> !SameSource(results[j], results[i])
  }

  ghost predicate AmongNews(known: Sources, results: seq<ApiResult>, result: ApiResult) {
    exists i: nat :: IsNews(known, results, i) && results[i] == result
  }

  lemma AbsorbIs(known: Sources, absorbed: ApiResult, result: ApiResult)
    ensures Includes(Absorb(known, absorbed), result) <==> Includes(known, result) || SameSource(absorbed, result)
    ensures Holds(Absorb(known, absorbed), result) <==>
      Holds(known, result) || (absorbed == result && !Includes(known, absorbed))
  {
    if absorbed.ArtifactBundle? && !Known(known.slots, absorbed.uri) {
      var slot := Slot(absorbed.uri, absorbed.fetched, absorbed.resolvedWith);
      InsertMembers(known.slots, slot);
      KnownIsMember(known.slots, InsertSlot(known.slots, slot), slot);
    }
  }

  lemma KnownIsMember(slots: seq<Slot>, more: seq<Slot>, slot: Slot)
    requires forall x :: x in more <==> x == slot || x in slots
    ensures forall uri :: Known(more, uri) <==> Known(slots, uri) || uri == slot.uri
  {
    forall uri ensures Known(more, uri) <==> Known(slots, uri) || uri == slot.uri {
      if i :| 0 <= i < |more| && more[i].uri == uri {
        assert more[i] in more;
      }
      if i :| 0 <= i < |slots| && slots[i].uri == uri {
        assert slots[i] in more;
      }
      assert slot in more;
    }
  }

  lemma {:induction false} MergedIncludes(known: Sources, results: seq<ApiResult>, result: ApiResult)
    ensures Includes(Merged(known, results).0, result) <==>
      Includes(known, result) || exists j :: 0 <= j < |results| && SameSource(results[j], result)
  {
    if results != [] {
      var init, last := results[..|results| - 1], results[|results| - 1];
      MergedIncludes(known, init, result);
      AbsorbIs(Merged(known, init).0, last, result);
      assert results == init + [last];
    }
  }

  /** After an answer exactly these artifacts and bundles are known: those known before, and of each
      path and each bundle that was not known the first that the answer gives. */
  lemma {:induction false} MergedIs(known: Sources, results: seq<ApiResult>, result: ApiResult)
    ensures Holds(Merged(known, results).0, result) <==> Holds(known, result) || AmongNews(known, results, result)
  {
    if results != [] {
      var init, last := results[..|results| - 1], results[|results| - 1];
      MergedIs(known, init, result);
      MergedIncludes(known, init, last);
      AbsorbIs(Merged(known, init).0, last, result);
      NewsOfLast(known, init, last);
      NewsOfMore(known, init, last, result);
      assert results == init + [last];
    }
  }

  lemma NewsOfLast(known: Sources, init: seq<ApiResult>, last: ApiResult)
    ensures IsNews(known, init + [last], |init|) <==>
      !(Includes(known, last) || exists j :: 0 <= j < |init| && SameSource(init[j], last))
  {
    var all := init + [last];
    assert forall j :: 0 <= j < |init| ==> all[j] == init[j];
  }

  lemma NewsOfMore(known: Sources, init: seq<ApiResult>, last: ApiResult, result: ApiResult)
    ensures AmongNews(known, init + [last], result) <==>
      AmongNews(known, init, result) || (last == result && IsNews(known, init + [last], |init|))
  {
    var all := init + [last];
    forall i: nat | i < |init| ensures IsNews(known, all, i) <==> IsNews(known, init, i) {
      assert forall j :: 0 <= j <= i ==> all[j] == init[j];
    }
    if AmongNews(known, init, result) {
      var i: nat :| IsNews(known, init, i) && init[i] == result;
      assert IsNews(known, all, i) && all[i] == result;
    }
  }

  lemma QueryNews(known: Sources, key: FileKey, hasRelease: bool, results: Option<seq<ApiResult>>, store: Uri -> Bundle)
    requires IsOrdered(known.slots) && SlotsMatch(known.slots, store)
    requires results.Some? ==> ApiMatches(results.value, store)
    ensures var (sources, isNew) := AfterQuery(known, key, hasRelease, results); isNew <==> sources != known
  {
    if results.Some? {
      MergedGrows(known, results.value, store);
    }
  }

  /** The result of fetching a file: what the cache has for one of the bundles known before, or
      else what is found in the bundles and artifacts known after, or else what is scraped. */
  function Fetched(cache: Cache, before: seq<Slot>, slots: seq<Slot>, artifacts: map<string, Artifact>,
    key: FileKey, scraped: Entry): Entry
  {
    match FirstCached(cache, UrisFromLast(before), key)
    case Some(hit) => hit.1
    case None => OrElse(Resolve(slots, artifacts, key), Some(scraped)).value
  }

  /** What the API answers to a debug id and a file stem, or `None` if the request fails. */
  type Api = (Option<DebugId>, Option<string>) -> Option<seq<ApiResult>>

  function Answer(api: Api, key: FileKey): Option<seq<ApiResult>> {
    var path := key.AbsPath();
    api(key.DebugId(), if path.Some? then Some(FileStems.ExtractFileStem(path.value)) else None)
  }

  ghost predicate AnswerMatches(api: Api, key: FileKey, store: Uri -> Bundle) {
    Answer(api, key).Some? ==> ApiMatches(Answer(api, key).value, store)
  }

  /** The cache after a lookup: what was found in a bundle is cached for it. */
  function Remember(cache: Cache, key: FileKey, found: Option<Entry>, how: ResolvedWith): Cache {
    if found.Some? && found.value.uri.Bundled? then
      cache[(found.value.uri.bundle, key) := (Stripped(key, found.value), how)]
    else cache
  }

  function HowFound(slots: seq<Slot>, key: FileKey): ResolvedWith {
    if FindByDebugId(slots, key).Some? then ByDebugId else ByUrl
  }

  class ArtifactFetcher {
    const files: FileInBundleCache
    const hasRelease: bool
    var bundles: seq<Slot>
    var artifacts: map<string, Artifact>

    ghost predicate Valid()
      reads this, files
    {
      files.Valid() && IsOrdered(bundles) && SlotsMatch(bundles, files.store)
    }

    constructor (files: FileInBundleCache, hasRelease: bool)
      requires files.Valid()
      ensures Valid() && this.files == files && bundles == [] && artifacts == map[]
    {
      this.files := files;
      this.hasRelease := hasRelease;
      bundles, artifacts := [], map[];
    }

    method TryGetFileFromBundlesCached(key: FileKey) returns (r: Option<Entry>)
      ensures r == match FirstCached(files.cache, UrisFromLast(bundles), key)
                   case Some(hit) => Some(hit.1)
                   case None => None
    {
      if bundles == [] {
        return None;
      }
      var hit := files.TryGet(UrisFromLast(bundles), key);
      r := match hit case Some(found) => Some(found.1) case None => None;
    }

    method TryGetFileFromBundlesByDebugId(key: FileKey) returns (r: Option<Entry>)
      requires Valid()
      modifies files
      ensures Valid() && r == FindByDebugId(bundles, key)
      ensures files.cache == Remember(old(files.cache), key, r, ByDebugId)
    {
      if key.DebugId().None? {
        NoDebugIdNotFound(bundles, key);
        return None;
      }
      var i := |bundles|;
      assert bundles[..i] == bundles;
      while i > 0
        invariant 0 <= i <= |bundles|
        invariant Valid() && files.cache == old(files.cache)
        invariant FindByDebugId(bundles, key) == FindByDebugId(bundles[..i], key)
      {
        i := i - 1;
        var slot := bundles[i];
        assert bundles[..i + 1][..i] == bundles[..i];
        if Open(slot) && HasDebugId(slot.bundle.value, key) {
          var d := slot.bundle.value.byDebugId[(key.DebugId().value, key.FileType())];
          var entry := Entry(Bundled(slot.uri, key), FromDescriptor(key.AbsPath(), d), ByDebugId);
          files.Insert(slot.uri, key, ByDebugId, entry);
          return Some(entry);
        }
      }
      r := None;
    }

    method TryGetFileFromBundlesByPath(key: FileKey) returns (r: Option<Entry>)
      requires Valid()
      requires key.DebugId().Some? ==> FindByDebugId(bundles, key).None?
      modifies files
      ensures Valid() && r == FindByPath(bundles, key)
      ensures files.cache == Remember(old(files.cache), key, r, ByUrl)
    {
      var path := key.AbsPath();
      if path.None? {
        return None;
      }
      r := TryGetFileFromBundlesByUrls(key, FileStems.CandidateUrls(path.value));
    }

    /** The loop over the URLs. */
    method TryGetFileFromBundlesByUrls(key: FileKey, urls: seq<string>) returns (r: Option<Entry>)
      requires Valid()
      requires key.DebugId().Some? ==> FindByDebugId(bundles, key).None?
      requires key.AbsPath().Some? && urls == FileStems.CandidateUrls(key.AbsPath().value)
      modifies files
      ensures Valid() && r == FindByUrls(bundles, key, urls)
      ensures files.cache == Remember(old(files.cache), key, r, ByUrl)
    {
      for k := 0 to |urls|
        invariant FindByUrls(bundles, key, urls) == FindByUrls(bundles, key, urls[k..])
        invariant forall j :: 0 <= j < k ==> FindByUrl(bundles, key, urls[j]).None?
        invariant Valid() && files.cache == old(files.cache)
      {
        assert urls[k..][1..] == urls[k + 1..];
        r := TryGetFileFromBundlesByUrl(key, urls, k);
        if r.Some? {
          return;
        }
      }
      r := None;
    }

    /** The loop over the bundles, for one URL. */
    method TryGetFileFromBundlesByUrl(key: FileKey, urls: seq<string>, k: nat) returns (r: Option<Entry>)
      requires Valid()
      requires key.DebugId().Some? ==> FindByDebugId(bundles, key).None?
      requires key.AbsPath().Some? && urls == FileStems.CandidateUrls(key.AbsPath().value) && k < |urls|
      requires forall j :: 0 <= j < k ==> FindByUrl(bundles, key, urls[j]).None?
      modifies files
      ensures Valid() && r == FindByUrl(bundles, key, urls[k])
      ensures files.cache == Remember(old(files.cache), key, r, ByUrl)
    {
      var i := |bundles|;
      assert bundles[..i] == bundles;
      while i > 0
        invariant 0 <= i <= |bundles|
        invariant Valid() && files.cache == old(files.cache)
        invariant FindByUrl(bundles, key, urls[k]) == FindByUrl(bundles[..i], key, urls[k])
      {
        i := i - 1;
        var slot := bundles[i];
        assert bundles[..i + 1][..i] == bundles[..i];
        if SlotHasUrl(slot, urls[k]) {
          var d := slot.bundle.value.byUrl[urls[k]];
          var entry := Entry(Bundled(slot.uri, key), FromDescriptor(key.AbsPath(), d), slot.resolvedWith);
          PathFoundIn(bundles, key, urls, k, i);
          files.Insert(slot.uri, key, ByUrl, entry);
          return Some(entry);
        }
      }
      r := None;
    }

    method TryFetchFileFromArtifacts(key: FileKey) returns (r: Option<Entry>)
      ensures r == FindArtifact(artifacts, key)
    {
      var path := key.AbsPath();
      if path.None? {
        return None;
      }
      var urls := FileStems.CandidateUrls(path.value);
      for k := 0 to |urls|
        invariant FindArtifact(artifacts, key) == FirstArtifact(artifacts, urls[k..])
      {
        if urls[k] in artifacts {
          var a := artifacts[urls[k]];
          return Some(Entry(IndividualFile(a.remote), a.file, a.resolvedWith));
        }
      }
      r := None;
    }

    /** Asks the API for the key's debug id and file stem. */
    method QuerySentryForFile(key: FileKey, api: Api) returns (didGetNewData: bool)
      requires Valid() && AnswerMatches(api, key, files.store)
      modifies this
      ensures Valid()
      ensures (Sources(bundles, artifacts), didGetNewData)
           == AfterQuery(Sources(old(bundles), old(artifacts)), key, hasRelease, Answer(api, key))
    {
      if key.DebugId().None? {
        if key.AbsPath().None? || !hasRelease {
          return false;
        }
      }
      var stem := if key.AbsPath().Some? then Some(FileStems.ExtractFileStem(key.AbsPath().value)) else None;
      var results := api(key.DebugId(), stem);
      if results.None? {
        return false;
      }
      didGetNewData := false;
      for i := 0 to |results.value|
        invariant Valid()
        invariant (Sources(bundles, artifacts), didGetNewData)
               == Merged(Sources(old(bundles), old(artifacts)), results.value[..i])
      {
        assert results.value[..i + 1][..i] == results.value[..i];
        match results.value[i]
        case IndividualArtifact(absPath, artifact) =>
          if absPath !in artifacts {
            didGetNewData := true;
            artifacts := artifacts[absPath := artifact];
          }
        case ArtifactBundle(uri, fetched, resolvedWith) =>
          var isNew := EnsureArtifactBundle(uri, fetched, resolvedWith);
          didGetNewData := didGetNewData || isNew;
      }
      assert results.value[..|results.value|] == results.value;
    }

    method EnsureArtifactBundle(uri: Uri, fetched: Result<Bundle, CacheError>, resolvedWith: ResolvedWith)
      returns (isNew: bool)
      requires Valid() && (fetched.Ok? ==> fetched.value == files.store(uri))
      modifies this`bundles
      ensures Valid() && isNew == !Known(old(bundles), uri)
      ensures bundles == if isNew then InsertSlot(old(bundles), Slot(uri, fetched, resolvedWith)) else old(bundles)
    {
      if Known(bundles, uri) {
        return false;
      }
      InsertKeeps(bundles, Slot(uri, fetched, resolvedWith), files.store);
      bundles := InsertSlot(bundles, Slot(uri, fetched, resolvedWith));
      isNew := true;
    }

    /** Fetches a file.  `api` is what the API answers if it is asked, `scraped` what scraping gives
        if it comes to that.  A file that is found in a bundle is cached for it. */
    method GetFile(key: FileKey, api: Api, scraped: Entry) returns (entry: Entry)
      requires Valid() && AnswerMatches(api, key, files.store)
      modifies this, files
      ensures Valid()
      ensures Sources(bundles, artifacts) ==
        if FirstCached(old(files.cache), UrisFromLast(old(bundles)), key).Some? then
          Sources(old(bundles), old(artifacts))
        else AfterFetch(Sources(old(bundles), old(artifacts)), key, hasRelease, Answer(api, key))
      ensures entry == Fetched(old(files.cache), old(bundles), bundles, artifacts, key, scraped)
      ensures files.cache ==
        if FirstCached(old(files.cache), UrisFromLast(old(bundles)), key).Some? then old(files.cache)
        else Remember(old(files.cache), key, Resolve(bundles, artifacts, key), HowFound(bundles, key))
    {
      var cached := TryGetFileFromBundlesCached(key);
      if cached.Some? {
        return cached.value;
      }
      var file;
      if key.DebugId().Some? {
        file := TryGetFileWithDebugId(key, api);
      } else {
        file := TryGetFileWithoutDebugId(key, api);
      }
      entry := if file.Some? then file.value else scraped;
    }

    method TryGetFileWithDebugId(key: FileKey, api: Api) returns (file: Option<Entry>)
      requires Valid() && AnswerMatches(api, key, files.store) && key.DebugId().Some?
      modifies this, files
      ensures Valid() && file == Resolve(bundles, artifacts, key)
      ensures files.cache == Remember(old(files.cache), key, file, HowFound(bundles, key))
      ensures Sources(bundles, artifacts)
           == AfterFetch(Sources(old(bundles), old(artifacts)), key, hasRelease, Answer(api, key))
    {
      file := TryGetFileFromBundlesByDebugId(key);
      if file.None? {
        ghost var known := Sources(bundles, artifacts);
        var isNew := QuerySentryForFile(key, api);
        QueryNews(known, key, hasRelease, Answer(api, key), files.store);
        if isNew {
          file := TryGetFileFromBundlesByDebugId(key);
        }
      }
      if file.None? {
        file := TryGetFileFromBundlesByPath(key);
      }
      if file.None? {
        file := TryFetchFileFromArtifacts(key);
        ArtifactIsNotBundled(artifacts, key);
      }
    }

    method TryGetFileWithoutDebugId(key: FileKey, api: Api) returns (file: Option<Entry>)
      requires Valid() && AnswerMatches(api, key, files.store) && key.DebugId().None?
      modifies this, files
      ensures Valid() && file == Resolve(bundles, artifacts, key)
      ensures files.cache == Remember(old(files.cache), key, file, HowFound(bundles, key))
      ensures Sources(bundles, artifacts)
           == AfterFetch(Sources(old(bundles), old(artifacts)), key, hasRelease, Answer(api, key))
    {
      file := TryGetFileFromBundlesByPath(key);
      if file.None? {
        file := TryFetchFileFromArtifacts(key);
      }
      if file.None? {
        ghost var known := Sources(bundles, artifacts);
        var isNew := QuerySentryForFile(key, api);
        QueryNews(known, key, hasRelease, Answer(api, key), files.store);
        if isNew {
          file := TryGetFileFromBundlesByPath(key);
          if file.None? {
            file := TryFetchFileFromArtifacts(key);
          }
        }
      }
      NoDebugIdNotFound(bundles, key);
      ArtifactIsNotBundled(artifacts, key);
    }
  }

  // ---------------------------------------------------------------------------------------------
  // What a lookup finds

  lemma {:induction false} NoDebugIdNotFound(slots: seq<Slot>, key: FileKey)
    requires key.DebugId().None?
    ensures FindByDebugId(slots, key).None?
  {
    if slots != [] {
      NoDebugIdNotFound(slots[..|slots| - 1], key);
    }
  }

  lemma {:induction false} DebugIdNotFound(slots: seq<Slot>, key: FileKey)
    ensures FindByDebugId(slots, key).None? <==> NoneHasDebugId(slots, key)
  {
    if slots != [] {
      DebugIdNotFound(slots[..|slots| - 1], key);
    }
  }

  lemma {:induction false} UrlNotFound(slots: seq<Slot>, key: FileKey, url: string)
    ensures FindByUrl(slots, key, url).None? <==> NoneHasUrl(slots, url)
  {
    if slots != [] {
      UrlNotFound(slots[..|slots| - 1], key, url);
    }
  }

  /** A path lookup happens only once no known bundle has the debug id, and it stops at the first
      URL that any bundle has; so the lookup in the one bundle finds the same descriptor. */
  lemma PathFoundIn(slots: seq<Slot>, key: FileKey, urls: seq<string>, k: nat, i: nat)
    requires key.AbsPath().Some? && urls == FileStems.CandidateUrls(key.AbsPath().value)
    requires key.DebugId().Some? ==> FindByDebugId(slots, key).None?
    requires k < |urls| && i < |slots| && SlotHasUrl(slots[i], urls[k])
    requires forall j :: 0 <= j < k ==> FindByUrl(slots, key, urls[j]).None?
    ensures GetDescriptorFromBundle(slots[i].bundle.value, key) == Some(slots[i].bundle.value.byUrl[urls[k]])
  {
    DebugIdNotFound(slots, key);
    forall j | 0 <= j < k ensures urls[j] !in slots[i].bundle.value.byUrl {
      UrlNotFound(slots, key, urls[j]);
      assert !SlotHasUrl(slots[i], urls[j]);
    }
    FirstUrlAt(slots[i].bundle.value, urls, k);
  }

  lemma {:induction false} DebugIdFoundIn(slots: seq<Slot>, key: FileKey) returns (i: nat)
    requires FindByDebugId(slots, key).Some?
    ensures i < |slots| && Open(slots[i])
    ensures FoundIn(FindByDebugId(slots, key).value, slots[i].uri, key, slots[i].bundle.value)
  {
    var last := |slots| - 1;
    if Open(slots[last]) && HasDebugId(slots[last].bundle.value, key) {
      i := last;
    } else {
      i := DebugIdFoundIn(slots[..last], key);
    }
  }

  lemma {:induction false} UrlFoundAt(slots: seq<Slot>, key: FileKey, url: string) returns (i: nat)
    requires FindByUrl(slots, key, url).Some?
    ensures i < |slots| && SlotHasUrl(slots[i], url)
    ensures FindByUrl(slots, key, url).value.uri == Bundled(slots[i].uri, key)
    ensures FindByUrl(slots, key, url).value.file == FromDescriptor(key.AbsPath(), slots[i].bundle.value.byUrl[url])
  {
    var last := |slots| - 1;
    if SlotHasUrl(slots[last], url) {
      i := last;
    } else {
      i := UrlFoundAt(slots[..last], key, url);
    }
  }

  lemma {:induction false} UrlsFoundAt(slots: seq<Slot>, key: FileKey, urls: seq<string>, from: nat) returns (k: nat)
    requires from <= |urls| && FindByUrls(slots, key, urls[from..]).Some?
    ensures from <= k < |urls| && FindByUrls(slots, key, urls[from..]) == FindByUrl(slots, key, urls[k])
    ensures FindByUrl(slots, key, urls[k]).Some?
    ensures forall j :: from <= j < k ==> FindByUrl(slots, key, urls[j]).None?
    decreases |urls| - from
  {
    if FindByUrl(slots, key, urls[from]).Some? {
      k := from;
    } else {
      assert urls[from..][1..] == urls[from + 1..];
      k := UrlsFoundAt(slots, key, urls, from + 1);
    }
  }

  /** However a key is resolved, a file from a bundle is the one that this bundle alone gives. */
  lemma ResolvedIsFoundIn(slots: seq<Slot>, artifacts: map<string, Artifact>, key: FileKey, store: Uri -> Bundle)
    requires SlotsMatch(slots, store)
    requires Resolve(slots, artifacts, key).Some? && Resolve(slots, artifacts, key).value.uri.Bundled?
    ensures var found := Resolve(slots, artifacts, key).value;
      FoundIn(found, found.uri.bundle, key, store(found.uri.bundle))
  {
    NoDebugIdFallsThrough(slots, key);
    if FindByDebugId(slots, key).Some? {
      var i := DebugIdFoundIn(slots, key);
    } else if FindByPath(slots, key).Some? {
      var urls := FileStems.CandidateUrls(key.AbsPath().value);
      assert urls[0..] == urls;
      var k := UrlsFoundAt(slots, key, urls, 0);
      var i := UrlFoundAt(slots, key, urls[k]);
      PathFoundIn(slots, key, urls, k, i);
    } else {
      ArtifactIsNotBundled(artifacts, key);
    }
  }

  lemma NoDebugIdFallsThrough(slots: seq<Slot>, key: FileKey)
    ensures (if key.DebugId().Some? then FindByDebugId(slots, key) else None) == FindByDebugId(slots, key)
  {
    if key.DebugId().None? {
      NoDebugIdNotFound(slots, key);
    }
  }

  lemma ArtifactIsNotBundled(artifacts: map<string, Artifact>, key: FileKey)
    ensures FindArtifact(artifacts, key).Some? ==> FindArtifact(artifacts, key).value.uri.IndividualFile?
  {
    if key.AbsPath().Some? {
      FirstArtifactIsIndividual(artifacts, FileStems.CandidateUrls(key.AbsPath().value));
    }
  }

  lemma {:induction false} FirstArtifactIsIndividual(artifacts: map<string, Artifact>, urls: seq<string>)
    ensures FirstArtifact(artifacts, urls).Some? ==> FirstArtifact(artifacts, urls).value.uri.IndividualFile?
  {
    if urls != [] {
      FirstArtifactIsIndividual(artifacts, urls[1..]);
    }
  }

  lemma {:induction false} CachedIsSound(cache: Cache, uris: seq<Uri>, key: FileKey, store: Uri -> Bundle)
    requires Sound(cache, store) && FirstCached(cache, uris, key).Some?
    ensures var (uri, entry, _) := FirstCached(cache, uris, key).value; uri in uris && SoundAt(entry, uri, key, store)
  {
    if (uris[0], key) !in cache {
      CachedIsSound(cache, uris[1..], key, store);
    }
  }

  // ---------------------------------------------------------------------------------------------
  // What a found file is

  /** The URL of a source map that the file at `path` links to: a URL of its own, or an absolute
      path on the file's host, or segments walked from the file's directory on the file's host. */
  predicate IsJoined(joined: string, path: string, link: string) {
    var (scheme, rest) := JoinPaths.SplitScheme(path);
    && (JoinPaths.HasOwnScheme(link) ==> joined == link)
    && (JoinPaths.IsHttp(scheme) && JoinPaths.IsRelative(link) ==>
          var (scheme', rest') := JoinPaths.SplitScheme(joined);
          && scheme' == scheme && JoinPaths.Hostname(rest') == JoinPaths.Hostname(rest)
          && Strings.Split(rest', '/') == [JoinPaths.Hostname(rest)] + JoinPaths.PathSegments(path, link))
    && (scheme != "file" && !JoinPaths.HasOwnScheme(link) && Strings.StartsWith(link, "/")
        && !Strings.StartsWith(link, "//") ==>
          joined == scheme + "://" + JoinPaths.Hostname(rest) + link)
  }

  predicate IsSourceMapUrl(url: Option<SourceMapUrl>, path: Option<string>, reference: Option<Reference>) {
    match reference
    case None => url.None?
    case Some(DataUrl(decoded)) => decoded.Some? && url == Some(Data(decoded.value))
    case Some(Link(link)) => url.Some? && url.value.Remote? && path.Some? && IsJoined(url.value.url, path.value, link)
  }

  /** Whether a descriptor cannot be used: it has no contents, its data cannot be decoded, or it has
      a reference and there is no path to join it to. */
  predicate IsUnusable(path: Option<string>, d: Descriptor) {
    || d.contents.None?
    || (d.sourceMappingUrl.Some? && (path.None? || d.sourceMappingUrl.value == DataUrl(None)))
  }

  /** What a file found in a bundle is; only a source map from the cache may lack its contents. */
  predicate IsFoundFile(file: Result<CachedFile, CacheError>, key: FileKey, d: Descriptor) {
    && (file.Err? <==> IsUnusable(key.AbsPath(), d))
    && (file.Err? ==> file.error == Malformed)
    && (file.Ok? ==>
          && (file.value.contents == d.contents || (key.SourceMapKey? && file.value.contents.None?))
          && IsSourceMapUrl(file.value.sourcemapUrl, key.AbsPath(), d.sourceMappingUrl))
  }

  lemma JoinedIsJoined(path: string, link: string)
    ensures IsJoined(JoinPaths.Joined(path, link), path, link)
  {
    var (scheme, rest) := JoinPaths.SplitScheme(path);
    if JoinPaths.IsHttp(scheme) && JoinPaths.IsRelative(link) {
      JoinPaths.SchemeAndHostKept(path, link);
    }
    if Strings.StartsWith(link, "/") {
      JoinPaths.SlashIsNoTilde(link);
    }
  }

  lemma DescriptorFileIs(key: FileKey, d: Descriptor)
    ensures IsFoundFile(FromDescriptor(key.AbsPath(), d), key, d)
  {
    if key.AbsPath().Some? && d.sourceMappingUrl.Some? && d.sourceMappingUrl.value.Link? {
      JoinedIsJoined(key.AbsPath().value, d.sourceMappingUrl.value.url);
    }
  }

  /** Every file that a fetch answers with from a bundle is made of the descriptor that the bundle
      has for the key: an error exactly if it cannot be used, and otherwise with its contents and
      with its source map URL joined to the path of the key. */
  lemma FetchedFileIs(cache: Cache, before: seq<Slot>, slots: seq<Slot>, artifacts: map<string, Artifact>,
    key: FileKey, scraped: Entry, store: Uri -> Bundle)
    requires Sound(cache, store) && SlotsMatch(slots, store) && !scraped.uri.Bundled?
    ensures var entry := Fetched(cache, before, slots, artifacts, key, scraped);
      entry.uri.Bundled? ==>
        var d := GetDescriptorFromBundle(store(entry.uri.bundle), key);
        d.Some? && IsFoundFile(entry.file, key, d.value)
  {
    FetchedFromBundle(cache, before, slots, artifacts, key, scraped, store);
    var entry := Fetched(cache, before, slots, artifacts, key, scraped);
    if entry.uri.Bundled? {
      var bundle := store(entry.uri.bundle);
      var full :| FoundIn(full, entry.uri.bundle, key, bundle) && entry in {full, Stripped(key, full)};
      DescriptorFileIs(key, GetDescriptorFromBundle(bundle, key).value);
    }
  }

  // ---------------------------------------------------------------------------------------------
  // In which order bundles and artifacts are tried

  predicate IsLastWithDebugId(slots: seq<Slot>, key: FileKey, i: nat)
    requires i < |slots|
  {
    && Open(slots[i]) && HasDebugId(slots[i].bundle.value, key)
    && forall j :: i < j < |slots| && Open(slots[j]) ==> !HasDebugId(slots[j].bundle.value, key)
  }

  predicate IsLastWithUrl(slots: seq<Slot>, url: string, i: nat)
    requires i < |slots|
  {
    SlotHasUrl(slots[i], url) && forall j :: i < j < |slots| ==> !SlotHasUrl(slots[j], url)
  }

  lemma {:induction false} LastWithDebugId(slots: seq<Slot>, key: FileKey, i: nat)
    requires i < |slots| && IsLastWithDebugId(slots, key, i)
    ensures var d := slots[i].bundle.value.byDebugId[(key.DebugId().value, key.FileType())];
      FindByDebugId(slots, key) ==
        Some(Entry(Bundled(slots[i].uri, key), FromDescriptor(key.AbsPath(), d), ByDebugId))
  {
    if i < |slots| - 1 {
      LastWithDebugId(slots[..|slots| - 1], key, i);
    }
  }

  lemma {:induction false} LastWithUrl(slots: seq<Slot>, key: FileKey, url: string, i: nat)
    requires i < |slots| && IsLastWithUrl(slots, url, i)
    ensures FindByUrl(slots, key, url) ==
      Some(Entry(Bundled(slots[i].uri, key), FromDescriptor(key.AbsPath(), slots[i].bundle.value.byUrl[url]),
                 slots[i].resolvedWith))
  {
    if i < |slots| - 1 {
      LastWithUrl(slots[..|slots| - 1], key, url, i);
    }
  }

  lemma {:induction false} FirstUrlFound(slots: seq<Slot>, key: FileKey, urls: seq<string>, k: nat)
    requires k <= |urls| && forall j :: 0 <= j < k ==> NoneHasUrl(slots, urls[j])
    ensures FindByUrls(slots, key, urls) == FindByUrls(slots, key, urls[k..])
  {
    if k > 0 {
      UrlNotFound(slots, key, urls[0]);
      assert forall j :: 0 <= j < k - 1 ==> urls[1..][j] == urls[j + 1];
      FirstUrlFound(slots, key, urls[1..], k - 1);
      assert urls[1..][k - 1..] == urls[k..];
    }
  }

  lemma {:induction false} FirstArtifactFound(artifacts: map<string, Artifact>, urls: seq<string>, k: nat)
    requires k <= |urls| && forall j :: 0 <= j < k ==> urls[j] !in artifacts
    ensures FirstArtifact(artifacts, urls) == FirstArtifact(artifacts, urls[k..])
  {
    if k > 0 {
      assert forall j :: 0 <= j < k - 1 ==> urls[1..][j] == urls[j + 1];
      FirstArtifactFound(artifacts, urls[1..], k - 1);
      assert urls[1..][k - 1..] == urls[k..];
    }
  }

  /** A debug id goes first: the bundle with the greatest URI among those that have it. */
  lemma ResolvedByDebugId(slots: seq<Slot>, artifacts: map<string, Artifact>, key: FileKey, i: nat)
    requires i < |slots| && IsLastWithDebugId(slots, key, i)
    ensures var found := Resolve(slots, artifacts, key);
      found.Some? && found.value.uri == Bundled(slots[i].uri, key) && found.value.resolvedWith == ByDebugId
    ensures HowFound(slots, key) == ByDebugId
  {
    LastWithDebugId(slots, key, i);
  }

  /** Without a hit by debug id, the first candidate URL that any bundle has, and of the bundles that
      have it, the one with the greatest URI. */
  lemma ResolvedByUrl(slots: seq<Slot>, artifacts: map<string, Artifact>, key: FileKey, urls: seq<string>,
                      k: nat, i: nat)
    requires NoneHasDebugId(slots, key)
    requires key.AbsPath().Some? && urls == FileStems.CandidateUrls(key.AbsPath().value) && k < |urls|
    requires forall j :: 0 <= j < k ==> NoneHasUrl(slots, urls[j])
    requires i < |slots| && IsLastWithUrl(slots, urls[k], i)
    ensures var found := Resolve(slots, artifacts, key);
      && found.Some? && found.value.uri == Bundled(slots[i].uri, key)
      && found.value.resolvedWith == slots[i].resolvedWith
    ensures HowFound(slots, key) == ByUrl
  {
    DebugIdNotFound(slots, key);
    FirstUrlFound(slots, key, urls, k);
    LastWithUrl(slots, key, urls[k], i);
    assert urls[k..][0] == urls[k];
  }

  /** If no bundle has the key, the artifact of the first candidate URL that has one, as it is. */
  lemma ResolvedAsArtifact(slots: seq<Slot>, artifacts: map<string, Artifact>, key: FileKey, urls: seq<string>, k: nat)
    requires NoneHasDebugId(slots, key)
    requires key.AbsPath().Some? && urls == FileStems.CandidateUrls(key.AbsPath().value) && k < |urls|
    requires forall j :: 0 <= j < |urls| ==> NoneHasUrl(slots, urls[j])
    requires urls[k] in artifacts && forall j :: 0 <= j < k ==> urls[j] !in artifacts
    ensures var a := artifacts[urls[k]];
      Resolve(slots, artifacts, key) == Some(Entry(IndividualFile(a.remote), a.file, a.resolvedWith))
  {
    DebugIdNotFound(slots, key);
    FirstUrlFound(slots, key, urls, |urls|);
    FirstArtifactFound(artifacts, urls, k);
    assert urls[k..][0] == urls[k];
  }

  /** Nothing is found exactly if no bundle has the debug id or a candidate URL, and no artifact has
      a candidate URL. */
  lemma ResolvedNowhere(slots: seq<Slot>, artifacts: map<string, Artifact>, key: FileKey)
    ensures var urls := if key.AbsPath().Some? then FileStems.CandidateUrls(key.AbsPath().value) else [];
      Resolve(slots, artifacts, key).None? <==>
        && NoneHasDebugId(slots, key)
        && forall j :: 0 <= j < |urls| ==> NoneHasUrl(slots, urls[j]) && urls[j] !in artifacts
  {
    NoDebugIdFallsThrough(slots, key);
    DebugIdNotFound(slots, key);
    if key.AbsPath().Some? {
      var urls := FileStems.CandidateUrls(key.AbsPath().value);
      NoUrlFound(slots, key, urls);
      NoArtifactFound(artifacts, urls);
    }
  }

  lemma {:induction false} NoUrlFound(slots: seq<Slot>, key: FileKey, urls: seq<string>)
    ensures FindByUrls(slots, key, urls).None? <==> forall j :: 0 <= j < |urls| ==> NoneHasUrl(slots, urls[j])
  {
    if urls != [] {
      UrlNotFound(slots, key, urls[0]);
      NoUrlFound(slots, key, urls[1..]);
      assert forall j :: 0 < j < |urls| ==> urls[j] == urls[1..][j - 1];
    }
  }

  lemma {:induction false} NoArtifactFound(artifacts: map<string, Artifact>, urls: seq<string>)
    ensures FirstArtifact(artifacts, urls).None? <==> forall j :: 0 <= j < |urls| ==> urls[j] !in artifacts
  {
    if urls != [] {
      NoArtifactFound(artifacts, urls[1..]);
      assert forall j :: 0 < j < |urls| ==> urls[j] == urls[1..][j - 1];
    }
  }

  /** The cache is asked about the bundles from the greatest URI down. */
  lemma {:induction false} UrisFromLastAt(slots: seq<Slot>)
    ensures |UrisFromLast(slots)| == |slots|
    ensures forall k :: 0 <= k < |slots| ==> UrisFromLast(slots)[k] == slots[|slots| - 1 - k].uri
  {
    if slots != [] {
      UrisFromLastAt(slots[..|slots| - 1]);
    }
  }

  /** And the first of them for which the key is cached gives the file. */
  lemma {:induction false} FirstCachedAt(cache: Cache, uris: seq<Uri>, key: FileKey, k: nat)
    requires k <= |uris| && forall j :: 0 <= j < k ==> (uris[j], key) !in cache
    ensures k == |uris| ==> FirstCached(cache, uris, key).None?
    ensures k < |uris| && (uris[k], key) in cache ==>
      FirstCached(cache, uris, key) == Some((uris[k], cache[(uris[k], key)].0, cache[(uris[k], key)].1))
  {
    if k > 0 {
      assert forall j :: 0 <= j < k - 1 ==> uris[1..][j] == uris[j + 1];
      FirstCachedAt(cache, uris[1..], key, k - 1);
    }
  }

  /** When the API is asked: for a key with a debug id, exactly if no known bundle has the debug id;
      for any other, exactly if it is not found yet and there are a path and a release. */
  lemma WhenAsked(known: Sources, key: FileKey, hasRelease: bool, results: seq<ApiResult>)
    ensures key.DebugId().Some? ==>
      AfterFetch(known, key, hasRelease, Some(results))
        == if NoneHasDebugId(known.slots, key) then Merged(known, results).0 else known
    ensures key.DebugId().None? ==>
      AfterFetch(known, key, hasRelease, Some(results))
        == if Resolve(known.slots, known.artifacts, key).None? && key.AbsPath().Some? && hasRelease then
             Merged(known, results).0
           else known
    ensures AfterFetch(known, key, hasRelease, None) == known
  {
    DebugIdNotFound(known.slots, key);
  }

  // ---------------------------------------------------------------------------------------------
  // Recovering dropped contents

  /** Where the text of a source map is to come from. */
  datatype SourceMapContents = FromBundle(bundle: Bundle, key: FileKey) | Resolved(contents: Contents)

  function SlotOf(slots: seq<Slot>, uri: Uri): Option<Slot> {
    if slots == [] then None
    else if slots[|slots| - 1].uri == uri then Some(slots[|slots| - 1])
    else SlotOf(slots[..|slots| - 1], uri)
  }

  function FromCachedFile(slots: seq<Slot>, uri: CachedFileUri, file: CachedFile): Option<SourceMapContents> {
    match file.contents
    case Some(contents) => Some(Resolved(contents))
    case None =>
      if !uri.Bundled? then None
      else
        match SlotOf(slots, uri.bundle)
        case Some(Slot(_, Ok(bundle), _)) => Some(FromBundle(bundle, uri.key))
        case _ => None
  }

  /** The text that a source map cache is built from.  If there is no source for it, it is empty. */
  function SourceMapText(slots: seq<Slot>, uri: CachedFileUri, file: CachedFile): Result<Contents, CacheError> {
    match FromCachedFile(slots, uri, file)
    case None => Ok([])
    case Some(Resolved(contents)) => Ok(contents)
    case Some(FromBundle(bundle, key)) =>
      match GetDescriptorFromBundle(bundle, key)
      case Some(Descriptor(Some(contents), _)) => Ok(contents)
      case _ => Err(Malformed)
  }

  lemma {:induction false} SlotOfKnown(slots: seq<Slot>, uri: Uri)
    ensures SlotOf(slots, uri).Some? <==> Known(slots, uri)
    ensures SlotOf(slots, uri).Some? ==> SlotOf(slots, uri).value in slots && SlotOf(slots, uri).value.uri == uri
  {
    if slots != [] {
      SlotOfKnown(slots[..|slots| - 1], uri);
      if Known(slots, uri) && slots[|slots| - 1].uri != uri {
        var i :| 0 <= i < |slots| && slots[i].uri == uri;
        assert slots[..|slots| - 1][i].uri == uri;
      }
    }
  }

  /** The text of a source map that was found in a bundle, with or without contents. */
  lemma TextOfFound(slots: seq<Slot>, store: Uri -> Bundle, key: FileKey, full: Entry)
    requires SlotsMatch(slots, store) && key.SourceMapKey?
    requires full.uri.Bundled? && FoundIn(full, full.uri.bundle, key, store(full.uri.bundle)) && full.file.Ok?
    ensures full.file.value.contents.Some?
    ensures SourceMapText(slots, full.uri, full.file.value) == Ok(full.file.value.contents.value)
    ensures
      var slot := SlotOf(slots, full.uri.bundle);
      SourceMapText(slots, full.uri, Stripped(key, full).file.value)
        == if slot.Some? && Open(slot.value) then Ok(full.file.value.contents.value) else Ok([])
  {
    SlotOfKnown(slots, full.uri.bundle);
    var slot := SlotOf(slots, full.uri.bundle);
    if slot.Some? && Open(slot.value) {
      var i :| 0 <= i < |slots| && slots[i] == slot.value;
      assert slots[i].bundle.value == store(full.uri.bundle);
    }
  }

  lemma {:induction false} LastUris(slots: seq<Slot>, uri: Uri)
    requires uri in UrisFromLast(slots)
    ensures Known(slots, uri)
  {
    var last := |slots| - 1;
    if slots[last].uri != uri {
      LastUris(slots[..last], uri);
      var i :| 0 <= i < last && slots[..last][i].uri == uri;
      assert slots[i].uri == uri;
    }
  }

  /** One request found a source map in a bundle, over all its bundles, by debug id or by URL; then
      the same or another request gets the key from the cache, for that bundle.  The text it works
      with is the very text that was found if and only if the bundle is open in this request, or
      the text is empty anyway; otherwise it is empty.  (The cache is asked about all bundles of a
      request, and one that failed to open may be known to it from another request.) */
  lemma SourceMapRecoverable(first: seq<Slot>, artifacts: map<string, Artifact>, key: FileKey,
    cache: Cache, slots: seq<Slot>, store: Uri -> Bundle)
    requires key.SourceMapKey? && SlotsMatch(first, store) && SlotsMatch(slots, store) && Sound(cache, store)
    requires Resolve(first, artifacts, key).Some?
    requires var found := Resolve(first, artifacts, key).value; found.uri.Bundled? && found.file.Ok?
    requires FirstCached(cache, UrisFromLast(slots), key).Some?
    requires FirstCached(cache, UrisFromLast(slots), key).value.0 == Resolve(first, artifacts, key).value.uri.bundle
    ensures
      var found := Resolve(first, artifacts, key).value;
      var (uri, hit, _) := FirstCached(cache, UrisFromLast(slots), key).value;
      && found.file.value.contents.Some? && hit.file.Ok? && hit.uri == found.uri
      && SlotOf(slots, uri).Some?
      && var contents := found.file.value.contents.value;
         var text := SourceMapText(slots, hit.uri, hit.file.value);
         && (text == Ok(contents) <==> Open(SlotOf(slots, uri).value) || contents == [])
         && (text != Ok(contents) ==> text == Ok([]))
  {
    var found := Resolve(first, artifacts, key).value;
    var (uri, hit, _) := FirstCached(cache, UrisFromLast(slots), key).value;
    ResolvedIsFoundIn(first, artifacts, key, store);
    CachedIsSound(cache, UrisFromLast(slots), key, store);
    LastUris(slots, uri);
    SlotOfKnown(slots, uri);
    var full :| hit == Stripped(key, full) && FoundIn(full, uri, key, store(uri));
    TextOfFound(slots, store, key, full);
  }

  /** What one request found in a bundle is what the next fetch takes from the cache, if that comes
      with this bundle and none of its bundles had the key cached before. */
  lemma {:induction false} RememberedIsHit(cache: Cache, uris: seq<Uri>, key: FileKey, found: Entry, how: ResolvedWith)
    requires found.uri.Bundled? && found.uri.bundle in uris && FirstCached(cache, uris, key).None?
    ensures FirstCached(Remember(cache, key, Some(found), how), uris, key)
         == Some((found.uri.bundle, Stripped(key, found), how))
  {
    if uris[0] != found.uri.bundle {
      RememberedIsHit(cache, uris[1..], key, found, how);
    }
  }

  /** A source map that is lost: found in an open bundle by one request, asked for by another one
      in which the bundle failed to open. */
  lemma ClosedBundleLosesText(id: DebugId, store: Uri -> Bundle)
    requires store(0) == Bundle(map[(id, SourceMap) := Descriptor(Some([0x7B]), None)], map[])
    ensures
      var key := SourceMapKey(None, Some(id));
      var open, failed := [Slot(0, Ok(store(0)), ByUrl)], [Slot(0, Err(OtherError), ByUrl)];
      var found := Resolve(open, map[], key);
      && found.Some? && found.value.file == Ok(CachedFile(Some([0x7B]), None))
      && var cache: Cache := map[(0, key) := (Stripped(key, found.value), ByDebugId)];
         var hit := FirstCached(cache, UrisFromLast(failed), key);
         && hit.Some? && hit.value.1.file.Ok?
         && SourceMapText(failed, hit.value.1.uri, hit.value.1.file.value) == Ok([])
  {
    var key := SourceMapKey(None, Some(id));
    var open, failed := [Slot(0, Ok(store(0)), ByUrl)], [Slot(0, Err(OtherError), ByUrl)];
    assert FindByDebugId(open, key).Some?;
    assert UrisFromLast(failed) == [0];
    assert SlotOf(failed, 0) == Some(failed[0]);
  }

  /** The entry is what the bundle gives for the key, with or without contents. */
  ghost predicate Good(entry: Entry, key: FileKey, bundle: Bundle)
    requires entry.uri.Bundled?
  {
    exists full :: FoundIn(full, entry.uri.bundle, key, bundle) && entry in {full, Stripped(key, full)}
  }

  /** Every file that is fetched from a bundle is, but for dropped contents, what this bundle
      gives for the key. */
  lemma FetchedFromBundle(cache: Cache, before: seq<Slot>, slots: seq<Slot>, artifacts: map<string, Artifact>,
    key: FileKey, scraped: Entry, store: Uri -> Bundle)
    requires Sound(cache, store) && SlotsMatch(slots, store) && !scraped.uri.Bundled?
    ensures var entry := Fetched(cache, before, slots, artifacts, key, scraped);
      entry.uri.Bundled? ==> Good(entry, key, store(entry.uri.bundle))
  {
    var entry := Fetched(cache, before, slots, artifacts, key, scraped);
    if FirstCached(cache, UrisFromLast(before), key).Some? {
      CachedIsSound(cache, UrisFromLast(before), key, store);
    } else if Resolve(slots, artifacts, key).Some? && entry.uri.Bundled? {
      ResolvedIsFoundIn(slots, artifacts, key, store);
    }
  }
}
