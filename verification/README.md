# Symbolicator: a verified model

Symbolicator resolves the addresses, minified positions and obfuscated names of crash reports into
functions, files and lines. This project models the algorithms and protocols that it implements
itself and proves what they promise. The libraries underneath (`symbolic`, `proguard`, `minidump`,
`moka`, `humantime`, regular expressions) and all I/O are parameters: an opened artifact bundle is
an immutable partial map, a proguard mapper and a frame lookup are arbitrary functions, and what a
download or an API request gives is an argument.

`dafny verify dfyconfig.toml` checks the whole project.

## Files

- `CfiLoader.dfy`: the CFI cache of one minidump, as interleaved steps of many loader calls. A step
  is the code between two awaits. The loader locks its map twice within one step; that nothing runs
  between the two locks is an assumption, which `join_all` on one task gives and preemptive threads
  would not.
- `ArtifactLookup.dfy`: files in artifact bundles, the shared cache that drops the contents of
  source maps, and getting the contents back. `SourcesBudget.dfy`: the modules and source files of
  a request and its memory budget.
- `ModuleLookup.dfy`, `AddressLookup.dfy`: the module index, address lookup, exposed addresses.
- `MinidumpExtension.dfy` (with `ByteOrder.dfy`): the stream of client-side stack traces, its
  parser, and the encoder that its documentation describes.
- `SourceContext.dfy` (with `Utf8.dfy`, after sections 3 and 4 of RFC 3629): source lines around a
  location, trimmed at character boundaries.
- `SymstorePaths.dfy`: printing and parsing symstore paths.
- `FoldNames.dfy`, `JoinPaths.dfy`, `FileStems.dfy` (with `Strings.dfy`): folding of function names,
  path joining, suffix trimming and candidate URLs.
- `JvmFrames.dfy`, `NativeFrames.dfy`: the loops over the frames of a stack trace.
- `RequestService.dfy`: admission, life and polling of requests.
- `CacheErrors.dfy`: cache errors as file contents.

Code that updates state is modelled by methods and classes; each is proved equal to a
specification function or to a step of a state machine, and the theorems are about those.

## Where the code promises less than it seems

Each of these is proved with its exact condition and, where it is not obvious, a concrete input.

- The contents of a cached source map come back exactly if its bundle is open in the request at
  hand (`ArtifactLookup.SourceMapRecoverable`, `ArtifactLookup.ClosedBundleLosesText`). The cache is also asked about bundles that failed
  to open in this request but opened in another one; then an empty source map is used.
- A printed symstore path is read back exactly for the objects of `SymstorePaths.Recoverable`: a
  PDB must end in `.pdb`, a PE must not, and the appendix of a .NET PDB is not in the path.
- Folding is lossless exactly for names without a lone component that itself reads as a group
  (`FoldNames.FoldingIsLosslessIff`), and folding twice is folding once exactly for names in which
  no lone component is the text of the group next to it (`FoldNames.FoldingIsIdempotentIff`):
  `{a#2}.a.a.b` folds again when folded twice, `{a#2}.b` does not.
- A relative address past the start of its module is stable exactly if it does not overflow, lies
  in the module and before the next one, and no later module has the same start
  (`AddressLookup.RelativeStableIff`). At the start itself it is stable, whichever match the
  standard library's search returns, exactly if no other module has the same start
  (`AddressLookup.RelativeStartStableIff`). Of two modules at one start, the wrong one is found
  (`AddressLookup.SharedStartUnstable`).
- A cache error with a NUL in its details is read back cut at the NUL (`CacheErrors.ErrorRoundTrip`).
- The documentation of the candidate URLs says that there are two or four; there may be three
  (`FileStems.CandidateCount`).
- `get_context_lines` takes line 0 for line 1.
- A remapped exception whose name has its only dot in front loses that dot
  (`JvmFrames.MappedExceptionName`).

## Model

| member | source | states |
|---|---|---|
| CfiLoader.SingleFlight | crates/symbolicator-native/src/symbolication/process_minidump.rs:211-264 | in every interleaving of loader calls, no key is fetched twice |
| CfiLoader.CallersAgree | crates/symbolicator-native/src/symbolication/process_minidump.rs:211-264 | all calls for one key return one value, whenever they return |
| CfiLoader.CallerGetsFetched | crates/symbolicator-native/src/symbolication/process_minidump.rs:241-263 | in every run, the value a call returns is the one that the fetch for its key returned, and that was the only fetch for the key to end |
| CfiLoader.ResultsAreFinal | crates/symbolicator-native/src/symbolication/process_minidump.rs:211-264 | the result of a call is never changed by later steps |
| CfiLoader.WaiterHasFetcher | crates/symbolicator-native/src/symbolication/process_minidump.rs:222-264 | every waiter waits on a notifier that a running fetch fires when it completes, and is then woken |
| CfiLoader.NeverStuck | crates/symbolicator-native/src/symbolication/process_minidump.rs:211-264 | deadlock freedom: while a call is unfinished, some call has a step |
| CfiLoader.StepLowersMeasure | crates/symbolicator-native/src/symbolication/process_minidump.rs:211-264 | every step of a call lowers a measure that only new calls raise |
| CfiLoader.RunsAreBounded | crates/symbolicator-native/src/symbolication/process_minidump.rs:211-264 | a run with n calls has at most 2n further steps, so no waiter retries forever |
| CfiLoader.QuiescentMap | crates/symbolicator-native/src/symbolication/process_minidump.rs:221-264 | when all calls are done, the map holds exactly the requested keys, fetched, each with the value its callers got |
| CfiLoader.SymbolProvider.BeginLoad | crates/symbolicator-native/src/symbolication/process_minidump.rs:211-213 | a new call joins the others and touches no other call and no entry |
| CfiLoader.SymbolProvider.PollLoad | crates/symbolicator-native/src/symbolication/process_minidump.rs:215-235 | one turn of the lookup loop is one step of the protocol: return, wait, or insert a notifier and fetch |
| CfiLoader.SymbolProvider.CompleteLoad | crates/symbolicator-native/src/symbolication/process_minidump.rs:241-263 | publishing the fetched value and waking exactly the waiters of the replaced notifier is one step of the protocol |
| CfiLoader.CollectModules | crates/symbolicator-native/src/symbolication/process_minidump.rs:511-557 | the loop that takes entries out of the map yields the module list in which only the first module of a key has its entry |
| CfiLoader.FetchedReachesResponse | crates/symbolicator-native/src/symbolication/process_minidump.rs:511-557 | every CFI fetched for a module of the minidump reaches the response, under the first module of its key and no other |
| CfiLoader.ResponseModules | crates/symbolicator-native/src/symbolication/process_minidump.rs:511-557 | the response has, in order and once each, exactly the modules with an identifier and the first module of each key that the walk used |
| ArtifactLookup.SourceMapRecoverable | crates/symbolicator-js/src/bundle_lookup.rs:83-93 | a source map found in a bundle by one request and taken from the cache by any other comes with the very text first found if and only if the bundle is open there (or the text is empty anyway), else with an empty text |
| ArtifactLookup.ClosedBundleLosesText | crates/symbolicator-js/src/lookup.rs:1309-1317 | a source map whose text is lost: its bundle opened in one request and failed to open in the other |
| ArtifactLookup.TextOfFound | crates/symbolicator-js/src/sourcemap_cache.rs:30-47 | with contents the text is what was found; without, it is that of the open bundle, or empty |
| ArtifactLookup.FetchedFromBundle | crates/symbolicator-js/src/lookup.rs:726-764 | every file that is fetched as part of a bundle, from the cache or not, is what that bundle alone gives for the key, but for dropped contents |
| ArtifactLookup.FetchedFileIs | crates/symbolicator-js/src/lookup.rs:461-489 | a file fetched from a bundle, from the cache or not, is an error exactly if contents are missing, its data URL cannot be decoded, or there is a reference and no path; its source map is the decoded data, or the link joined to the path: the link itself if it has a scheme, else scheme and host of the path and its directory walked by the link |
| ArtifactLookup.ResolvedByDebugId | crates/symbolicator-js/src/lookup.rs:934-966 | the file is taken from the open bundle with the debug id that has the greatest URI |
| ArtifactLookup.ResolvedByUrl | crates/symbolicator-js/src/lookup.rs:968-998 | without the debug id, from the bundle with the greatest URI that has the first candidate URL that any bundle has |
| ArtifactLookup.ResolvedAsArtifact | crates/symbolicator-js/src/lookup.rs:1070-1088 | without a bundle, the individual artifact for the first candidate URL that has one |
| ArtifactLookup.ResolvedNowhere | crates/symbolicator-js/src/lookup.rs:934-1037 | nothing is found if and only if no open bundle has the debug id, and no bundle and no artifact any candidate URL |
| ArtifactLookup.UrisFromLastAt | crates/symbolicator-js/src/lookup.rs:904-907 | the cache is asked for the bundles in descending order of their URIs |
| ArtifactLookup.FirstCachedAt | crates/symbolicator-js/src/bundle_lookup.rs:54-74 | the hit is the one of the first bundle for which the key is cached |
| ArtifactLookup.WhenAsked | crates/symbolicator-js/src/lookup.rs:1013-1067 | the API is asked for a key with a debug id exactly if no known bundle has it, and for any other exactly if it is not found and there are a path and a release |
| ArtifactLookup.ResolvedIsFoundIn | crates/symbolicator-js/src/sourcemap_cache.rs:116-136 | the descriptor found over all bundles, by debug id or by candidate URL, is the one that a lookup in its bundle alone finds |
| ArtifactLookup.PathFoundIn | crates/symbolicator-js/src/lookup.rs:968-998 | since a path lookup happens only if no known bundle has the debug id, and stops at the first URL that any bundle has, the same bundle gives the same descriptor again |
| ArtifactLookup.DebugIdNotFound | crates/symbolicator-js/src/lookup.rs:934-966 | the lookup by debug id fails if and only if no open bundle has the debug id |
| ArtifactLookup.MergedGrows | crates/symbolicator-js/src/lookup.rs:1182-1224 | an API answer replaces nothing, makes everything in it known, keeps the bundles ordered, and counts as new exactly if it changes anything |
| ArtifactLookup.MergedIs | crates/symbolicator-js/src/lookup.rs:1182-1248 | after an answer exactly these are known: what was known, and of each path and bundle not known before the first that the answer gives |
| ArtifactLookup.FileInBundleCache.TryGet | crates/symbolicator-js/src/bundle_lookup.rs:54-74 | the first of the given bundles for which the key is cached |
| ArtifactLookup.FileInBundleCache.Insert | crates/symbolicator-js/src/bundle_lookup.rs:76-95 | exactly one entry changes, a source map loses its contents, and the cache stays sound |
| ArtifactLookup.ArtifactFetcher.GetFile | crates/symbolicator-js/src/lookup.rs:726-764 | the documented order: cached for a known bundle, by debug id, by path, individual artifact, scraped; when the API is asked; and that a file found in a bundle is then cached for it, and nothing else changes in the cache |
| ArtifactLookup.RememberedIsHit | crates/symbolicator-js/src/bundle_lookup.rs:54-95 | what one fetch found in a bundle is what a fetch with this bundle takes from the cache, if the key was not cached for its bundles before |
| ArtifactLookup.FileInBundleCache.Evict | crates/symbolicator-js/src/bundle_lookup.rs:25-47 | the cache may drop entries at any time and stays sound |
| ArtifactLookup.ArtifactFetcher.TryGetFileWithDebugId | crates/symbolicator-js/src/lookup.rs:1013-1037 | by debug id before and after asking the API, and only then by path and as artifact |
| ArtifactLookup.ArtifactFetcher.TryGetFileWithoutDebugId | crates/symbolicator-js/src/lookup.rs:1045-1067 | by path and as artifact before and after asking the API |
| ArtifactLookup.ArtifactFetcher.QuerySentryForFile | crates/symbolicator-js/src/lookup.rs:1123-1225 | the API is asked for the debug id and the file stem, without debug id only with a path and a release; the new bundles and artifacts, and whether there are any |
| SourcesBudget.BudgetIsConserved | crates/symbolicator-js/src/lookup.rs:707-720 | over any sequence of requests, remaining budget plus the sizes of all retained minified and source files is the initial budget |
| SourcesBudget.RepeatedRequestIsFree | crates/symbolicator-js/src/lookup.rs:216-260 | a request made again, after anything else, changes nothing, charges nothing and gives the first answer |
| SourcesBudget.NothingRefusedIfAllFits | crates/symbolicator-js/src/lookup.rs:707-720 | if all that is fetched fits into the budget, every first request retains just what was fetched |
| SourcesBudget.FirstRequestDecides | crates/symbolicator-js/src/lookup.rs:216-260 | whatever is requested before and after, the first request for a module or file decides: it is kept if it fitted into what then remained, else an error; a module's sources are looked up from the URL of the source map of the file that was kept, else from its path |
| SourcesBudget.FetchedStays | crates/symbolicator-js/src/lookup.rs:216-260 | modules and files never change once fetched, and the budget never grows |
| SourcesBudget.PreparedKnows | crates/symbolicator-js/src/lookup.rs:196-213 | preparing makes exactly the frames' stripped paths known and charges nothing |
| SourcesBudget.AsyncIsStripped | crates/symbolicator-js/src/lookup.rs:196-213 | one `async ` prefix is taken off a path, and nothing else |
| SourcesBudget.Charged | crates/symbolicator-js/src/lookup.rs:707-720 | an entry is kept if and only if it fits, is otherwise replaced by an error, and pays for exactly what it retains; no underflow |
| SourcesBudget.SourceMapLookup.GetModule | crates/symbolicator-js/src/lookup.rs:216-250 | a module is fetched and charged once; the conserved sum is kept |
| SourcesBudget.SourceMapLookup.GetSourceFile | crates/symbolicator-js/src/lookup.rs:253-260 | a source file is fetched and charged once; the conserved sum is kept |
| SourcesBudget.SourceMapLookup.PrepareModules | crates/symbolicator-js/src/lookup.rs:196-213 | the frames' paths are stripped in place and made known |
| ModuleLookup.InnerUndoesNew | crates/symbolicator-native/src/symbolication/module_lookup.rs:128-214 | taking the modules out of a new index gives back the list: length, order, debug files, and nothing changed but missing or zero sizes, filled to end exactly at the next start |
| ModuleLookup.BackFillFills | crates/symbolicator-native/src/symbolication/module_lookup.rs:148-171 | every missing size is filled up to the start of the next module by address and position |
| ModuleLookup.SortSorts | crates/symbolicator-native/src/symbolication/module_lookup.rs:148-150 | sorting orders the entries by their key and permutes them |
| ModuleLookup.Lookup.constructor | crates/symbolicator-native/src/symbolication/module_lookup.rs:128-197 | building the index in place: sort, back-fill without underflow, rewrite of the first debug file |
| ModuleLookup.Lookup.IntoInner | crates/symbolicator-native/src/symbolication/module_lookup.rs:200-214 | restoring the debug file and the order in place |
| AddressLookup.LookupPicksClosest | crates/symbolicator-native/src/symbolication/module_lookup.rs:483-515 | whichever match the binary search returns, lookup picks an entry with the greatest start not above the address and accepts it exactly if its size is 0 or it ends, without overflow, at or after the address |
| AddressLookup.LookupRefinesScan | crates/symbolicator-native/src/symbolication/module_lookup.rs:483-515 | with distinct starts, lookup by any documented binary search is a linear scan from the end |
| AddressLookup.RelativeLookupIff | crates/symbolicator-native/src/symbolication/module_lookup.rs:510-513 | in every index a relative lookup finds exactly the module with the index, wherever it is in memory, and nothing exactly if there is none |
| AddressLookup.NewRelativeLookup | crates/symbolicator-native/src/symbolication/module_lookup.rs:128-197 | in a new index exactly the modules of the request are found by position; each is the request's, with its size filled, and the first by address has its debug file rewritten if the rules rewrite it |
| AddressLookup.NoSizesResolveAll | crates/symbolicator-native/src/symbolication/module_lookup.rs:148-171 | if no module states a size, every address from the first start upwards resolves, whichever match the binary search returns |
| AddressLookup.AbsoluteHitStable | crates/symbolicator-native/src/symbolication/module_lookup.rs:87-102 | an absolute hit on a module at a non-zero start exposes the address that was looked up, and finds the module again |
| AddressLookup.RelativeAtZeroStable | crates/symbolicator-native/src/symbolication/module_lookup.rs:87-102 | a relative lookup in a module at 0 is exposed as it is and finds the module again |
| AddressLookup.RelativeStableIff | crates/symbolicator-native/src/symbolication/module_lookup.rs:87-102 | in every index and with every documented search, a relative lookup past the start of a module at a non-zero start finds the module again if and only if the sum does not overflow and lies in the module and before the next one, and no later module has the same start |
| AddressLookup.RelativeStartStableIff | crates/symbolicator-native/src/symbolication/module_lookup.rs:87-102 | at the start of the module, every documented search finds it again if and only if the offset is inside and no other module has the same start |
| AddressLookup.NewIsIndex | crates/symbolicator-native/src/symbolication/module_lookup.rs:137-171 | a new index is ordered by start and position and has each module once |
| AddressLookup.SimpleSearchIsDocumented | crates/symbolicator-native/src/symbolication/module_lookup.rs:486-495 | there is a search that does what the standard library documents |
| AddressLookup.SharedStartUnstable | crates/symbolicator-native/src/symbolication/module_lookup.rs:396-409 | two modules at one start: a relative address of the first is exposed as one that finds the second, with every documented search |
| MinidumpExtension.StacktracesRoundTrip | crates/symbolicator-native/src/symbolication/minidump_stacktraces.rs:110-149 | encoding stack traces as documented and parsing them gives the same threads, addresses and symbol bytes |
| MinidumpExtension.TextsRoundTrip | crates/symbolicator-native/src/symbolication/minidump_stacktraces.rs:134-163 | and the same function names as text, for any lossy decoder that keeps well-formed text |
| MinidumpExtension.ParseOfEncode | crates/symbolicator-native/src/symbolication/minidump_stacktraces.rs:223-278 | parsing an encoded format gives it back |
| MinidumpExtension.EncodeOfParse | crates/symbolicator-native/src/symbolication/minidump_stacktraces.rs:223-278 | encoding what was parsed gives the buffer back, but for its padding |
| MinidumpExtension.ParsesIff | crates/symbolicator-native/src/symbolication/minidump_stacktraces.rs:223-278 | exactly the buffers of version 1 with the length that their header announces are accepted |
| MinidumpExtension.RecordsAreAt | crates/symbolicator-native/src/symbolication/minidump_stacktraces.rs:223-278 | from which bytes of an accepted buffer each thread, each frame and the symbols are read |
| MinidumpExtension.SectionsAligned | crates/symbolicator-native/src/symbolication/minidump_stacktraces.rs:237-254 | the sections follow each other, each at a multiple of 8 |
| MinidumpExtension.Parse | crates/symbolicator-native/src/symbolication/minidump_stacktraces.rs:223-278 | the parser on 64-bit words: no overflow for any header, no read outside the buffer |
| MinidumpExtension.StacktraceReadIff | crates/symbolicator-native/src/symbolication/minidump_stacktraces.rs:304-348 | a thread is read if and only if its frame range and all its symbol ranges are in bounds |
| MinidumpExtension.TracesAreRead | crates/symbolicator-native/src/symbolication/minidump_stacktraces.rs:119-163 | whatever stream is read, its threads come out in order, each with just its own frames in order, with their addresses and slices of the symbols |
| MinidumpExtension.StacktraceErrors | crates/symbolicator-native/src/symbolication/minidump_stacktraces.rs:304-348 | reading fails with the thread's id if and only if its frame range is out of bounds, and otherwise with the address of its first frame whose symbol range is |
| MinidumpExtension.StreamErrors | crates/symbolicator-native/src/symbolication/minidump_stacktraces.rs:119-122 | a stream fails with the error of the first thread that cannot be read |
| MinidumpExtension.StacktracesReadIff | crates/symbolicator-native/src/symbolication/minidump_stacktraces.rs:128-163 | a stream is read if and only if all its threads are |
| MinidumpExtension.OtherByteOrderRejected | crates/symbolicator-native/src/symbolication/minidump_stacktraces.rs:231-235 | a stream in the other byte order is rejected for its version |
| SourceContext.TrimKeepsColumn | crates/symbolicator-service/src/source_context.rs:36-81 | any line of at most 150 bytes is kept; of a longer one a well-formed window around the column is kept, with a marker on exactly the cut sides |
| SourceContext.KeptWindowBounds | crates/symbolicator-service/src/source_context.rs:36-81 | the window: 137 to 143 bytes between character boundaries, cut in front exactly from column 65 on and behind exactly if the column is below 65 or at least 85 bytes before the end, with at least 56 bytes kept before the column and 73 from it on |
| SourceContext.FloorIsGreatestBoundary | crates/symbolicator-service/src/source_context.rs:83-96 | the greatest character boundary at or below the index |
| SourceContext.WindowHasStart | crates/symbolicator-service/src/source_context.rs:83-96 | the unchecked unwrap never fails on well-formed text |
| SourceContext.TrimContextLine | crates/symbolicator-service/src/source_context.rs:36-81 | trimming in place gives the piece with its markers |
| SourceContext.ContextIsTrimmed | crates/symbolicator-service/src/source_context.rs:12-34 | the context of a line is the line, as many lines just before and just after it as were asked for or as there are, each the source's line with its number, trimmed around the column |
| SourceContext.GetContextLines | crates/symbolicator-service/src/source_context.rs:12-34 | skipping and taking from the line iterator gives the context of the line, or nothing past the end |
| SymstorePaths.SymstoreRoundTrip | crates/symbolicator-sources/src/paths.rs:512-598 | for every file type and both casings, parsing a printed path recovers type, identifier and name if and only if the object is recoverable |
| SymstorePaths.CodeFilesRecovered | crates/symbolicator-sources/src/paths.rs:219-265 | ELF and Mach code files are always recovered |
| SymstorePaths.DebugFilesRecovered | crates/symbolicator-sources/src/paths.rs:219-265 | ELF and Mach debug files are always recovered |
| SymstorePaths.PdbRecoveredIff | crates/symbolicator-sources/src/paths.rs:49-74 | PDBs are recovered if and only if they end in `.pdb` and their appendix is the printed one |
| SymstorePaths.PeRecoveredIff | crates/symbolicator-sources/src/paths.rs:76-98 | PEs are recovered if and only if they do not end in `.pdb` |
| SymstorePaths.PdbPathIs | crates/symbolicator-sources/src/paths.rs:49-74 | the path of a PDB: its name, lower-cased for SSQP only, and UUID and appendix, for SSQP in lower and upper case, otherwise in upper and lower case; all ones for the appendix of a .NET file |
| SymstorePaths.PePathIs | crates/symbolicator-sources/src/paths.rs:76-98 | the path of a PE: its name, lower-cased for SSQP only, and timestamp and size, in lower case but for a timestamp that is not for SSQP |
| SymstorePaths.UnixPathIs | crates/symbolicator-sources/src/paths.rs:219-265 | the paths of ELF and Mach files: prefix and identifier are the same in both casings, and debug files have a fixed name |
| FoldNames.FoldFunctionName | crates/symbolicator-js/src/utils.rs:62-97 | the loop over the components groups maximal runs |
| MaximalRuns.RunsAreMaximal | crates/symbolicator-js/src/utils.rs:69-82 | the groups are maximal runs of equal components and keep every component in its place |
| FoldNames.FoldingIsLosslessIff | crates/symbolicator-js/src/utils.rs:62-97 | expanding a folded name gives the name back if and only if no component that is left alone reads as a group |
| FoldNames.PlainNamesUnambiguous | crates/symbolicator-js/src/utils.rs:62-97 | names lacking one of the characters of a group are such names |
| FoldNames.FoldingIsIdempotentIff | crates/symbolicator-js/src/utils.rs:62-97 | folding a name twice is folding it once if and only if no lone component is the text that the group next to it is written as |
| FoldNames.UnambiguousFoldsOnce | crates/symbolicator-js/src/utils.rs:62-97 | unambiguous names are such names, so folding them twice is folding them once |
| FoldNames.AmbiguousNameFoldsTwice | crates/symbolicator-js/src/utils.rs:62-97 | a name that is neither lossless nor stable when folded: `{a#2}.a.a.b` |
| FoldNames.AmbiguousNameFoldsOnce | crates/symbolicator-js/src/utils.rs:62-97 | an ambiguous name that is stable when folded: `{a#2}.b` |
| JoinPaths.JoinPaths | crates/symbolicator-js/src/utils.rs:187-245 | the loops over the segment stack compute the specified path |
| JoinPaths.SchemeAndHostKept | crates/symbolicator-js/src/utils.rs:187-245 | a relative join to an http base keeps scheme and host however many `..` there are, and has no empty segment |
| JoinPaths.JoiningComposes | crates/symbolicator-js/src/utils.rs:187-245 | joining `r1/x` and then `r2` is joining `r1/r2` |
| JoinPaths.NameReplacesBaseName | crates/symbolicator-js/src/utils.rs:187-245 | joining a name replaces the base name |
| JoinPaths.DotDotLeavesDirectory | crates/symbolicator-js/src/utils.rs:187-245 | a leading `..` leaves a directory, and at the top of an http path does nothing |
| JoinPaths.DotDotIsKept | crates/symbolicator-js/src/utils.rs:187-245 | at the top of any other path, the `..` is kept |
| JoinPaths.DotIsSkipped | crates/symbolicator-js/src/utils.rs:187-245 | a leading `.` is skipped |
| JoinPaths.NameEntersDirectory | crates/symbolicator-js/src/utils.rs:187-245 | for http, a leading name enters a directory |
| JoinPaths.DotsAtEnd | crates/symbolicator-js/src/utils.rs:187-245 | a final `..` gives the parent of the base's directory, a final `.` the directory; with the rules before, this gives the path for every plain right side of an http base |
| JoinPaths.AbsoluteJoin | crates/symbolicator-js/src/utils.rs:187-205 | a right side with a scheme stands alone, one with a slash is a path on the host, and with two slashes on another host; files have no host |
| JoinPaths.TildeIsHost | crates/symbolicator-js/src/utils.rs:187-205 | a tilde before a leading slash makes no difference |
| FileStems.TrimAllEndMatches | crates/symbolicator-js/src/utils.rs:290-301 | the repeated trimming ends, at the stem |
| FileStems.StemIsStem | crates/symbolicator-js/src/utils.rs:289-301 | the input is the stem followed by patterns, and no pattern ends the stem |
| FileStems.OrderIrrelevant | crates/symbolicator-js/src/utils.rs:268-301 | for patterns that start with their only dot, the stem is unique and does not depend on their order |
| FileStems.FileSuffixesAreDotSuffixes | crates/symbolicator-js/src/utils.rs:285-287 | the file suffixes are such patterns |
| FileStems.StemOfPath | crates/symbolicator-js/src/utils.rs:268-283 | the path without its host is the stem, file suffixes, and the query and fragment of the file name; the stem of the file name ends in no suffix and holds neither query nor fragment |
| FileStems.StrippedIsSuffix | crates/symbolicator-js/src/utils.rs:249-258 | stripping the host leaves a suffix of the path |
| FileStems.HostIsStripped | crates/symbolicator-js/src/utils.rs:249-258 | everything up to the first slash after the first `://` is removed; without such a slash the host is left |
| FileStems.OnlyTildeIsStripped | crates/symbolicator-js/src/utils.rs:249-258 | otherwise only a leading tilde is removed |
| FileStems.CandidateCount | crates/symbolicator-js/src/utils.rs:303-322 | two, three or four candidates, and when |
| FileStems.CandidatesAre | crates/symbolicator-js/src/utils.rs:303-322 | for an origin and a path, with or without query and fragment: the URL, the URL without query, and both with a tilde for the origin, in this order and all without the fragment |
| JvmFrames.OrderIsKept | crates/symbolicator-proguard/src/symbolication.rs:211-355 | for any mappers, each frame put out has index and platform of a frame it comes from, and these come in order |
| JvmFrames.EitherOrderIsKept | crates/symbolicator-proguard/src/symbolication.rs:142-170 | the same for frames that come callers first, which are reversed before and after |
| JvmFrames.ChunkComesFrom | crates/symbolicator-proguard/src/symbolication.rs:262-352 | a frame becomes nothing if and only if it is an outline frame, cleared by rewrite rules, or has a line and maps to synthesized methods only |
| JvmFrames.QueryIs | crates/symbolicator-proguard/src/symbolication.rs:232-260 | a frame with a line is looked up by line, any other by the parameters of its signature, as the first mapper that can deobfuscates it, else by line 0 |
| JvmFrames.FrameBecomes | crates/symbolicator-proguard/src/symbolication.rs:262-352 | the first mapper that knows a frame decides: its frames in order, each with the mapped class, method, line modulo 2^32, synthesized flag and file, or else the frame's file, without the synthesized ones if the frame has a line; failing that the frame with another class and method, or another class only; with the deobfuscated signature |
| JvmFrames.FrameStays | crates/symbolicator-proguard/src/symbolication.rs:309-352 | a frame that no mapper knows is put out unchanged but for its signature |
| JvmFrames.PositionsAreCarried | crates/symbolicator-proguard/src/symbolication.rs:398-451 | each mapper is asked with the outline position that it left when it was last asked |
| JvmFrames.ChunkInOutput | crates/symbolicator-proguard/src/symbolication.rs:211-355 | what a frame becomes comes just after what the frames before it become |
| JvmFrames.CountersMatchOutput | crates/symbolicator-proguard/src/symbolication.rs:310-341 | per platform, symbolicated plus unsymbolicated counts are the frames put out |
| JvmFrames.RewriteOnlyForFirst | crates/symbolicator-proguard/src/symbolication.rs:217-308 | rewrite rules are offered to a frame if and only if there is an exception and all frames before it are outline frames |
| JvmFrames.RewriteNotConsulted | crates/symbolicator-proguard/src/symbolication.rs:262-305 | any other frame is remapped as by mappers without rewrite rules |
| JvmFrames.NoExceptionNoRewrite | crates/symbolicator-proguard/src/symbolication.rs:211-355 | without an exception the whole trace is remapped as by mappers without rewrite rules |
| JvmFrames.MappedExceptionName | crates/symbolicator-proguard/src/symbolication.rs:362-381 | a remapped exception has the name the mapper gave, unless its only dot is in front |
| JvmFrames.FirstClassIs | crates/symbolicator-proguard/src/symbolication.rs:362-381 | the first mapper that knows the class of an exception renames it |
| JvmFrames.MapStacktrace | crates/symbolicator-proguard/src/symbolication.rs:211-355 | the loops over frames and mappers, with carried outline positions and counters, give the specified frames and counts |
| JvmFrames.MapFullFrame | crates/symbolicator-proguard/src/symbolication.rs:398-451 | the full remapping of one frame and the new outline position |
| NativeFrames.OrderIsKept | crates/symbolicator-native/src/symbolication/symbolicate.rs:187-300 | for any well-behaved frame lookup, the original indices of the output never decrease |
| NativeFrames.OnlyScansAndOutermostDropped | crates/symbolicator-native/src/symbolication/symbolicate.rs:235-277 | a frame is missing from the output if and only if it is a scanned frame without symbol or image, or an outermost unknown frame that is null-ish or follows a glibc start frame |
| NativeFrames.FoundFramesAreOutput | crates/symbolicator-native/src/symbolication/symbolicate.rs:202-205 | the frames put out for a successful lookup are exactly those found, inlined ones included, in order and with nothing between them |
| NativeFrames.FailedFrameIsOutput | crates/symbolicator-native/src/symbolication/symbolicate.rs:206-294 | a failed frame that is kept is put out once, with the status and the package of the lookup and otherwise unchanged but for demangled names |
| NativeFrames.EmptiedOnlyByScans | crates/symbolicator-native/src/symbolication/symbolicate.rs:235-277 | the output is empty if and only if all frames are such scanned frames |
| NativeFrames.TallyCounts | crates/symbolicator-native/src/symbolication/symbolicate.rs:279-291 | each failure counter grows by exactly the failed frames of its kind in the output |
| NativeFrames.KeptScansCount | crates/symbolicator-native/src/symbolication/symbolicate.rs:187-300 | the counter of scanned frames grows by the number of scanned frames that are put out |
| NativeFrames.NamesAreKept | crates/symbolicator-native/src/symbolication/symbolicate.rs:207-217 | demangling a failed frame loses none of its names |
| NativeFrames.SymbolicateStacktrace | crates/symbolicator-native/src/symbolication/symbolicate.rs:174-328 | the loop gives the specified output and counters, and counts truncated and short traces |
| RequestService.RunsAreSafe | crates/symbolicator/src/service.rs:428-540 | in every run the counter is the number of held slots and within the maximum, the map holds exactly the registered requests not yet removed, and no poll is answered with anything but its request's outcome |
| RequestService.RejectedNeverEnters | crates/symbolicator/src/service.rs:447-465 | a request is rejected if and only if as many slots as allowed are held, and then never enters the map |
| RequestService.ResponseIsStable | crates/symbolicator/src/service.rs:400-422 | once a response is there, every poll answered later gets this response, unless it starts after the removal |
| RequestService.PollAfterResponse | crates/symbolicator/src/service.rs:552-584 | a poll of a request with a response is answered with it and cannot time out |
| RequestService.AnswersStemFromResults | crates/symbolicator/src/service.rs:467-531 | in every run, an outcome that a poll is answered with is that of its own request's computation, which ended only once: completed with the response, failed with the message, or timed out |
| RequestService.PollsGetResult | crates/symbolicator/src/service.rs:400-422 | every poll answered after a computation has ended is told how it ended, unless it starts after the removal |
| RequestService.UnfinishedTaskCanStep | crates/symbolicator/src/service.rs:463-532 | a task that still holds something has a step to take, panicked or not |
| RequestService.TaskStepsAreBounded | crates/symbolicator/src/service.rs:463-532 | each step of a task brings it nearer to its end, and no other step touches it |
| RequestService.NothingLeaks | crates/symbolicator/src/service.rs:457-532 | when no task can step, no slot is held, the map is empty and every waiting poll can be answered |
| RequestService.CounterIsComputing | crates/symbolicator/src/service.rs:447-521 | in every state the counter is the number of requests being computed and of tasks whose next step gives back their slot |
| RequestService.Service.CreateSymbolicationRequest | crates/symbolicator/src/service.rs:428-465 | a rejected request changes nothing; an accepted one takes a slot and is registered |
| RequestService.Service.Finish | crates/symbolicator/src/service.rs:517-531 | the response is sent before the slot is given back, and the request stays in the map |
| RequestService.Service.Unwind | crates/symbolicator/src/service.rs:457-532 | a panic gives back whatever is held and keeps a response that was sent |
| RequestService.Service.StartPolling | crates/symbolicator/src/service.rs:400-422 | a poll of an unknown request is answered at once, any other waits on the channel |
| RequestService.Service.WrapResponseChannel | crates/symbolicator/src/service.rs:552-584 | a waiting poll gets the response, an internal error if the sender is gone, or pending if only its timeout has elapsed |
| RequestService.Service.GetResponse | crates/symbolicator/src/service.rs:400-422 | a poll during which nothing else happens: unknown, the response, an internal error, or pending |
| CacheErrors.ErrorRoundTrip | crates/symbolicator-service/src/caching/cache_error.rs:135-162 | writing and reading any error but the internal one gives the error cut at a NUL, and the very error if and only if its details have none |
| CacheErrors.JunkAfterNulIsIgnored | crates/symbolicator-service/src/caching/cache_error.rs:177-183 | NULs and anything after them in a file that was not truncated do not change the error |
| CacheErrors.MarkersAreNeverConfused | crates/symbolicator-service/src/caching/cache_error.rs:75-79 | no bytes start with two markers |
| CacheErrors.ContentsIff | crates/symbolicator-service/src/caching/cache_error.rs:190-192 | bytes are contents if and only if there are any and they start with no marker |
| CacheErrors.Write | crates/symbolicator-service/src/caching/cache_error.rs:87-128 | whatever the file held and wherever its position was, it then holds just the error; an internal error changes nothing |
| CacheErrors.WriteAndRead | crates/symbolicator-service/src/caching/cache_error.rs:87-162 | an error without NULs survives in a file |

## Left out

- Downloads, HTTP, the shared cache, the file system, metrics and logging, except for the counters above.
- The internals of `symbolic`, `proguard`, `minidump`, `moka`, `humantime` and of the standard library's sort and binary search, which are modelled by what they document. `DebugId` and `CodeId` are canonical hex values.
- Preemption within a stack walk, and cancellation of a single CFI load: outside the scheduling assumption of `CfiLoader.dfy`. The fetch is one atomic await.
- That the shared bundle cache agrees with a fresh search by debug id: a hit may stem from another request that resolved it by path. Soundness and recoverability are proved instead.
- The messages of the errors in `ArtifactLookup.dfy`; other modules model their errors in full.
- The contents of individual artifacts, scraping and the source map cache itself are arguments; `debug_id` fields of cached files and scraping attempts are not modelled.
- `generate_module`, the webpack and turbopack fix-ups and rewrite rules are defined by regular expressions; rewriting is an arbitrary partial function.
- Symstore paths of source bundles, the other directory layouts, and base names outside ASCII. Names are given as the printer takes them, without directories.
- `bad_traces` of the native metrics is computed from counters that accumulate over a request.
- Errors of writing a file in `CacheErrors.dfy`, and the text of durations, which is assumed to be read as it was formatted.
- Debug file candidates, which a completed native response drops unless they are asked for.
- Memory ordering of the request counter: each of its operations is one step of `RequestService.dfy`.
- Finite tables (cache versions, file and object types, defaults), the command line tools and the test server.
- Source context for JVM frames, and the mapping of class names that stand alone.
- ArtifactLookup.ArtifactFetcher.QuerySentryForFile: asks for one key only, since the batch form is called with one key.
- SourcesBudget.SourceMapLookup.PrepareModules: takes the frames of all stack traces as one array of paths.
