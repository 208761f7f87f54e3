/**
Symbolicating the frames of a native stack trace: each frame is looked up, which gives one or more
frames (the inlined ones included) or a status that says why there are none.  Some frames that
fail are dropped.  The lookup and the demangler are arbitrary functions here.
*/
module NativeFrames {
  import opened Common
  import Strings

  datatype FrameTrust = NoTrust | Scan | CfiScan | Fp | Cfi | PreWalked | Context

  datatype FrameStatus = Symbolicated | MissingSymbol | UnknownImage | Missing | Malformed

  datatype AddrMode = Abs | Rel(moduleIndex: nat)

  datatype RawFrame = RawFrame(
    instructionAddr: u64,
    addrMode: AddrMode,
    function_: Option<string>,
    symbol: Option<string>,
    package: Option<string>,
    trust: FrameTrust)

  datatype SymbolicatedFrame = SymbolicatedFrame(status: FrameStatus, originalIndex: Option<nat>, raw: RawFrame)

  /** The result of looking a frame up, and the package that the lookup leaves in the frame. */
  datatype Answer = Answer(result: Result<seq<SymbolicatedFrame>, FrameStatus>, package: Option<string>)

  type Symbolicator = (nat, RawFrame) -> Answer

  type Demangler = string -> Option<string>

  /** Success gives at least one frame, all symbolicated and tagged with the frame's number, and
      failure has a status that says so. */
  ghost predicate WellBehaved(symbolicator: Symbolicator) {
    forall i, frame :: AnswersWell(symbolicator(i, frame).result, i)
  }

  ghost predicate AnswersWell(result: Result<seq<SymbolicatedFrame>, FrameStatus>, i: nat) {
    match result
    case Ok(frames) => frames != [] && AllTagged(frames, i)
    case Err(status) => status != Symbolicated
  }

  ghost predicate AllTagged(frames: seq<SymbolicatedFrame>, i: nat) {
    forall k :: 0 <= k < |frames| ==> frames[k].status == Symbolicated && frames[k].originalIndex == Some(i)
  }

  // ---------------------------------------------------------------------------------------------
  // Frames that fail

  function Xor<T>(a: Option<T>, b: Option<T>): Option<T> {
    if a.Some? && b.None? then a else if a.None? && b.Some? then b else None
  }

  /** The only name of a failed frame is taken to be mangled.  Its demangled form becomes the
      function; if the mangled form was the function, it becomes the symbol. */
  function Demangled(frame: RawFrame, demangle: Demangler): RawFrame {
    match Xor(frame.function_, frame.symbol)
    case None => frame
    case Some(mangled) =>
      match demangle(mangled)
      case None => frame
      case Some(demangled) =>
        frame.(function_ := Some(demangled), symbol := OrElse(frame.function_, frame.symbol))
  }

  predicate IsLikelyGlibcUndefinedRipFrame(frame: SymbolicatedFrame) {
    frame.raw.function_ in {Some("_start"), Some("__clone"), Some("__clone3")}
  }

  predicate IsNullish(frame: RawFrame) {
    frame.addrMode == Abs && frame.instructionAddr < 4096
  }

  predicate IsFalseScan(frame: RawFrame, status: FrameStatus) {
    frame.trust == Scan && status in {MissingSymbol, UnknownImage}
  }

  /** Whether a failed frame is dropped, after `before` has been put out. */
  predicate IsDropped(frame: RawFrame, status: FrameStatus, isOutermost: bool, before: seq<SymbolicatedFrame>) {
    || IsFalseScan(frame, status)
    || (&& status == UnknownImage && isOutermost && before != []
        && (IsLikelyGlibcUndefinedRipFrame(before[|before| - 1]) || IsNullish(frame)))
  }

  // ---------------------------------------------------------------------------------------------
  // A stack trace

  datatype Trace = Trace(frames: seq<RawFrame>, symbolicator: Symbolicator, demangle: Demangler)
  {
    function Lookup(i: nat): Result<seq<SymbolicatedFrame>, FrameStatus>
      requires i < |frames|
    {
      symbolicator(i, frames[i]).result
    }

    /** A frame as its failed lookup and the demangler leave it. */
    function FailedFrame(i: nat): RawFrame
      requires i < |frames|
    {
      Demangled(frames[i].(package := symbolicator(i, frames[i]).package), demangle)
    }
  }

  /** What frame `i` becomes after `before` has been put out. */
  function Chunk(t: Trace, i: nat, before: seq<SymbolicatedFrame>): seq<SymbolicatedFrame>
    requires i < |t.frames|
  {
    match t.Lookup(i)
    case Ok(frames) => frames
    case Err(status) =>
      if IsDropped(t.frames[i], status, i == |t.frames| - 1, before) then []
      else [SymbolicatedFrame(status, Some(i), t.FailedFrame(i))]
  }

  /** What the first `n` frames become. */
  function Output(t: Trace, n: nat): seq<SymbolicatedFrame>
    requires n <= |t.frames|
  {
    if n == 0 then [] else Output(t, n - 1) + Chunk(t, n - 1, Output(t, n - 1))
  }

  // ---------------------------------------------------------------------------------------------
  // Counters

  /** Counts of failed frames: all of them, those of a certain trust, and those not in any image. */
  datatype Failures = Failures(all: nat, scanned: nat, cfi: nat, context: nat, unmapped: nat)
  {
    function Plus(frame: SymbolicatedFrame): Failures {
      if frame.status == Symbolicated then this
      else
        Failures(
          all + 1,
          scanned + (if frame.raw.trust == Scan then 1 else 0),
          cfi + (if frame.raw.trust == Cfi then 1 else 0),
          context + (if frame.raw.trust == Context then 1 else 0),
          unmapped + (if frame.status == UnknownImage then 1 else 0))
    }
  }

  /** The counts after the frames have been added. */
  function Tally(counts: Failures, frames: seq<SymbolicatedFrame>): Failures {
    if frames == [] then counts else Tally(counts, frames[..|frames| - 1]).Plus(frames[|frames| - 1])
  }

  /** The scanned frames among the first `n` that are not dropped. */
  function KeptScans(t: Trace, n: nat): nat
    requires n <= |t.frames|
  {
    if n == 0 then 0
    else
      KeptScans(t, n - 1)
      + (if t.frames[n - 1].trust == Scan && Chunk(t, n - 1, Output(t, n - 1)) != [] then 1 else 0)
  }

  predicate IsLikelyBaseFrame(frame: SymbolicatedFrame) {
    match OrElse(frame.raw.function_, frame.raw.symbol)
    case None => false
    case Some(name) =>
      || name in {"main", "start", "_start", "__clone", "__clone3"}
      || Strings.Contains(name, "UserThreadStart")
      || Strings.Contains(name, "thread_start")
      || Strings.Contains(name, "start_thread")
      || Strings.Contains(name, "start_wqthread")
  }

  /** None of the last five frames is likely to be a thread base. */
  predicate IsTruncated(frames: seq<SymbolicatedFrame>) {
    forall k :: 0 <= k < |frames| && |frames| - 5 <= k ==> !IsLikelyBaseFrame(frames[k])
  }

  class StacktraceMetrics {
    var truncatedTraces: nat
    var shortTraces: nat
    var scannedFrames: nat
    var unsymbolicatedFrames: nat
    var unsymbolicatedScannedFrames: nat
    var unsymbolicatedCfiFrames: nat
    var unsymbolicatedContextFrames: nat
    var unmappedFrames: nat

    constructor ()
      ensures truncatedTraces == shortTraces == scannedFrames == unmappedFrames == 0
      ensures unsymbolicatedFrames == 0
      ensures unsymbolicatedScannedFrames == unsymbolicatedCfiFrames == unsymbolicatedContextFrames == 0
    {
      truncatedTraces, shortTraces, scannedFrames, unsymbolicatedFrames := 0, 0, 0, 0;
      unsymbolicatedScannedFrames, unsymbolicatedCfiFrames, unsymbolicatedContextFrames := 0, 0, 0;
      unmappedFrames := 0;
    }

    function Failed(): Failures
      reads this
    {
      Failures(unsymbolicatedFrames, unsymbolicatedScannedFrames, unsymbolicatedCfiFrames,
               unsymbolicatedContextFrames, unmappedFrames)
    }

    /** Counts a failed frame that is kept. */
    method RecordFailure(frame: SymbolicatedFrame)
      requires frame.status != Symbolicated
      modifies this
      ensures Failed() == old(Failed()).Plus(frame)
      ensures scannedFrames == old(scannedFrames) + if frame.raw.trust == Scan then 1 else 0
      ensures truncatedTraces == old(truncatedTraces) && shortTraces == old(shortTraces)
    {
      unsymbolicatedFrames := unsymbolicatedFrames + 1;
      match frame.raw.trust {
        case Scan =>
          scannedFrames := scannedFrames + 1;
          unsymbolicatedScannedFrames := unsymbolicatedScannedFrames + 1;
        case Cfi =>
          unsymbolicatedCfiFrames := unsymbolicatedCfiFrames + 1;
        case Context =>
          unsymbolicatedContextFrames := unsymbolicatedContextFrames + 1;
        case _ =>
      }
      if frame.status == UnknownImage {
        unmappedFrames := unmappedFrames + 1;
      }
    }
  }

  method HasBaseFrame(frames: seq<SymbolicatedFrame>) returns (r: bool)
    ensures r <==> !IsTruncated(frames)
  {
    var k := |frames|;
    while k > 0 && |frames| - k < 5
      invariant 0 <= k <= |frames| && |frames| - k <= 5
      invariant forall j :: k <= j < |frames| ==> !IsLikelyBaseFrame(frames[j])
    {
      k := k - 1;
      if IsLikelyBaseFrame(frames[k]) {
        return true;
      }
    }
    r := false;
  }

  method RecordShape(frames: seq<SymbolicatedFrame>, metrics: StacktraceMetrics)
    modifies metrics`truncatedTraces, metrics`shortTraces
    ensures metrics.truncatedTraces == old(metrics.truncatedTraces) + if IsTruncated(frames) then 1 else 0
    ensures metrics.shortTraces == old(metrics.shortTraces) + if |frames| < 3 then 1 else 0
  {
    var hasBase := HasBaseFrame(frames);
    if !hasBase {
      metrics.truncatedTraces := metrics.truncatedTraces + 1;
    }
    if |frames| < 3 {
      metrics.shortTraces := metrics.shortTraces + 1;
    }
  }

  /** The failed frame, if it is kept. */
  method KeepFailed(index: nat, raw: RawFrame, status: FrameStatus, demangle: Demangler, isOutermost: bool,
    before: seq<SymbolicatedFrame>, metrics: StacktraceMetrics) returns (kept: seq<SymbolicatedFrame>)
    requires status != Symbolicated
    modifies metrics
    ensures kept == if IsDropped(raw, status, isOutermost, before) then []
                    else [SymbolicatedFrame(status, Some(index), Demangled(raw, demangle))]
    ensures metrics.Failed() == if kept == [] then old(metrics.Failed()) else old(metrics.Failed()).Plus(kept[0])
    ensures metrics.scannedFrames == old(metrics.scannedFrames) + if kept != [] && raw.trust == Scan then 1 else 0
    ensures metrics.truncatedTraces == old(metrics.truncatedTraces) && metrics.shortTraces == old(metrics.shortTraces)
  {
    var frame := raw;
    var mangled := Xor(frame.function_, frame.symbol);
    var demangled := if mangled.Some? then demangle(mangled.value) else None;
    if demangled.Some? {
      var oldMangled := frame.function_;
      frame := frame.(function_ := demangled);
      if oldMangled.Some? {
        frame := frame.(symbol := oldMangled);
      }
    }
    kept := [];
    if frame.trust == Scan && (status == MissingSymbol || status == UnknownImage) {
      return;
    }
    if status == UnknownImage && isOutermost && before != [] && IsLikelyGlibcUndefinedRipFrame(before[|before| - 1]) {
      return;
    }
    if status == UnknownImage && isOutermost && IsNullish(frame) && before != [] {
      return;
    }
    metrics.RecordFailure(SymbolicatedFrame(status, Some(index), frame));
    kept := [SymbolicatedFrame(status, Some(index), frame)];
  }

  method SymbolicateStacktrace(thread: seq<RawFrame>, symbolicator: Symbolicator, demangle: Demangler,
    metrics: StacktraceMetrics) returns (symbolicated: seq<SymbolicatedFrame>)
    requires WellBehaved(symbolicator)
    modifies metrics
    ensures symbolicated == Output(Trace(thread, symbolicator, demangle), |thread|)
    ensures metrics.Failed() == Tally(old(metrics.Failed()), symbolicated)
    ensures metrics.scannedFrames
         == old(metrics.scannedFrames) + KeptScans(Trace(thread, symbolicator, demangle), |thread|)
    ensures metrics.truncatedTraces == old(metrics.truncatedTraces) + if IsTruncated(symbolicated) then 1 else 0
    ensures metrics.shortTraces == old(metrics.shortTraces) + if |symbolicated| < 3 then 1 else 0
  {
    ghost var t := Trace(thread, symbolicator, demangle);
    symbolicated := [];
    for index := 0 to |thread|
      invariant symbolicated == Output(t, index)
      invariant metrics.Failed() == Tally(old(metrics.Failed()), symbolicated)
      invariant metrics.scannedFrames == old(metrics.scannedFrames) + KeptScans(t, index)
      invariant metrics.truncatedTraces == old(metrics.truncatedTraces)
      invariant metrics.shortTraces == old(metrics.shortTraces)
    {
      var frames := SymbolicateFrame(thread, index, symbolicator, demangle, symbolicated, metrics);
      TallyConcat(old(metrics.Failed()), symbolicated, frames);
      symbolicated := symbolicated + frames;
    }
    RecordShape(symbolicated, metrics);
  }

  /** One round of the loop: what frame `index` becomes. */
  method SymbolicateFrame(thread: seq<RawFrame>, index: nat, symbolicator: Symbolicator, demangle: Demangler,
    before: seq<SymbolicatedFrame>, metrics: StacktraceMetrics) returns (frames: seq<SymbolicatedFrame>)
    requires index < |thread| && WellBehaved(symbolicator)
    modifies metrics
    ensures frames == Chunk(Trace(thread, symbolicator, demangle), index, before)
    ensures metrics.Failed() == Tally(old(metrics.Failed()), frames)
    ensures metrics.scannedFrames ==
      old(metrics.scannedFrames) + if thread[index].trust == Scan && frames != [] then 1 else 0
    ensures metrics.truncatedTraces == old(metrics.truncatedTraces) && metrics.shortTraces == old(metrics.shortTraces)
  {
    var answer := symbolicator(index, thread[index]);
    assert AnswersWell(answer.result, index);
    match answer.result {
      case Ok(found) =>
        if thread[index].trust == Scan {
          metrics.scannedFrames := metrics.scannedFrames + 1;
        }
        TallyTagged(old(metrics.Failed()), found, index);
        frames := found;
      case Err(status) =>
        var isOutermost := index + 1 == |thread|;
        var frame := thread[index].(package := answer.package);
        frames := KeepFailed(index, frame, status, demangle, isOutermost, before, metrics);
    }
  }

  lemma {:induction false} TallyTagged(counts: Failures, frames: seq<SymbolicatedFrame>, i: nat)
    requires AllTagged(frames, i)
    ensures Tally(counts, frames) == counts
  {
    if frames != [] {
      TallyTagged(counts, frames[..|frames| - 1], i);
    }
  }

  lemma {:induction false} TallyConcat(counts: Failures, a: seq<SymbolicatedFrame>, b: seq<SymbolicatedFrame>)
    ensures Tally(counts, a + b) == Tally(Tally(counts, a), b)
  {
    if b == [] {
      assert a + b == a;
    } else {
      assert (a + b)[..|a + b| - 1] == a + b[..|b| - 1];
      TallyConcat(counts, a, b[..|b| - 1]);
    }
  }

  datatype Kind = AnyFailed | FailedScan | FailedCfi | FailedContext | Unmapped

  predicate IsOf(frame: SymbolicatedFrame, kind: Kind) {
    frame.status != Symbolicated
    && match kind
       case AnyFailed => true
       case FailedScan => frame.raw.trust == Scan
       case FailedCfi => frame.raw.trust == Cfi
       case FailedContext => frame.raw.trust == Context
       case Unmapped => frame.status == UnknownImage
  }

  function NumberOf(frames: seq<SymbolicatedFrame>, kind: Kind): nat {
    if frames == [] then 0
    else (if IsOf(frames[0], kind) then 1 else 0) + NumberOf(frames[1..], kind)
  }

  predicate ScanIsOutput(t: Trace, i: nat)
    requires i < |t.frames|
  {
    t.frames[i].trust == Scan && Occurs(Output(t, |t.frames|), i)
  }

  /** The scanned frames among the first `n` that are put out. */
  ghost function ScansOutput(t: Trace, n: nat): set<nat>
    requires n <= |t.frames|
  {
    set i: nat | i < n && ScanIsOutput(t, i)
  }

  /** The counter of scanned frames grows by the number of scanned frames that are put out. */
  lemma {:induction false} KeptScansCount(t: Trace, n: nat)
    requires n <= |t.frames| && WellBehaved(t.symbolicator)
    ensures KeptScans(t, n) == |ScansOutput(t, n)|
  {
    if n > 0 {
      KeptScansCount(t, n - 1);
      KeptScansStep(t, n - 1);
      ScansOutputStep(t, n - 1);
    }
  }

  lemma ScansOutputStep(t: Trace, i: nat)
    requires i < |t.frames|
    ensures |ScansOutput(t, i + 1)| == |ScansOutput(t, i)| + if ScanIsOutput(t, i) then 1 else 0
  {
    assert ScansOutput(t, i + 1) - {i} == ScansOutput(t, i);
  }

  lemma KeptScansStep(t: Trace, i: nat)
    requires i < |t.frames| && WellBehaved(t.symbolicator)
    ensures KeptScans(t, i + 1) == KeptScans(t, i) + if ScanIsOutput(t, i) then 1 else 0
  {
    OutputSplits(t, i, |t.frames|);
  }

  lemma {:induction false} NumberSnoc(frames: seq<SymbolicatedFrame>, kind: Kind)
    requires frames != []
    ensures NumberOf(frames, kind)
         == NumberOf(frames[..|frames| - 1], kind) + if IsOf(frames[|frames| - 1], kind) then 1 else 0
  {
    if |frames| > 1 {
      NumberSnoc(frames[1..], kind);
      assert frames[1..][..|frames| - 2] == frames[..|frames| - 1][1..];
    }
  }

  /** Each counter grows by the number of frames of its kind in the output. */
  lemma {:induction false} TallyCounts(counts: Failures, frames: seq<SymbolicatedFrame>)
    ensures var r := Tally(counts, frames);
      && r.all == counts.all + NumberOf(frames, AnyFailed)
      && r.scanned == counts.scanned + NumberOf(frames, FailedScan)
      && r.cfi == counts.cfi + NumberOf(frames, FailedCfi)
      && r.context == counts.context + NumberOf(frames, FailedContext)
      && r.unmapped == counts.unmapped + NumberOf(frames, Unmapped)
  {
    if frames != [] {
      TallyCounts(counts, frames[..|frames| - 1]);
      forall kind ensures NumberOf(frames, kind)
          == NumberOf(frames[..|frames| - 1], kind) + if IsOf(frames[|frames| - 1], kind) then 1 else 0 {
        NumberSnoc(frames, kind);
      }
    }
  }

  // ---------------------------------------------------------------------------------------------
  // Order and drops

  /** Every frame put out is tagged with the number of a frame it comes from, and the numbers never
      decrease. */
  ghost predicate InOrder(frames: seq<SymbolicatedFrame>, n: nat) {
    && (forall a :: 0 <= a < |frames| ==> frames[a].originalIndex.Some? && frames[a].originalIndex.value < n)
    && forall a, b :: 0 <= a < b < |frames| ==> frames[a].originalIndex.value <= frames[b].originalIndex.value
  }

  predicate Occurs(frames: seq<SymbolicatedFrame>, i: nat) {
    exists a :: 0 <= a < |frames| && frames[a].originalIndex == Some(i)
  }

  lemma {:induction false} OrderIsKept(t: Trace, n: nat)
    requires n <= |t.frames| && WellBehaved(t.symbolicator)
    ensures InOrder(Output(t, n), n)
  {
    if n > 0 {
      OrderIsKept(t, n - 1);
      ChunkTagged(t, n - 1, Output(t, n - 1));
    }
  }

  lemma ChunkTagged(t: Trace, i: nat, before: seq<SymbolicatedFrame>)
    requires i < |t.frames| && WellBehaved(t.symbolicator)
    ensures forall k :: 0 <= k < |Chunk(t, i, before)| ==> Chunk(t, i, before)[k].originalIndex == Some(i)
    ensures Chunk(t, i, before) == [] <==>
      t.Lookup(i).Err? && IsDropped(t.frames[i], t.Lookup(i).error, i == |t.frames| - 1, before)
  {
    assert AnswersWell(t.Lookup(i), i);
  }

  lemma {:induction false} OutputSplits(t: Trace, i: nat, n: nat)
    requires i < n <= |t.frames| && WellBehaved(t.symbolicator)
    ensures Occurs(Output(t, n), i) <==> Chunk(t, i, Output(t, i)) != []
    ensures |Output(t, i)| <= |Output(t, n)|
  {
    var init, last := Output(t, n - 1), Chunk(t, n - 1, Output(t, n - 1));
    ChunkTagged(t, n - 1, init);
    OrderIsKept(t, n - 1);
    OccursInConcat(init, last, i);
    if i == n - 1 {
      assert last != [] ==> last[0].originalIndex == Some(i);
    } else {
      OutputSplits(t, i, n - 1);
    }
  }

  lemma OccursInConcat(a: seq<SymbolicatedFrame>, b: seq<SymbolicatedFrame>, i: nat)
    ensures Occurs(a + b, i) <==> Occurs(a, i) || Occurs(b, i)
  {
    if k :| 0 <= k < |a| && a[k].originalIndex == Some(i) {
      assert (a + b)[k] == a[k];
    }
    if k :| 0 <= k < |b| && b[k].originalIndex == Some(i) {
      assert (a + b)[|a| + k] == b[k];
    }
  }

  /** The frames tagged `i` are exactly `chunk`, one after the other from position `at` on. */
  ghost predicate AreTagged(out: seq<SymbolicatedFrame>, i: nat, at: nat, chunk: seq<SymbolicatedFrame>) {
    && at + |chunk| <= |out| && out[at..at + |chunk|] == chunk
    && forall k :: 0 <= k < |out| && out[k].originalIndex == Some(i) ==> at <= k < at + |chunk|
  }

  /** The output before, at and after frame `i`. */
  lemma {:induction false} ChunkAt(t: Trace, i: nat, n: nat)
    requires i < n <= |t.frames| && WellBehaved(t.symbolicator)
    ensures AreTagged(Output(t, n), i, |Output(t, i)|, Chunk(t, i, Output(t, i)))
  {
    var init, last := Output(t, n - 1), Chunk(t, n - 1, Output(t, n - 1));
    ChunkTagged(t, n - 1, init);
    if i < n - 1 {
      ChunkAt(t, i, n - 1);
      TaggedInPrefix(init, last, i, |Output(t, i)|, Chunk(t, i, Output(t, i)));
    } else {
      OrderIsKept(t, n - 1);
      TaggedAtEnd(init, last, i);
    }
  }

  lemma TaggedInPrefix(init: seq<SymbolicatedFrame>, last: seq<SymbolicatedFrame>, i: nat, at: nat,
    chunk: seq<SymbolicatedFrame>)
    requires AreTagged(init, i, at, chunk)
    requires forall k :: 0 <= k < |last| ==> last[k].originalIndex != Some(i)
    ensures AreTagged(init + last, i, at, chunk)
  {
    assert (init + last)[at..at + |chunk|] == init[at..at + |chunk|];
  }

  lemma TaggedAtEnd(init: seq<SymbolicatedFrame>, last: seq<SymbolicatedFrame>, i: nat)
    requires InOrder(init, i)
    ensures AreTagged(init + last, i, |init|, last)
  {
  }

  /** All frames that a successful lookup gives, inlined ones included, are put out in their order
      with nothing between them, and nothing else is put out for the frame. */
  lemma FoundFramesAreOutput(t: Trace, i: nat)
    requires i < |t.frames| && WellBehaved(t.symbolicator) && t.Lookup(i).Ok?
    ensures exists at :: AreTagged(Output(t, |t.frames|), i, at, t.Lookup(i).value)
  {
    ChunkAt(t, i, |t.frames|);
  }

  /** For a failed frame at most one frame is put out: it has the status and the package of the
      lookup and the rest of the frame, but for demangled names. */
  lemma FailedFrameIsOutput(t: Trace, i: nat)
    requires i < |t.frames| && WellBehaved(t.symbolicator) && t.Lookup(i).Err?
    requires Occurs(Output(t, |t.frames|), i)
    ensures exists at, out :: AreTagged(Output(t, |t.frames|), i, at, [out]) && IsFailed(t, i, out)
  {
    ChunkAt(t, i, |t.frames|);
    OutputSplits(t, i, |t.frames|);
    var chunk := Chunk(t, i, Output(t, i));
    NamesAreKept(t, i);
    assert chunk == [chunk[0]] && IsFailed(t, i, chunk[0]);
  }

  predicate IsFailed(t: Trace, i: nat, out: SymbolicatedFrame)
    requires i < |t.frames|
  {
    var answer := t.symbolicator(i, t.frames[i]);
    && answer.result == Err(out.status) && out.originalIndex == Some(i)
    && out.raw == t.frames[i].(package := answer.package, function_ := out.raw.function_, symbol := out.raw.symbol)
  }

  predicate FailsAsFalseScan(t: Trace, i: nat)
    requires i < |t.frames|
  {
    t.Lookup(i).Err? && IsFalseScan(t.frames[i], t.Lookup(i).error)
  }

  /** A frame is missing from the output exactly if it was found by scanning and is unknown or has
      no symbol, or if it is the outermost frame, is not in any image, something else has been put
      out, and it is near null or follows a frame that glibc marks as the last. */
  lemma OnlyScansAndOutermostDropped(t: Trace, i: nat)
    requires i < |t.frames| && WellBehaved(t.symbolicator)
    ensures !Occurs(Output(t, |t.frames|), i) <==>
      || FailsAsFalseScan(t, i)
      || (&& i == |t.frames| - 1 && t.Lookup(i) == Err(UnknownImage) && Output(t, i) != []
          && (IsLikelyGlibcUndefinedRipFrame(Output(t, i)[|Output(t, i)| - 1]) || IsNullish(t.frames[i])))
  {
    OutputSplits(t, i, |t.frames|);
    ChunkTagged(t, i, Output(t, i));
  }

  /** A trace becomes empty only if all its frames were found by scanning and fail like this. */
  lemma EmptiedOnlyByScans(t: Trace)
    requires WellBehaved(t.symbolicator)
    ensures Output(t, |t.frames|) == [] <==> forall i :: 0 <= i < |t.frames| ==> FailsAsFalseScan(t, i)
  {
    if Output(t, |t.frames|) == [] {
      forall i | 0 <= i < |t.frames| ensures FailsAsFalseScan(t, i) {
        OutputSplits(t, i, |t.frames|);
        ChunkTagged(t, i, Output(t, i));
      }
    } else if forall i :: 0 <= i < |t.frames| ==> FailsAsFalseScan(t, i) {
      AllScansDropped(t, |t.frames|);
    }
  }

  lemma {:induction false} AllScansDropped(t: Trace, n: nat)
    requires n <= |t.frames| && forall i :: 0 <= i < |t.frames| ==> FailsAsFalseScan(t, i)
    ensures Output(t, n) == []
  {
    if n > 0 {
      AllScansDropped(t, n - 1);
      assert FailsAsFalseScan(t, n - 1);
    }
  }

  /** Demangling loses no name: a failed frame keeps its function and its symbol, except that a
      lone function may move to the symbol to make room for its demangled form. */
  lemma NamesAreKept(t: Trace, i: nat)
    requires i < |t.frames|
    ensures var frame, failed := t.frames[i], t.FailedFrame(i);
      && (frame.symbol.Some? ==> failed.symbol == frame.symbol)
      && (frame.function_.Some? ==> frame.function_ in {failed.function_, failed.symbol})
      && (frame.function_.Some? && frame.symbol.Some? ==> failed.function_ == frame.function_)
      && (failed.function_ != frame.function_ ==>
            Xor(frame.function_, frame.symbol).Some?
            && failed.function_ == t.demangle(Xor(frame.function_, frame.symbol).value))
      && failed.trust == frame.trust && failed.instructionAddr == frame.instructionAddr
  {
  }
}
