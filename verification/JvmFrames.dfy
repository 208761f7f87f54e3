/**
Remapping the frames of a JVM stack trace.  The mappers are arbitrary functions; what is proved
holds for any of them.
*/
module JvmFrames {
  import opened Common
  import Strings

  type Platform = Option<string>

  datatype JvmFrame = JvmFrame(
    platform: Platform,
    function_: string,
    filename: Option<string>,
    module_: string,
    absPath: Option<string>,
    lineno: Option<u32>,
    index: nat,
    signature: Option<string>,
    methodSynthesized: bool)

  /** How a mapper is asked: by line, or by the parameters of a signature. */
  datatype Query =
    | ByLine(module_: string, function_: string, line: nat)
    | ByParameters(module_: string, function_: string, parameters: string)

  datatype MappedFrame = MappedFrame(
    class_: string, method_: string, line: Option<nat>, file: Option<string>, synthesized: bool)

  /** What a mapper makes of a frame: it may be an outline frame, or stand for some frames. */
  datatype Remap = OutlineFrame | Frames(hadMappings: bool, frames: seq<MappedFrame>)

  datatype Signature = Signature(parameters: seq<string>, formatted: string)

  type Position = Option<nat>

  /** A mapper is given a query, the exception's descriptor, whether to apply rewrite rules, and
      the outline position it carries, which it may change. */
  datatype Mapper = Mapper(
    remapFrame: (Query, Option<string>, bool, Position) -> (Remap, Position),
    remapMethod: (string, string) -> Option<(string, string)>,
    remapClass: string -> Option<string>,
    deobfuscateSignature: string -> Option<Signature>)

  // ---------------------------------------------------------------------------------------------
  // One frame

  function FirstSignature(mappers: seq<Mapper>, signature: string): Option<Signature> {
    if mappers == [] then None
    else
      match mappers[0].deobfuscateSignature(signature)
      case Some(deobfuscated) => Some(deobfuscated)
      case None => FirstSignature(mappers[1..], signature)
  }

  function Deobfuscated(mappers: seq<Mapper>, frame: JvmFrame): Option<Signature> {
    match frame.signature
    case None => None
    case Some(signature) => FirstSignature(mappers, signature)
  }

  function QueryFor(frame: JvmFrame, signature: Option<Signature>): Query {
    match frame.lineno
    case Some(lineno) => ByLine(frame.module_, frame.function_, lineno)
    case None =>
      match signature
      case Some(s) => ByParameters(frame.module_, frame.function_, Strings.Join(s.parameters, ","))
      case None => ByLine(frame.module_, frame.function_, 0)
  }

  function FromMapped(f: MappedFrame, original: JvmFrame): JvmFrame {
    original.(module_ := f.class_, function_ := f.method_,
              lineno := if f.line.Some? then Some(f.line.value % U32_LIMIT) else None,
              absPath := OrElse(f.file, original.absPath),
              filename := OrElse(f.file, original.filename),
              methodSynthesized := f.synthesized)
  }

  function FromAllMapped(fs: seq<MappedFrame>, original: JvmFrame): (r: seq<JvmFrame>)
    ensures |r| == |fs| && forall i :: 0 <= i < |fs| ==> r[i] == FromMapped(fs[i], original)
  {
    seq(|fs|, i requires 0 <= i < |fs| => FromMapped(fs[i], original))
  }

  datatype Outcome =
    | Outline
    | RewriteCleared
    | Mapped(frames: seq<JvmFrame>)
    | Unmapped

  /** The full remapping of a frame; `Unmapped` leaves it to the fallbacks. */
  function FullRemap(remap: Remap, original: JvmFrame): Outcome {
    match remap
    case OutlineFrame => Outline
    case Frames(hadMappings, frames) =>
      if frames != [] then Mapped(FromAllMapped(frames, original))
      else if hadMappings then RewriteCleared
      else Unmapped
  }

  function ClassMethod(mapper: Mapper, frame: JvmFrame): Option<seq<JvmFrame>> {
    match mapper.remapMethod(frame.module_, frame.function_)
    case None => None
    case Some((class_, method_)) => Some([frame.(module_ := class_, function_ := method_)])
  }

  function ClassOnly(mapper: Mapper, frame: JvmFrame): Option<seq<JvmFrame>> {
    match mapper.remapClass(frame.module_)
    case None => None
    case Some(class_) => Some([frame.(module_ := class_)])
  }

  /** The mappers from number `m` on are tried in turn, each with its carried position. */
  function Attempt(mappers: seq<Mapper>, m: nat, query: Query, frame: JvmFrame, descriptor: Option<string>,
    applyRewrite: bool, positions: seq<Position>): (r: (Outcome, seq<Position>))
    requires m <= |mappers| == |positions|
    ensures |r.1| == |positions|
    decreases |mappers| - m
  {
    if m == |mappers| then (Unmapped, positions)
    else
      var (remap, position) := mappers[m].remapFrame(query, descriptor, applyRewrite, positions[m]);
      var carried := positions[m := position];
      var full := FullRemap(remap, frame);
      if !full.Unmapped? then (full, carried)
      else
        match OrElse(ClassMethod(mappers[m], frame), ClassOnly(mappers[m], frame))
        case Some(frames) => (Mapped(frames), carried)
        case None => Attempt(mappers, m + 1, query, frame, descriptor, applyRewrite, carried)
  }

  /** Mapped frames of methods that the compiler synthesized are dropped if the frame had a line. */
  function Kept(frames: seq<JvmFrame>, hasLine: bool): seq<JvmFrame> {
    if frames == [] then []
    else if hasLine && frames[0].methodSynthesized then Kept(frames[1..], hasLine)
    else [frames[0]] + Kept(frames[1..], hasLine)
  }

  function Signed(frame: JvmFrame, signature: Option<Signature>): JvmFrame {
    if signature.Some? then frame.(signature := Some(signature.value.formatted)) else frame
  }

  function AllSigned(frames: seq<JvmFrame>, signature: Option<Signature>): (r: seq<JvmFrame>)
    ensures |r| == |frames| && forall i :: 0 <= i < |frames| ==> r[i] == Signed(frames[i], signature)
  {
    seq(|frames|, i requires 0 <= i < |frames| => Signed(frames[i], signature))
  }

  /** What has become of a frame. */
  datatype Remapped = Remapped(frame: JvmFrame, signature: Option<Signature>, outcome: Outcome)
  {
    /** The frames that are put out, before their signatures are set. */
    function Survivors(): seq<JvmFrame> {
      match outcome
      case Outline => []
      case RewriteCleared => []
      case Mapped(frames) => Kept(frames, frame.lineno.Some?)
      case Unmapped => [frame]
    }

    function Chunk(): seq<JvmFrame> {
      AllSigned(Survivors(), signature)
    }

    /** How many frames of a platform count as symbolicated, and as unsymbolicated. */
    function Symbolicated(platform: Platform): nat {
      if outcome.Mapped? then CountOf(Survivors(), platform) else 0
    }

    function Unsymbolicated(platform: Platform): nat {
      if outcome.Unmapped? && frame.platform == platform then 1 else 0
    }
  }

  function CountOf(frames: seq<JvmFrame>, platform: Platform): nat {
    if frames == [] then 0
    else (if frames[0].platform == platform then 1 else 0) + CountOf(frames[1..], platform)
  }

  /** The frames that all results put out, and how many of a platform count. */
  function Emitted(rs: seq<Remapped>): seq<JvmFrame> {
    if rs == [] then [] else Emitted(rs[..|rs| - 1]) + rs[|rs| - 1].Chunk()
  }

  function Symbolicated(rs: seq<Remapped>, platform: Platform): nat {
    if rs == [] then 0 else Symbolicated(rs[..|rs| - 1], platform) + rs[|rs| - 1].Symbolicated(platform)
  }

  function Unsymbolicated(rs: seq<Remapped>, platform: Platform): nat {
    if rs == [] then 0 else Unsymbolicated(rs[..|rs| - 1], platform) + rs[|rs| - 1].Unsymbolicated(platform)
  }

  lemma EmittedSnoc(rs: seq<Remapped>, r: Remapped)
    ensures Emitted(rs + [r]) == Emitted(rs) + r.Chunk()
    ensures forall p :: Symbolicated(rs + [r], p) == Symbolicated(rs, p) + r.Symbolicated(p)
    ensures forall p :: Unsymbolicated(rs + [r], p) == Unsymbolicated(rs, p) + r.Unsymbolicated(p)
  {
    assert (rs + [r])[..|rs|] == rs;
  }

  // ---------------------------------------------------------------------------------------------
  // A stack trace

  datatype State = State(positions: seq<Position>, canRewrite: bool)

  datatype Trace = Trace(mappers: seq<Mapper>, frames: seq<JvmFrame>, descriptor: Option<string>)

  /** The state before frame `i`. */
  function StateBefore(t: Trace, i: nat): (s: State)
    requires i <= |t.frames|
    ensures |s.positions| == |t.mappers|
    decreases i, 0
  {
    if i == 0 then State(seq(|t.mappers|, _ => None), t.descriptor.Some?)
    else
      var (outcome, positions) := Step(t, i - 1);
      State(positions, StateBefore(t, i - 1).canRewrite && outcome.Outline?)
  }

  function Step(t: Trace, i: nat): (r: (Outcome, seq<Position>))
    requires i < |t.frames|
    ensures |r.1| == |t.mappers|
    decreases i, 1
  {
    var state := StateBefore(t, i);
    var query := QueryFor(t.frames[i], Deobfuscated(t.mappers, t.frames[i]));
    Attempt(t.mappers, 0, query, t.frames[i], t.descriptor, state.canRewrite, state.positions)
  }

  function ResultAt(t: Trace, i: nat): Remapped
    requires i < |t.frames|
  {
    Remapped(t.frames[i], Deobfuscated(t.mappers, t.frames[i]), Step(t, i).0)
  }

  /** What has become of the first `n` frames. */
  function Results(t: Trace, n: nat): (rs: seq<Remapped>)
    requires n <= |t.frames|
    ensures |rs| == n
  {
    if n == 0 then [] else Results(t, n - 1) + [ResultAt(t, n - 1)]
  }

  /** What the first `n` frames become. */
  function Output(t: Trace, n: nat): seq<JvmFrame>
    requires n <= |t.frames|
  {
    Emitted(Results(t, n))
  }

  // ---------------------------------------------------------------------------------------------
  // The loops over frames and mappers

  type Counts = map<Platform, nat>

  function CountIn(counts: Counts, platform: Platform): nat {
    if platform in counts then counts[platform] else 0
  }

  function Counted(counts: Counts, platform: Platform): Counts {
    counts[platform := CountIn(counts, platform) + 1]
  }

  class SymbolicationStats {
    var symbolicatedFrames: Counts
    var unsymbolicatedFrames: Counts

    constructor ()
      ensures symbolicatedFrames == unsymbolicatedFrames == map[]
    {
      symbolicatedFrames, unsymbolicatedFrames := map[], map[];
    }
  }

  method MapFullFrame(mapper: Mapper, query: Query, original: JvmFrame, descriptor: Option<string>,
    applyRewrite: bool, carried: array<Position>, m: nat) returns (r: Outcome)
    requires m < carried.Length
    modifies carried
    ensures var (remap, position) := mapper.remapFrame(query, descriptor, applyRewrite, old(carried[m]));
      r == FullRemap(remap, original) && carried[..] == old(carried[..])[m := position]
  {
    var (remap, position) := mapper.remapFrame(query, descriptor, applyRewrite, carried[m]);
    carried[m] := position;
    if remap.OutlineFrame? {
      return Outline;
    }
    if remap.hadMappings && remap.frames == [] {
      return RewriteCleared;
    }
    if remap.frames == [] {
      return Unmapped;
    }
    r := Mapped(FromAllMapped(remap.frames, original));
  }

  method TryMappers(mappers: seq<Mapper>, query: Query, frame: JvmFrame, descriptor: Option<string>,
    applyRewrite: bool, carried: array<Position>) returns (r: Outcome)
    requires carried.Length == |mappers|
    modifies carried
    ensures (r, carried[..]) == Attempt(mappers, 0, query, frame, descriptor, applyRewrite, old(carried[..]))
  {
    for m := 0 to |mappers|
      invariant Attempt(mappers, 0, query, frame, descriptor, applyRewrite, old(carried[..]))
             == Attempt(mappers, m, query, frame, descriptor, applyRewrite, carried[..])
    {
      r := MapFullFrame(mappers[m], query, frame, descriptor, applyRewrite, carried, m);
      if !r.Unmapped? {
        return;
      }
      var method_ := ClassMethod(mappers[m], frame);
      if method_.Some? {
        return Mapped(method_.value);
      }
      var class_ := ClassOnly(mappers[m], frame);
      if class_.Some? {
        return Mapped(class_.value);
      }
    }
    r := Unmapped;
  }

  method CountSymbolicated(frames: seq<JvmFrame>, stats: SymbolicationStats)
    modifies stats`symbolicatedFrames
    ensures forall p ::
      CountIn(stats.symbolicatedFrames, p) == CountIn(old(stats.symbolicatedFrames), p) + CountOf(frames, p)
  {
    for i := 0 to |frames|
      invariant forall p :: CountIn(stats.symbolicatedFrames, p) + CountOf(frames[i..], p)
                         == CountIn(old(stats.symbolicatedFrames), p) + CountOf(frames, p)
    {
      assert frames[i..][1..] == frames[i + 1..];
      stats.symbolicatedFrames := Counted(stats.symbolicatedFrames, frames[i].platform);
    }
  }

  /** Puts out what a frame becomes, and counts it. */
  method Emit(r: Remapped, stats: SymbolicationStats) returns (frames: seq<JvmFrame>)
    modifies stats
    ensures frames == r.Chunk()
    ensures forall p ::
      CountIn(stats.symbolicatedFrames, p) == CountIn(old(stats.symbolicatedFrames), p) + r.Symbolicated(p)
    ensures forall p ::
      CountIn(stats.unsymbolicatedFrames, p) == CountIn(old(stats.unsymbolicatedFrames), p) + r.Unsymbolicated(p)
  {
    match r.outcome
    case Outline =>
      frames := [];
    case RewriteCleared =>
      frames := [];
    case Mapped(mapped) =>
      var kept := Kept(mapped, r.frame.lineno.Some?);
      CountSymbolicated(kept, stats);
      frames := AllSigned(kept, r.signature);
    case Unmapped =>
      stats.unsymbolicatedFrames := Counted(stats.unsymbolicatedFrames, r.frame.platform);
      frames := AllSigned([r.frame], r.signature);
  }

  /** The counters `now` are the counters `was` and what the results add. */
  ghost predicate SymbolicatedIn(now: Counts, was: Counts, rs: seq<Remapped>) {
    forall p :: CountIn(now, p) == CountIn(was, p) + Symbolicated(rs, p)
  }

  ghost predicate UnsymbolicatedIn(now: Counts, was: Counts, rs: seq<Remapped>) {
    forall p :: CountIn(now, p) == CountIn(was, p) + Unsymbolicated(rs, p)
  }

  lemma CountedSnoc(s: Counts, s': Counts, s0: Counts, u: Counts, u': Counts, u0: Counts,
    rs: seq<Remapped>, r: Remapped)
    requires SymbolicatedIn(s', s0, rs) && forall p :: CountIn(s, p) == CountIn(s', p) + r.Symbolicated(p)
    requires UnsymbolicatedIn(u', u0, rs) && forall p :: CountIn(u, p) == CountIn(u', p) + r.Unsymbolicated(p)
    ensures SymbolicatedIn(s, s0, rs + [r]) && UnsymbolicatedIn(u, u0, rs + [r])
  {
    EmittedSnoc(rs, r);
  }

  /** Puts out one more result after `rs`. */
  method EmitAfter(ghost rs: seq<Remapped>, r: Remapped, stats: SymbolicationStats, ghost s0: Counts, ghost u0: Counts)
    returns (frames: seq<JvmFrame>)
    requires SymbolicatedIn(stats.symbolicatedFrames, s0, rs) && UnsymbolicatedIn(stats.unsymbolicatedFrames, u0, rs)
    modifies stats
    ensures frames == r.Chunk() && Emitted(rs + [r]) == Emitted(rs) + frames
    ensures SymbolicatedIn(stats.symbolicatedFrames, s0, rs + [r])
    ensures UnsymbolicatedIn(stats.unsymbolicatedFrames, u0, rs + [r])
  {
    frames := Emit(r, stats);
    EmittedSnoc(rs, r);
    CountedSnoc(stats.symbolicatedFrames, old(stats.symbolicatedFrames), s0,
                stats.unsymbolicatedFrames, old(stats.unsymbolicatedFrames), u0, rs, r);
  }

  /** What becomes of one frame, and whether the next one may be rewritten. */
  method RemapFrame(t: Trace, i: nat, canRewrite: bool, carried: array<Position>)
    returns (result: Remapped, nextCanRewrite: bool)
    requires i < |t.frames| && StateBefore(t, i) == State(carried[..], canRewrite)
    modifies carried
    ensures result == ResultAt(t, i) && StateBefore(t, i + 1) == State(carried[..], nextCanRewrite)
  {
    var frame := t.frames[i];
    var signature := Deobfuscated(t.mappers, frame);
    var query := QueryFor(frame, signature);
    var outcome := TryMappers(t.mappers, query, frame, t.descriptor, canRewrite, carried);
    assert Step(t, i) == (outcome, carried[..]);
    nextCanRewrite := canRewrite;
    if !outcome.Outline? {
      nextCanRewrite := false;
    }
    result := Remapped(frame, signature, outcome);
  }

  method MapStacktrace(mappers: seq<Mapper>, stacktrace: seq<JvmFrame>, descriptor: Option<string>,
    stats: SymbolicationStats) returns (remapped: seq<JvmFrame>)
    modifies stats
    ensures var rs := Results(Trace(mappers, stacktrace, descriptor), |stacktrace|);
      && remapped == Emitted(rs)
      && SymbolicatedIn(stats.symbolicatedFrames, old(stats.symbolicatedFrames), rs)
      && UnsymbolicatedIn(stats.unsymbolicatedFrames, old(stats.unsymbolicatedFrames), rs)
  {
    var t := Trace(mappers, stacktrace, descriptor);
    var carried := new Position[|mappers|](_ => None);
    remapped := [];
    var nextCanRewrite := descriptor.Some?;
    ghost var s0, u0 := stats.symbolicatedFrames, stats.unsymbolicatedFrames;
    for i := 0 to |stacktrace|
      invariant fresh(carried)
      invariant IsAfter(t, i, carried[..], nextCanRewrite, remapped)
      invariant AreCounted(t, i, stats.symbolicatedFrames, s0, stats.unsymbolicatedFrames, u0)
    {
      remapped, nextCanRewrite := Round(t, i, remapped, nextCanRewrite, carried, stats, s0, u0);
    }
  }

  /** Where the loop stands after `i` frames. */
  ghost predicate IsAfter(t: Trace, i: nat, positions: seq<Position>, canRewrite: bool, remapped: seq<JvmFrame>)
    requires i <= |t.frames|
  {
    StateBefore(t, i) == State(positions, canRewrite) && remapped == Output(t, i)
  }

  ghost predicate AreCounted(t: Trace, i: nat, s: Counts, s0: Counts, u: Counts, u0: Counts)
    requires i <= |t.frames|
  {
    SymbolicatedIn(s, s0, Results(t, i)) && UnsymbolicatedIn(u, u0, Results(t, i))
  }

  /** One round of the loop. */
  method Round(t: Trace, i: nat, before: seq<JvmFrame>, canRewrite: bool, carried: array<Position>,
    stats: SymbolicationStats, ghost s0: Counts, ghost u0: Counts)
    returns (remapped: seq<JvmFrame>, nextCanRewrite: bool)
    requires i < |t.frames| && IsAfter(t, i, carried[..], canRewrite, before)
    requires AreCounted(t, i, stats.symbolicatedFrames, s0, stats.unsymbolicatedFrames, u0)
    modifies carried, stats
    ensures IsAfter(t, i + 1, carried[..], nextCanRewrite, remapped)
    ensures AreCounted(t, i + 1, stats.symbolicatedFrames, s0, stats.unsymbolicatedFrames, u0)
  {
    var result;
    result, nextCanRewrite := RemapFrame(t, i, canRewrite, carried);
    var frames := EmitAfter(Results(t, i), result, stats, s0, u0);
    remapped := before + frames;
  }

  // ---------------------------------------------------------------------------------------------
  // Order, origin and counters

  predicate ComesFrom(out: JvmFrame, frame: JvmFrame) {
    out.index == frame.index && out.platform == frame.platform
  }

  predicate AllComeFrom(frames: seq<JvmFrame>, frame: JvmFrame) {
    forall k :: 0 <= k < |frames| ==> ComesFrom(frames[k], frame)
  }

  lemma {:induction false} AttemptComesFrom(mappers: seq<Mapper>, m: nat, query: Query, frame: JvmFrame,
    descriptor: Option<string>, applyRewrite: bool, positions: seq<Position>)
    requires m <= |mappers| == |positions|
    ensures var outcome := Attempt(mappers, m, query, frame, descriptor, applyRewrite, positions).0;
      outcome.Mapped? ==> outcome.frames != [] && AllComeFrom(outcome.frames, frame)
    decreases |mappers| - m
  {
    if m < |mappers| {
      var (_, position) := mappers[m].remapFrame(query, descriptor, applyRewrite, positions[m]);
      AttemptComesFrom(mappers, m + 1, query, frame, descriptor, applyRewrite, positions[m := position]);
    }
  }

  lemma {:induction false} KeptSubset(frames: seq<JvmFrame>, hasLine: bool)
    ensures forall f :: f in Kept(frames, hasLine) <==> f in frames && !(hasLine && f.methodSynthesized)
  {
    if frames != [] {
      KeptSubset(frames[1..], hasLine);
      assert frames == [frames[0]] + frames[1..];
    }
  }

  /** Every frame that a frame becomes has its index and its platform.  A frame becomes nothing
      only if it is an outline frame, if rewrite rules clear it, or if it has a line and is mapped
      to synthesized methods only. */
  lemma ChunkComesFrom(t: Trace, i: nat)
    requires i < |t.frames|
    ensures AllComeFrom(ResultAt(t, i).Chunk(), t.frames[i])
    ensures ResultAt(t, i).Chunk() == [] <==>
      match Step(t, i).0
      case Outline => true
      case RewriteCleared => true
      case Mapped(frames) => t.frames[i].lineno.Some? && forall f :: f in frames ==> f.methodSynthesized
      case Unmapped => false
  {
    var state := StateBefore(t, i);
    var frame := t.frames[i];
    AttemptComesFrom(t.mappers, 0, QueryFor(frame, Deobfuscated(t.mappers, frame)), frame, t.descriptor,
                     state.canRewrite, state.positions);
    SurvivorsComeFrom(ResultAt(t, i));
  }

  lemma SurvivorsComeFrom(r: Remapped)
    requires r.outcome.Mapped? ==> r.outcome.frames != [] && AllComeFrom(r.outcome.frames, r.frame)
    ensures AllComeFrom(r.Chunk(), r.frame)
    ensures r.outcome.Mapped? ==>
      (r.Chunk() == [] <==> r.frame.lineno.Some? && forall f :: f in r.outcome.frames ==> f.methodSynthesized)
  {
    if r.outcome.Mapped? {
      KeptSubset(r.outcome.frames, r.frame.lineno.Some?);
      var kept := r.Survivors();
      forall k | 0 <= k < |kept| ensures ComesFrom(kept[k], r.frame) {
        assert kept[k] in r.outcome.frames;
      }
      if kept != [] {
        assert kept[0] in kept;
      }
    }
  }

  /** For each frame that is put out, the number of the frame it comes from. */
  ghost function Origins(rs: seq<Remapped>): seq<nat> {
    if rs == [] then [] else Origins(rs[..|rs| - 1]) + seq(|rs[|rs| - 1].Chunk()|, _ => |rs| - 1)
  }

  lemma {:induction false} EmittedInOrder(rs: seq<Remapped>, frames: seq<JvmFrame>)
    requires |rs| <= |frames| && forall i :: 0 <= i < |rs| ==> AllComeFrom(rs[i].Chunk(), frames[i])
    ensures InOrder(Emitted(rs), Origins(rs), frames, |rs|)
  {
    if rs != [] {
      var n := |rs| - 1;
      EmittedInOrder(rs[..n], frames);
      InOrderConcat(Emitted(rs[..n]), Origins(rs[..n]), rs[n].Chunk(), frames, n);
    }
  }

  lemma {:induction false} ResultsAt(t: Trace, n: nat, i: nat)
    requires i < n <= |t.frames|
    ensures Results(t, n)[i] == ResultAt(t, i)
  {
    if i < n - 1 {
      ResultsAt(t, n - 1, i);
    }
  }

  /** Remapping keeps the order of frames: the origins of the frames put out never decrease, and
      each frame put out has the index and the platform of its origin. */
  lemma OrderIsKept(t: Trace, n: nat)
    requires n <= |t.frames|
    ensures InOrder(Output(t, n), Origins(Results(t, n)), t.frames, n)
  {
    forall i | 0 <= i < n ensures AllComeFrom(Results(t, n)[i].Chunk(), t.frames[i]) {
      ResultsAt(t, n, i);
      ChunkComesFrom(t, i);
    }
    EmittedInOrder(Results(t, n), t.frames);
  }

  lemma InOrderConcat(out: seq<JvmFrame>, origins: seq<nat>, chunk: seq<JvmFrame>, frames: seq<JvmFrame>, i: nat)
    requires i < |frames| && InOrder(out, origins, frames, i) && AllComeFrom(chunk, frames[i])
    ensures InOrder(out + chunk, origins + seq(|chunk|, _ => i), frames, i + 1)
  {
    var extended := origins + seq(|chunk|, _ => i);
    forall a | 0 <= a < |out + chunk| ensures extended[a] <= i && ComesFrom((out + chunk)[a], frames[extended[a]]) {
      if a >= |out| {
        assert (out + chunk)[a] == chunk[a - |out|];
      }
    }
  }

  /** The origins are among the first `n` frames, fit the output and never decrease. */
  ghost predicate InOrder(out: seq<JvmFrame>, origins: seq<nat>, frames: seq<JvmFrame>, n: nat)
    requires n <= |frames|
  {
    && |origins| == |out|
    && (forall a :: 0 <= a < |out| ==> origins[a] < n && ComesFrom(out[a], frames[origins[a]]))
    && forall a, b :: 0 <= a < b < |out| ==> origins[a] <= origins[b]
  }

  /** Frames that come callers first are processed callees first, and put out callers first. */
  function Symbolicate(mappers: seq<Mapper>, frames: seq<JvmFrame>, descriptor: Option<string>, callerFirst: bool)
    : seq<JvmFrame>
  {
    if callerFirst then Reversed(Output(Trace(mappers, Reversed(frames), descriptor), |frames|))
    else Output(Trace(mappers, frames, descriptor), |frames|)
  }

  lemma ReversedInOrder(out: seq<JvmFrame>, o: seq<nat>, frames: seq<JvmFrame>) returns (origins: seq<nat>)
    requires InOrder(out, o, Reversed(frames), |frames|)
    ensures InOrder(Reversed(out), origins, frames, |frames|)
  {
    origins := seq(|o|, i requires 0 <= i < |o| => |frames| - 1 - o[|o| - 1 - i]);
  }

  /** Whichever way the frames are ordered, their order is kept. */
  lemma EitherOrderIsKept(mappers: seq<Mapper>, frames: seq<JvmFrame>, descriptor: Option<string>, callerFirst: bool)
    returns (origins: seq<nat>)
    ensures InOrder(Symbolicate(mappers, frames, descriptor, callerFirst), origins, frames, |frames|)
  {
    if callerFirst {
      var t := Trace(mappers, Reversed(frames), descriptor);
      OrderIsKept(t, |frames|);
      origins := ReversedInOrder(Output(t, |frames|), Origins(Results(t, |frames|)), frames);
    } else {
      OrderIsKept(Trace(mappers, frames, descriptor), |frames|);
      origins := Origins(Results(Trace(mappers, frames, descriptor), |frames|));
    }
  }

  lemma {:induction false} CountConcat(a: seq<JvmFrame>, b: seq<JvmFrame>, platform: Platform)
    ensures CountOf(a + b, platform) == CountOf(a, platform) + CountOf(b, platform)
  {
    if a == [] {
      assert a + b == b;
    } else {
      assert (a + b)[1..] == a[1..] + b;
      CountConcat(a[1..], b, platform);
    }
  }

  lemma {:induction false} CountSigned(frames: seq<JvmFrame>, signature: Option<Signature>, platform: Platform)
    ensures CountOf(AllSigned(frames, signature), platform) == CountOf(frames, platform)
  {
    if frames != [] {
      CountSigned(frames[1..], signature, platform);
      assert AllSigned(frames, signature)[1..] == AllSigned(frames[1..], signature);
    }
  }

  /** For each platform, the two counters grow by the number of frames that are put out. */
  lemma {:induction false} CountersMatchOutput(rs: seq<Remapped>, platform: Platform)
    ensures Symbolicated(rs, platform) + Unsymbolicated(rs, platform) == CountOf(Emitted(rs), platform)
  {
    if rs != [] {
      var init, r := rs[..|rs| - 1], rs[|rs| - 1];
      CountersMatchOutput(init, platform);
      CountConcat(Emitted(init), r.Chunk(), platform);
      CountSigned(r.Survivors(), r.signature, platform);
    }
  }

  // ---------------------------------------------------------------------------------------------
  // What a frame becomes

  /** The signature is what the first mapper that can deobfuscates the frame's signature to. */
  ghost predicate IsSignature(mappers: seq<Mapper>, frame: JvmFrame, signature: Option<Signature>) {
    match frame.signature
    case None => signature.None?
    case Some(text) =>
      if signature.None? then forall m :: 0 <= m < |mappers| ==> mappers[m].deobfuscateSignature(text).None?
      else exists m :: 0 <= m < |mappers| && IsFirstSignature(mappers, text, m, signature)
  }

  ghost predicate IsFirstSignature(mappers: seq<Mapper>, text: string, m: nat, signature: Option<Signature>)
    requires m < |mappers|
  {
    && mappers[m].deobfuscateSignature(text) == signature
    && forall k :: 0 <= k < m ==> mappers[k].deobfuscateSignature(text).None?
  }

  /** The mappers are asked by the frame's line, or else by its parameters, or else by line 0. */
  predicate IsQuery(query: Query, frame: JvmFrame, signature: Option<Signature>) {
    && query.module_ == frame.module_ && query.function_ == frame.function_
    && (frame.lineno.Some? ==> query.ByLine? && query.line == frame.lineno.value)
    && (frame.lineno.None? && signature.Some? ==>
          query.ByParameters? && query.parameters == Strings.Join(signature.value.parameters, ","))
    && (frame.lineno.None? && signature.None? ==> query.ByLine? && query.line == 0)
  }

  predicate HasSignature(out: JvmFrame, frame: JvmFrame, signature: Option<Signature>) {
    out.signature == if signature.Some? then Some(signature.value.formatted) else frame.signature
  }

  /** The frame with another class and method, and nothing else changed but the signature. */
  predicate IsRenamed(out: JvmFrame, frame: JvmFrame, class_: string, method_: string, signature: Option<Signature>) {
    && out.module_ == class_ && out.function_ == method_
    && HasSignature(out, frame, signature) && ComesFrom(out, frame)
    && out.lineno == frame.lineno && out.absPath == frame.absPath && out.filename == frame.filename
    && out.methodSynthesized == frame.methodSynthesized
  }

  /** The frame with what the mapper says: class, method, line and file.  Without a file, it keeps
      its own. */
  predicate IsRemapped(out: JvmFrame, f: MappedFrame, frame: JvmFrame, signature: Option<Signature>) {
    && out.module_ == f.class_ && out.function_ == f.method_
    && HasSignature(out, frame, signature) && ComesFrom(out, frame)
    && (f.line.Some? ==> out.lineno == Some(f.line.value % U32_LIMIT))
    && (f.line.None? ==> out.lineno == None)
    && (f.file.Some? ==> out.absPath == f.file && out.filename == f.file)
    && (f.file.None? ==> out.absPath == frame.absPath && out.filename == frame.filename)
    && out.methodSynthesized == f.synthesized
  }

  predicate AreRemapped(out: seq<JvmFrame>, fs: seq<MappedFrame>, frame: JvmFrame, signature: Option<Signature>) {
    |out| == |fs| && forall k :: 0 <= k < |fs| ==> IsRemapped(out[k], fs[k], frame, signature)
  }

  function NotSynthesized(fs: seq<MappedFrame>): seq<MappedFrame> {
    if fs == [] then []
    else (if fs[0].synthesized then [] else [fs[0]]) + NotSynthesized(fs[1..])
  }

  lemma {:induction false} FirstSignatureIs(mappers: seq<Mapper>, text: string)
    ensures var signature := FirstSignature(mappers, text);
      if signature.None? then forall m :: 0 <= m < |mappers| ==> mappers[m].deobfuscateSignature(text).None?
      else exists m :: 0 <= m < |mappers| && IsFirstSignature(mappers, text, m, signature)
  {
    if mappers != [] {
      if mappers[0].deobfuscateSignature(text).Some? {
        assert IsFirstSignature(mappers, text, 0, FirstSignature(mappers, text));
      } else {
        FirstSignatureIs(mappers[1..], text);
        var signature := FirstSignature(mappers, text);
        if m :| 0 <= m < |mappers[1..]| && IsFirstSignature(mappers[1..], text, m, signature) {
          assert IsFirstSignature(mappers, text, m + 1, signature);
        } else {
          forall m | 0 <= m < |mappers| ensures mappers[m].deobfuscateSignature(text).None? {
            assert m > 0 ==> mappers[m] == mappers[1..][m - 1];
          }
        }
      }
    }
  }

  /** How a frame is put to the mappers. */
  lemma QueryIs(mappers: seq<Mapper>, frame: JvmFrame)
    ensures IsSignature(mappers, frame, Deobfuscated(mappers, frame))
    ensures IsQuery(QueryFor(frame, Deobfuscated(mappers, frame)), frame, Deobfuscated(mappers, frame))
  {
    if frame.signature.Some? {
      FirstSignatureIs(mappers, frame.signature.value);
    }
  }

  /** What mapper `m` answers about frame `i`, if it is asked, and the position it leaves. */
  function Asked(t: Trace, i: nat, m: nat): (Remap, Position)
    requires i < |t.frames| && m < |t.mappers|
  {
    var state := StateBefore(t, i);
    var query := QueryFor(t.frames[i], Deobfuscated(t.mappers, t.frames[i]));
    t.mappers[m].remapFrame(query, t.descriptor, state.canRewrite, state.positions[m])
  }

  /** Mapper `m` knows neither the frame nor its method nor its class. */
  predicate FallsThrough(t: Trace, i: nat, m: nat)
    requires i < |t.frames| && m < |t.mappers|
  {
    && Asked(t, i, m).0 == Frames(false, [])
    && t.mappers[m].remapMethod(t.frames[i].module_, t.frames[i].function_).None?
    && t.mappers[m].remapClass(t.frames[i].module_).None?
  }

  /** No mapper before `m` knows the frame, so `m` is asked. */
  predicate Reached(t: Trace, i: nat, m: nat)
    requires i < |t.frames| && m <= |t.mappers|
  {
    forall k :: 0 <= k < m ==> FallsThrough(t, i, k)
  }

  /** What one mapper makes of a frame, given its answer. */
  function Verdict(mapper: Mapper, frame: JvmFrame, remap: Remap): Outcome {
    if !FullRemap(remap, frame).Unmapped? then FullRemap(remap, frame)
    else
      match OrElse(ClassMethod(mapper, frame), ClassOnly(mapper, frame))
      case Some(frames) => Mapped(frames)
      case None => Unmapped
  }

  lemma {:induction false} AttemptReaches(t: Trace, i: nat, j: nat, m: nat, positions: seq<Position>)
    requires i < |t.frames| && j <= m <= |t.mappers| == |positions| && Reached(t, i, m)
    requires m < |t.mappers| ==> !FallsThrough(t, i, m)
    requires forall k :: j <= k < |positions| ==> positions[k] == StateBefore(t, i).positions[k]
    ensures var query := QueryFor(t.frames[i], Deobfuscated(t.mappers, t.frames[i]));
      var (outcome, carried) :=
        Attempt(t.mappers, j, query, t.frames[i], t.descriptor, StateBefore(t, i).canRewrite, positions);
      && outcome == (if m == |t.mappers| then Unmapped else Verdict(t.mappers[m], t.frames[i], Asked(t, i, m).0))
      && (forall k :: 0 <= k < j ==> carried[k] == positions[k])
      && (forall k :: j <= k < |positions| ==> carried[k] == if k <= m then Asked(t, i, k).1 else positions[k])
    decreases m - j
  {
    if j < m {
      assert FallsThrough(t, i, j);
      AttemptReaches(t, i, j + 1, m, positions[j := Asked(t, i, j).1]);
    }
  }

  lemma OneRemapped(f: MappedFrame, frame: JvmFrame, signature: Option<Signature>)
    ensures IsRemapped(Signed(FromMapped(f, frame), signature), f, frame, signature)
  {
  }

  lemma SignedCons(frame: JvmFrame, rest: seq<JvmFrame>, signature: Option<Signature>)
    ensures AllSigned([frame] + rest, signature) == [Signed(frame, signature)] + AllSigned(rest, signature)
  {
  }

  lemma RemappedCons(out: JvmFrame, outs: seq<JvmFrame>, f: MappedFrame, fs: seq<MappedFrame>, frame: JvmFrame,
    signature: Option<Signature>)
    requires IsRemapped(out, f, frame, signature) && AreRemapped(outs, fs, frame, signature)
    ensures AreRemapped([out] + outs, [f] + fs, frame, signature)
  {
  }

  lemma KeptCons(f: MappedFrame, rest: seq<MappedFrame>, frame: JvmFrame, hasLine: bool)
    ensures var more := Kept(FromAllMapped(rest, frame), hasLine);
      Kept(FromAllMapped([f] + rest, frame), hasLine)
        == if hasLine && f.synthesized then more else [FromMapped(f, frame)] + more
    ensures NotSynthesized([f] + rest) == if f.synthesized then NotSynthesized(rest) else [f] + NotSynthesized(rest)
  {
    assert FromAllMapped([f] + rest, frame)[1..] == FromAllMapped(rest, frame);
    assert ([f] + rest)[1..] == rest;
  }

  lemma {:induction false} KeptRemapped(fs: seq<MappedFrame>, frame: JvmFrame, signature: Option<Signature>,
    hasLine: bool)
    ensures AreRemapped(AllSigned(Kept(FromAllMapped(fs, frame), hasLine), signature),
                        if hasLine then NotSynthesized(fs) else fs, frame, signature)
  {
    if fs != [] {
      var f, rest := fs[0], fs[1..];
      assert fs == [f] + rest;
      KeptRemapped(rest, frame, signature, hasLine);
      KeptCons(f, rest, frame, hasLine);
      if !(hasLine && f.synthesized) {
        var more := Kept(FromAllMapped(rest, frame), hasLine);
        OneRemapped(f, frame, signature);
        SignedCons(FromMapped(f, frame), more, signature);
        RemappedCons(Signed(FromMapped(f, frame), signature), AllSigned(more, signature), f,
                     if hasLine then NotSynthesized(rest) else rest, frame, signature);
      }
    }
  }

  /** The first mapper that knows frame `i` decides what it becomes: nothing, or the frames that the
      mapper gives for it in order, without the synthesized ones if it has a line, or else the frame
      with another class and method, or only another class. */
  lemma FrameBecomes(t: Trace, i: nat, m: nat)
    requires i < |t.frames| && m < |t.mappers| && Reached(t, i, m) && !FallsThrough(t, i, m)
    ensures var frame, out := t.frames[i], ResultAt(t, i).Chunk();
      var signature := Deobfuscated(t.mappers, frame);
      var dropped := frame.lineno.Some? && frame.methodSynthesized;
      match Asked(t, i, m).0
      case OutlineFrame => out == []
      case Frames(hadMappings, fs) =>
        if fs != [] then
          AreRemapped(out, if frame.lineno.Some? then NotSynthesized(fs) else fs, frame, signature)
        else if hadMappings || dropped then out == []
        else
          match t.mappers[m].remapMethod(frame.module_, frame.function_)
          case Some((class_, method_)) => |out| == 1 && IsRenamed(out[0], frame, class_, method_, signature)
          case None =>
            var class_ := t.mappers[m].remapClass(frame.module_);
            class_.Some? && |out| == 1 && IsRenamed(out[0], frame, class_.value, frame.function_, signature)
  {
    AttemptReaches(t, i, 0, m, StateBefore(t, i).positions);
    assert Step(t, i).0 == Verdict(t.mappers[m], t.frames[i], Asked(t, i, m).0);
    VerdictIs(t.mappers[m], t.frames[i], Deobfuscated(t.mappers, t.frames[i]), Asked(t, i, m).0);
  }

  lemma VerdictIs(mapper: Mapper, frame: JvmFrame, signature: Option<Signature>, remap: Remap)
    requires !Verdict(mapper, frame, remap).Unmapped?
    ensures var out := Remapped(frame, signature, Verdict(mapper, frame, remap)).Chunk();
      var dropped := frame.lineno.Some? && frame.methodSynthesized;
      match remap
      case OutlineFrame => out == []
      case Frames(hadMappings, fs) =>
        if fs != [] then
          AreRemapped(out, if frame.lineno.Some? then NotSynthesized(fs) else fs, frame, signature)
        else if hadMappings || dropped then out == []
        else
          match mapper.remapMethod(frame.module_, frame.function_)
          case Some((class_, method_)) => |out| == 1 && IsRenamed(out[0], frame, class_, method_, signature)
          case None =>
            var class_ := mapper.remapClass(frame.module_);
            class_.Some? && |out| == 1 && IsRenamed(out[0], frame, class_.value, frame.function_, signature)
  {
    if remap.Frames? {
      KeptRemapped(remap.frames, frame, signature, frame.lineno.Some?);
    }
    var outcome := Verdict(mapper, frame, remap);
    if outcome.Mapped? && |outcome.frames| == 1 {
      assert outcome.frames == [outcome.frames[0]];
      KeptOne(outcome.frames[0], frame.lineno.Some?);
    }
  }

  lemma KeptOne(frame: JvmFrame, hasLine: bool)
    ensures Kept([frame], hasLine) == if hasLine && frame.methodSynthesized then [] else [frame]
  {
    assert [frame][1..] == [];
  }

  /** A frame that no mapper knows is put out as it is, but for its signature. */
  lemma FrameStays(t: Trace, i: nat)
    requires i < |t.frames| && Reached(t, i, |t.mappers|)
    ensures var frame, out := t.frames[i], ResultAt(t, i).Chunk();
      |out| == 1 && IsRenamed(out[0], frame, frame.module_, frame.function_, Deobfuscated(t.mappers, frame))
  {
    AttemptReaches(t, i, 0, |t.mappers|, StateBefore(t, i).positions);
  }

  /** Every mapper carries its own position: what it left when it was last asked. */
  lemma PositionsAreCarried(t: Trace, i: nat, m: nat, last: nat)
    requires i < |t.frames| && m < |t.mappers| && last <= |t.mappers| && Reached(t, i, last)
    requires last < |t.mappers| ==> !FallsThrough(t, i, last)
    ensures StateBefore(t, 0).positions[m] == None
    ensures StateBefore(t, i + 1).positions[m] == if m <= last then Asked(t, i, m).1 else StateBefore(t, i).positions[m]
  {
    AttemptReaches(t, i, 0, last, StateBefore(t, i).positions);
  }

  lemma {:induction false} EmittedAt(rs: seq<Remapped>, i: nat)
    requires i < |rs|
    ensures Emitted(rs[..i + 1]) == Emitted(rs[..i]) + rs[i].Chunk()
    ensures Emitted(rs[..i + 1]) <= Emitted(rs)
  {
    assert rs[..i + 1] == rs[..i] + [rs[i]];
    EmittedSnoc(rs[..i], rs[i]);
    if i + 1 < |rs| {
      EmittedAt(rs[..|rs| - 1], i);
      assert rs[..|rs| - 1][..i + 1] == rs[..i + 1] && rs[..|rs| - 1][..i] == rs[..i];
    } else {
      assert rs[..i + 1] == rs;
    }
  }

  lemma {:induction false} ResultsOfPrefix(t: Trace, i: nat, n: nat)
    requires i <= n <= |t.frames|
    ensures Results(t, n)[..i] == Results(t, i)
  {
    if i < n {
      ResultsOfPrefix(t, i, n - 1);
    }
  }

  /** The frames that frame `i` becomes come after those of the frames before it and before those of
      the frames after it. */
  lemma ChunkInOutput(t: Trace, i: nat, n: nat)
    requires i < n <= |t.frames|
    ensures Output(t, i + 1) == Output(t, i) + ResultAt(t, i).Chunk()
    ensures Output(t, i + 1) <= Output(t, n)
  {
    ResultsOfPrefix(t, i, n);
    ResultsOfPrefix(t, i + 1, n);
    ResultsAt(t, n, i);
    EmittedAt(Results(t, n), i);
  }

  // ---------------------------------------------------------------------------------------------
  // Rewrite rules

  /** The mapper without its rewrite rules. */
  function Plain(mapper: Mapper): Mapper {
    mapper.(remapFrame := (query, descriptor, _, position) => mapper.remapFrame(query, descriptor, false, position))
  }

  function AllPlain(mappers: seq<Mapper>): (r: seq<Mapper>)
    ensures |r| == |mappers| && forall i :: 0 <= i < |mappers| ==> r[i] == Plain(mappers[i])
  {
    seq(|mappers|, i requires 0 <= i < |mappers| => Plain(mappers[i]))
  }

  lemma {:induction false} AttemptPlain(mappers: seq<Mapper>, m: nat, query: Query, frame: JvmFrame,
    descriptor: Option<string>, applyRewrite: bool, positions: seq<Position>)
    requires m <= |mappers| == |positions|
    ensures Attempt(AllPlain(mappers), m, query, frame, descriptor, applyRewrite, positions)
         == Attempt(mappers, m, query, frame, descriptor, false, positions)
    decreases |mappers| - m
  {
    if m < |mappers| {
      var (_, position) := mappers[m].remapFrame(query, descriptor, false, positions[m]);
      AttemptPlain(mappers, m + 1, query, frame, descriptor, applyRewrite, positions[m := position]);
    }
  }

  predicate IsOutline(t: Trace, i: nat)
    requires i < |t.frames|
  {
    Step(t, i).0.Outline?
  }

  /** Rewrite rules are offered to a frame if and only if there is an exception and every frame
      before it is an outline frame. */
  lemma {:induction false} RewriteOnlyForFirst(t: Trace, i: nat)
    requires i <= |t.frames|
    ensures StateBefore(t, i).canRewrite <==>
      t.descriptor.Some? && forall j :: 0 <= j < i ==> IsOutline(t, j)
  {
    if i > 0 {
      RewriteOnlyForFirst(t, i - 1);
      assert StateBefore(t, i).canRewrite == (StateBefore(t, i - 1).canRewrite && IsOutline(t, i - 1));
    }
  }

  /** To a frame that is not offered rewrite rules, the mappers might as well not have them. */
  lemma RewriteNotConsulted(t: Trace, i: nat, offered: bool)
    requires i < |t.frames| && !StateBefore(t, i).canRewrite
    ensures var query := QueryFor(t.frames[i], Deobfuscated(t.mappers, t.frames[i]));
      var positions := StateBefore(t, i).positions;
      Step(t, i) == Attempt(AllPlain(t.mappers), 0, query, t.frames[i], t.descriptor, offered, positions)
  {
    var query := QueryFor(t.frames[i], Deobfuscated(t.mappers, t.frames[i]));
    AttemptPlain(t.mappers, 0, query, t.frames[i], t.descriptor, offered, StateBefore(t, i).positions);
  }

  lemma {:induction false} PlainSignature(mappers: seq<Mapper>, signature: string)
    ensures FirstSignature(AllPlain(mappers), signature) == FirstSignature(mappers, signature)
  {
    if mappers != [] {
      PlainSignature(mappers[1..], signature);
      assert AllPlain(mappers)[1..] == AllPlain(mappers[1..]);
    }
  }

  /** Without an exception, rewrite rules have no influence on what a stack trace becomes. */
  lemma {:induction false} NoExceptionNoRewrite(t: Trace, n: nat)
    requires n <= |t.frames| && t.descriptor.None?
    ensures var plain := t.(mappers := AllPlain(t.mappers));
      StateBefore(plain, n) == StateBefore(t, n) && Results(plain, n) == Results(t, n)
  {
    var plain := t.(mappers := AllPlain(t.mappers));
    if n > 0 {
      NoExceptionNoRewrite(t, n - 1);
      var i := n - 1;
      var frame, state := t.frames[i], StateBefore(t, i);
      if frame.signature.Some? {
        PlainSignature(t.mappers, frame.signature.value);
      }
      var query := QueryFor(frame, Deobfuscated(t.mappers, frame));
      RewriteOnlyForFirst(t, i);
      AttemptPlain(t.mappers, 0, query, frame, t.descriptor, false, state.positions);
    }
  }

  // ---------------------------------------------------------------------------------------------
  // Exceptions

  datatype JvmException = JvmException(ty: string, module_: string)
  {
    function FullClassName(): string {
      if module_ == [] then ty else module_ + "." + ty
    }
  }

  function FirstClass(mappers: seq<Mapper>, name: string): Option<string> {
    if mappers == [] then None else OrElse(mappers[0].remapClass(name), FirstClass(mappers[1..], name))
  }

  predicate IsFirstClass(mappers: seq<Mapper>, name: string, m: nat)
    requires m < |mappers|
  {
    mappers[m].remapClass(name).Some? && forall k :: 0 <= k < m ==> mappers[k].remapClass(name).None?
  }

  /** The first mapper that knows a class decides. */
  lemma {:induction false} FirstClassIs(mappers: seq<Mapper>, name: string)
    ensures var class_ := FirstClass(mappers, name);
      if class_.None? then forall m :: 0 <= m < |mappers| ==> mappers[m].remapClass(name).None?
      else exists m :: 0 <= m < |mappers| && IsFirstClass(mappers, name, m) && class_ == mappers[m].remapClass(name)
  {
    if mappers != [] {
      if mappers[0].remapClass(name).Some? {
        assert IsFirstClass(mappers, name, 0);
      } else {
        FirstClassIs(mappers[1..], name);
        if m :| 0 <= m < |mappers[1..]| && IsFirstClass(mappers[1..], name, m) {
          assert IsFirstClass(mappers, name, m + 1);
        } else {
          forall m | 0 <= m < |mappers| ensures mappers[m].remapClass(name).None? {
            assert m > 0 ==> mappers[m] == mappers[1..][m - 1];
          }
        }
      }
    }
  }

  function MapException(mappers: seq<Mapper>, exception: JvmException): Option<JvmException> {
    match FirstClass(mappers, exception.FullClassName())
    case None => None
    case Some(mapped) =>
      match Strings.RSplitOnce(mapped, '.')
      case Some((module_, ty)) => Some(JvmException(ty, module_))
      case None => Some(JvmException(mapped, ""))
  }

  /** A remapped exception has the name that the mapper gave, also in the root package, unless this
      name has its only dot in front. */
  lemma MappedExceptionName(mappers: seq<Mapper>, exception: JvmException)
    ensures var name := FirstClass(mappers, exception.FullClassName());
      && (MapException(mappers, exception).Some? <==> name.Some?)
      && (name.Some? ==>
            (MapException(mappers, exception).value.FullClassName() == name.value
             <==> !(name.value != [] && name.value[0] == '.' && '.' !in name.value[1..])))
  {
    var name := FirstClass(mappers, exception.FullClassName());
    if name.Some? {
      match Strings.RSplitOnce(name.value, '.')
      case None =>
      case Some((module_, ty)) =>
        assert name.value == module_ + "." + ty;
        if module_ == [] {
          assert name.value[1..] == ty;
        } else if name.value[0] == '.' {
          assert name.value[|module_|] == '.';
          assert name.value[1..][|module_| - 1] == '.';
        }
    }
  }
}
