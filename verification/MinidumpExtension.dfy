/**
The minidump extension stream with client-side stack traces: a header, a list of threads, a list
of frames and the symbol bytes.  The encoder follows the format's documentation; the parser reads
a buffer in the byte order of the host.
*/
module MinidumpExtension {
  import opened Common
  import opened ByteOrder
  import Utf8

  const FORMAT_VERSION: u32 := 1
  const HEADER_SIZE: nat := 16
  const THREAD_SIZE: nat := 12
  const FRAME_SIZE: nat := 16

  /** A machine word: every operation on it is checked for overflow. */
  newtype usize = x: int | 0 <= x < U64_LIMIT

  datatype RawHeader = RawHeader(version: u32, numThreads: u32, numFrames: u32, symbolBytes: u32)
  datatype RawThread = RawThread(threadId: u32, startFrame: u32, numFrames: u32)
  datatype RawFrame = RawFrame(instructionAddr: u64, symbolOffset: u32, symbolLen: u32)

  datatype Format = Format(threads: seq<RawThread>, frames: seq<RawFrame>, symbolBytes: seq<byte>)

  datatype Error =
    | WrongVersion
    | HeaderTooSmall
    | BadFormatLength
    | FrameIndexOutOfBounds(threadId: u32)
    | SymbolIndexOutOfBounds(instructionAddr: u64)

  // ---------------------------------------------------------------------------------------------
  // Records

  function EncodeHeader(e: Endian, h: RawHeader): (s: seq<byte>)
    ensures |s| == HEADER_SIZE
  {
    ToBytes(e, h.version, 4) + ToBytes(e, h.numThreads, 4) + ToBytes(e, h.numFrames, 4) + ToBytes(e, h.symbolBytes, 4)
  }

  function DecodeHeader(e: Endian, s: seq<byte>): RawHeader
    requires |s| >= HEADER_SIZE
  {
    RawHeader(ReadU32(e, s, 0), ReadU32(e, s, 4), ReadU32(e, s, 8), ReadU32(e, s, 12))
  }

  function EncodeThread(e: Endian, t: RawThread): (s: seq<byte>)
    ensures |s| == THREAD_SIZE
  {
    ToBytes(e, t.threadId, 4) + ToBytes(e, t.startFrame, 4) + ToBytes(e, t.numFrames, 4)
  }

  function DecodeThread(e: Endian, s: seq<byte>): RawThread
    requires |s| == THREAD_SIZE
  {
    RawThread(ReadU32(e, s, 0), ReadU32(e, s, 4), ReadU32(e, s, 8))
  }

  function EncodeFrame(e: Endian, f: RawFrame): (s: seq<byte>)
    ensures |s| == FRAME_SIZE
  {
    ToBytes(e, f.instructionAddr, 8) + ToBytes(e, f.symbolOffset, 4) + ToBytes(e, f.symbolLen, 4)
  }

  function DecodeFrame(e: Endian, s: seq<byte>): RawFrame
    requires |s| == FRAME_SIZE
  {
    RawFrame(ReadU64(e, s, 0), ReadU32(e, s, 8), ReadU32(e, s, 12))
  }

  lemma HeaderRoundTrip(e: Endian, h: RawHeader, rest: seq<byte>)
    ensures DecodeHeader(e, EncodeHeader(e, h) + rest) == h
  {
    var s := EncodeHeader(e, h) + rest;
    FourFields(ToBytes(e, h.version, 4), ToBytes(e, h.numThreads, 4), ToBytes(e, h.numFrames, 4),
               ToBytes(e, h.symbolBytes, 4), rest);
    ReadU32OfBytes(e, s, 0, h.version);
    ReadU32OfBytes(e, s, 4, h.numThreads);
    ReadU32OfBytes(e, s, 8, h.numFrames);
    ReadU32OfBytes(e, s, 12, h.symbolBytes);
  }

  lemma FourFields<T>(a: seq<T>, b: seq<T>, c: seq<T>, d: seq<T>, rest: seq<T>)
    requires |a| == |b| == |c| == |d| == 4
    ensures var s := a + b + c + d + rest; |s| >= 16 && s[0..4] == a && s[4..8] == b && s[8..12] == c && s[12..16] == d
  {
  }

  lemma HeaderInverse(e: Endian, s: seq<byte>)
    requires |s| >= HEADER_SIZE
    ensures EncodeHeader(e, DecodeHeader(e, s)) == s[..HEADER_SIZE]
  {
    BytesOfU32(e, s, 0);
    BytesOfU32(e, s, 4);
    BytesOfU32(e, s, 8);
    BytesOfU32(e, s, 12);
    CutInThree(s[..HEADER_SIZE], 8, 12);
    CutInThree(s[..HEADER_SIZE], 4, 8);
  }

  lemma ThreadRoundTrip(e: Endian, t: RawThread)
    ensures DecodeThread(e, EncodeThread(e, t)) == t
  {
    var s := EncodeThread(e, t);
    ReadU32OfBytes(e, s, 0, t.threadId);
    ReadU32OfBytes(e, s, 4, t.startFrame);
    ReadU32OfBytes(e, s, 8, t.numFrames);
  }

  lemma ThreadInverse(e: Endian, s: seq<byte>)
    requires |s| == THREAD_SIZE
    ensures EncodeThread(e, DecodeThread(e, s)) == s
  {
    BytesOfU32(e, s, 0);
    BytesOfU32(e, s, 4);
    BytesOfU32(e, s, 8);
    CutInThree(s, 4, 8);
  }

  lemma FrameRoundTrip(e: Endian, f: RawFrame)
    ensures DecodeFrame(e, EncodeFrame(e, f)) == f
  {
    var s := EncodeFrame(e, f);
    ReadU64OfBytes(e, s, 0, f.instructionAddr);
    ReadU32OfBytes(e, s, 8, f.symbolOffset);
    ReadU32OfBytes(e, s, 12, f.symbolLen);
  }

  lemma FrameInverse(e: Endian, s: seq<byte>)
    requires |s| == FRAME_SIZE
    ensures EncodeFrame(e, DecodeFrame(e, s)) == s
  {
    BytesOfU64(e, s, 0);
    BytesOfU32(e, s, 8);
    BytesOfU32(e, s, 12);
    CutInThree(s, 8, 12);
  }

  // ---------------------------------------------------------------------------------------------
  // Arrays of records

  function EncodeThreads(e: Endian, ts: seq<RawThread>): (rs: seq<seq<byte>>)
    ensures |rs| == |ts| && AllOfWidth(rs, THREAD_SIZE)
  {
    seq(|ts|, i requires 0 <= i < |ts| => EncodeThread(e, ts[i]))
  }

  function DecodeThreads(e: Endian, rs: seq<seq<byte>>): (ts: seq<RawThread>)
    requires AllOfWidth(rs, THREAD_SIZE)
    ensures |ts| == |rs|
  {
    seq(|rs|, i requires 0 <= i < |rs| => DecodeThread(e, rs[i]))
  }

  function EncodeFrames(e: Endian, fs: seq<RawFrame>): (rs: seq<seq<byte>>)
    ensures |rs| == |fs| && AllOfWidth(rs, FRAME_SIZE)
  {
    seq(|fs|, i requires 0 <= i < |fs| => EncodeFrame(e, fs[i]))
  }

  function DecodeFrames(e: Endian, rs: seq<seq<byte>>): (fs: seq<RawFrame>)
    requires AllOfWidth(rs, FRAME_SIZE)
    ensures |fs| == |rs|
  {
    seq(|rs|, i requires 0 <= i < |rs| => DecodeFrame(e, rs[i]))
  }

  lemma ThreadsRoundTrip(e: Endian, ts: seq<RawThread>)
    ensures DecodeThreads(e, EncodeThreads(e, ts)) == ts
  {
    forall i | 0 <= i < |ts| ensures DecodeThreads(e, EncodeThreads(e, ts))[i] == ts[i] {
      ThreadRoundTrip(e, ts[i]);
    }
  }

  lemma ThreadsInverse(e: Endian, rs: seq<seq<byte>>)
    requires AllOfWidth(rs, THREAD_SIZE)
    ensures EncodeThreads(e, DecodeThreads(e, rs)) == rs
  {
    forall i | 0 <= i < |rs| ensures EncodeThreads(e, DecodeThreads(e, rs))[i] == rs[i] {
      ThreadInverse(e, rs[i]);
    }
  }

  lemma FramesRoundTrip(e: Endian, fs: seq<RawFrame>)
    ensures DecodeFrames(e, EncodeFrames(e, fs)) == fs
  {
    forall i | 0 <= i < |fs| ensures DecodeFrames(e, EncodeFrames(e, fs))[i] == fs[i] {
      FrameRoundTrip(e, fs[i]);
    }
  }

  lemma FramesInverse(e: Endian, rs: seq<seq<byte>>)
    requires AllOfWidth(rs, FRAME_SIZE)
    ensures EncodeFrames(e, DecodeFrames(e, rs)) == rs
  {
    forall i | 0 <= i < |rs| ensures EncodeFrames(e, DecodeFrames(e, rs))[i] == rs[i] {
      FrameInverse(e, rs[i]);
    }
  }

  // ---------------------------------------------------------------------------------------------
  // The whole buffer

  /** The bytes to add to reach a multiple of 8. */
  function AlignToEight(n: nat): (padding: nat)
    ensures padding < 8 && n + padding == 8 * ((n + 7) / 8)
  {
    var remainder := n % 8;
    if remainder == 0 then remainder else 8 - remainder
  }

  /** Where the three sections start, and where the buffer ends. */
  datatype Layout = Layout(threads: nat, threadsEnd: nat, frames: nat, symbols: nat, end: nat)

  function LayoutOf(h: RawHeader): (l: Layout)
    ensures l.threads <= l.threadsEnd <= l.frames <= l.symbols <= l.end < U64_LIMIT
  {
    var threads := HEADER_SIZE;
    var threadsEnd := threads + THREAD_SIZE * h.numThreads;
    var frames := threadsEnd + AlignToEight(THREAD_SIZE * h.numThreads);
    var symbols := frames + FRAME_SIZE * h.numFrames;
    Layout(threads, threadsEnd, frames, symbols, symbols + h.symbolBytes)
  }

  /** The sections come one after the other, each at a multiple of 8, and each is as long as its
      records are, but for less than 8 bytes of padding after the threads. */
  lemma SectionsAligned(h: RawHeader)
    ensures var l := LayoutOf(h);
      && l.threads == HEADER_SIZE && l.threads % 8 == 0 && l.frames % 8 == 0 && l.symbols % 8 == 0
      && l.threadsEnd - l.threads == THREAD_SIZE * h.numThreads && l.frames - l.threadsEnd < 8
      && l.symbols - l.frames == FRAME_SIZE * h.numFrames && l.end - l.symbols == h.symbolBytes
  {
    var l, n := LayoutOf(h), THREAD_SIZE * h.numThreads;
    var padded := n + AlignToEight(n);
    assert padded == 8 * ((n + 7) / 8);
    MultipleOfEight((n + 7) / 8 + 2, l.frames);
    MultipleOfEight((n + 7) / 8 + 2 + 2 * h.numFrames, l.symbols);
  }

  lemma MultipleOfEight(k: nat, n: nat)
    requires n == 8 * k
    ensures n % 8 == 0
  {
  }

  function HeaderOf(f: Format): RawHeader
    requires FitsHeader(f)
  {
    RawHeader(FORMAT_VERSION, |f.threads|, |f.frames|, |f.symbolBytes|)
  }

  predicate FitsHeader(f: Format) {
    |f.threads| < U32_LIMIT && |f.frames| < U32_LIMIT && |f.symbolBytes| < U32_LIMIT
  }

  function Zeros(n: nat): (s: seq<byte>)
    ensures |s| == n
  {
    seq(n, _ => 0)
  }

  function Encode(e: Endian, f: Format): seq<byte>
    requires FitsHeader(f)
  {
    EncodeHeader(e, HeaderOf(f))
    + Flatten(EncodeThreads(e, f.threads)) + Zeros(AlignToEight(THREAD_SIZE * |f.threads|))
    + Flatten(EncodeFrames(e, f.frames))
    + f.symbolBytes
  }

  /** The sections of a buffer that has the length its header announces. */
  function Sections(e: Endian, h: RawHeader, buf: seq<byte>): Format
    requires |buf| == LayoutOf(h).end
  {
    var l := LayoutOf(h);
    Format(DecodeThreads(e, Chunks(buf[l.threads..l.threadsEnd], THREAD_SIZE)),
           DecodeFrames(e, Chunks(buf[l.frames..l.symbols], FRAME_SIZE)),
           buf[l.symbols..])
  }

  function Parsed(e: Endian, buf: seq<byte>): Result<Format, Error> {
    if |buf| < HEADER_SIZE then Err(HeaderTooSmall)
    else
      var h := DecodeHeader(e, buf);
      if h.version != FORMAT_VERSION then Err(WrongVersion)
      else if |buf| != LayoutOf(h).end then Err(BadFormatLength)
      else Ok(Sections(e, h, buf))
  }

  function AlignToEightWord(n: usize): (padding: usize)
    ensures padding as nat == AlignToEight(n as nat)
  {
    var remainder := n % 8;
    if remainder == 0 then remainder else 8 - remainder
  }

  method SectionSizes(header: RawHeader) returns (threadsSize: usize, framesSize: usize)
    ensures var l := LayoutOf(header);
      threadsSize as nat == l.frames - l.threads && framesSize as nat == l.symbols - l.frames
  {
    threadsSize := 12 * header.numThreads as usize;
    threadsSize := threadsSize + AlignToEightWord(threadsSize);
    framesSize := 16 * header.numFrames as usize;
    assert (16 * header.numFrames + 7) / 8 == 2 * header.numFrames;
    framesSize := framesSize + AlignToEightWord(framesSize);
  }

  /** The parser, on 64-bit words: no size computation overflows, whatever the header says, and
      every slice it takes lies in the buffer. */
  method Parse(e: Endian, buf: seq<byte>) returns (r: Result<Format, Error>)
    requires |buf| < U64_LIMIT
    ensures r == Parsed(e, buf)
  {
    var headerSize: usize := 16;
    headerSize := headerSize + AlignToEightWord(headerSize);
    if |buf| as usize < headerSize {
      return Err(HeaderTooSmall);
    }
    var header := DecodeHeader(e, buf);
    if header.version != FORMAT_VERSION {
      return Err(WrongVersion);
    }

    var threadsSize, framesSize := SectionSizes(header);
    var expectedSize := headerSize + threadsSize + framesSize + header.symbolBytes as usize;
    assert expectedSize as nat == LayoutOf(header).end;
    if |buf| as usize != expectedSize {
      return Err(BadFormatLength);
    }

    SectionsAligned(header);
    var threadsStart := headerSize as nat;
    var framesStart := threadsStart + threadsSize as nat;
    var symbolsStart := framesStart + framesSize as nat;
    var threads := buf[threadsStart..threadsStart + THREAD_SIZE * header.numThreads];
    var frames := buf[framesStart..framesStart + FRAME_SIZE * header.numFrames];
    var symbols := buf[symbolsStart..symbolsStart + header.symbolBytes];
    assert symbols == buf[symbolsStart..];
    r := Ok(Format(DecodeThreads(e, Chunks(threads, THREAD_SIZE)),
                   DecodeFrames(e, Chunks(frames, FRAME_SIZE)),
                   symbols));
  }

  /** Exactly the buffers of version 1 whose length is the one their header announces parse. */
  lemma ParsesIff(e: Endian, buf: seq<byte>)
    ensures Parsed(e, buf).Ok? <==>
      && |buf| >= HEADER_SIZE
      && ReadU32(e, buf, 0) == 1
      && var threads := 12 * ReadU32(e, buf, 4);
         |buf| == 16 + (threads + 7) / 8 * 8 + 16 * ReadU32(e, buf, 8) + ReadU32(e, buf, 12)
  {
    if |buf| >= HEADER_SIZE {
      var threads := 12 * ReadU32(e, buf, 4);
      assert threads + AlignToEight(threads) == (threads + 7) / 8 * 8;
    }
  }

  predicate IsThreadAt(e: Endian, buf: seq<byte>, at: nat, t: RawThread) {
    && at + 12 <= |buf|
    && t.threadId == ReadU32(e, buf, at)
    && t.startFrame == ReadU32(e, buf, at + 4)
    && t.numFrames == ReadU32(e, buf, at + 8)
  }

  predicate IsFrameAt(e: Endian, buf: seq<byte>, at: nat, frame: RawFrame) {
    && at + 16 <= |buf|
    && frame.instructionAddr == ReadU64(e, buf, at)
    && frame.symbolOffset == ReadU32(e, buf, at + 8)
    && frame.symbolLen == ReadU32(e, buf, at + 12)
  }

  lemma ThreadIsAt(e: Endian, buf: seq<byte>, from: nat, to: nat, i: nat)
    requires from <= to <= |buf| && from + 12 * i + 12 <= to
    ensures var section := buf[from..to];
      var records := Chunks(section, THREAD_SIZE);
      i < |records| && IsThreadAt(e, buf, from + 12 * i, DecodeThread(e, records[i]))
  {
    var at := from + 12 * i;
    ChunkAt(buf[from..to], 12, i);
    PartOfSlice(buf, from, to, 12 * i, 12 * i + 12);
    ReadOfSlice(e, buf, at, at + 12, 0);
    ReadOfSlice(e, buf, at, at + 12, 4);
    ReadOfSlice(e, buf, at, at + 12, 8);
  }

  lemma FrameIsAt(e: Endian, buf: seq<byte>, from: nat, to: nat, i: nat)
    requires from <= to <= |buf| && from + 16 * i + 16 <= to
    ensures var section := buf[from..to];
      var records := Chunks(section, FRAME_SIZE);
      i < |records| && IsFrameAt(e, buf, from + 16 * i, DecodeFrame(e, records[i]))
  {
    var at := from + 16 * i;
    ChunkAt(buf[from..to], 16, i);
    PartOfSlice(buf, from, to, 16 * i, 16 * i + 16);
    ReadOfSlice(e, buf, at, at + 16, 0);
    ReadOfSlice(e, buf, at, at + 16, 8);
    ReadOfSlice(e, buf, at, at + 16, 12);
  }

  lemma ThreadsAreAt(e: Endian, buf: seq<byte>, from: nat, to: nat, n: nat)
    requires from + 12 * n == to <= |buf|
    ensures var threads := DecodeThreads(e, Chunks(buf[from..to], THREAD_SIZE));
      |threads| == n && forall i :: 0 <= i < n ==> IsThreadAt(e, buf, from + 12 * i, threads[i])
  {
    FlattenOfChunks(buf[from..to], 12, n);
    var threads := DecodeThreads(e, Chunks(buf[from..to], THREAD_SIZE));
    forall i | 0 <= i < n ensures IsThreadAt(e, buf, from + 12 * i, threads[i]) {
      ThreadIsAt(e, buf, from, to, i);
    }
  }

  lemma FramesAreAt(e: Endian, buf: seq<byte>, from: nat, to: nat, n: nat)
    requires from + 16 * n == to <= |buf|
    ensures var frames := DecodeFrames(e, Chunks(buf[from..to], FRAME_SIZE));
      |frames| == n && forall i :: 0 <= i < n ==> IsFrameAt(e, buf, from + 16 * i, frames[i])
  {
    FlattenOfChunks(buf[from..to], 16, n);
    var frames := DecodeFrames(e, Chunks(buf[from..to], FRAME_SIZE));
    forall i | 0 <= i < n ensures IsFrameAt(e, buf, from + 16 * i, frames[i]) {
      FrameIsAt(e, buf, from, to, i);
    }
  }

  /** Where in an accepted buffer each thread, each frame and the symbols are read from: threads of
      12 bytes from byte 16 on, frames of 16 bytes from the next multiple of eight on, and the
      symbols up to the end. */
  lemma RecordsAreAt(e: Endian, buf: seq<byte>)
    requires Parsed(e, buf).Ok?
    ensures var f := Parsed(e, buf).value; var frames := 16 + (12 * |f.threads| + 7) / 8 * 8;
      && |f.threads| == ReadU32(e, buf, 4) && |f.frames| == ReadU32(e, buf, 8)
      && (forall i :: 0 <= i < |f.threads| ==> IsThreadAt(e, buf, 16 + 12 * i, f.threads[i]))
      && (forall i :: 0 <= i < |f.frames| ==> IsFrameAt(e, buf, frames + 16 * i, f.frames[i]))
      && |f.symbolBytes| == ReadU32(e, buf, 12) && f.symbolBytes == buf[|buf| - |f.symbolBytes|..]
  {
    var h := DecodeHeader(e, buf);
    var l := LayoutOf(h);
    ThreadsAreAt(e, buf, l.threads, l.threadsEnd, h.numThreads);
    FramesAreAt(e, buf, l.frames, l.symbols, h.numFrames);
  }

  lemma SlicesOfConcat(a: seq<byte>, b: seq<byte>, c: seq<byte>, d: seq<byte>, e: seq<byte>)
    ensures var s := a + b + c + d + e; var i := |a| + |b|; var j := i + |c|; var k := j + |d|;
      && s == a + (b + c + d + e)
      && s[..i] == a + b && s[|a|..i] == b && s[j..k] == d && s[k..] == e && s[j..] == d + e
  {
  }

  lemma ConcatOfSlices(s: seq<byte>, i: nat, j: nat, k: nat, l: nat)
    requires i <= j <= k <= l <= |s|
    ensures s[..j] == s[..i] + s[i..j] && s[k..] == s[k..l] + s[l..]
  {
  }

  lemma Reassemble(s: seq<byte>, i: nat, j: nat, k: nat, l: nat, padding: seq<byte>)
    requires i <= j <= k <= l <= |s|
    ensures s[..i] + s[i..j] + padding + s[k..l] + s[l..] == s[..j] + padding + s[k..]
  {
    ConcatOfSlices(s, i, j, k, l);
    Associate(s[..i], s[i..j], padding, s[k..l], s[l..]);
  }

  /** Parsing gives back what was encoded. */
  lemma ParseOfEncode(e: Endian, f: Format)
    requires FitsHeader(f)
    ensures Parsed(e, Encode(e, f)) == Ok(f)
  {
    var h := HeaderOf(f);
    EncodedSlices(e, f);
    ChunksOfFlatten(EncodeThreads(e, f.threads), THREAD_SIZE);
    ChunksOfFlatten(EncodeFrames(e, f.frames), FRAME_SIZE);
    ThreadsRoundTrip(e, f.threads);
    FramesRoundTrip(e, f.frames);
    assert Parsed(e, Encode(e, f)) == Ok(Sections(e, h, Encode(e, f)));
  }

  lemma EncodedSlices(e: Endian, f: Format)
    requires FitsHeader(f)
    ensures var buf := Encode(e, f); var h := HeaderOf(f); var l := LayoutOf(h);
      && |buf| == l.end && DecodeHeader(e, buf) == h
      && buf[l.threads..l.threadsEnd] == Flatten(EncodeThreads(e, f.threads))
      && buf[l.frames..l.symbols] == Flatten(EncodeFrames(e, f.frames))
      && buf[l.symbols..] == f.symbolBytes
  {
    EncodedLengths(e, f);
    EncodedAt(e, f, EncodeHeader(e, HeaderOf(f)), Flatten(EncodeThreads(e, f.threads)),
              Flatten(EncodeFrames(e, f.frames)));
    EncodedHeader(e, f);
  }

  lemma EncodedHeader(e: Endian, f: Format)
    requires FitsHeader(f)
    ensures DecodeHeader(e, Encode(e, f)) == HeaderOf(f)
  {
    var header := EncodeHeader(e, HeaderOf(f));
    var threads := Flatten(EncodeThreads(e, f.threads));
    var padding := Zeros(AlignToEight(THREAD_SIZE * |f.threads|));
    var frames := Flatten(EncodeFrames(e, f.frames));
    Associate(header, threads, padding, frames, f.symbolBytes);
    HeaderRoundTrip(e, HeaderOf(f), threads + padding + frames + f.symbolBytes);
  }

  lemma EncodedAt(e: Endian, f: Format, header: seq<byte>, threads: seq<byte>, frames: seq<byte>)
    requires FitsHeader(f) && |header| == HEADER_SIZE
    requires |threads| == THREAD_SIZE * |f.threads| && |frames| == FRAME_SIZE * |f.frames|
    ensures var l := LayoutOf(HeaderOf(f));
      var buf := header + threads + Zeros(AlignToEight(THREAD_SIZE * |f.threads|)) + frames + f.symbolBytes;
      && |buf| == l.end && buf[l.threads..l.threadsEnd] == threads
      && buf[l.frames..l.symbols] == frames && buf[l.symbols..] == f.symbolBytes
  {
    SlicesOfConcat(header, threads, Zeros(AlignToEight(THREAD_SIZE * |f.threads|)), frames, f.symbolBytes);
  }

  lemma EncodedLengths(e: Endian, f: Format)
    ensures |Flatten(EncodeThreads(e, f.threads))| == THREAD_SIZE * |f.threads|
    ensures |Flatten(EncodeFrames(e, f.frames))| == FRAME_SIZE * |f.frames|
  {
    ChunksOfFlatten(EncodeThreads(e, f.threads), THREAD_SIZE);
    ChunksOfFlatten(EncodeFrames(e, f.frames), FRAME_SIZE);
  }

  /** Encoding what was parsed gives the buffer back, but for its padding: no two buffers that
      differ elsewhere parse to the same threads, frames and symbols. */
  lemma EncodeOfParse(e: Endian, buf: seq<byte>)
    requires Parsed(e, buf).Ok?
    ensures var f := Parsed(e, buf).value; var l := LayoutOf(DecodeHeader(e, buf));
      && FitsHeader(f) && l.end == |buf|
      && Encode(e, f) == buf[..l.threadsEnd] + Zeros(l.frames - l.threadsEnd) + buf[l.frames..]
  {
    HeaderInverse(e, buf);
    EncodeOfSections(e, DecodeHeader(e, buf), buf);
  }

  lemma EncodeOfSections(e: Endian, h: RawHeader, buf: seq<byte>)
    requires |buf| == LayoutOf(h).end && h.version == FORMAT_VERSION && EncodeHeader(e, h) == buf[..HEADER_SIZE]
    ensures var f := Sections(e, h, buf); var l := LayoutOf(h);
      && FitsHeader(f) && HeaderOf(f) == h
      && Encode(e, f) == buf[..l.threadsEnd] + Zeros(l.frames - l.threadsEnd) + buf[l.frames..]
  {
    var l, f := LayoutOf(h), Sections(e, h, buf);
    var threads, frames := buf[l.threads..l.threadsEnd], buf[l.frames..l.symbols];
    RecordsInverse(e, threads, h.numThreads, frames, h.numFrames);
    assert HeaderOf(f) == h;
    Reassemble(buf, l.threads, l.threadsEnd, l.frames, l.symbols, Zeros(l.frames - l.threadsEnd));
  }

  lemma RecordsInverse(e: Endian, threads: seq<byte>, numThreads: nat, frames: seq<byte>, numFrames: nat)
    requires |threads| == THREAD_SIZE * numThreads && |frames| == FRAME_SIZE * numFrames
    ensures var ts := DecodeThreads(e, Chunks(threads, THREAD_SIZE));
      |ts| == numThreads && Flatten(EncodeThreads(e, ts)) == threads
    ensures var fs := DecodeFrames(e, Chunks(frames, FRAME_SIZE));
      |fs| == numFrames && Flatten(EncodeFrames(e, fs)) == frames
  {
    FlattenOfChunks(threads, THREAD_SIZE, numThreads);
    FlattenOfChunks(frames, FRAME_SIZE, numFrames);
    ThreadsInverse(e, Chunks(threads, THREAD_SIZE));
    FramesInverse(e, Chunks(frames, FRAME_SIZE));
  }

  /** A stream written in the other byte order is rejected for its version, whatever it holds. */
  lemma OtherByteOrderRejected(e: Endian, other: Endian, f: Format)
    requires e != other && FitsHeader(f)
    ensures Parsed(e, Encode(other, f)) == Err(WrongVersion)
  {
    StartsWithVersion(other, f);
    VersionBytes(other);
  }

  lemma StartsWithVersion(e: Endian, f: Format)
    requires FitsHeader(f)
    ensures |Encode(e, f)| >= HEADER_SIZE && Encode(e, f)[0..4] == ToBytes(e, 1, 4)
  {
    var header := EncodeHeader(e, HeaderOf(f));
    var threads := Flatten(EncodeThreads(e, f.threads));
    var padding := Zeros(AlignToEight(THREAD_SIZE * |f.threads|));
    var frames := Flatten(EncodeFrames(e, f.frames));
    var h := HeaderOf(f);
    StartOfConcat(ToBytes(e, h.version, 4), ToBytes(e, h.numThreads, 4), ToBytes(e, h.numFrames, 4),
                  ToBytes(e, h.symbolBytes, 4), [], 4);
    StartOfConcat(header, threads, padding, frames, f.symbolBytes, 4);
  }

  lemma StartOfConcat<T>(a: seq<T>, b: seq<T>, c: seq<T>, d: seq<T>, e: seq<T>, n: nat)
    requires n <= |a|
    ensures |a + b + c + d + e| >= |a| && (a + b + c + d + e)[0..n] == a[0..n]
    ensures (a + b + c + d)[0..n] == a[0..n]
  {
  }

  lemma VersionBytes(other: Endian)
    ensures Value(if other.Little? then Big else Little, ToBytes(other, 1, 4)) == 0x100_0000
  {
    var one: seq<byte> := [1, 0, 0, 0];
    var v: seq<byte> := [0, 0, 0, 1];
    assert LittleBytes(1, 4) == one by {
      assert LittleBytes(0, 2) == [0] + LittleBytes(0, 1);
      assert LittleBytes(0, 3) == [0] + LittleBytes(0, 2);
    }
    assert Reversed(one) == v && Reversed(v) == one;
    assert v[1..] == [0, 0, 1] && v[2..] == [0, 1] && v[3..] == [1];
    assert [0, 0, 1][1..] == [0, 1] && [0, 1][1..] == [1];
    assert LittleValue([1]) == 1;
    assert LittleValue([0, 1]) == 256;
    assert LittleValue([0, 0, 1]) == 0x1_0000;
    assert LittleValue(v) == 0x100_0000;
  }

  // ---------------------------------------------------------------------------------------------
  // Stack traces

  datatype Frame = Frame(instructionAddr: u64, symbol: seq<byte>)
  datatype Stacktrace = Stacktrace(threadId: u32, frames: seq<Frame>)

  /** `slice.get(start..end)` */
  function Get<T>(s: seq<T>, start: nat, end: nat): Option<seq<T>> {
    if start <= end <= |s| then Some(s[start..end]) else None
  }

  function ThreadFrames(f: Format, t: RawThread): Result<seq<RawFrame>, Error> {
    match Get(f.frames, t.startFrame, t.startFrame + t.numFrames)
    case Some(frames) => Ok(frames)
    case None => Err(FrameIndexOutOfBounds(t.threadId))
  }

  function FrameSymbol(f: Format, frame: RawFrame): Result<seq<byte>, Error> {
    match Get(f.symbolBytes, frame.symbolOffset, frame.symbolOffset + frame.symbolLen)
    case Some(symbol) => Ok(symbol)
    case None => Err(SymbolIndexOutOfBounds(frame.instructionAddr))
  }

  function ToFrames(f: Format, frames: seq<RawFrame>): Result<seq<Frame>, Error> {
    if frames == [] then Ok([])
    else
      match FrameSymbol(f, frames[0])
      case Err(error) => Err(error)
      case Ok(symbol) =>
        match ToFrames(f, frames[1..])
        case Err(error) => Err(error)
        case Ok(rest) => Ok([Frame(frames[0].instructionAddr, symbol)] + rest)
  }

  function ToStacktrace(f: Format, t: RawThread): Result<Stacktrace, Error> {
    match ThreadFrames(f, t)
    case Err(error) => Err(error)
    case Ok(raw) =>
      match ToFrames(f, raw)
      case Err(error) => Err(error)
      case Ok(frames) => Ok(Stacktrace(t.threadId, frames))
  }

  function ToStacktraces(f: Format, threads: seq<RawThread>): Result<seq<Stacktrace>, Error> {
    if threads == [] then Ok([])
    else
      match ToStacktrace(f, threads[0])
      case Err(error) => Err(error)
      case Ok(first) =>
        match ToStacktraces(f, threads[1..])
        case Err(error) => Err(error)
        case Ok(rest) => Ok([first] + rest)
  }

  /** What the stream is parsed to. */
  function ParseStacktraces(e: Endian, buf: seq<byte>): Result<seq<Stacktrace>, Error> {
    match Parsed(e, buf)
    case Err(error) => Err(error)
    case Ok(f) => ToStacktraces(f, f.threads)
  }

  /** The documented layout of stack traces: all frames thread by thread, and the symbols of all
      frames one after the other. */
  function AllFrames(traces: seq<Stacktrace>): seq<Frame> {
    if traces == [] then [] else traces[0].frames + AllFrames(traces[1..])
  }

  function AllSymbols(frames: seq<Frame>): seq<byte> {
    if frames == [] then [] else frames[0].symbol + AllSymbols(frames[1..])
  }

  predicate Encodable(traces: seq<Stacktrace>) {
    && |traces| < U32_LIMIT
    && |AllFrames(traces)| < U32_LIMIT
    && |AllSymbols(AllFrames(traces))| < U32_LIMIT
  }

  function RawFrames(frames: seq<Frame>, offset: nat): (raw: seq<RawFrame>)
    requires offset + |AllSymbols(frames)| < U32_LIMIT
    ensures |raw| == |frames|
  {
    if frames == [] then []
    else
      [RawFrame(frames[0].instructionAddr, offset, |frames[0].symbol|)]
      + RawFrames(frames[1..], offset + |frames[0].symbol|)
  }

  function RawThreads(traces: seq<Stacktrace>, start: nat): (raw: seq<RawThread>)
    requires start + |AllFrames(traces)| < U32_LIMIT
    ensures |raw| == |traces|
  {
    if traces == [] then []
    else
      [RawThread(traces[0].threadId, start, |traces[0].frames|)]
      + RawThreads(traces[1..], start + |traces[0].frames|)
  }

  function FormatOf(traces: seq<Stacktrace>): (f: Format)
    requires Encodable(traces)
    ensures FitsHeader(f)
  {
    Format(RawThreads(traces, 0), RawFrames(AllFrames(traces), 0), AllSymbols(AllFrames(traces)))
  }

  lemma GetOfConcat<T>(s: seq<T>, offset: nat, a: seq<T>, b: seq<T>)
    requires Get(s, offset, offset + |a + b|) == Some(a + b)
    ensures Get(s, offset, offset + |a|) == Some(a)
    ensures Get(s, offset + |a|, offset + |a| + |b|) == Some(b)
  {
    assert s[offset..offset + |a|] == (a + b)[..|a|];
    assert s[offset + |a|..offset + |a| + |b|] == (a + b)[|a|..];
  }

  lemma HeadAndTail<T>(x: T, rest: seq<T>)
    ensures ([x] + rest)[0] == x && ([x] + rest)[1..] == rest
  {
  }

  /** Frames encoded with their symbols at `offset` are read back from there. */
  lemma {:induction false} FramesReadBack(f: Format, frames: seq<Frame>, offset: nat)
    requires offset + |AllSymbols(frames)| < U32_LIMIT
    requires Get(f.symbolBytes, offset, offset + |AllSymbols(frames)|) == Some(AllSymbols(frames))
    ensures ToFrames(f, RawFrames(frames, offset)) == Ok(frames)
  {
    if frames != [] {
      var first, rest := frames[0], frames[1..];
      GetOfConcat(f.symbolBytes, offset, first.symbol, AllSymbols(rest));
      FramesReadBack(f, rest, offset + |first.symbol|);
      var raw := RawFrame(first.instructionAddr, offset, |first.symbol|);
      FramesReadCons(f, raw, RawFrames(rest, offset + |first.symbol|), first, rest);
      assert frames == [first] + rest;
    }
  }

  lemma FramesReadCons(f: Format, raw: RawFrame, raws: seq<RawFrame>, frame: Frame, frames: seq<Frame>)
    requires FrameSymbol(f, raw) == Ok(frame.symbol) && raw.instructionAddr == frame.instructionAddr
    requires ToFrames(f, raws) == Ok(frames)
    ensures ToFrames(f, [raw] + raws) == Ok([frame] + frames)
  {
    HeadAndTail(raw, raws);
  }

  lemma {:induction false} SymbolsOfConcat(a: seq<Frame>, b: seq<Frame>)
    ensures AllSymbols(a + b) == AllSymbols(a) + AllSymbols(b)
  {
    if a == [] {
      assert a + b == b;
    } else {
      assert (a + b)[1..] == a[1..] + b;
      SymbolsOfConcat(a[1..], b);
    }
  }

  lemma {:induction false} RawFramesOfConcat(a: seq<Frame>, b: seq<Frame>, offset: nat)
    requires offset + |AllSymbols(a + b)| < U32_LIMIT
    ensures AllSymbols(a + b) == AllSymbols(a) + AllSymbols(b)
    ensures RawFrames(a + b, offset) == RawFrames(a, offset) + RawFrames(b, offset + |AllSymbols(a)|)
  {
    SymbolsOfConcat(a, b);
    if a == [] {
      assert a + b == b;
    } else {
      assert (a + b)[1..] == a[1..] + b && (a + b)[0] == a[0];
      SymbolsOfConcat(a[1..], b);
      RawFramesOfConcat(a[1..], b, offset + |a[0].symbol|);
      AppendUnderHead(RawFrames(a, offset), RawFrames(b, offset + |AllSymbols(a)|), RawFrames(a + b, offset));
    }
  }

  lemma AppendUnderHead<T>(a: seq<T>, b: seq<T>, c: seq<T>)
    requires a != [] && c != [] && c[0] == a[0] && c[1..] == a[1..] + b
    ensures c == a + b
  {
    assert c == [c[0]] + c[1..];
  }

  lemma MiddleOfConcat<T>(a: seq<T>, b: seq<T>, c: seq<T>)
    ensures (a + b + c)[|a|..|a| + |b|] == b
  {
  }

  predicate HoldsFrames(f: Format, all: seq<Frame>) {
    && |all| < U32_LIMIT && |AllSymbols(all)| < U32_LIMIT
    && f.frames == RawFrames(all, 0) && f.symbolBytes == AllSymbols(all)
  }

  lemma ThreadReadBack(f: Format, all: seq<Frame>, before: seq<Frame>, trace: Stacktrace, after: seq<Frame>)
    requires all == before + trace.frames + after && HoldsFrames(f, all)
    ensures ToStacktrace(f, RawThread(trace.threadId, |before|, |trace.frames|)) == Ok(trace)
  {
    var mine := trace.frames;
    var offset := |AllSymbols(before)|;
    RawFramesOfConcat(before + mine, after, 0);
    RawFramesOfConcat(before, mine, 0);
    MiddleOfConcat(AllSymbols(before), AllSymbols(mine), AllSymbols(after));
    FramesReadBack(f, mine, offset);
    MiddleOfConcat(RawFrames(before, 0), RawFrames(mine, offset), RawFrames(after, |AllSymbols(before + mine)|));
    assert ThreadFrames(f, RawThread(trace.threadId, |before|, |mine|)) == Ok(RawFrames(mine, offset));
  }

  /** Threads encoded after the frames `before` are read back. */
  lemma {:induction false} ThreadsReadBack(f: Format, all: seq<Frame>, before: seq<Frame>, traces: seq<Stacktrace>)
    requires all == before + AllFrames(traces) && HoldsFrames(f, all)
    ensures ToStacktraces(f, RawThreads(traces, |before|)) == Ok(traces)
    decreases traces
  {
    if traces != [] {
      var mine, rest := traces[0].frames, traces[1..];
      assert all == (before + mine) + AllFrames(rest);
      ThreadReadBack(f, all, before, traces[0], AllFrames(rest));
      ThreadsReadBack(f, all, before + mine, rest);
      var raw := RawThreads(traces, |before|);
      assert raw[0] == RawThread(traces[0].threadId, |before|, |mine|);
      assert raw[1..] == RawThreads(rest, |before + mine|);
      assert traces == [traces[0]] + rest;
    }
  }

  /** Encoding stack traces as documented and parsing the stream returns the same threads,
      addresses and symbols. */
  lemma StacktracesRoundTrip(e: Endian, traces: seq<Stacktrace>)
    requires Encodable(traces)
    ensures ParseStacktraces(e, Encode(e, FormatOf(traces))) == Ok(traces)
  {
    ParseOfEncode(e, FormatOf(traces));
    FormatReadBack(traces);
  }

  /** Symbols become text; what is not well-formed UTF-8 is replaced by the lossy decoder. */
  datatype TextFrame = TextFrame(instructionAddr: u64, function_: Utf8.Str)
  datatype TextTrace = TextTrace(threadId: u32, frames: seq<TextFrame>)

  type Decoder = seq<byte> -> Utf8.Str

  function FrameTexts(frames: seq<Frame>, decode: Decoder): (r: seq<TextFrame>)
    ensures |r| == |frames|
  {
    seq(|frames|, i requires 0 <= i < |frames| => TextFrame(frames[i].instructionAddr, decode(frames[i].symbol)))
  }

  function Texts(traces: seq<Stacktrace>, decode: Decoder): (r: seq<TextTrace>)
    ensures |r| == |traces|
  {
    seq(|traces|, i requires 0 <= i < |traces| => TextTrace(traces[i].threadId, FrameTexts(traces[i].frames, decode)))
  }

  function FrameBytes(frames: seq<TextFrame>): (r: seq<Frame>)
    ensures |r| == |frames|
  {
    seq(|frames|, i requires 0 <= i < |frames| => Frame(frames[i].instructionAddr, frames[i].function_))
  }

  /** The stack traces to encode, with each function's name as its bytes. */
  function Bytes(traces: seq<TextTrace>): (r: seq<Stacktrace>)
    ensures |r| == |traces|
  {
    seq(|traces|, i requires 0 <= i < |traces| => Stacktrace(traces[i].threadId, FrameBytes(traces[i].frames)))
  }

  /** The stack traces of a stream, with the functions' names as text. */
  function ParseTexts(e: Endian, buf: seq<byte>, decode: Decoder): Result<seq<TextTrace>, Error> {
    match ParseStacktraces(e, buf)
    case Err(error) => Err(error)
    case Ok(traces) => Ok(Texts(traces, decode))
  }

  lemma FrameTextsOfBytes(frames: seq<TextFrame>, decode: Decoder)
    requires Utf8.KeepsWellFormed(decode)
    ensures FrameTexts(FrameBytes(frames), decode) == frames
  {
  }

  lemma TextsOfBytes(traces: seq<TextTrace>, decode: Decoder)
    requires Utf8.KeepsWellFormed(decode)
    ensures Texts(Bytes(traces), decode) == traces
  {
    forall i | 0 <= i < |traces| ensures Texts(Bytes(traces), decode)[i] == traces[i] {
      FrameTextsOfBytes(traces[i].frames, decode);
    }
  }

  /** Encoding stack traces as documented and parsing the stream, down to the text of the functions'
      names, returns the same stack traces. */
  lemma TextsRoundTrip(e: Endian, traces: seq<TextTrace>, decode: Decoder)
    requires Encodable(Bytes(traces)) && Utf8.KeepsWellFormed(decode)
    ensures ParseTexts(e, Encode(e, FormatOf(Bytes(traces))), decode) == Ok(traces)
  {
    StacktracesRoundTrip(e, Bytes(traces));
    TextsOfBytes(traces, decode);
  }

  lemma FormatReadBack(traces: seq<Stacktrace>)
    requires Encodable(traces)
    ensures ToStacktraces(FormatOf(traces), FormatOf(traces).threads) == Ok(traces)
  {
    ThreadsReadBack(FormatOf(traces), AllFrames(traces), [], traces);
  }

  predicate FrameInBounds(f: Format, frame: RawFrame) {
    frame.symbolOffset + frame.symbolLen <= |f.symbolBytes|
  }

  predicate ThreadInBounds(f: Format, t: RawThread) {
    && t.startFrame + t.numFrames <= |f.frames|
    && forall i :: t.startFrame <= i < t.startFrame + t.numFrames ==> FrameInBounds(f, f.frames[i])
  }

  /** Frame `k` is the first of the thread whose symbol is out of bounds. */
  predicate IsFirstBad(f: Format, t: RawThread, k: nat) {
    && t.startFrame <= k < t.startFrame + t.numFrames <= |f.frames|
    && !FrameInBounds(f, f.frames[k])
    && forall i :: t.startFrame <= i < k ==> FrameInBounds(f, f.frames[i])
  }

  lemma {:induction false} FirstBadFrame(f: Format, frames: seq<RawFrame>, k: nat)
    requires k < |frames| && !FrameInBounds(f, frames[k])
    requires forall i :: 0 <= i < k ==> FrameInBounds(f, frames[i])
    ensures ToFrames(f, frames) == Err(SymbolIndexOutOfBounds(frames[k].instructionAddr))
  {
    if k > 0 {
      assert FrameInBounds(f, frames[0]);
      FirstBadFrame(f, frames[1..], k - 1);
    }
  }

  lemma {:induction false} FramesReadIff(f: Format, frames: seq<RawFrame>)
    ensures ToFrames(f, frames).Ok? <==> forall i :: 0 <= i < |frames| ==> FrameInBounds(f, frames[i])
  {
    if frames != [] {
      FramesReadIff(f, frames[1..]);
      assert forall i :: 0 < i < |frames| ==> frames[i] == frames[1..][i - 1];
    }
  }

  lemma StacktraceReadIff(f: Format, t: RawThread)
    ensures ToStacktrace(f, t).Ok? <==> ThreadInBounds(f, t)
  {
    if t.startFrame + t.numFrames <= |f.frames| {
      var raw := f.frames[t.startFrame..t.startFrame + t.numFrames];
      FramesReadIff(f, raw);
      assert forall i :: t.startFrame <= i < t.startFrame + t.numFrames ==> f.frames[i] == raw[i - t.startFrame];
    }
  }

  /** The thread's own frames, in order, each with its address and its slice of the symbols. */
  predicate IsReadFrom(f: Format, t: RawThread, trace: Stacktrace) {
    && ThreadInBounds(f, t)
    && trace.threadId == t.threadId && |trace.frames| == t.numFrames
    && forall k :: 0 <= k < t.numFrames ==> IsFrameOf(f, f.frames[t.startFrame + k], trace.frames[k])
  }

  predicate IsFrameOf(f: Format, raw: RawFrame, frame: Frame) {
    && FrameInBounds(f, raw) && frame.instructionAddr == raw.instructionAddr
    && frame.symbol == f.symbolBytes[raw.symbolOffset..raw.symbolOffset + raw.symbolLen]
  }

  lemma {:induction false} FramesAreRead(f: Format, frames: seq<RawFrame>)
    requires ToFrames(f, frames).Ok?
    ensures var read := ToFrames(f, frames).value;
      |read| == |frames| && forall k :: 0 <= k < |frames| ==> IsFrameOf(f, frames[k], read[k])
  {
    if frames != [] {
      FramesAreRead(f, frames[1..]);
      var rest, read := ToFrames(f, frames[1..]).value, ToFrames(f, frames).value;
      forall k | 0 <= k < |frames| ensures IsFrameOf(f, frames[k], read[k]) {
        if k > 0 {
          assert frames[k] == frames[1..][k - 1] && read[k] == rest[k - 1];
        }
      }
    }
  }

  lemma TraceIsRead(f: Format, t: RawThread)
    requires ToStacktrace(f, t).Ok?
    ensures IsReadFrom(f, t, ToStacktrace(f, t).value)
  {
    StacktraceReadIff(f, t);
    var raw := f.frames[t.startFrame..t.startFrame + t.numFrames];
    FramesAreRead(f, raw);
    assert forall k :: 0 <= k < t.numFrames ==> raw[k] == f.frames[t.startFrame + k];
  }

  /** Whatever stream is read, its threads are put out in order, and each with just its frames. */
  lemma {:induction false} TracesAreRead(f: Format, threads: seq<RawThread>)
    requires ToStacktraces(f, threads).Ok?
    ensures var traces := ToStacktraces(f, threads).value;
      |traces| == |threads| && forall i :: 0 <= i < |threads| ==> IsReadFrom(f, threads[i], traces[i])
  {
    if threads != [] {
      TraceIsRead(f, threads[0]);
      TracesAreRead(f, threads[1..]);
      var rest, traces := ToStacktraces(f, threads[1..]).value, ToStacktraces(f, threads).value;
      forall i | 0 <= i < |threads| ensures IsReadFrom(f, threads[i], traces[i]) {
        if i > 0 {
          assert threads[i] == threads[1..][i - 1] && traces[i] == rest[i - 1];
        }
      }
    }
  }

  lemma BadFrameIsReported(f: Format, t: RawThread, k: nat)
    requires IsFirstBad(f, t, k)
    ensures ToStacktrace(f, t) == Err(SymbolIndexOutOfBounds(f.frames[k].instructionAddr))
  {
    var raw := f.frames[t.startFrame..t.startFrame + t.numFrames];
    FirstBadFrame(f, raw, k - t.startFrame);
  }

  lemma BadFrameExists(f: Format, t: RawThread) returns (k: nat)
    requires t.startFrame + t.numFrames <= |f.frames| && !ThreadInBounds(f, t)
    ensures IsFirstBad(f, t, k)
  {
    var n :| t.startFrame <= n < t.startFrame + t.numFrames && !FrameInBounds(f, f.frames[n]);
    k := t.startFrame;
    while FrameInBounds(f, f.frames[k])
      invariant t.startFrame <= k <= n
      decreases n - k
      invariant forall i :: t.startFrame <= i < k ==> FrameInBounds(f, f.frames[i])
    {
      k := k + 1;
    }
  }

  /** What reading a thread fails with: the thread's id exactly if its frame range is out of bounds,
      and otherwise the address of its first frame whose symbol is. */
  lemma StacktraceErrors(f: Format, t: RawThread)
    ensures ToStacktrace(f, t) == Err(FrameIndexOutOfBounds(t.threadId)) <==> t.startFrame + t.numFrames > |f.frames|
    ensures forall k: nat :: IsFirstBad(f, t, k) ==>
      ToStacktrace(f, t) == Err(SymbolIndexOutOfBounds(f.frames[k].instructionAddr))
    ensures t.startFrame + t.numFrames <= |f.frames| && ToStacktrace(f, t).Err? ==>
      exists k: nat :: IsFirstBad(f, t, k)
  {
    forall k: nat | IsFirstBad(f, t, k)
      ensures ToStacktrace(f, t) == Err(SymbolIndexOutOfBounds(f.frames[k].instructionAddr))
    {
      BadFrameIsReported(f, t, k);
    }
    StacktraceReadIff(f, t);
    if t.startFrame + t.numFrames <= |f.frames| && !ThreadInBounds(f, t) {
      var k := BadFrameExists(f, t);
      BadFrameIsReported(f, t, k);
    }
  }

  /** A stream fails with the error of the first thread that cannot be read. */
  lemma {:induction false} StreamErrors(f: Format, threads: seq<RawThread>, i: nat)
    requires i < |threads| && !ThreadInBounds(f, threads[i])
    requires forall j :: 0 <= j < i ==> ThreadInBounds(f, threads[j])
    ensures ToStacktrace(f, threads[i]).Err?
    ensures ToStacktraces(f, threads) == Err(ToStacktrace(f, threads[i]).error)
  {
    StacktraceReadIff(f, threads[0]);
    if i > 0 {
      assert ThreadInBounds(f, threads[0]);
      StreamErrors(f, threads[1..], i - 1);
    }
  }

  /** A parsed stream yields stack traces exactly when all its index ranges are in bounds; a frame
      that no thread refers to may be out of bounds. */
  lemma {:induction false} StacktracesReadIff(f: Format, threads: seq<RawThread>)
    ensures ToStacktraces(f, threads).Ok? <==> forall i :: 0 <= i < |threads| ==> ThreadInBounds(f, threads[i])
  {
    if threads != [] {
      StacktraceReadIff(f, threads[0]);
      StacktracesReadIff(f, threads[1..]);
      assert forall i :: 0 < i < |threads| ==> threads[i] == threads[1..][i - 1];
    }
  }
}
