/** Source context: the lines around a location, each trimmed around a column. */
module SourceContext {
  import opened Common
  import opened Utf8

  const DEFAULT_CONTEXT_LINES: nat := 5

  /** `{snip} ` and ` {snip}`. */
  const SNIP_START: seq<byte> := [0x7B, 0x73, 0x6E, 0x69, 0x70, 0x7D, 0x20]
  const SNIP_END: seq<byte> := [0x20, 0x7B, 0x73, 0x6E, 0x69, 0x70, 0x7D]

  function SaturatingSub(a: nat, b: nat): nat {
    if a < b then 0 else a - b
  }

  function Min(a: nat, b: nat): nat {
    if a <= b then a else b
  }

  function AsI8(b: byte): int {
    if b < 128 then b else b - 256
  }

  /** The position of the last byte that, read as a signed number, is at least -0x40. */
  function LastStart(bytes: seq<byte>): (r: Option<nat>)
    ensures r.Some? ==> r.value < |bytes|
  {
    if bytes == [] then None
    else
      var n := |bytes| - 1;
      if AsI8(bytes[n]) >= -0x40 then Some(n) else LastStart(bytes[..n])
  }

  lemma {:induction false} LastStartIsLast(bytes: seq<byte>)
    ensures LastStart(bytes).None? <==> forall i :: 0 <= i < |bytes| ==> IsTail(bytes[i])
    ensures LastStart(bytes).Some? ==>
      var k := LastStart(bytes).value;
      !IsTail(bytes[k]) && forall i :: k < i < |bytes| ==> IsTail(bytes[i])
  {
    if bytes != [] {
      LastStartIsLast(bytes[..|bytes| - 1]);
    }
  }

  /** The unchecked unwrap is safe: a well-formed string always has a start in the window. */
  lemma WindowHasStart(s: Str, index: nat)
    requires index < |s|
    ensures LastStart(s[SaturatingSub(index, 3)..index + 1]).Some?
  {
    var lower := SaturatingSub(index, 3);
    var j := StartNearby(s, index);
    LastStartIsLast(s[lower..index + 1]);
    assert s[lower..index + 1][j - lower] == s[j];
  }

  function FloorCharBoundary(s: Str, index: nat): nat {
    if index >= |s| then |s|
    else
      var lower := SaturatingSub(index, 3);
      WindowHasStart(s, index);
      lower + LastStart(s[lower..index + 1]).value
  }

  /** It is the greatest boundary at or below the index. */
  lemma FloorIsGreatestBoundary(s: Str, index: nat)
    ensures var f := FloorCharBoundary(s, index);
      IsCharBoundary(s, f) && f <= index && forall i: nat :: IsCharBoundary(s, i) && i <= index ==> i <= f
    ensures index < |s| ==> index < FloorCharBoundary(s, index) + 4
  {
    if index < |s| {
      var lower := SaturatingSub(index, 3);
      WindowHasStart(s, index);
      LastStartIsLast(s[lower..index + 1]);
      var f := FloorCharBoundary(s, index);
      forall i | f < i <= index ensures IsTail(s[i]) {
        assert s[lower..index + 1][i - lower] == s[i];
      }
    }
  }

  // ---------------------------------------------------------------------------------------------
  // Trimming one line

  /** The part of a long line that is kept, before it is moved to character boundaries: the first
      or the last 140 bytes, or else 60 bytes before the column and 80 from it on. */
  function NominalWindow(len: nat, column: nat): (nat, nat)
    requires len > 150
  {
    if column < 65 then (0, 140)
    else if column + 80 > len - 5 then (len - 140, len)
    else (column - 60, column + 80)
  }

  function KeptWindow(line: Str, column: nat): (nat, nat)
    requires |line| > 150
  {
    var (start, end) := NominalWindow(|line|, column);
    (FloorCharBoundary(line, start), FloorCharBoundary(line, end))
  }

  /** `line[start..end]` with a marker on each side that was cut. */
  function Snipped(line: seq<byte>, start: nat, end: nat): seq<byte>
    requires start <= end <= |line|
  {
    (if start > 0 then SNIP_START else []) + line[start..end] + (if end < |line| then SNIP_END else [])
  }

  /** Of a line of more than 150 bytes 137 to 143 contiguous bytes around the column are kept, cut at
      character boundaries only.  Something is cut in front exactly from column 65 on, and then at
      least 56 bytes before the column stay; something is cut behind exactly if the column is in
      front or at least 85 bytes before the end, and then at least 73 bytes from the column on
      stay. */
  predicate IsWindow(line: Str, column: nat, start: nat, end: nat) {
    && start <= Min(column, |line|) <= end <= |line| && 137 <= end - start <= 143
    && IsCharBoundary(line, start) && IsCharBoundary(line, end)
    && (start > 0 <==> column >= 65)
    && (end < |line| <==> column < 65 || column + 85 <= |line|)
    && (start > 0 ==> Min(column, |line|) - start >= 56)
    && (end < |line| ==> end - column >= 73)
    && (start > 0 && end < |line| ==> 60 <= column - start <= 63 && 77 <= end - column <= 80)
  }

  lemma KeptWindowBounds(line: Str, column: nat)
    requires |line| > 150
    ensures IsWindow(line, column, KeptWindow(line, column).0, KeptWindow(line, column).1)
  {
    var (start, end) := NominalWindow(|line|, column);
    FloorIsGreatestBoundary(line, start);
    FloorIsGreatestBoundary(line, end);
  }

  lemma PieceWellFormed(line: Str, start: nat, end: nat)
    requires start <= end <= |line| && IsCharBoundary(line, start) && IsCharBoundary(line, end)
    ensures WellFormed(line[start..end])
  {
    BoundaryIffCut(line, end);
    var prefix := line[..end];
    assert IsCharBoundary(prefix, start);
    BoundaryIffCut(prefix, start);
    assert prefix[start..] == line[start..end];
  }

  lemma SnippedWellFormed(line: Str, start: nat, end: nat)
    requires start <= end <= |line| && IsCharBoundary(line, start) && IsCharBoundary(line, end)
    ensures WellFormed(line[start..end]) && WellFormed(Snipped(line, start, end))
  {
    PieceWellFormed(line, start, end);
    MarkedWellFormed(if start > 0 then SNIP_START else [], line[start..end], if end < |line| then SNIP_END else []);
  }

  lemma MarkedWellFormed(before: seq<byte>, piece: seq<byte>, after: seq<byte>)
    requires WellFormed(piece)
    requires forall i :: 0 <= i < |before| ==> before[i] < 0x80
    requires forall i :: 0 <= i < |after| ==> after[i] < 0x80
    ensures WellFormed(before + piece + after)
  {
    AsciiWellFormed(before);
    AsciiWellFormed(after);
    ConcatWellFormed(before, piece);
    ConcatWellFormed(before + piece, after);
  }

  lemma {:induction false} AsciiWellFormed(s: seq<byte>)
    requires forall i :: 0 <= i < |s| ==> s[i] < 0x80
    ensures WellFormed(s)
  {
    if s != [] {
      AsciiWellFormed(s[1..]);
    }
  }

  function Trimmed(line: Str, column: nat): seq<byte> {
    if |line| <= 150 then line
    else
      KeptWindowBounds(line, column);
      var (start, end) := KeptWindow(line, column);
      Snipped(line, start, end)
  }

  method TrimContextLine(line: Str, column: nat) returns (trimmed: seq<byte>)
    ensures trimmed == Trimmed(line, column)
  {
    var len := |line|;
    if len <= 150 {
      return line;
    }
    KeptWindowBounds(line, column);
    var col := Min(column, len);

    var start := SaturatingSub(col, 60);
    if start < 5 {
      start := 0;
    }
    var end := Min(start + 140, len);
    if end > SaturatingSub(len, 5) {
      end := len;
    }
    if end == len {
      start := SaturatingSub(end, 140);
    }
    assert (start, end) == NominalWindow(len, column);

    start := FloorCharBoundary(line, start);
    end := FloorCharBoundary(line, end);
    trimmed := line[start..end];
    if start > 0 {
      trimmed := SNIP_START + trimmed;
    }
    if end < len {
      trimmed := trimmed + SNIP_END;
    }
    assert trimmed == Snipped(line, start, end);
  }

  /** A line of at most 150 bytes as it is; of a longer one the window around the column, with a
      marker on each side that was cut. */
  ghost predicate IsTrimmed(piece: seq<byte>, line: Str, column: nat) {
    if |line| <= 150 then piece == line
    else
      exists start: nat, end: nat ::
        && IsWindow(line, column, start, end)
        && piece == Snipped(line, start, end)
        && |piece| == end - start + (if start > 0 then 7 else 0) + (if end < |line| then 7 else 0)
  }

  /** What trimming promises for every well-formed line and every column. */
  lemma TrimKeepsColumn(line: Str, column: nat)
    ensures WellFormed(Trimmed(line, column)) && IsTrimmed(Trimmed(line, column), line, column)
  {
    if |line| > 150 {
      KeptWindowBounds(line, column);
      var (start, end) := KeptWindow(line, column);
      SnippedWellFormed(line, start, end);
      assert Trimmed(line, column) == Snipped(line, start, end);
    }
  }

  // ---------------------------------------------------------------------------------------------
  // The lines around a location

  /** The lines from number `from` up to `to`, trimmed. */
  function TrimAll(lines: seq<Str>, from: nat, to: nat, column: nat): (r: seq<seq<byte>>)
    requires from <= to <= |lines|
    ensures |r| == to - from
  {
    seq(to - from, i requires 0 <= i < to - from => Trimmed(lines[from + i], column))
  }

  lemma TrimAllSnoc(lines: seq<Str>, from: nat, to: nat, column: nat)
    requires from <= to < |lines|
    ensures TrimAll(lines, from, to + 1, column) == TrimAll(lines, from, to, column) + [Trimmed(lines[to], column)]
  {
  }

  datatype Context = Context(pre: seq<seq<byte>>, line: seq<byte>, post: seq<seq<byte>>)

  /** Line number `at`, counted from 0, with up to `around` lines before and after it. */
  function ContextOf(lines: seq<Str>, at: nat, around: nat, column: nat): Option<Context> {
    if at >= |lines| then None
    else
      var lo, hi := SaturatingSub(at, around), Min(at + 1 + around, |lines|);
      Some(Context(TrimAll(lines, lo, at, column), Trimmed(lines[at], column), TrimAll(lines, at + 1, hi, column)))
  }

  /** `pieces` are the lines from number `from` on, each trimmed. */
  ghost predicate AreTrimmed(pieces: seq<seq<byte>>, lines: seq<Str>, from: nat, column: nat) {
    from + |pieces| <= |lines| && forall k :: 0 <= k < |pieces| ==> IsTrimmed(pieces[k], lines[from + k], column)
  }

  lemma AllAreTrimmed(lines: seq<Str>, from: nat, to: nat, column: nat)
    requires from <= to <= |lines|
    ensures AreTrimmed(TrimAll(lines, from, to, column), lines, from, column)
  {
    var pieces := TrimAll(lines, from, to, column);
    forall k | 0 <= k < |pieces| ensures IsTrimmed(pieces[k], lines[from + k], column) {
      TrimKeepsColumn(lines[from + k], column);
    }
  }

  /** There is a context exactly for the lines of the source; it is made of the line, of the lines
      just before and of those just after it, as many as asked for or as there are, all trimmed
      around the same column. */
  lemma ContextIsTrimmed(lines: seq<Str>, at: nat, around: nat, column: nat)
    ensures ContextOf(lines, at, around, column).Some? <==> at < |lines|
    ensures at < |lines| ==>
      var context := ContextOf(lines, at, around, column).value;
      && |context.pre| == Min(around, at) && AreTrimmed(context.pre, lines, at - |context.pre|, column)
      && IsTrimmed(context.line, lines[at], column)
      && |context.post| == Min(around, |lines| - at - 1) && AreTrimmed(context.post, lines, at + 1, column)
  {
    if at < |lines| {
      AllAreTrimmed(lines, SaturatingSub(at, around), at, column);
      TrimKeepsColumn(lines[at], column);
      AllAreTrimmed(lines, at + 1, Min(at + 1 + around, |lines|), column);
    }
  }

  function Around(contextLines: Option<nat>): nat {
    if contextLines.Some? then contextLines.value else DEFAULT_CONTEXT_LINES
  }

  /** `lines` are the lines of the source and `lineno` counts from 1: gives that line with up to
      `contextLines` lines before and after it, or nothing past the end.  The line 0 has no meaning
      to the caller, but the code takes it for line 1. */
  method GetContextLines(lines: seq<Str>, lineno: nat, column: nat, contextLines: Option<nat>)
    returns (r: Option<Context>)
    ensures r == ContextOf(lines, SaturatingSub(lineno, 1), Around(contextLines), column)
  {
    var around := Around(contextLines);
    var startLine := SaturatingSub(SaturatingSub(lineno, around), 1);
    var lineDiff := SaturatingSub(lineno - startLine, 1);
    WindowOfLine(lineno, around);
    r := ContextFrom(lines, startLine, lineDiff, column, around);
  }

  lemma ContextIsMadeOf(lines: seq<Str>, at: nat, around: nat, column: nat,
                        pre: seq<seq<byte>>, line: seq<byte>, post: seq<seq<byte>>)
    requires at < |lines|
    requires pre == TrimAll(lines, SaturatingSub(at, around), at, column) && line == Trimmed(lines[at], column)
    requires post == TrimAll(lines, at + 1, Min(at + 1 + around, |lines|), column)
    ensures ContextOf(lines, at, around, column) == Some(Context(pre, line, post))
  {
  }

  /** Skips to the line `startLine` and takes what is there. */
  method ContextFrom(lines: seq<Str>, startLine: nat, lineDiff: nat, column: nat, around: nat)
    returns (r: Option<Context>)
    requires startLine == SaturatingSub(startLine + lineDiff, around)
    ensures r == ContextOf(lines, startLine + lineDiff, around, column)
  {
    // the line iterator, as the position of the line it yields next
    var pre, next := TakeTrimmed(lines, Min(startLine, |lines|), lineDiff, column);
    if next == |lines| {
      return None;
    }
    assert Min(startLine, |lines|) == startLine && next == startLine + lineDiff;
    var context := TrimContextLine(lines[next], column);
    var post, end := TakeTrimmed(lines, next + 1, around, column);
    ContextIsMadeOf(lines, next, around, column, pre, context, post);
    return Some(Context(pre, context, post));
  }

  lemma WindowOfLine(lineno: nat, around: nat)
    ensures var at, startLine := SaturatingSub(lineno, 1), SaturatingSub(SaturatingSub(lineno, around), 1);
      startLine == SaturatingSub(at, around) && at == startLine + SaturatingSub(lineno - startLine, 1)
  {
  }

  /** `take(n)` on the line iterator: yields up to `n` trimmed lines and advances it. */
  method TakeTrimmed(lines: seq<Str>, from: nat, n: nat, column: nat)
    returns (taken: seq<seq<byte>>, next: nat)
    requires from <= |lines|
    ensures next == Min(from + n, |lines|)
    ensures taken == TrimAll(lines, from, next, column)
  {
    taken, next := [], from;
    while next < |lines| && next - from < n
      invariant from <= next <= |lines| && next - from <= n
      invariant taken == TrimAll(lines, from, next, column)
    {
      var line := TrimContextLine(lines[next], column);
      TrimAllSnoc(lines, from, next, column);
      taken := taken + [line];
      next := next + 1;
    }
  }
}
