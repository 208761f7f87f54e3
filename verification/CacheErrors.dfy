/**
Cache errors in files.  An error is written as a marker and its details, over whatever the file
held before; a file without contents says that there is nothing, and anything else is contents.
*/
module CacheErrors {
  import opened Common
  import Utf8

  type Duration(==,!new)

  datatype CacheError =
    | NotFound
    | PermissionDenied(details: Utf8.Str)
    | Timeout(duration: Duration)
    | DownloadError(details: Utf8.Str)
    | Malformed(details: Utf8.Str)
    | Unsupported(details: Utf8.Str)
    | InternalError

  /** Durations as text, and the decoding of bytes that replaces what is not well-formed. */
  datatype Codecs = Codecs(
    formatDuration: Duration -> Utf8.Str,
    parseDuration: Utf8.Str -> Option<Duration>,
    fromUtf8Lossy: seq<byte> -> Utf8.Str)

  /** A duration is read as it was formatted, and well-formed text is decoded as it is. */
  ghost predicate Faithful(c: Codecs) {
    && (forall d :: 0 !in c.formatDuration(d) && c.parseDuration(c.formatDuration(d)) == Some(d))
    && Utf8.KeepsWellFormed(c.fromUtf8Lossy)
  }

  function Ascii(s: string): (r: seq<byte>)
    requires forall i :: 0 <= i < |s| ==> s[i] < 128 as char
    ensures |r| == |s| && forall i :: 0 <= i < |s| ==> r[i] == s[i] as int
  {
    seq(|s|, i requires 0 <= i < |s| => s[i] as int)
  }

  const MALFORMED_MARKER: seq<byte> := Ascii("malformed")
  const PERMISSION_DENIED_MARKER: seq<byte> := Ascii("permissiondenied")
  const TIMEOUT_MARKER: seq<byte> := Ascii("timeout")
  const DOWNLOAD_ERROR_MARKER: seq<byte> := Ascii("downloaderror")
  const UNSUPPORTED_MARKER: seq<byte> := Ascii("unsupported")

  const MARKERS: seq<seq<byte>> :=
    [PERMISSION_DENIED_MARKER, TIMEOUT_MARKER, DOWNLOAD_ERROR_MARKER, MALFORMED_MARKER, UNSUPPORTED_MARKER]

  // ---------------------------------------------------------------------------------------------
  // Writing

  /** A file that is open for writing. */
  class File {
    var content: seq<byte>
    var position: nat

    constructor (content: seq<byte>, position: nat)
      ensures this.content == content && this.position == position
    {
      this.content, this.position := content, position;
    }

    method Rewind()
      modifies this`position
      ensures position == 0
    {
      position := 0;
    }

    /** Writes over what is there; a gap is filled with zeros. */
    method WriteAll(bytes: seq<byte>)
      modifies this
      ensures content == Overwritten(old(content), old(position), bytes) && position == old(position) + |bytes|
    {
      content := Overwritten(content, position, bytes);
      position := position + |bytes|;
    }

    method SetLen(n: nat)
      modifies this`content
      ensures content ==
        if n <= |old(content)| then old(content)[..n] else old(content) + seq(n - |old(content)|, _ => 0)
    {
      content := if n <= |content| then content[..n] else content + seq(n - |content|, _ => 0);
    }
  }

  function Overwritten(content: seq<byte>, position: nat, bytes: seq<byte>): seq<byte> {
    var before := if position <= |content| then content[..position] else content + seq(position - |content|, _ => 0);
    before + bytes + if position + |bytes| <= |content| then content[position + |bytes|..] else []
  }

  /** What a file holds after an error was written. */
  function Encoded(error: CacheError, c: Codecs): seq<byte>
    requires !error.InternalError?
  {
    match error
    case NotFound => []
    case Malformed(details) => MALFORMED_MARKER + details
    case PermissionDenied(details) => PERMISSION_DENIED_MARKER + details
    case Timeout(duration) => TIMEOUT_MARKER + c.formatDuration(duration)
    case DownloadError(details) => DOWNLOAD_ERROR_MARKER + details
    case Unsupported(details) => UNSUPPORTED_MARKER + details
  }

  /** Whatever the file held before and wherever its position was, it then holds just the error; an
      internal error changes nothing. */
  method Write(error: CacheError, file: File, c: Codecs)
    modifies file
    ensures error.InternalError? ==> file.content == old(file.content) && file.position == old(file.position)
    ensures !error.InternalError? ==> file.content == Encoded(error, c) && file.position == |file.content|
  {
    if error.InternalError? {
      return;
    }
    file.Rewind();
    match error {
      case NotFound =>
      case Malformed(details) =>
        WriteMarked(MALFORMED_MARKER, details, file);
      case PermissionDenied(details) =>
        WriteMarked(PERMISSION_DENIED_MARKER, details, file);
      case Timeout(duration) =>
        WriteMarked(TIMEOUT_MARKER, c.formatDuration(duration), file);
      case DownloadError(details) =>
        WriteMarked(DOWNLOAD_ERROR_MARKER, details, file);
      case Unsupported(details) =>
        WriteMarked(UNSUPPORTED_MARKER, details, file);
    }
    assert file.content[..file.position] == Encoded(error, c);
    file.SetLen(file.position);
  }

  /** Writes a marker and details at the start of a file. */
  method WriteMarked(marker: seq<byte>, details: seq<byte>, file: File)
    requires file.position == 0
    modifies file
    ensures file.position == |marker + details| <= |file.content|
    ensures file.content[..file.position] == marker + details
  {
    file.WriteAll(marker);
    assert file.content[..|marker|] == marker;
    file.WriteAll(details);
  }

  // ---------------------------------------------------------------------------------------------
  // Reading

  predicate HasMarker(bytes: seq<byte>, marker: seq<byte>) {
    |marker| <= |bytes| && bytes[..|marker|] == marker
  }

  function StripPrefix(bytes: seq<byte>, marker: seq<byte>): Option<seq<byte>> {
    if HasMarker(bytes, marker) then Some(bytes[|marker|..]) else None
  }

  /** The bytes before the first NUL. */
  function UpToNul(bytes: seq<byte>): (r: seq<byte>)
    ensures |r| <= |bytes| && bytes[..|r|] == r && 0 !in r
    ensures |r| < |bytes| ==> bytes[|r|] == 0
  {
    if bytes == [] || bytes[0] == 0 then [] else [bytes[0]] + UpToNul(bytes[1..])
  }

  function Utf8Message(raw: seq<byte>, c: Codecs): Utf8.Str {
    c.fromUtf8Lossy(UpToNul(raw))
  }

  function FromBytes(bytes: seq<byte>, c: Codecs): Option<CacheError> {
    match StripPrefix(bytes, PERMISSION_DENIED_MARKER)
    case Some(raw) => Some(PermissionDenied(Utf8Message(raw, c)))
    case None =>
      match StripPrefix(bytes, TIMEOUT_MARKER)
      case Some(raw) =>
        (match c.parseDuration(Utf8Message(raw, c))
         case Some(duration) => Some(Timeout(duration))
         case None => Some(InternalError))
      case None =>
        match StripPrefix(bytes, DOWNLOAD_ERROR_MARKER)
        case Some(raw) => Some(DownloadError(Utf8Message(raw, c)))
        case None =>
          match StripPrefix(bytes, MALFORMED_MARKER)
          case Some(raw) => Some(Malformed(Utf8Message(raw, c)))
          case None =>
            match StripPrefix(bytes, UNSUPPORTED_MARKER)
            case Some(raw) => Some(Unsupported(Utf8Message(raw, c)))
            case None => if bytes == [] then Some(NotFound) else None
  }

  function CacheContentsFromBytes(bytes: seq<byte>, c: Codecs): Result<seq<byte>, CacheError> {
    match FromBytes(bytes, c)
    case Some(error) => Err(error)
    case None => Ok(bytes)
  }

  // ---------------------------------------------------------------------------------------------
  // Round trip

  predicate HasDetails(error: CacheError) {
    error.PermissionDenied? || error.DownloadError? || error.Malformed? || error.Unsupported?
  }

  /** The error with its details cut at the first NUL. */
  function CutAtNul(error: CacheError): CacheError
    requires HasDetails(error) ==> Utf8.WellFormed(UpToNul(error.details))
  {
    if HasDetails(error) then error.(details := UpToNul(error.details)) else error
  }

  /** Cutting at a NUL leaves well-formed text. */
  lemma CutIsWellFormed(s: Utf8.Str)
    ensures Utf8.WellFormed(UpToNul(s))
  {
    var r := UpToNul(s);
    assert Utf8.IsCharBoundary(s, |r|);
    Utf8.BoundaryIffCut(s, |r|);
  }

  lemma {:induction false} UpToNulConcat(a: seq<byte>, b: seq<byte>)
    ensures UpToNul(a + b) == if 0 in a then UpToNul(a) else a + UpToNul(b)
  {
    if a == [] {
      assert a + b == b;
    } else {
      assert (a + b)[1..] == a[1..] + b;
      UpToNulConcat(a[1..], b);
    }
  }

  /** No bytes start with two markers, so the order in which they are tried does not matter. */
  lemma MarkersAreNeverConfused(bytes: seq<byte>, i: nat, j: nat)
    requires i < |MARKERS| && j < |MARKERS| && HasMarker(bytes, MARKERS[i]) && HasMarker(bytes, MARKERS[j])
    ensures i == j
  {
    assert bytes[..|MARKERS[i]|][0] == bytes[0] == bytes[..|MARKERS[j]|][0];
    assert MARKERS[i][0] == "ptdmu"[i] as int;
    assert MARKERS[j][0] == "ptdmu"[j] as int;
  }

  lemma MarkedIsMarked(marker: seq<byte>, rest: seq<byte>)
    ensures StripPrefix(marker + rest, marker) == Some(rest)
  {
  }

  /** Bytes with a marker are read by that marker. */
  lemma ReadsMarked(i: nat, rest: seq<byte>, c: Codecs)
    requires i < |MARKERS|
    ensures FromBytes(MARKERS[i] + rest, c) == ErrorFor(i, Utf8Message(rest, c), c)
  {
    var bytes := MARKERS[i] + rest;
    MarkedIsMarked(MARKERS[i], rest);
    forall j | 0 <= j < |MARKERS| && j != i ensures !HasMarker(bytes, MARKERS[j]) {
      if HasMarker(bytes, MARKERS[j]) {
        MarkersAreNeverConfused(bytes, i, j);
      }
    }
    assert MARKERS[0] == PERMISSION_DENIED_MARKER && MARKERS[1] == TIMEOUT_MARKER;
    assert MARKERS[2] == DOWNLOAD_ERROR_MARKER && MARKERS[3] == MALFORMED_MARKER && MARKERS[4] == UNSUPPORTED_MARKER;
  }

  function ErrorFor(i: nat, message: Utf8.Str, c: Codecs): Option<CacheError>
    requires i < |MARKERS|
  {
    match i
    case 0 => Some(PermissionDenied(message))
    case 1 =>
      (match c.parseDuration(message)
       case Some(duration) => Some(Timeout(duration))
       case None => Some(InternalError))
    case 2 => Some(DownloadError(message))
    case 3 => Some(Malformed(message))
    case _ => Some(Unsupported(message))
  }

  /** The number of the error's marker, and the text after it. */
  function Parts(error: CacheError, c: Codecs): (nat, Utf8.Str)
    requires !error.InternalError? && !error.NotFound?
  {
    match error
    case PermissionDenied(details) => (0, details)
    case Timeout(duration) => (1, c.formatDuration(duration))
    case DownloadError(details) => (2, details)
    case Malformed(details) => (3, details)
    case Unsupported(details) => (4, details)
  }

  /** A file that was not truncated holds an error, then NULs and anything else.  It is read as the
      error, with its details cut at the first NUL, as if there was nothing after it. */
  lemma JunkAfterNulIsIgnored(error: CacheError, junk: seq<byte>, c: Codecs)
    requires Faithful(c) && !error.InternalError? && !error.NotFound?
    requires junk == [] || junk[0] == 0
    ensures HasDetails(error) ==> Utf8.WellFormed(UpToNul(error.details))
    ensures FromBytes(Encoded(error, c) + junk, c) == Some(CutAtNul(error))
  {
    var (i, text) := Parts(error, c);
    CutIsWellFormed(text);
    UpToNulConcat(text, junk);
    CutOfDuration(error, c);
    EncodedParts(error, junk, c);
    ReadsMarked(i, text + junk, c);
    assert UpToNul(text + junk) == UpToNul(text) by {
      UpToNulConcat(text, []);
      assert text + [] == text;
    }
  }

  lemma EncodedParts(error: CacheError, junk: seq<byte>, c: Codecs)
    requires !error.InternalError? && !error.NotFound?
    ensures Encoded(error, c) + junk == MARKERS[Parts(error, c).0] + (Parts(error, c).1 + junk)
  {
  }

  lemma CutOfDuration(error: CacheError, c: Codecs)
    requires Faithful(c) && !error.InternalError? && !error.NotFound?
    requires Utf8.WellFormed(UpToNul(Parts(error, c).1))
    ensures HasDetails(error) ==> error.details == Parts(error, c).1
    ensures ErrorFor(Parts(error, c).0, UpToNul(Parts(error, c).1), c) == Some(CutAtNul(error))
  {
    if error.Timeout? {
      UpToNulConcat(c.formatDuration(error.duration), []);
      assert c.formatDuration(error.duration) + [] == c.formatDuration(error.duration);
    }
  }

  /** What is read back is the error that was written, but for a NUL in its details: it is the very
      error if and only if its details have no NUL. */
  lemma ErrorRoundTrip(error: CacheError, c: Codecs)
    requires Faithful(c) && !error.InternalError?
    ensures HasDetails(error) ==> Utf8.WellFormed(UpToNul(error.details))
    ensures FromBytes(Encoded(error, c), c) == Some(CutAtNul(error))
    ensures FromBytes(Encoded(error, c), c) == Some(error) <==> (HasDetails(error) ==> 0 !in error.details)
  {
    if error.NotFound? {
      assert FromBytes([], c) == Some(NotFound);
    } else {
      JunkAfterNulIsIgnored(error, [], c);
      assert Encoded(error, c) + [] == Encoded(error, c);
      if HasDetails(error) {
        UpToNulConcat(error.details, []);
        assert error.details + [] == error.details;
      }
    }
  }

  /** Bytes are read as contents exactly if there are any and they start with no marker. */
  lemma ContentsIff(bytes: seq<byte>, c: Codecs)
    ensures CacheContentsFromBytes(bytes, c) == Ok(bytes) <==>
      bytes != [] && forall i :: 0 <= i < |MARKERS| ==> !HasMarker(bytes, MARKERS[i])
    ensures CacheContentsFromBytes(bytes, c).Err? || CacheContentsFromBytes(bytes, c) == Ok(bytes)
  {
    if i :| 0 <= i < |MARKERS| && HasMarker(bytes, MARKERS[i]) {
      assert bytes == MARKERS[i] + bytes[|MARKERS[i]|..];
      ReadsMarked(i, bytes[|MARKERS[i]|..], c);
    } else if bytes != [] {
      assert MARKERS[0] == PERMISSION_DENIED_MARKER && MARKERS[1] == TIMEOUT_MARKER;
      assert MARKERS[2] == DOWNLOAD_ERROR_MARKER && MARKERS[3] == MALFORMED_MARKER && MARKERS[4] == UNSUPPORTED_MARKER;
      assert !HasMarker(bytes, MARKERS[0]) && !HasMarker(bytes, MARKERS[1]) && !HasMarker(bytes, MARKERS[2]);
      assert !HasMarker(bytes, MARKERS[3]) && !HasMarker(bytes, MARKERS[4]);
    }
  }

  /** An error without NULs survives in a file, whatever the file held before. */
  method WriteAndRead(error: CacheError, file: File, c: Codecs) returns (r: Result<seq<byte>, CacheError>)
    requires Faithful(c) && !error.InternalError? && (HasDetails(error) ==> 0 !in error.details)
    modifies file
    ensures r == Err(error)
  {
    Write(error, file, c);
    ErrorRoundTrip(error, c);
    r := CacheContentsFromBytes(file.content, c);
  }
}
