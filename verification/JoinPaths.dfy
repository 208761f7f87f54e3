/**
Joining a path to the base it is relative to, with a stack of segments.  Unlike the algorithm of
section 5.2.4 of RFC 3986, empty segments are dropped when the path is written out.
*/
module JoinPaths {
  import opened Common
  import opened Strings

  /** The first place where `needle` occurs. */
  function Find(s: string, needle: string, from: nat): (r: Option<nat>)
    requires from <= |s|
    ensures r.Some? ==> from <= r.value && OccursAt(s, needle, r.value)
    ensures forall i :: from <= i < (if r.Some? then r.value else |s| + 1) ==> !OccursAt(s, needle, i)
    decreases |s| - from
  {
    if OccursAt(s, needle, from) then Some(from)
    else if from == |s| then None
    else Find(s, needle, from + 1)
  }

  /** The scheme and the rest of a base; a base without a scheme is a file. */
  function SplitScheme(base: string): (string, string) {
    match Find(base, "://", 0)
    case Some(i) => (base[..i], base[i + 3..])
    case None => ("file", base)
  }

  function Hostname(rest: string): string {
    Split(rest, '/')[0]
  }

  predicate HasOwnScheme(right: string) {
    Contains(right, "://") || StartsWith(right, "webpack:") || StartsWith(right, "turbopack:")
  }

  function StripTilde(right: string): string {
    if StartsWith(right, "~") then right[1..] else right
  }

  /** The directory segments of the base: without host, leading slash and base name. */
  function Directory(scheme: string, rest: string): seq<string> {
    var parts := Split(rest, '/');
    var left := if scheme != "file" || parts[0] == [] then parts[1..] else parts;
    if left == [] then [] else left[..|left| - 1]
  }

  /** One segment of the right side: the stack after it, and whether a leading `.` may still come. */
  function Step(stack: seq<string>, first: bool, segment: string, isHttp: bool): (seq<string>, bool) {
    if segment == ".." && (stack != [] || isHttp) then
      (if stack == [] then [] else stack[..|stack| - 1], first)
    else if segment == "." && (isHttp || first) then (stack, first)
    else (stack + [segment], false)
  }

  function Walk(stack: seq<string>, first: bool, segments: seq<string>, isHttp: bool): (seq<string>, bool) {
    if segments == [] then (stack, first)
    else
      var n := |segments| - 1;
      var (s, f) := Walk(stack, first, segments[..n], isHttp);
      Step(s, f, segments[n], isHttp)
  }

  /** Every non-empty segment after a slash. */
  function Slashed(segments: seq<string>): string {
    if segments == [] then []
    else
      var n := |segments| - 1;
      Slashed(segments[..n]) + if segments[n] == [] then [] else "/" + segments[n]
  }

  predicate IsHttp(scheme: string) {
    scheme == "http" || scheme == "https"
  }

  function Joined(base: string, right: string): string {
    if HasOwnScheme(right) then right
    else
      var (scheme, rest) := SplitScheme(base);
      var relative := StripTilde(right);
      if StartsWith(relative, "/") then
        if scheme == "file" then relative
        else if StartsWith(relative, "//") then scheme + "://" + relative[2..]
        else scheme + "://" + Hostname(rest) + relative
      else
        JoinedRelative(scheme, rest, relative)
  }

  function JoinedRelative(scheme: string, rest: string, relative: string): string {
    (if scheme != "file" then scheme + "://" + Hostname(rest) else [])
    + Slashed(Walk(Directory(scheme, rest), true, Split(relative, '/'), IsHttp(scheme)).0)
  }

  method JoinPaths(base: string, right: string) returns (path: string)
    ensures path == Joined(base, right)
  {
    if HasOwnScheme(right) {
      return right;
    }
    var (scheme, rest) := SplitScheme(base);
    var relative := StripTilde(right);
    if StartsWith(relative, "/") {
      if scheme == "file" {
        return relative;
      }
      if StartsWith(relative, "//") {
        return scheme + "://" + relative[2..];
      }
      return scheme + "://" + Hostname(rest) + relative;
    }

    path := JoinRelative(scheme, rest, relative);
  }

  method JoinRelative(scheme: string, rest: string, relative: string) returns (path: string)
    ensures path == JoinedRelative(scheme, rest, relative)
  {
    var left := Split(rest, '/');
    if scheme == "file" {
      path := [];
      if left[0] == [] {
        left := left[1..];
      }
    } else {
      path := scheme + "://" + left[0];
      left := left[1..];
    }
    if left != [] {
      left := left[..|left| - 1];
    }
    assert left == Directory(scheme, rest);

    var segments := WalkSegments(left, Split(relative, '/'), IsHttp(scheme));
    path := WriteSegments(path, segments);
  }

  /** The loop over the segments of the right side. */
  method WalkSegments(left: seq<string>, rights: seq<string>, isHttp: bool) returns (segments: seq<string>)
    ensures segments == Walk(left, true, rights, isHttp).0
  {
    segments := left;
    var isFirst := true;
    for i := 0 to |rights|
      invariant (segments, isFirst) == Walk(left, true, rights[..i], isHttp)
    {
      assert rights[..i + 1][..i] == rights[..i];
      if rights[i] == ".." {
        var popped := segments != [];
        if popped {
          segments := segments[..|segments| - 1];
        }
        if popped || isHttp {
          continue;
        }
      }
      if rights[i] == "." && (isHttp || isFirst) {
        continue;
      }
      isFirst := false;
      segments := segments + [rights[i]];
    }
    assert rights[..|rights|] == rights;
  }

  method WriteSegments(prefix: string, segments: seq<string>) returns (path: string)
    ensures path == prefix + Slashed(segments)
  {
    path := prefix;
    for i := 0 to |segments|
      invariant path == prefix + Slashed(segments[..i])
    {
      assert segments[..i + 1][..i] == segments[..i];
      if segments[i] != [] {
        path := path + "/" + segments[i];
      }
    }
    assert segments[..|segments|] == segments;
  }

  // ---------------------------------------------------------------------------------------------
  // The shape of a joined path

  predicate IsSegment(s: string) {
    s != [] && '/' !in s
  }

  predicate AllSegments(segments: seq<string>) {
    forall i :: 0 <= i < |segments| ==> IsSegment(segments[i])
  }

  predicate IsRelative(right: string) {
    !HasOwnScheme(right) && !StartsWith(StripTilde(right), "/")
  }

  function NonEmpty(segments: seq<string>): seq<string> {
    if segments == [] then []
    else
      var n := |segments| - 1;
      NonEmpty(segments[..n]) + if segments[n] == [] then [] else [segments[n]]
  }

  lemma {:induction false} SlashedOfNonEmpty(segments: seq<string>)
    requires NoneContains(segments, '/')
    ensures AllSegments(NonEmpty(segments)) && Slashed(NonEmpty(segments)) == Slashed(segments)
  {
    if segments != [] {
      var n := |segments| - 1;
      SlashedOfNonEmpty(segments[..n]);
      var before := NonEmpty(segments[..n]);
      if segments[n] == [] {
        assert NonEmpty(segments) == before;
      } else {
        assert (before + [segments[n]])[..|before|] == before;
      }
    }
  }

  lemma {:induction false} WalkLacksSlash(stack: seq<string>, first: bool, segments: seq<string>, isHttp: bool)
    requires NoneContains(stack, '/') && NoneContains(segments, '/')
    ensures NoneContains(Walk(stack, first, segments, isHttp).0, '/')
  {
    if segments != [] {
      WalkLacksSlash(stack, first, segments[..|segments| - 1], isHttp);
    }
  }

  /** Splitting a written-out path gives the host and the segments back. */
  lemma {:induction false} SplitOfSlashed(host: string, segments: seq<string>)
    requires '/' !in host && AllSegments(segments)
    ensures Split(host + Slashed(segments), '/') == [host] + segments
  {
    if segments == [] {
      assert host + Slashed(segments) == host;
      SplitOfPart(host, '/');
    } else {
      var n := |segments| - 1;
      SplitOfSlashed(host, segments[..n]);
      assert IsSegment(segments[n]);
      SlashedSnoc(host, segments);
      SplitSnoc(host + Slashed(segments[..n]), '/', segments[n]);
      assert [host] + segments[..n] + [segments[n]] == [host] + segments;
    }
  }

  lemma SlashedSnoc(host: string, segments: seq<string>)
    requires segments != [] && segments[|segments| - 1] != []
    ensures var n := |segments| - 1;
      host + Slashed(segments) == host + Slashed(segments[..n]) + ['/'] + segments[n]
  {
    var n := |segments| - 1;
    AssociateSlash(host, Slashed(segments[..n]), segments[n]);
  }

  lemma AssociateSlash(a: string, b: string, c: string)
    ensures a + (b + ("/" + c)) == a + b + ['/'] + c
  {
  }

  lemma HttpHasNoColon(scheme: string)
    requires IsHttp(scheme)
    ensures ':' !in scheme
  {
  }

  /** A base with a scheme in its parts. */
  lemma SplitSchemeAt(scheme: string, rest: string)
    requires ':' !in scheme
    ensures SplitScheme(scheme + "://" + rest) == (scheme, rest)
  {
    var base := scheme + "://" + rest;
    forall i | 0 <= i < |scheme| ensures !OccursAt(base, "://", i) {
      assert base[i] == scheme[i] != ':';
      assert base[i..i + 3][0] == base[i];
    }
    assert OccursAt(base, "://", |scheme|) by {
      assert base[|scheme|..|scheme| + 3] == "://";
    }
    assert base[..|scheme|] == scheme && base[|scheme| + 3..] == rest;
  }

  /** The path part of a relative join to an http base. */
  function PathSegments(base: string, right: string): seq<string> {
    var (scheme, rest) := SplitScheme(base);
    NonEmpty(Walk(Directory(scheme, rest), true, Split(StripTilde(right), '/'), true).0)
  }

  /** Joining a relative path to an http base never changes the scheme or the host, however many
      `..` there are, and the path part has no empty segment. */
  lemma SchemeAndHostKept(base: string, right: string)
    requires IsHttp(SplitScheme(base).0) && IsRelative(right)
    ensures var (scheme, rest) := SplitScheme(base);
      var (scheme', rest') := SplitScheme(Joined(base, right));
      && scheme' == scheme && Hostname(rest') == Hostname(rest)
      && AllSegments(PathSegments(base, right))
      && Split(rest', '/') == [Hostname(rest)] + PathSegments(base, right)
  {
    var (scheme, rest) := SplitScheme(base);
    var host, path := Hostname(rest), PathSegments(base, right);
    JoinedInParts(base, right);
    HttpHasNoColon(scheme);
    SplitSchemeAt(scheme, host + Slashed(path));
    SplitOfSlashed(host, path);
  }

  lemma JoinedInParts(base: string, right: string)
    requires IsHttp(SplitScheme(base).0) && IsRelative(right)
    ensures var (scheme, rest) := SplitScheme(base); var path := PathSegments(base, right);
      && Joined(base, right) == scheme + "://" + (Hostname(rest) + Slashed(path))
      && AllSegments(path) && '/' !in Hostname(rest)
  {
    var (scheme, rest) := SplitScheme(base);
    var relative := StripTilde(right);
    JoinOfSplit(rest, '/');
    JoinOfSplit(relative, '/');
    var dir := Directory(scheme, rest);
    assert NoneContains(dir, '/');
    WalkLacksSlash(dir, true, Split(relative, '/'), true);
    SlashedOfNonEmpty(Walk(dir, true, Split(relative, '/'), true).0);
    JoinedRelativeInParts(scheme, rest, relative);
  }

  lemma JoinedRelativeInParts(scheme: string, rest: string, relative: string)
    requires IsHttp(scheme)
    ensures var stack := Walk(Directory(scheme, rest), true, Split(relative, '/'), true).0;
      JoinedRelative(scheme, rest, relative) == scheme + "://" + (Hostname(rest) + Slashed(stack))
  {
    var stack := Walk(Directory(scheme, rest), true, Split(relative, '/'), true).0;
    assert scheme + "://" + Hostname(rest) + Slashed(stack) == scheme + "://" + (Hostname(rest) + Slashed(stack));
  }

  // ---------------------------------------------------------------------------------------------
  // Composition

  /** A right side without scheme, leading `/` or `~`, and without empty segments. */
  predicate IsPlain(right: string) {
    && AllSegments(Split(right, '/'))
    && !StartsWith(right, "~") && !StartsWith(right, "webpack:") && !StartsWith(right, "turbopack:")
  }

  lemma {:induction false} DoubleSlashSplits(s: string, i: nat)
    requires i + 1 < |s| && s[i] == '/' && s[i + 1] == '/'
    ensures [] in Split(s, '/')[1..]
  {
    if i == 0 {
      assert Split(s, '/') == [[]] + Split(s[1..], '/');
      assert Split(s[1..], '/')[0] == [];
    } else {
      DoubleSlashSplits(s[1..], i - 1);
      var rest := Split(s[1..], '/');
      var k :| 0 <= k < |rest[1..]| && rest[1..][k] == [];
      if s[0] == '/' {
        assert Split(s, '/')[1..][k + 1] == [];
      } else {
        assert Split(s, '/')[1..][k] == [];
      }
    }
  }

  lemma LeadingSlashSplits(s: string)
    ensures StartsWith(s, "/") ==> Split(s, '/')[0] == []
  {
  }

  lemma PlainIsRelative(right: string)
    requires IsPlain(right)
    ensures IsRelative(right) && StripTilde(right) == right
  {
    if Contains(right, "://") {
      var i :| 0 <= i <= |right| && OccursAt(right, "://", i);
      SchemeHasSlashes(right, i);
    }
    LeadingSlashSplits(right);
  }

  lemma {:induction false} WalkConcat(stack: seq<string>, a: seq<string>, b: seq<string>)
    ensures Walk(stack, true, a + b, true).0 == Walk(Walk(stack, true, a, true).0, true, b, true).0
  {
    if b == [] {
      assert a + b == a;
    } else {
      var n := |b| - 1;
      assert (a + b)[..|a + b| - 1] == a + b[..n];
      WalkConcat(stack, a, b[..n]);
    }
  }

  lemma {:induction false} WalkKeepsSegments(stack: seq<string>, segments: seq<string>)
    requires AllSegments(stack) && AllSegments(segments)
    ensures AllSegments(Walk(stack, true, segments, true).0)
  {
    if segments != [] {
      WalkKeepsSegments(stack, segments[..|segments| - 1]);
    }
  }

  lemma StartOfConcat(a: string, b: string, prefix: string)
    requires '/' !in prefix && !StartsWith(a, prefix)
    ensures !StartsWith(a + "/" + b, prefix)
  {
    var s := a + "/" + b;
    if |prefix| <= |a| {
      assert s[..|prefix|] == a[..|prefix|];
    } else if |prefix| <= |s| {
      assert s[..|prefix|][|a|] == s[|a|] == '/';
    }
  }

  lemma PlainConcat(a: string, b: string)
    requires IsPlain(a) && AllSegments(Split(b, '/'))
    ensures IsPlain(a + "/" + b) && Split(a + "/" + b, '/') == Split(a, '/') + Split(b, '/')
  {
    SplitOfConcat(a, '/', b);
    StartOfConcat(a, b, "~");
    StartOfConcat(a, b, "webpack:");
    StartOfConcat(a, b, "turbopack:");
  }

  /** The directory a plain right side leads to. */
  function Reached(base: string, right: string): seq<string> {
    var (scheme, rest) := SplitScheme(base);
    Walk(Directory(scheme, rest), true, Split(right, '/'), true).0
  }

  lemma JoinedPlain(base: string, right: string)
    requires IsHttp(SplitScheme(base).0) && IsPlain(right)
    ensures var (scheme, rest) := SplitScheme(base);
      Joined(base, right) == scheme + "://" + Hostname(rest) + Slashed(Reached(base, right))
  {
    PlainIsRelative(right);
  }

  /** For an http base, relative joining composes: joining `r1/x` and then `r2` is joining `r1/r2`,
      with no empty segments in the directory of the base or in the right sides. */
  lemma JoiningComposes(base: string, r1: string, x: string, r2: string)
    requires IsHttp(SplitScheme(base).0)
    requires AllSegments(Directory(SplitScheme(base).0, SplitScheme(base).1))
    requires IsPlain(r1) && IsPlain(r2)
    requires IsSegment(x) && x != "." && x != ".."
    ensures Joined(Joined(base, r1 + "/" + x), r2) == Joined(base, r1 + "/" + r2)
  {
    var (scheme, rest) := SplitScheme(base);
    PlainConcat(r1, r2);
    InnerJoin(base, r1, x);

    // the second join walks r2 from the directory of r1, as the direct join does
    JoinedPlain(Joined(base, r1 + "/" + x), r2);
    JoinedPlain(base, r1 + "/" + r2);
    WalkConcat(Directory(scheme, rest), Split(r1, '/'), Split(r2, '/'));
  }

  /** A name after `r1` is the base name in the directory of `r1`. */
  lemma ReachedName(base: string, r1: string, x: string)
    requires IsHttp(SplitScheme(base).0)
    requires AllSegments(Directory(SplitScheme(base).0, SplitScheme(base).1))
    requires IsPlain(r1) && IsSegment(x) && x != "." && x != ".."
    ensures AllSegments(Reached(base, r1)) && Reached(base, r1 + "/" + x) == Reached(base, r1) + [x]
  {
    var dir := Directory(SplitScheme(base).0, SplitScheme(base).1);
    WalkKeepsSegments(dir, Split(r1, '/'));
    SplitOfPart(x, '/');
    PlainConcat(r1, x);
    WalkConcat(dir, Split(r1, '/'), [x]);
    assert [x][..0] == [];
  }

  /** The result of joining `r1/x`, as the base of another join. */
  lemma InnerJoin(base: string, r1: string, x: string)
    requires IsHttp(SplitScheme(base).0)
    requires AllSegments(Directory(SplitScheme(base).0, SplitScheme(base).1))
    requires IsPlain(r1) && IsSegment(x) && x != "." && x != ".."
    ensures var (scheme, rest) := SplitScheme(base); var inner := SplitScheme(Joined(base, r1 + "/" + x));
      inner.0 == scheme && Hostname(inner.1) == Hostname(rest) && Directory(scheme, inner.1) == Reached(base, r1)
  {
    var (scheme, rest) := SplitScheme(base);
    var host, stack := Hostname(rest), Reached(base, r1);
    ReachedName(base, r1, x);
    SplitOfPart(x, '/');
    PlainConcat(r1, x);
    JoinedPlain(base, r1 + "/" + x);
    JoinOfSplit(rest, '/');
    HttpHasNoColon(scheme);
    assert Joined(base, r1 + "/" + x) == scheme + "://" + (host + Slashed(stack + [x]));
    BaseParts(scheme, host, stack, x);
    DirectoryAt(scheme, host, stack, x);
  }

  // ---------------------------------------------------------------------------------------------
  // Segment by segment

  /** A base with a path of some segments, the last one its base name; a file has no scheme and no
      host. */
  function At(scheme: string, host: string, segments: seq<string>): string {
    if scheme == "file" then Slashed(segments) else scheme + "://" + (host + Slashed(segments))
  }

  predicate IsBase(scheme: string, host: string, dir: seq<string>, x: string) {
    ':' !in scheme && '/' !in host && (scheme == "file" ==> host == []) && AllSegments(dir) && IsSegment(x)
  }

  lemma DirectoryAt(scheme: string, host: string, dir: seq<string>, x: string)
    requires IsBase(scheme, host, dir, x)
    ensures Hostname(host + Slashed(dir + [x])) == host && Directory(scheme, host + Slashed(dir + [x])) == dir
  {
    SplitOfSlashed(host, dir + [x]);
    assert ([host] + (dir + [x]))[1..] == dir + [x] && (dir + [x])[..|dir|] == dir;
  }

  lemma PathHasNoScheme(segments: seq<string>)
    requires AllSegments(segments)
    ensures SplitScheme(Slashed(segments)) == ("file", Slashed(segments))
  {
    var rest := Slashed(segments);
    SplitOfSlashed([], segments);
    assert [] + rest == rest;
    forall i | 0 <= i <= |rest| ensures !OccursAt(rest, "://", i) {
      if OccursAt(rest, "://", i) {
        SchemeHasSlashes(rest, i);
        assert false;
      }
    }
  }

  lemma SchemeHasSlashes(s: string, i: nat)
    requires OccursAt(s, "://", i)
    ensures [] in Split(s, '/')[1..]
  {
    assert s[i..i + 3][1] == s[i + 1] && s[i..i + 3][2] == s[i + 2];
    DoubleSlashSplits(s, i + 1);
  }

  lemma BaseParts(scheme: string, host: string, dir: seq<string>, x: string)
    requires IsBase(scheme, host, dir, x)
    ensures SplitScheme(At(scheme, host, dir + [x])) == (scheme, host + Slashed(dir + [x]))
    ensures Hostname(host + Slashed(dir + [x])) == host
    ensures Directory(scheme, host + Slashed(dir + [x])) == dir
  {
    DirectoryAt(scheme, host, dir, x);
    if scheme == "file" {
      PathHasNoScheme(dir + [x]);
      assert [] + Slashed(dir + [x]) == Slashed(dir + [x]);
    } else {
      SplitSchemeAt(scheme, host + Slashed(dir + [x]));
    }
  }

  lemma RelativeAt(scheme: string, rest: string, right: string)
    ensures JoinedRelative(scheme, rest, right)
         == At(scheme, Hostname(rest), Walk(Directory(scheme, rest), true, Split(right, '/'), IsHttp(scheme)).0)
  {
    var stack := Walk(Directory(scheme, rest), true, Split(right, '/'), IsHttp(scheme)).0;
    var host := Hostname(rest);
    assert scheme + "://" + host + Slashed(stack) == scheme + "://" + (host + Slashed(stack));
  }

  lemma PlainJoin(base: string, right: string)
    requires IsPlain(right)
    ensures Joined(base, right) == JoinedRelative(SplitScheme(base).0, SplitScheme(base).1, right)
  {
    PlainIsRelative(right);
  }

  /** Joining a plain right side walks its segments from the directory of the base. */
  lemma JoinedAt(scheme: string, host: string, dir: seq<string>, x: string, right: string)
    requires IsBase(scheme, host, dir, x) && IsPlain(right)
    ensures Joined(At(scheme, host, dir + [x]), right)
         == At(scheme, host, Walk(dir, true, Split(right, '/'), IsHttp(scheme)).0)
  {
    BaseParts(scheme, host, dir, x);
    PlainJoin(At(scheme, host, dir + [x]), right);
    RelativeAt(scheme, host + Slashed(dir + [x]), right);
  }

  lemma {:induction false} WalkHead(stack: seq<string>, first: bool, head: string, rest: seq<string>, isHttp: bool)
    ensures Walk(stack, first, [head] + rest, isHttp)
         == Walk(Step(stack, first, head, isHttp).0, Step(stack, first, head, isHttp).1, rest, isHttp)
  {
    if rest == [] {
      assert [head] + rest == [head] && [head][..0] == [];
    } else {
      var n := |rest| - 1;
      assert ([head] + rest)[..|rest|] == [head] + rest[..n];
      WalkHead(stack, first, head, rest[..n], isHttp);
    }
  }

  lemma {:induction false} HttpForgetsFirst(stack: seq<string>, segments: seq<string>)
    ensures Walk(stack, false, segments, true).0 == Walk(stack, true, segments, true).0
  {
    if segments != [] {
      HttpForgetsFirst(stack, segments[..|segments| - 1]);
    }
  }

  function Parent(dir: seq<string>): seq<string> {
    if dir == [] then [] else dir[..|dir| - 1]
  }

  predicate IsName(name: string) {
    IsSegment(name) && IsPlain(name) && name != "." && name != ".."
  }

  /** Joining a name replaces the base name. */
  lemma NameReplacesBaseName(scheme: string, host: string, dir: seq<string>, x: string, name: string)
    requires IsBase(scheme, host, dir, x) && IsName(name)
    ensures Joined(At(scheme, host, dir + [x]), name) == At(scheme, host, dir + [name])
  {
    JoinedAt(scheme, host, dir, x, name);
    SplitOfPart(name, '/');
    assert [name][..0] == [];
  }

  lemma JoinedHead(scheme: string, host: string, dir: seq<string>, x: string, head: string, right: string)
    requires IsBase(scheme, host, dir, x) && IsPlain(right) && IsSegment(head) && IsPlain(head)
    ensures var (stack, first) := Step(dir, true, head, IsHttp(scheme));
      Joined(At(scheme, host, dir + [x]), head + "/" + right)
        == At(scheme, host, Walk(stack, first, Split(right, '/'), IsHttp(scheme)).0)
  {
    SplitOfPart(head, '/');
    PlainConcat(head, right);
    JoinedAt(scheme, host, dir, x, head + "/" + right);
    WalkHead(dir, true, head, Split(right, '/'), IsHttp(scheme));
  }

  lemma DotsArePlain()
    ensures IsSegment("..") && IsPlain("..") && IsSegment(".") && IsPlain(".")
  {
    SplitOfPart("..", '/');
    SplitOfPart(".", '/');
  }

  /** A leading `..` leaves a directory; above the last one, an http path stays where it is. */
  lemma DotDotLeavesDirectory(scheme: string, host: string, dir: seq<string>, x: string, right: string)
    requires IsBase(scheme, host, dir, x) && IsPlain(right) && (dir != [] || IsHttp(scheme))
    ensures Joined(At(scheme, host, dir + [x]), ".." + "/" + right)
         == Joined(At(scheme, host, Parent(dir) + [x]), right)
  {
    DotsArePlain();
    JoinedHead(scheme, host, dir, x, "..", right);
    JoinedAt(scheme, host, Parent(dir), x, right);
  }

  /** Above the last directory, any other path keeps the `..`. */
  lemma DotDotIsKept(scheme: string, host: string, x: string, name: string)
    requires IsBase(scheme, host, [], x) && !IsHttp(scheme) && IsName(name)
    ensures Joined(At(scheme, host, [x]), ".." + "/" + name) == At(scheme, host, ["..", name])
  {
    DotsArePlain();
    assert [] + [x] == [x];
    JoinedHead(scheme, host, [], x, "..", name);
    SplitOfPart(name, '/');
    assert [name][..0] == [] && [] + [".."] == [".."] && [".."] + [name] == ["..", name];
  }

  /** A leading `.` is skipped. */
  lemma DotIsSkipped(scheme: string, host: string, dir: seq<string>, x: string, right: string)
    requires IsBase(scheme, host, dir, x) && IsPlain(right)
    ensures Joined(At(scheme, host, dir + [x]), "." + "/" + right) == Joined(At(scheme, host, dir + [x]), right)
  {
    DotsArePlain();
    JoinedHead(scheme, host, dir, x, ".", right);
    JoinedAt(scheme, host, dir, x, right);
  }

  /** For http, a leading name enters a directory. */
  lemma NameEntersDirectory(scheme: string, host: string, dir: seq<string>, x: string, name: string, right: string)
    requires IsBase(scheme, host, dir, x) && IsHttp(scheme) && IsPlain(right) && IsName(name)
    ensures Joined(At(scheme, host, dir + [x]), name + "/" + right)
         == Joined(At(scheme, host, dir + [name] + [x]), right)
  {
    JoinedHead(scheme, host, dir, x, name, right);
    JoinedAt(scheme, host, dir + [name], x, right);
    HttpForgetsFirst(dir + [name], Split(right, '/'));
  }

  lemma JoinedLast(scheme: string, host: string, dir: seq<string>, x: string, last: string)
    requires IsBase(scheme, host, dir, x) && IsPlain(last) && '/' !in last
    ensures Joined(At(scheme, host, dir + [x]), last) == At(scheme, host, Step(dir, true, last, IsHttp(scheme)).0)
  {
    SplitOfPart(last, '/');
    JoinedAt(scheme, host, dir, x, last);
    assert [last][..0] == [];
  }

  /** At the end, `..` gives the parent of the base's directory, and `.` the directory. */
  lemma DotsAtEnd(scheme: string, host: string, dir: seq<string>, x: string)
    requires IsBase(scheme, host, dir, x)
    ensures dir != [] || IsHttp(scheme) ==> Joined(At(scheme, host, dir + [x]), "..") == At(scheme, host, Parent(dir))
    ensures Joined(At(scheme, host, dir + [x]), ".") == At(scheme, host, dir)
  {
    DotsArePlain();
    JoinedLast(scheme, host, dir, x, "..");
    JoinedLast(scheme, host, dir, x, ".");
  }

  lemma SlashIsNoTilde(right: string)
    requires StartsWith(right, "/")
    ensures StripTilde(right) == right && StripTilde("~" + right) == right
  {
    assert right[..1][0] == right[0];
    assert ("~" + right)[..1] == "~" && ("~" + right)[1..] == right;
  }

  /** A right side with a scheme of its own stands alone.  One with a leading slash is a path on the
      same host, and with two slashes on another host; a file has no host. */
  lemma AbsoluteJoin(scheme: string, host: string, dir: seq<string>, x: string, right: string)
    requires IsBase(scheme, host, dir, x)
    ensures HasOwnScheme(right) ==> Joined(At(scheme, host, dir + [x]), right) == right
    ensures !HasOwnScheme(right) && StartsWith(right, "/") ==>
      Joined(At(scheme, host, dir + [x]), right) == OnHost(scheme, host, right)
  {
    BaseParts(scheme, host, dir, x);
    if StartsWith(right, "/") {
      SlashIsNoTilde(right);
      OnHostIs(scheme, host, right);
    }
  }

  /** An absolute path of a base's host. */
  function OnHost(scheme: string, host: string, path: string): string {
    if scheme == "file" then path
    else if StartsWith(path, "//") then scheme + ":" + path
    else scheme + "://" + host + path
  }

  lemma OnHostIs(scheme: string, host: string, path: string)
    ensures StartsWith(path, "//") ==> scheme + ":" + path == scheme + "://" + path[2..]
  {
    if StartsWith(path, "//") {
      assert path == "//" + path[2..];
    }
  }

  /** A tilde before a leading slash makes no difference. */
  lemma TildeIsHost(base: string, right: string)
    requires StartsWith(right, "/") && !HasOwnScheme(right) && !HasOwnScheme("~" + right)
    ensures Joined(base, "~" + right) == Joined(base, right)
  {
    SlashIsNoTilde(right);
  }
}
