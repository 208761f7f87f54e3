/** Trimming file suffixes to a fixpoint, and the file stems and URLs that artifacts are looked up by. */
module FileStems {
  import opened Common
  import opened Strings

  const FILE_SUFFIX_PATTERNS: seq<string> :=
    [".min", ".js", ".map", ".cjs", ".mjs", ".ts", ".d", ".jsx", ".tsx"]

  /** `trim_end_matches`: removes `pattern` from the end as often as it occurs. */
  function TrimEnd(s: string, pattern: string): string {
    if pattern != [] && EndsWith(s, pattern) then TrimEnd(s[..|s| - |pattern|], pattern) else s
  }

  /** One round over all patterns. */
  function TrimRound(s: string, patterns: seq<string>): string {
    if patterns == [] then s
    else TrimEnd(TrimRound(s, patterns[..|patterns| - 1]), patterns[|patterns| - 1])
  }

  function Flat(parts: seq<string>): string {
    if parts == [] then [] else Flat(parts[..|parts| - 1]) + parts[|parts| - 1]
  }

  predicate AllIn(parts: seq<string>, patterns: seq<string>) {
    forall i :: 0 <= i < |parts| ==> parts[i] in patterns && parts[i] != []
  }

  predicate NoPatternEnds(s: string, patterns: seq<string>) {
    forall i :: 0 <= i < |patterns| && patterns[i] != [] ==> !EndsWith(s, patterns[i])
  }

  /** `s` is `stem` followed by some patterns, and no pattern ends `stem`. */
  ghost predicate IsStem(s: string, patterns: seq<string>, stem: string) {
    NoPatternEnds(stem, patterns) && exists parts :: AllIn(parts, patterns) && s == stem + Flat(parts)
  }

  lemma {:induction false} FlatConcat(a: seq<string>, b: seq<string>)
    ensures Flat(a + b) == Flat(a) + Flat(b)
  {
    if b == [] {
      assert a + b == a;
    } else {
      var init, last := b[..|b| - 1], b[|b| - 1];
      assert (a + b)[..|a + b| - 1] == a + init && (a + b)[|a + b| - 1] == last;
      FlatConcat(a, init);
      assert Flat(a) + (Flat(init) + last) == Flat(a) + Flat(init) + last;
    }
  }

  /** What one pattern removes. */
  lemma {:induction false} TrimEndRemoves(s: string, pattern: string) returns (parts: seq<string>)
    ensures s == TrimEnd(s, pattern) + Flat(parts)
    ensures forall i :: 0 <= i < |parts| ==> parts[i] == pattern && pattern != []
    ensures pattern != [] ==> !EndsWith(TrimEnd(s, pattern), pattern)
    ensures TrimEnd(s, pattern) == s <==> pattern == [] || !EndsWith(s, pattern)
    decreases |s|
  {
    if pattern != [] && EndsWith(s, pattern) {
      var init := s[..|s| - |pattern|];
      var rest := TrimEndRemoves(init, pattern);
      parts := rest + [pattern];
      assert parts[..|rest|] == rest;
      assert s == init + pattern;
      assert |TrimEnd(s, pattern)| <= |init|;
    } else {
      parts := [];
    }
  }

  /** What one round removes; it removes nothing exactly when no pattern ends the string. */
  lemma {:induction false} TrimRoundRemoves(s: string, patterns: seq<string>) returns (parts: seq<string>)
    ensures s == TrimRound(s, patterns) + Flat(parts) && AllIn(parts, patterns)
    ensures TrimRound(s, patterns) == s <==> NoPatternEnds(s, patterns)
  {
    if patterns == [] {
      parts := [];
    } else {
      var n := |patterns| - 1;
      var later := TrimRoundRemoves(s, patterns[..n]);
      var round := TrimRound(s, patterns[..n]);
      var earlier := TrimEndRemoves(round, patterns[n]);
      parts := earlier + later;
      FlatConcat(earlier, later);
      assert |round| <= |s| && |TrimRound(s, patterns)| <= |round|;
      forall i | 0 <= i < |parts| ensures parts[i] in patterns && parts[i] != [] {
        if i >= |earlier| {
          assert later[i - |earlier|] in patterns[..n];
        }
      }
    }
  }

  /** The fixpoint: rounds until nothing changes. */
  function Stem(s: string, patterns: seq<string>): string
    decreases |s|
  {
    var round := TrimRound(s, patterns);
    RoundShortens(s, patterns);
    if round == s then s else Stem(round, patterns)
  }

  lemma RoundShortens(s: string, patterns: seq<string>)
    ensures TrimRound(s, patterns) == s || |TrimRound(s, patterns)| < |s|
  {
    var parts := TrimRoundRemoves(s, patterns);
    assert parts == [] ==> s == TrimRound(s, patterns);
    if parts != [] {
      assert Flat(parts) == Flat(parts[..|parts| - 1]) + parts[|parts| - 1];
    }
  }

  method TrimAllEndMatches(input: string, patterns: seq<string>) returns (trimmed: string)
    ensures trimmed == Stem(input, patterns)
  {
    var current := input;
    while true
      invariant Stem(input, patterns) == Stem(current, patterns)
      decreases |current|
    {
      trimmed := current;
      for i := 0 to |patterns|
        invariant trimmed == TrimRound(current, patterns[..i])
      {
        assert patterns[..i + 1][..i] == patterns[..i];
        trimmed := TrimEnd(trimmed, patterns[i]);
      }
      assert patterns[..|patterns|] == patterns;
      RoundShortens(current, patterns);
      if trimmed == current {
        return;
      }
      current := trimmed;
    }
  }

  lemma StemExtends(s: string, round: string, stem: string, before: seq<string>, parts: seq<string>)
    requires s == round + Flat(parts) && round == stem + Flat(before)
    ensures s == stem + Flat(before + parts)
  {
    FlatConcat(before, parts);
  }

  /** Trimming stops at a stem. */
  lemma {:induction false} StemIsStem(s: string, patterns: seq<string>)
    ensures IsStem(s, patterns, Stem(s, patterns))
    decreases |s|
  {
    var parts := TrimRoundRemoves(s, patterns);
    var round := TrimRound(s, patterns);
    RoundShortens(s, patterns);
    if round == s {
      assert AllIn([], patterns) && s == s + Flat([]);
    } else {
      StemIsStem(round, patterns);
      var stem := Stem(round, patterns);
      var before :| AllIn(before, patterns) && round == stem + Flat(before);
      StemExtends(s, round, stem, before, parts);
      assert AllIn(before + parts, patterns);
    }
  }

  /** A dot, and no other. */
  predicate IsDotSuffix(p: string) {
    p != [] && p[0] == '.' && '.' !in p[1..]
  }

  lemma StartsAtLastDot(s: string, p: string)
    requires IsDotSuffix(p) && EndsWith(s, p)
    ensures s[|s| - |p|] == '.' && forall k :: |s| - |p| < k < |s| ==> s[k] != '.'
  {
    forall k | |s| - |p| < k < |s| ensures s[k] != '.' {
      assert s[k] == p[1..][k - (|s| - |p|) - 1];
    }
  }

  /** Only one suffix of a string starts with its only dot. */
  lemma DotSuffixUnique(s: string, p: string, q: string)
    requires IsDotSuffix(p) && IsDotSuffix(q) && EndsWith(s, p) && EndsWith(s, q)
    ensures p == q
  {
    StartsAtLastDot(s, p);
    StartsAtLastDot(s, q);
    assert |p| == |q|;
  }

  lemma EndsWithLast(stem: string, parts: seq<string>)
    requires parts != []
    ensures EndsWith(stem + Flat(parts), parts[|parts| - 1])
    ensures var last := parts[|parts| - 1]; var s := stem + Flat(parts);
      s[..|s| - |last|] == stem + Flat(parts[..|parts| - 1])
  {
    var last := parts[|parts| - 1];
    var init := stem + Flat(parts[..|parts| - 1]);
    assert stem + Flat(parts) == init + last;
  }

  lemma PatternEnds(stem: string, parts: seq<string>, patterns: seq<string>)
    requires parts != [] && AllIn(parts, patterns)
    ensures !NoPatternEnds(stem + Flat(parts), patterns)
  {
    EndsWithLast(stem, parts);
    var last := parts[|parts| - 1];
    assert last in patterns;
  }

  /** With such patterns a string has only one stem, whatever their order. */
  lemma {:induction false} StemsAgree(stem: string, parts: seq<string>, stem': string, parts': seq<string>,
                                      patterns: seq<string>, patterns': seq<string>)
    requires forall p :: p in patterns <==> p in patterns'
    requires forall p :: p in patterns ==> IsDotSuffix(p)
    requires NoPatternEnds(stem, patterns) && AllIn(parts, patterns)
    requires NoPatternEnds(stem', patterns') && AllIn(parts', patterns')
    requires stem + Flat(parts) == stem' + Flat(parts')
    ensures stem == stem'
    decreases |parts|
  {
    var s := stem + Flat(parts);
    if parts != [] {
      PatternEnds(stem, parts, patterns');
    }
    if parts' != [] {
      PatternEnds(stem', parts', patterns);
    }
    assert (parts == [] ==> s == stem) && (parts' == [] ==> s == stem');
    if parts != [] && parts' != [] {
      EndsWithLast(stem, parts);
      EndsWithLast(stem', parts');
      DotSuffixUnique(s, parts[|parts| - 1], parts'[|parts'| - 1]);
      StemsAgree(stem, parts[..|parts| - 1], stem', parts'[..|parts'| - 1], patterns, patterns');
    }
  }

  /** For patterns that each start with their only dot, the result of trimming is the only stem of
      the input and does not depend on the order of the patterns. */
  lemma OrderIrrelevant(s: string, patterns: seq<string>, patterns': seq<string>)
    requires forall p :: p in patterns <==> p in patterns'
    requires forall p :: p in patterns ==> IsDotSuffix(p)
    ensures Stem(s, patterns) == Stem(s, patterns')
    ensures forall stem :: IsStem(s, patterns, stem) <==> stem == Stem(s, patterns)
  {
    StemIsStem(s, patterns);
    StemIsStem(s, patterns');
    var parts :| AllIn(parts, patterns) && s == Stem(s, patterns) + Flat(parts);
    var parts' :| AllIn(parts', patterns') && s == Stem(s, patterns') + Flat(parts');
    StemsAgree(Stem(s, patterns), parts, Stem(s, patterns'), parts', patterns, patterns');
    forall stem | IsStem(s, patterns, stem) ensures stem == Stem(s, patterns) {
      var other :| AllIn(other, patterns) && s == stem + Flat(other);
      StemsAgree(Stem(s, patterns), parts, stem, other, patterns, patterns);
    }
  }

  lemma FileSuffixesAreDotSuffixes()
    ensures forall p :: p in FILE_SUFFIX_PATTERNS ==> IsDotSuffix(p)
  {
    assert forall i :: 0 <= i < |FILE_SUFFIX_PATTERNS| ==> IsDotSuffix(FILE_SUFFIX_PATTERNS[i]);
  }

  // ---------------------------------------------------------------------------------------------
  // Candidate URLs

  function Before(s: string, sep: char): string {
    match SplitOnce(s, sep)
    case Some((before, _)) => before
    case None => s
  }

  function SplitAtScheme(s: string): Option<string> {
    if |s| < 3 then None
    else if s[..3] == "://" then Some(s[3..])
    else SplitAtScheme(s[1..])
  }

  /** The path without its host or leading tilde. */
  function StripHostname(path: string): string {
    if StartsWith(path, "~") then path[1..]
    else
      match SplitAtScheme(path)
      case None => path
      case Some(rest) =>
        match SplitOnce(rest, '/')
        case Some((_, after)) => ['/'] + after
        case None => rest
  }

  function ExtractFileStem(path: string): string {
    var stripped := StripHostname(path);
    match RSplitOnce(stripped, '/')
    case None => stripped
    case Some((prefix, name)) => prefix + "/" + Stem(Before(Before(name, '?'), '#'), FILE_SUFFIX_PATTERNS)
  }

  /** Without query and fragment. */
  predicate IsBare(s: string) {
    '?' !in s && '#' !in s
  }

  lemma BeforeCuts(s: string, sep: char) returns (rest: string)
    ensures s == Before(s, sep) + rest && (rest == [] || rest[0] == sep) && sep !in Before(s, sep)
  {
    match SplitOnce(s, sep)
    case None =>
      rest := [];
    case Some((before, after)) =>
      rest := [sep] + after;
  }

  /** What the API is asked for: the path without its host, its file suffixes, and the query and
      fragment of its file name.  The stem of the file name ends in no file suffix and holds neither
      query nor fragment. */
  lemma StemOfPath(path: string) returns (parts: seq<string>, rest: string)
    ensures AllIn(parts, FILE_SUFFIX_PATTERNS) && (rest == [] || rest[0] in {'?', '#'})
    ensures StripHostname(path) == ExtractFileStem(path) + Flat(parts) + rest
    ensures match RSplitOnce(StripHostname(path), '/')
      case None => ExtractFileStem(path) == StripHostname(path)
      case Some((prefix, _)) => exists stem ::
        ExtractFileStem(path) == prefix + "/" + stem && NoPatternEnds(stem, FILE_SUFFIX_PATTERNS) && IsBare(stem)
  {
    match RSplitOnce(StripHostname(path), '/')
    case None =>
      parts, rest := [], [];
      assert StripHostname(path) == StripHostname(path) + Flat([]) + [];
    case Some((prefix, name)) =>
      parts, rest := StemOfName(name, FILE_SUFFIX_PATTERNS);
      Rejoin(prefix + "/", Stem(Before(Before(name, '?'), '#'), FILE_SUFFIX_PATTERNS), Flat(parts), rest);
  }

  lemma Rejoin(a: string, b: string, c: string, d: string)
    ensures a + (b + c + d) == (a + b) + c + d
  {
  }

  lemma StemOfName(name: string, patterns: seq<string>) returns (parts: seq<string>, rest: string)
    ensures AllIn(parts, patterns) && (rest == [] || rest[0] in {'?', '#'})
    ensures var stem := Stem(Before(Before(name, '?'), '#'), patterns);
      name == stem + Flat(parts) + rest && NoPatternEnds(stem, patterns) && IsBare(stem)
  {
    var query := BeforeCuts(name, '?');
    var fragment := BeforeCuts(Before(name, '?'), '#');
    var file := Before(Before(name, '?'), '#');
    StemIsStem(file, patterns);
    var stem := Stem(file, patterns);
    parts :| AllIn(parts, patterns) && file == stem + Flat(parts);
    rest := fragment + query;
    assert name == file + rest;
    assert IsBare(file) && forall c :: c in stem ==> c in file;
  }

  function QueryStripped(url: string): seq<string> {
    match SplitOnce(url, '?')
    case Some((before, _)) => [before]
    case None => []
  }

  /** The generalized URLs of a file, in the order in which they are tried. */
  function CandidateUrls(url: string): seq<string> {
    var absolute := Before(url, '#');
    var relative := StripHostname(absolute);
    [absolute] + QueryStripped(absolute)
    + [['~'] + relative] + (match SplitOnce(relative, '?') case Some((before, _)) => [['~'] + before] case None => [])
  }

  lemma {:induction false} SchemeSuffix(s: string)
    ensures SplitAtScheme(s).Some? ==> EndsWith(s, SplitAtScheme(s).value)
  {
    if |s| >= 3 && s[..3] != "://" {
      SchemeSuffix(s[1..]);
    }
  }

  lemma StrippedIsSuffix(path: string)
    ensures EndsWith(path, StripHostname(path))
  {
    SchemeSuffix(path);
    if !StartsWith(path, "~") && SplitAtScheme(path).Some? {
      var rest := SplitAtScheme(path).value;
      if '/' in rest {
        var (before, after) := SplitOnce(rest, '/').value;
        assert rest == before + (['/'] + after);
        assert EndsWith(rest, ['/'] + after);
      }
    }
  }

  /** The first `://` of the string is at `i`. */
  predicate SchemeEndsAt(s: string, i: nat) {
    OccursAt(s, "://", i) && forall k: nat :: k < i ==> !OccursAt(s, "://", k)
  }

  lemma {:induction false} SplitAtSchemeFinds(s: string, i: nat)
    requires SchemeEndsAt(s, i)
    ensures SplitAtScheme(s) == Some(s[i + 3..])
  {
    if i == 0 {
      assert s[0..3] == s[..3];
    } else {
      assert !OccursAt(s, "://", 0) && s[0..3] == s[..3];
      forall k: nat | k < i - 1 ensures !OccursAt(s[1..], "://", k) {
        assert !OccursAt(s, "://", k + 1) && (k + 4 <= |s| ==> s[1..][k..k + 3] == s[k + 1..k + 4]);
      }
      assert s[1..][i - 1..i + 2] == s[i..i + 3];
      SplitAtSchemeFinds(s[1..], i - 1);
    }
  }

  lemma {:induction false} NoSchemeToSplitAt(s: string)
    requires !Contains(s, "://")
    ensures SplitAtScheme(s).None?
  {
    if |s| >= 3 {
      assert !OccursAt(s, "://", 0) && s[0..3] == s[..3];
      forall k | 0 <= k <= |s[1..]| ensures !OccursAt(s[1..], "://", k) {
        assert !OccursAt(s, "://", k + 1) && (k + 4 <= |s| ==> s[1..][k..k + 3] == s[k + 1..k + 4]);
      }
      NoSchemeToSplitAt(s[1..]);
    }
  }

  /** Everything up to the first slash after the first `://` is removed; without such a slash the
      host is what is left. */
  lemma HostIsStripped(path: string, i: nat, j: nat)
    requires !StartsWith(path, "~") && SchemeEndsAt(path, i)
    requires i + 3 <= j <= |path| && '/' !in path[i + 3..j] && (j < |path| ==> path[j] == '/')
    ensures StripHostname(path) == if j < |path| then path[j..] else path[i + 3..]
  {
    SplitAtSchemeFinds(path, i);
    var rest := path[i + 3..];
    if j < |path| {
      assert rest == path[i + 3..j] + ['/'] + path[j + 1..];
      SplitOnceAt(path[i + 3..j], '/', path[j + 1..]);
    } else {
      assert rest == path[i + 3..j];
    }
  }

  /** Otherwise only a leading tilde is removed. */
  lemma OnlyTildeIsStripped(path: string)
    ensures StripHostname("~" + path) == path
    ensures !StartsWith(path, "~") && !Contains(path, "://") ==> StripHostname(path) == path
  {
    assert ("~" + path)[1..] == path;
    if !StartsWith(path, "~") && !Contains(path, "://") {
      NoSchemeToSplitAt(path);
    }
  }

  /** A tilde, or a scheme and a host. */
  predicate IsOrigin(origin: string, i: nat) {
    origin == "~" || (!StartsWith(origin, "~") && SchemeEndsAt(origin, i) && '/' !in origin[i + 3..])
  }

  lemma OriginIsStripped(origin: string, i: nat, path: string)
    requires IsOrigin(origin, i) && path != [] && path[0] == '/'
    ensures StripHostname(origin + path) == path
  {
    var s := origin + path;
    if origin == "~" {
      assert s[1..] == path;
    } else {
      forall k: nat | k <= i ensures OccursAt(s, "://", k) == OccursAt(origin, "://", k) {
        assert s[k..k + 3] == origin[k..k + 3];
      }
      assert !StartsWith(s, "~") by {
        assert origin != [] && s[..1] == origin[..1];
      }
      assert s[i + 3..|origin|] == origin[i + 3..] && s[|origin|..] == path;
      HostIsStripped(s, i, |origin|);
    }
  }

  function Suffixed(s: string, sep: char, part: Option<string>): string {
    if part.Some? then s + [sep] + part.value else s
  }

  lemma CutOff(s: string, sep: char, part: Option<string>)
    requires sep !in s
    ensures SplitOnce(Suffixed(s, sep, part), sep) == if part.Some? then Some((s, part.value)) else None
    ensures Before(Suffixed(s, sep, part), sep) == s
  {
    if part.Some? {
      SplitOnceAt(s, sep, part.value);
    }
  }

  lemma SuffixedConcat(a: string, b: string, sep: char, part: Option<string>)
    ensures Suffixed(a + b, sep, part) == a + Suffixed(b, sep, part)
  {
  }

  lemma CandidatesInOrder(url: string, absolute: string, relative: string, before: string, after: string)
    requires Before(url, '#') == absolute && StripHostname(absolute) == relative
    requires SplitOnce(absolute, '?').Some? <==> SplitOnce(relative, '?').Some?
    requires SplitOnce(absolute, '?').Some? ==>
      SplitOnce(absolute, '?').value.0 == before && SplitOnce(relative, '?').value.0 == after
    ensures CandidateUrls(url) == if SplitOnce(absolute, '?').Some? then [absolute, before, "~" + relative, "~" + after]
                                  else [absolute, "~" + relative]
  {
    assert QueryStripped(absolute) == if SplitOnce(absolute, '?').Some? then [before] else [];
  }

  /** The candidates for a file are its URL and its URL without the query, first as they are and
      then with a tilde for scheme and host; the fragment is in none of them. */
  lemma CandidatesAre(origin: string, i: nat, path: string, query: Option<string>, fragment: Option<string>)
    requires IsOrigin(origin, i) && '?' !in origin && '#' !in origin
    requires path != [] && path[0] == '/' && '?' !in path && '#' !in path
    requires query.Some? ==> '#' !in query.value
    ensures var absolute, relative := Suffixed(origin + path, '?', query), Suffixed(path, '?', query);
      CandidateUrls(Suffixed(absolute, '#', fragment)) ==
        if query.Some? then [absolute, origin + path, "~" + relative, "~" + path] else [absolute, "~" + relative]
  {
    var absolute, relative := Suffixed(origin + path, '?', query), Suffixed(path, '?', query);
    CutOff(absolute, '#', fragment);
    SuffixedConcat(origin, path, '?', query);
    OriginIsStripped(origin, i, relative);
    CutOff(origin + path, '?', query);
    CutOff(path, '?', query);
    CandidatesInOrder(Suffixed(absolute, '#', fragment), absolute, relative, origin + path, path);
  }

  /** There are two candidates without a query and four with one, but three when the only `?` comes
      before the path, as in a URL without path whose query holds a slash. */
  lemma CandidateCount(url: string)
    ensures var absolute := Before(url, '#');
      |CandidateUrls(url)| ==
        if '?' in StripHostname(absolute) then 4 else if '?' in absolute then 3 else 2
  {
    var absolute := Before(url, '#');
    var relative := StripHostname(absolute);
    StrippedIsSuffix(absolute);
    assert forall c :: c in relative ==> c in absolute;
  }
}
