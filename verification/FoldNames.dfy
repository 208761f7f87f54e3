/** Maximal runs of equal elements. */
module MaximalRuns {

  /** Adds an element to the last run, if it is equal to its elements, or else as a new run. */
  function Extend<T(==)>(runs: seq<seq<T>>, x: T): seq<seq<T>> {
    var n := |runs| - 1;
    if n >= 0 && runs[n] != [] && runs[n][0] == x then runs[..n] + [runs[n] + [x]]
    else runs + [[x]]
  }

  /** Consecutive equal elements, in order. */
  function Runs<T(==)>(xs: seq<T>): seq<seq<T>> {
    if xs == [] then [] else Extend(Runs(xs[..|xs| - 1]), xs[|xs| - 1])
  }

  function Concat<T>(runs: seq<seq<T>>): seq<T> {
    if runs == [] then [] else Concat(runs[..|runs| - 1]) + runs[|runs| - 1]
  }

  predicate IsRun<T(==)>(run: seq<T>) {
    run != [] && forall i :: 0 <= i < |run| ==> run[i] == run[0]
  }

  /** Runs of equal elements, each as long as it can be. */
  predicate AreMaximal<T(==)>(runs: seq<seq<T>>) {
    && (forall i :: 0 <= i < |runs| ==> IsRun(runs[i]))
    && (forall i, j :: 0 <= i < |runs| && 0 <= j < |runs| && j == i + 1 ==> runs[i][0] != runs[j][0])
  }

  lemma ConcatSnoc<T>(runs: seq<seq<T>>, run: seq<T>)
    ensures Concat(runs + [run]) == Concat(runs) + run
  {
    assert (runs + [run])[..|runs|] == runs;
  }

  lemma ExtendKeeps<T>(runs: seq<seq<T>>, x: T)
    requires AreMaximal(runs)
    ensures AreMaximal(Extend(runs, x))
    ensures Concat(Extend(runs, x)) == Concat(runs) + [x]
  {
    var n := |runs| - 1;
    if n >= 0 && runs[n][0] == x {
      ConcatSnoc(runs[..n], runs[n] + [x]);
      ConcatSnoc(runs[..n], runs[n]);
      assert runs == runs[..n] + [runs[n]];
      assert IsRun(runs[n] + [x]);
    } else {
      ConcatSnoc(runs, [x]);
    }
  }

  /** The grouping keeps every element in its place, in maximal runs. */
  lemma {:induction false} RunsAreMaximal<T>(xs: seq<T>)
    ensures AreMaximal(Runs(xs)) && Concat(Runs(xs)) == xs
  {
    if xs != [] {
      var init, x := xs[..|xs| - 1], xs[|xs| - 1];
      RunsAreMaximal(init);
      ExtendKeeps(Runs(init), x);
      assert xs == init + [x];
    }
  }

  lemma RunsSnoc<T>(xs: seq<T>, x: T)
    ensures Runs(xs + [x]) == Extend(Runs(xs), x)
  {
    assert (xs + [x])[..|xs|] == xs;
  }

  /** The grouping loop: it starts with one empty group, which the first element fills. */
  method Group<T(==)>(xs: seq<T>) returns (grouped: seq<seq<T>>)
    ensures grouped == if xs == [] then [[]] else Runs(xs)
  {
    grouped := [[]];
    for i := 0 to |xs|
      invariant grouped == if i == 0 then [[]] else Runs(xs[..i])
    {
      ghost var before := grouped;
      RunsSnoc(xs[..i], xs[i]);
      assert xs[..i + 1] == xs[..i] + [xs[i]];
      RunsAreMaximal(xs[..i]);
      if i == 0 {
        assert xs[..i] == [];
      } else {
        assert before != [];
        assert IsRun(before[|before| - 1]);
      }
      var n := |grouped| - 1;
      if grouped[n] == [] || grouped[n][|grouped[n]| - 1] == xs[i] {
        grouped := grouped[..n] + [grouped[n] + [xs[i]]];
      } else {
        grouped := grouped + [[xs[i]]];
      }
    }
    assert xs[..|xs|] == xs;
  }

  lemma {:induction false} RunInConcat<T>(runs: seq<seq<T>>, i: nat) returns (k: nat)
    requires i < |runs| && runs[i] != []
    ensures k < |Concat(runs)| && Concat(runs)[k] == runs[i][0]
  {
    var n := |runs| - 1;
    if i == n {
      k := |Concat(runs[..n])|;
    } else {
      k := RunInConcat(runs[..n], i);
    }
  }

  function Count<T(==)>(xs: seq<T>, x: T): nat {
    if xs == [] then 0
    else Count(xs[..|xs| - 1], x) + if xs[|xs| - 1] == x then 1 else 0
  }

  lemma {:induction false} CountConcat<T>(a: seq<T>, b: seq<T>, x: T)
    ensures Count(a + b, x) == Count(a, x) + Count(b, x)
  {
    if b == [] {
      assert a + b == a;
    } else {
      assert (a + b)[..|a + b| - 1] == a + b[..|b| - 1];
      CountConcat(a, b[..|b| - 1], x);
    }
  }

  /** Lists that never hold more of `x` than their counterparts, and one that holds less. */
  lemma {:induction false} CountDrops<T>(less: seq<seq<T>>, bs: seq<seq<T>>, x: T, k: nat)
    requires |less| == |bs| && forall i :: 0 <= i < |bs| ==> Count(less[i], x) <= Count(bs[i], x)
    requires k < |bs| ==> Count(less[k], x) < Count(bs[k], x)
    ensures Count(Concat(less), x) <= Count(Concat(bs), x)
    ensures k < |bs| ==> Count(Concat(less), x) < Count(Concat(bs), x)
  {
    if bs != [] {
      var n := |bs| - 1;
      CountDrops(less[..n], bs[..n], x, k);
      CountConcat(Concat(less[..n]), less[n], x);
      CountConcat(Concat(bs[..n]), bs[n], x);
    }
  }

  lemma {:induction false} InConcat<T>(runs: seq<seq<T>>, k: nat) returns (i: nat)
    requires k < |Concat(runs)|
    ensures i < |runs| && Concat(runs)[k] in runs[i]
  {
    var n := |runs| - 1;
    if k < |Concat(runs[..n])| {
      i := InConcat(runs[..n], k);
    } else {
      i := n;
    }
  }

  function Singletons<T>(xs: seq<T>): seq<seq<T>> {
    seq(|xs|, i requires 0 <= i < |xs| => [xs[i]])
  }

  lemma {:induction false} RunsOfDistinct<T>(xs: seq<T>)
    requires forall i, j :: 0 <= i < |xs| && 0 <= j < |xs| && j == i + 1 ==> xs[i] != xs[j]
    ensures Runs(xs) == Singletons(xs)
  {
    if xs != [] {
      var n := |xs| - 1;
      var init, x := xs[..n], xs[n];
      forall i, j | 0 <= i < n && 0 <= j < n && j == i + 1 ensures init[i] != init[j] {
        assert xs[i] != xs[j];
      }
      RunsOfDistinct(init);
      SingletonsSnoc(init, x);
      assert n > 0 ==> xs[n - 1] != xs[n];
      assert xs == init + [x];
    }
  }

  lemma {:induction false} RunsAtMost<T>(xs: seq<T>)
    ensures |Runs(xs)| <= |xs|
  {
    if xs != [] {
      RunsAtMost(xs[..|xs| - 1]);
    }
  }

  /** Equal neighbours share a run, so there are fewer runs than elements. */
  lemma {:induction false} EqualNeighboursJoin<T>(xs: seq<T>, i: nat)
    requires i + 1 < |xs| && xs[i] == xs[i + 1]
    ensures |Runs(xs)| < |xs|
  {
    var init := xs[..|xs| - 1];
    if i + 1 < |init| {
      EqualNeighboursJoin(init, i);
    } else {
      RunsAtMost(init);
      LastOfRuns(init);
    }
  }

  /** The last run is a run of the last element. */
  lemma LastOfRuns<T>(xs: seq<T>)
    requires xs != []
    ensures Runs(xs) != [] && var last := Runs(xs)[|Runs(xs)| - 1]; last != [] && last[0] == xs[|xs| - 1]
  {
    RunsAreMaximal(xs[..|xs| - 1]);
  }

  lemma SingletonsSnoc<T>(xs: seq<T>, x: T)
    requires xs != [] ==> xs[|xs| - 1] != x
    ensures Singletons(xs + [x]) == Singletons(xs) + [[x]] == Extend(Singletons(xs), x)
  {
  }
}

/** Folding of repeated components in dotted function names: `a.a.a.b` becomes `{a#3}.b`. */
module FoldNames {
  import opened Common
  import opened Strings
  import opened MaximalRuns

  function Render(run: seq<string>): string
    requires run != []
  {
    if |run| == 1 then run[0] else "{" + run[0] + "#" + ToDecimal(|run|) + "}"
  }

  function RenderAll(runs: seq<seq<string>>): (r: seq<string>)
    requires forall i :: 0 <= i < |runs| ==> runs[i] != []
    ensures |r| == |runs|
  {
    seq(|runs|, i requires 0 <= i < |runs| => Render(runs[i]))
  }

  /** All components but the last. */
  function Components(name: string): seq<string> {
    var parts := Split(name, '.');
    parts[..|parts| - 1]
  }

  function Tail(name: string): string {
    var parts := Split(name, '.');
    parts[|parts| - 1]
  }

  function Folded(name: string): string {
    RunsAreMaximal(Components(name));
    if Components(name) == [] then name
    else Join(RenderAll(Runs(Components(name))), ".") + "." + Tail(name)
  }

  method FoldFunctionName(name: string) returns (folded: string)
    ensures folded == Folded(name)
  {
    var parts := Split(name, '.');
    if |parts| == 1 {
      return name;
    }
    var tail := parts[|parts| - 1];
    parts := parts[..|parts| - 1];
    RunsAreMaximal(parts);

    var grouped := Group(parts);
    folded := Join(RenderAll(grouped), ".") + "." + tail;
  }

  // ---------------------------------------------------------------------------------------------
  // Expanding

  /** Reads `{x#n}`. */
  function ParseGroup(part: string): Option<(string, nat)> {
    if |part| < 2 || part[0] != '{' || part[|part| - 1] != '}' then None
    else
      match RSplitOnce(part[1..|part| - 1], '#')
      case None => None
      case Some((x, digits)) =>
        match FromDecimal(digits)
        case None => None
        case Some(n) => Some((x, n))
  }

  function Repeat(x: string, n: nat): seq<string> {
    seq(n, _ => x)
  }

  function ExpandPart(part: string): seq<string> {
    match ParseGroup(part)
    case None => [part]
    case Some((x, n)) => Repeat(x, n)
  }

  function ExpandEach(parts: seq<string>): (r: seq<seq<string>>)
    ensures |r| == |parts|
  {
    seq(|parts|, i requires 0 <= i < |parts| => ExpandPart(parts[i]))
  }

  function ExpandAll(parts: seq<string>): seq<string> {
    Concat(ExpandEach(parts))
  }

  /** Replaces every group by the components it stands for. */
  function Expand(name: string): string {
    Join(ExpandAll(Components(name)) + [Tail(name)], ".")
  }

  lemma ParseOfGroup(x: string, digits: string)
    requires '#' !in digits
    ensures ParseGroup("{" + x + "#" + digits + "}")
      == match FromDecimal(digits) { case Some(n) => Some((x, n)) case None => None }
  {
    var part := "{" + x + "#" + digits + "}";
    var inner := x + ['#'] + digits;
    assert part == "{" + inner + "}";
    assert part[1..|part| - 1] == inner;
    RSplitOnceAt(x, '#', digits);
  }

  lemma ParseOfRender(run: seq<string>)
    requires IsRun(run) && |run| > 1
    ensures ParseGroup(Render(run)) == Some((run[0], |run|))
    ensures ExpandPart(Render(run)) == run
  {
    ParseOfGroup(run[0], ToDecimal(|run|));
    DecimalRoundTrip(|run|);
    RepeatOfRun(run);
  }

  lemma RepeatOfRun(run: seq<string>)
    requires IsRun(run)
    ensures Repeat(run[0], |run|) == run
  {
  }

  lemma GroupShape(part: string)
    ensures ParseGroup(part).Some? ==>
      && '{' in part && '}' in part && '#' in part
      && |ParseGroup(part).value.0| < |part|
      && forall c :: c in ParseGroup(part).value.0 ==> c in part
  {
    if |part| >= 2 {
      var inner := part[1..|part| - 1];
      var split := RSplitOnce(inner, '#');
      if split.Some? {
        assert forall c :: c in inner ==> c in part;
        assert forall c :: c in split.value.0 ==> c in inner;
        assert inner[|split.value.0|] == '#';
      }
    }
  }

  /** A component that reads as a group and has no equal neighbour is printed as it is, and so is
      taken for a group when expanding. */
  predicate Ambiguous(run: seq<string>) {
    |run| == 1 && ParseGroup(run[0]).Some?
  }

  /** No component without an equal neighbour reads as a group. */
  predicate Unambiguous(name: string) {
    forall i :: 0 <= i < |Runs(Components(name))| ==> !Ambiguous(Runs(Components(name))[i])
  }

  lemma RenderedLacksDot(runs: seq<seq<string>>)
    requires AreMaximal(runs) && NoneContains(Concat(runs), '.')
    ensures NoneContains(RenderAll(runs), '.')
  {
    forall i | 0 <= i < |runs| ensures '.' !in Render(runs[i]) {
      var _ := RunInConcat(runs, i);
    }
  }

  /** The parts of a folded name are the rendered runs and the tail. */
  lemma PartsOfFolded(name: string)
    ensures var runs := Runs(Components(name));
      && AreMaximal(runs) && Concat(runs) == Components(name)
      && NoneContains(RenderAll(runs) + [Tail(name)], '.')
      && Split(Folded(name), '.') == RenderAll(runs) + [Tail(name)]
      && Folded(name) == Join(RenderAll(runs) + [Tail(name)], ".")
  {
    var runs := Runs(Components(name));
    RunsAreMaximal(Components(name));
    JoinOfSplit(name, '.');
    RenderedLacksDot(runs);
    var all := RenderAll(runs) + [Tail(name)];
    if Components(name) == [] {
      assert Split(name, '.') == [Tail(name)];
      assert runs == [] && all == [Tail(name)];
    } else {
      assert runs != [];
      JoinSnoc(RenderAll(runs), Tail(name), ".");
    }
    SplitOfJoin(all, '.');
  }

  lemma NameIsJoin(name: string)
    ensures name == Join(Components(name) + [Tail(name)], ".")
    ensures NoneContains(Components(name) + [Tail(name)], '.')
  {
    assert Split(name, '.') == Components(name) + [Tail(name)];
    JoinOfSplit(name, '.');
  }

  lemma ExpandOfRender(runs: seq<seq<string>>)
    requires AreMaximal(runs) && forall i :: 0 <= i < |runs| ==> !Ambiguous(runs[i])
    ensures ExpandAll(RenderAll(runs)) == Concat(runs)
  {
    forall i | 0 <= i < |runs| ensures ExpandEach(RenderAll(runs))[i] == runs[i] {
      if |runs[i]| > 1 {
        ParseOfRender(runs[i]);
      } else {
        assert runs[i] == [runs[i][0]];
      }
    }
    assert ExpandEach(RenderAll(runs)) == runs;
  }

  /** An ambiguous part that no other ambiguous part is longer than. */
  lemma LongestAmbiguous(runs: seq<seq<string>>, some: nat) returns (k: nat)
    requires some < |runs| && Ambiguous(runs[some])
    ensures k < |runs| && Ambiguous(runs[k])
    ensures forall i :: 0 <= i < |runs| && Ambiguous(runs[i]) ==> |runs[i][0]| <= |runs[k][0]|
  {
    k := some;
    for i := 0 to |runs|
      invariant k < |runs| && Ambiguous(runs[k])
      invariant forall j :: 0 <= j < i && Ambiguous(runs[j]) ==> |runs[j][0]| <= |runs[k][0]|
    {
      if Ambiguous(runs[i]) && |runs[k][0]| < |runs[i][0]| {
        k := i;
      }
    }
  }

  lemma {:induction false} CountNone(xs: seq<string>, x: string)
    requires x !in xs
    ensures Count(xs, x) == 0
  {
    if xs != [] {
      CountNone(xs[..|xs| - 1], x);
    }
  }

  lemma RunLosesPart(run: seq<string>, p: string)
    requires IsRun(run) && ParseGroup(p).Some? && (Ambiguous(run) ==> |run[0]| <= |p|)
    ensures Count(ExpandPart(Render(run)), p) <= Count(run, p)
    ensures run == [p] ==> Count(ExpandPart(Render(run)), p) < Count(run, p)
  {
    if |run| > 1 {
      ParseOfRender(run);
    } else {
      assert run == [run[0]];
      if Ambiguous(run) {
        GroupShape(run[0]);
        CountNone(ExpandPart(run[0]), p);
      }
    }
  }

  /** Expanding never brings a longest ambiguous part back, so it occurs less often than before. */
  lemma ExpansionLosesPart(runs: seq<seq<string>>, p: string, k: nat)
    requires AreMaximal(runs) && ParseGroup(p).Some?
    requires forall i :: 0 <= i < |runs| && Ambiguous(runs[i]) ==> |runs[i][0]| <= |p|
    requires k < |runs| && runs[k] == [p]
    ensures Count(ExpandAll(RenderAll(runs)), p) < Count(Concat(runs), p)
  {
    forall i | 0 <= i < |runs|
      ensures Count(ExpandEach(RenderAll(runs))[i], p) <= Count(runs[i], p)
      ensures i == k ==> Count(ExpandEach(RenderAll(runs))[i], p) < Count(runs[i], p)
    {
      RunLosesPart(runs[i], p);
    }
    CountDrops(ExpandEach(RenderAll(runs)), runs, p, k);
  }

  lemma ExpandAllLacksDot(parts: seq<string>)
    requires NoneContains(parts, '.')
    ensures NoneContains(ExpandAll(parts), '.')
  {
    forall k | 0 <= k < |ExpandAll(parts)| ensures '.' !in ExpandAll(parts)[k] {
      var i := InConcat(ExpandEach(parts), k);
      GroupShape(parts[i]);
    }
  }

  /** The components of a folded name and of what it expands to. */
  lemma ExpandOfFolded(name: string)
    ensures AreMaximal(Runs(Components(name)))
    ensures var expanded := ExpandAll(RenderAll(Runs(Components(name))));
      && NoneContains(expanded, '.')
      && Expand(Folded(name)) == Join(expanded + [Tail(name)], ".")
  {
    PartsOfFolded(name);
    var rendered := RenderAll(Runs(Components(name)));
    assert Components(Folded(name)) == rendered && Tail(Folded(name)) == Tail(name);
    assert NoneContains(rendered, '.') by {
      assert forall i :: 0 <= i < |rendered| ==> rendered[i] == (rendered + [Tail(name)])[i];
    }
    ExpandAllLacksDot(rendered);
  }

  /** Two different lists of components make two different names. */
  lemma JoinInjective(a: seq<string>, b: seq<string>, tail: string)
    requires NoneContains(a, '.') && NoneContains(b, '.') && '.' !in tail
    requires Join(a + [tail], ".") == Join(b + [tail], ".")
    ensures a == b
  {
    SplitOfJoin(a + [tail], '.');
    SplitOfJoin(b + [tail], '.');
    assert (a + [tail])[..|a|] == a && (b + [tail])[..|b|] == b;
  }

  lemma UnambiguousExpands(name: string)
    requires Unambiguous(name)
    ensures Expand(Folded(name)) == name
  {
    RunsAreMaximal(Components(name));
    ExpandOfFolded(name);
    ExpandOfRender(Runs(Components(name)));
    NameIsJoin(name);
  }

  lemma ExpansionDiffers(runs: seq<seq<string>>, some: nat)
    requires AreMaximal(runs) && some < |runs| && Ambiguous(runs[some])
    ensures ExpandAll(RenderAll(runs)) != Concat(runs)
  {
    var k := LongestAmbiguous(runs, some);
    assert runs[k] == [runs[k][0]];
    ExpansionLosesPart(runs, runs[k][0], k);
  }

  lemma AmbiguousLoses(name: string, some: nat)
    requires some < |Runs(Components(name))| && Ambiguous(Runs(Components(name))[some])
    ensures Expand(Folded(name)) != name
  {
    RunsAreMaximal(Components(name));
    ExpansionDiffers(Runs(Components(name)), some);
    ExpandOfFolded(name);
    ComponentsLackDot(name);
    NameIsJoin(name);
    if Expand(Folded(name)) == name {
      JoinInjective(ExpandAll(RenderAll(Runs(Components(name)))), Components(name), Tail(name));
    }
  }

  /** Folding loses nothing: expanding gives the name back, exactly for unambiguous names. */
  lemma FoldingIsLosslessIff(name: string)
    ensures Expand(Folded(name)) == name <==> Unambiguous(name)
  {
    if Unambiguous(name) {
      UnambiguousExpands(name);
    } else {
      var some :| 0 <= some < |Runs(Components(name))| && Ambiguous(Runs(Components(name))[some]);
      AmbiguousLoses(name, some);
    }
  }

  lemma ComponentsLackDot(name: string)
    ensures NoneContains(Components(name), '.') && '.' !in Tail(name)
  {
    JoinOfSplit(name, '.');
  }

  /** Names without `{`, `}` and `#` are unambiguous. */
  lemma PlainNamesUnambiguous(name: string)
    requires '{' !in name || '}' !in name || '#' !in name
    ensures Unambiguous(name)
  {
    var runs := Runs(Components(name));
    RunsAreMaximal(Components(name));
    forall i | 0 <= i < |runs| ensures !Ambiguous(runs[i]) {
      GroupShape(runs[i][0]);
      var k := RunInConcat(runs, i);
      PartCharsInName(name, k);
    }
  }

  lemma {:induction false} PartCharsInName(s: string, k: nat)
    requires k < |Split(s, '.')|
    ensures forall c :: c in Split(s, '.')[k] ==> c in s
  {
    if s != [] {
      var rest := Split(s[1..], '.');
      if s[0] == '.' {
        if k > 0 {
          PartCharsInName(s[1..], k - 1);
        }
      } else {
        PartCharsInName(s[1..], k);
      }
    }
  }

  // ---------------------------------------------------------------------------------------------
  // Folding twice

  /** `a` is a lone component that is the very text that the group `b` is written as. */
  predicate SpellsOut(a: seq<string>, b: seq<string>)
    requires a != [] && b != []
  {
    |a| == 1 && |b| > 1 && a[0] == Render(b)
  }

  /** Runs of different components are written alike only if one of them spells the other out. */
  lemma WrittenAlikeIff(a: seq<string>, b: seq<string>)
    requires IsRun(a) && IsRun(b) && a[0] != b[0]
    ensures Render(a) == Render(b) <==> SpellsOut(a, b) || SpellsOut(b, a)
  {
    if |a| > 1 {
      ParseOfRender(a);
    }
    if |b| > 1 {
      ParseOfRender(b);
    }
  }

  /** Of the groups `i` and `i + 1`, one is a lone component that spells the other out. */
  predicate OneSpellsOther(runs: seq<seq<string>>, i: nat)
    requires i + 1 < |runs| && AreMaximal(runs)
  {
    SpellsOut(runs[i], runs[i + 1]) || SpellsOut(runs[i + 1], runs[i])
  }

  predicate NoneSpellsOther(runs: seq<seq<string>>)
    requires AreMaximal(runs)
  {
    forall i :: 0 <= i < |runs| - 1 ==> !OneSpellsOther(runs, i)
  }

  /** No lone component of the name is the text that a neighbouring group is written as. */
  predicate FoldsOnce(name: string) {
    RunsAreMaximal(Components(name));
    NoneSpellsOther(Runs(Components(name)))
  }

  lemma SecondFold(name: string)
    ensures AreMaximal(Runs(Components(name)))
    ensures var rendered := RenderAll(Runs(Components(name)));
      && AreMaximal(Runs(rendered))
      && Split(Folded(name), '.') == rendered + [Tail(name)]
      && Folded(name) == Join(rendered + [Tail(name)], ".")
      && Split(Folded(Folded(name)), '.') == RenderAll(Runs(rendered)) + [Tail(name)]
      && Folded(Folded(name)) == Join(RenderAll(Runs(rendered)) + [Tail(name)], ".")
  {
    PartsOfFolded(name);
    PartsOfFolded(Folded(name));
    assert Components(Folded(name)) == RenderAll(Runs(Components(name))) && Tail(Folded(name)) == Tail(name);
  }

  lemma FoldsOnceIsStable(name: string)
    requires FoldsOnce(name)
    ensures Folded(Folded(name)) == Folded(name)
  {
    SecondFold(name);
    var runs := Runs(Components(name));
    var rendered := RenderAll(runs);
    forall i, j | 0 <= i < |rendered| && 0 <= j < |rendered| && j == i + 1 ensures rendered[i] != rendered[j] {
      WrittenAlikeIff(runs[i], runs[j]);
      assert !OneSpellsOther(runs, i);
    }
    RunsOfDistinct(rendered);
    assert RenderAll(Singletons(rendered)) == rendered;
  }

  lemma SpelledOutJoins(name: string, i: nat)
    requires AreMaximal(Runs(Components(name))) && i + 1 < |Runs(Components(name))|
    requires OneSpellsOther(Runs(Components(name)), i)
    ensures Folded(Folded(name)) != Folded(name)
  {
    SecondFold(name);
    var rendered := RenderAll(Runs(Components(name)));
    EqualNeighboursJoin(rendered, i);
    assert |Split(Folded(Folded(name)), '.')| < |Split(Folded(name), '.')|;
  }

  /** Folding a name twice is folding it once, exactly if no lone component is the text of the group
      next to it. */
  lemma FoldingIsIdempotentIff(name: string)
    ensures Folded(Folded(name)) == Folded(name) <==> FoldsOnce(name)
  {
    if FoldsOnce(name) {
      FoldsOnceIsStable(name);
    } else {
      RunsAreMaximal(Components(name));
      var runs := Runs(Components(name));
      var i :| 0 <= i < |runs| - 1 && OneSpellsOther(runs, i);
      SpelledOutJoins(name, i);
    }
  }

  lemma NotSpelledOut(a: seq<string>, b: seq<string>)
    requires a != [] && IsRun(b) && !Ambiguous(a)
    ensures !SpellsOut(a, b)
  {
    if |b| > 1 {
      ParseOfRender(b);
    }
  }

  /** Unambiguous names fold once; the converse fails. */
  lemma UnambiguousFoldsOnce(name: string)
    requires Unambiguous(name)
    ensures FoldsOnce(name) && Folded(Folded(name)) == Folded(name)
  {
    var runs := Runs(Components(name));
    RunsAreMaximal(Components(name));
    forall i | 0 <= i < |runs| - 1 ensures !OneSpellsOther(runs, i) {
      NotSpelledOut(runs[i], runs[i + 1]);
      NotSpelledOut(runs[i + 1], runs[i]);
    }
    FoldingIsIdempotentIff(name);
  }

  lemma FoldedOfParts(parts: seq<string>, tail: string)
    requires NoneContains(parts + [tail], '.')
    ensures AreMaximal(Runs(parts))
    ensures Components(Join(parts + [tail], ".")) == parts
    ensures Folded(Join(parts + [tail], ".")) == Join(RenderAll(Runs(parts)) + [tail], ".")
  {
    var name := Join(parts + [tail], ".");
    SplitOfJoin(parts + [tail], '.');
    assert Components(name) == parts && Tail(name) == tail;
    PartsOfFolded(name);
  }

  lemma ExampleRuns(g: string)
    requires g != "a"
    ensures Runs([g, "a", "a"]) == [[g], ["a", "a"]]
    ensures Runs([g, g]) == [[g, g]]
  {
    assert [] + [g] == [g] && [g] + ["a"] == [g, "a"] && [g, "a"] + ["a"] == [g, "a", "a"] && [g] + [g] == [g, g];
    RunsSnoc([], g);
    RunsSnoc([g], "a");
    RunsSnoc([g, "a"], "a");
    RunsSnoc([g], g);
    assert Extend([], g) == [[g]];
    assert Extend([[g]], "a") == [[g], ["a"]];
    var runs := [[g], ["a"]];
    assert runs[..1] == [[g]] && runs[1] + ["a"] == ["a", "a"];
    assert Extend(runs, "a") == [[g], ["a", "a"]];
    assert [[g]][..0] == [] && [g] + [g] == [g, g];
    assert Extend([[g]], g) == [[g, g]];
  }

  /** An ambiguous name can change again when it is folded a second time: `{a#2}.a.a.b`. */
  lemma AmbiguousNameFoldsTwice()
    ensures var name := Join(["{a#2}", "a", "a"] + ["b"], ".");
      && !Unambiguous(name)
      && Folded(name) == Join(["{a#2}", "{a#2}"] + ["b"], ".")
      && Folded(Folded(name)) == Join(["{{a#2}#2}"] + ["b"], ".")
  {
    var g := "{a#2}";
    ExampleRuns(g);
    ExampleRenders(g);
    FoldedOfParts([g, "a", "a"], "b");
    FoldedOfParts([g, g], "b");
    ParseOfRender(["a", "a"]);
    assert Ambiguous([[g], ["a", "a"]][0]);
  }

  /** An ambiguous name may also stay as it is: `{a#2}.b`. */
  lemma AmbiguousNameFoldsOnce()
    ensures var name := Join(["{a#2}"] + ["b"], "."); !Unambiguous(name) && FoldsOnce(name)
  {
    var g := "{a#2}";
    ExampleRenders(g);
    FoldedOfParts([g], "b");
    RunsSnoc([], g);
    assert [] + [g] == [g] && Runs([g]) == [[g]];
    ParseOfRender(["a", "a"]);
    assert Ambiguous(Runs([g])[0]);
  }

  lemma ExampleRenders(g: string)
    requires g == "{a#2}"
    ensures Render(["a", "a"]) == g
    ensures RenderAll([[g], ["a", "a"]]) == [g, g]
    ensures RenderAll([[g, g]]) == ["{{a#2}#2}"]
  {
    assert ToDecimal(2) == "2";
    assert Render(["a", "a"]) == g && Render([g, g]) == "{{a#2}#2}";
  }
}
