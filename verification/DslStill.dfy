/** A clean leaf prints as a clean leaf: putting parts closer together, or arguments after one space, makes no
    keyword. */
module DslStill {
  import opened Wrappers
  import opened Text
  import opened DslAst
  import opened ExprSplit
  import opened ExprParser
  import opened PaddedSplit
  import opened Format
  import opened FormatClean
  import opened DslGrammar
  import opened DslStable
  import opened DslReprint
  import opened DslLeaf
  import opened DslClean

  // ---- Texts without keywords ----

  /** No keyword, parenthesis or comment sign anywhere. */
  ghost predicate Still(s: string) {
    Plain(s) && forall op, k: nat :: !MatchesKeyword(s, k, op)
  }

  lemma PlainIsFlat(s: string)
    requires Plain(s)
    ensures Flat(s) && Masked(s)
  {
  }

  lemma QuietIsStill(s: string)
    requires Plain(s) && Quiet(s, And) && Quiet(s, Or)
    ensures Still(s)
  {
    PlainIsFlat(s);
    forall op, k: nat ensures !MatchesKeyword(s, k, op) {
      if MatchesKeyword(s, k, op) {
        KeywordIsLetters(s, op, k);
        FlatLevel(s, k);
        assert TopKeyword(s, op, k);
      }
    }
  }

  lemma StillIsQuiet(s: string)
    requires Still(s)
    ensures Masked(s) && Balanced(s) && Quiet(s, And) && Quiet(s, Or)
  {
    PlainIsFlat(s);
    FlatBalanced(s);
    hide MatchesKeyword, Balanced;
  }

  /** A cut at which no two letters or digits meet. */
  lemma StillCut(s: string, n: nat)
    requires Still(s) && n <= |s| && Edge(s, n)
    ensures Still(s[..n]) && Still(s[n..])
  {
    hide MatchesKeyword, Edge;
    NoEdgeAtEnds(s);
    forall op, k: nat ensures !MatchesKeyword(s[..n], k, op) && !MatchesKeyword(s[n..], k, op) {
      KeywordOfSlice(s, op, 0, n, k);
      KeywordOfSlice(s, op, n, |s|, k);
      WholeSlices(s, n);
    }
  }

  lemma NoEdgeAtEnds(s: string)
    ensures Edge(s, 0) && Edge(s, |s|)
  {
  }

  lemma WholeSlices(s: string, n: nat)
    requires n <= |s|
    ensures s[0..n] == s[..n] && s[n..|s|] == s[n..]
  {
  }

  lemma StillJoin(a: string, b: string)
    requires Still(a) && Still(b) && Edge(a + b, |a|)
    ensures Still(a + b)
  {
    hide MatchesKeyword, Edge;
    forall op, k: nat | MatchesKeyword(a + b, k, op)
      ensures if k < |a| then MatchesKeyword(a, k, op) else MatchesKeyword(b, k - |a|, op)
    {
      KeywordOfConcat(a, b, op, k);
    }
  }

  /** A text that does not start with a letter or digit. */
  predicate Apart(x: string) {
    x == "" || !IsAlnum(x[0])
  }

  lemma ApartCut(s: string, n: nat)
    requires n <= |s| && Apart(s[n..])
    ensures Edge(s, n)
  {
    assert n < |s| ==> s[n..][0] == s[n];
  }

  lemma ApartJoin(a: string, x: string)
    requires Apart(x)
    ensures Edge(a + x, |a|)
  {
  }

  lemma GapCut(s: string)
    ensures Edge(s, Gap(s))
  {
  }

  lemma StillAfterGap(s: string)
    requires Still(s)
    ensures Still(s[Gap(s)..])
  {
    GapCut(s);
    hide Gap, Edge;
    StillCut(s, Gap(s));
  }

  lemma StillSpace()
    ensures Still(" ")
  {
    forall op, k: nat ensures !MatchesKeyword(" ", k, op) {
      if MatchesKeyword(" ", k, op) {
        KeywordIsLetters(" ", op, k);
      }
    }
  }

  lemma SpacedStill(x: string)
    requires Still(x)
    ensures Still(" " + x)
  {
    hide Still;
    StillSpace();
    SpaceEdge(x);
    StillJoin(" ", x);
  }

  lemma SpaceEdge(x: string)
    ensures Edge(" " + x, |" "|)
  {
  }

  // ---- What is read starts apart ----

  lemma CliApart(s: string)
    requires ReadCli(s).Some?
    ensures Apart(s)
  {
    hide Args;
    ReadCliUnfolds(s);
    if s != "" && IsAlnum(s[0]) {
      AlnumNoGap(s);
      ArgsStart(s);
    }
  }

  lemma QueryApart(s: string)
    requires ReadQuery(s).Some?
    ensures Apart(s)
  {
    hide QueryBody, ReadCli;
    if s != "" && IsAlnum(s[0]) {
      AlnumNoGap(s);
      CliApart(s);
    }
  }

  lemma PathApart(s: string)
    requires ReadPath(s).Some?
    ensures Apart(s)
  {
    hide Path, ReadQuery;
    if s != "" && IsAlnum(s[0]) {
      AlnumNoGap(s);
      if Path(s) > 0 {
        PathStarts(s);
      } else {
        QueryApart(s);
      }
    }
  }

  lemma PortApart(s: string)
    requires ReadPort(s).Some?
    ensures Apart(s)
  {
    hide ReadPath;
    if s != "" && IsAlnum(s[0]) {
      AlnumNoGap(s);
      PathApart(s);
    }
  }

  // ---- Printed tails ----

  /** Without keywords, apart from what stands before, and with a solid end. */
  ghost predicate Neat(x: string) {
    Still(x) && Apart(x) && Solid(x)
  }

  lemma NeatCli(s: string, tail: Tail)
    requires ReadCli(s) == Some(tail) && Solid(s) && Still(s)
    ensures Neat(CliText(tail))
  {
    hide *;
    CliReads(s, tail);
    if tail.cli.None? {
      NoCli(tail);
      NothingIsNeat(s);
    } else {
      StillAfterGap(s);
      SpacedStill(s[Gap(s)..]);
      SolidRest(s, Gap(s));
      SpaceIsNeat(s[Gap(s)..]);
    }
  }

  lemma NothingIsNeat(s: string)
    requires s == "" && Still(s)
    ensures Neat(s)
  {
    hide Still;
  }

  lemma SpaceIsNeat(r: string)
    requires Still(" " + r) && Solid(r) && StartsWith(r, '-')
    ensures Neat(" " + r)
  {
    hide Still;
  }

  /** A part that was read, and then a neat text. */
  lemma PartIsNeat(y: string, n: nat, c: string)
    requires 0 < n <= |y| && Still(y) && Apart(y[n..]) && Neat(c)
    requires c == "" ==> !IsSpace(y[n - 1])
    ensures Still(y[..n] + c) && Solid(y[..n] + c)
    ensures !IsAlnum(y[0]) ==> Neat(y[..n] + c)
  {
    hide Still, Edge, IsSpace, IsAlnum;
    ApartCut(y, n);
    StillCut(y, n);
    ApartJoin(y[..n], c);
    StillJoin(y[..n], c);
    LastOf(y, n, c);
  }

  lemma LastOf(y: string, n: nat, c: string)
    requires 0 < n <= |y|
    ensures var x := y[..n] + c;
            x != "" && x[0] == y[0] && x[|x| - 1] == if c == "" then y[n - 1] else c[|c| - 1]
  {
  }

  lemma NeatQuery(s: string, tail: Tail)
    requires ReadQuery(s) == Some(tail) && Solid(s) && Still(s)
    ensures Neat(QueryText(tail))
  {
    hide Query, ReadCli, CliText, Gap, Neat, Solid, Still;
    var y := s[Gap(s)..];
    SolidRest(s, Gap(s));
    StillAfterGap(s);
    if Query(y) == 0 {
      NeatCli(s, tail);
      CliHasNoQuery(s);
    } else {
      var inner := ReadCli(y[Query(y)..]).value;
      SomeNeatQuery(y, inner);
    }
  }

  lemma SomeNeatQuery(y: string, inner: Tail)
    requires Query(y) > 0 && ReadCli(y[Query(y)..]) == Some(inner) && Solid(y) && Still(y)
    ensures Neat(QueryText(inner.(query := Some(y[1..Query(y)]))))
  {
    hide *;
    var n := Query(y);
    QueryLong(y);
    QueryTextIs(y, n, inner);
    SolidRest(y, n);
    CliApart(y[n..]);
    ApartCut(y, n);
    StillCut(y, n);
    NeatCli(y[n..], inner);
    CliReads(y[n..], inner);
    EndOfQuery(y, n, CliText(inner), inner);
    SignIsApart(y);
    PartIsNeat(y, n, CliText(inner));
  }

  lemma EndOfQuery(y: string, n: nat, c: string, inner: Tail)
    requires 0 < n <= |y| && Solid(y) && (inner.cli.None? ==> y[n..] == "") && (inner.cli.Some? ==> c != "")
    ensures c == "" ==> !IsSpace(y[n - 1])
  {
    hide IsSpace;
    assert y[n..] == "" ==> n == |y|;
  }

  lemma SignIsApart(y: string)
    requires StartsWith(y, '?')
    ensures y != "" && !IsAlnum(y[0])
  {
  }

  lemma NeatPath(s: string, gap: string, tail: Tail)
    requires ReadPath(s) == Some(tail) && Solid(s) && Still(s) && IsGap(gap)
    ensures Neat(PathText(gap, tail))
  {
    hide *;
    var y := s[Gap(s)..];
    SolidRest(s, Gap(s));
    StillAfterGap(s);
    ReadPathAt(s, Gap(s));
    PathTextUnfolds(gap, tail);
    if Path(y) == 0 {
      QueryHasNoPath(s);
      NeatQuery(s, tail);
    } else {
      var inner := ReadQuery(y[Path(y)..]).value;
      SomeNeatPath(y, gap, inner);
      SameQuery(inner, tail);
    }
  }

  lemma SomeNeatPath(y: string, gap: string, inner: Tail)
    requires Path(y) > 0 && ReadQuery(y[Path(y)..]) == Some(inner) && Solid(y) && Still(y) && IsGap(gap)
    ensures Neat(gap + (y[..Path(y)] + QueryText(inner)))
  {
    hide *;
    var n := Path(y);
    PathStarts(y);
    PathEndsSolid(y);
    SolidRest(y, n);
    QueryApart(y[n..]);
    ApartCut(y, n);
    StillCut(y, n);
    NeatQuery(y[n..], inner);
    SlashIsApart(y);
    SamePrefixStart(y, n, QueryText(inner));
    PartIsNeat(y, n, QueryText(inner));
    GapIsNeat(gap, y[..n] + QueryText(inner));
  }

  lemma SlashIsApart(y: string)
    requires y != "" && (y[0] == '/' || y[0] == '*')
    ensures !IsAlnum(y[0])
  {
  }

  lemma GapIsNeat(gap: string, x: string)
    requires IsGap(gap) && Neat(x) && x != ""
    ensures Neat(gap + x)
  {
    hide Still;
    if gap == "" {
      assert gap + x == x;
    } else {
      SpacedStill(x);
    }
  }

  /** A path does not end in white space. */
  lemma PathEndsSolid(y: string)
    requires Path(y) > 0
    ensures !IsSpace(y[Path(y) - 1])
  {
    PathCharsOnly(y);
    hide Path;
    assert IsPathOrSlash(y[Path(y) - 1]);
  }

  predicate PathOnly(s: string, n: nat) {
    n <= |s| && forall i | 0 <= i < n :: IsPathOrSlash(s[i])
  }

  lemma PathOnlyMore(s: string, n: nat, m: nat)
    requires PathOnly(s, n) && PathOnly(s[n..], m)
    ensures PathOnly(s, n + m)
  {
    assert forall i | n <= i < n + m :: s[i] == s[n..][i - n];
  }

  lemma PathOnlyNone(s: string)
    ensures PathOnly(s, 0)
  {
  }

  lemma PathOnlySlash(s: string)
    requires StartsWith(s, '/')
    ensures PathOnly(s, 1)
  {
  }

  lemma SegmentChars(s: string)
    ensures PathOnly(s, PathSegment(s))
  {
    assert "**"[0] == '*' && "**"[1] == '*' && "*"[0] == '*';
    assert forall i | 0 <= i < Leading(s, IsPathChar) :: IsPathChar(s[i]);
  }

  lemma {:induction false} SegmentsSlashChars(s: string)
    ensures PathOnly(s, SegmentsSlash(s))
    decreases |s|
  {
    hide PathOnly, PathSegment;
    PathOnlyNone(s);
    SegmentChars(s);
    var n := PathSegment(s);
    if SegmentsSlash(s) > 0 {
      PathOnlySlash(s[n..]);
      PathOnlyMore(s, n, 1);
      SegmentsSlashChars(s[n + 1..]);
      PathOnlyMore(s, n + 1, SegmentsSlash(s[n + 1..]));
    }
  }

  lemma SlashSegmentChars(s: string)
    ensures PathOnly(s, SlashSegment(s))
  {
    hide PathOnly, PathSegment;
    PathOnlyNone(s);
    if StartsWith(s, '/') {
      PathOnlySlash(s);
      SegmentChars(s[1..]);
      PathOnlyMore(s, 1, PathSegment(s[1..]));
    }
  }

  lemma {:induction false} SlashSegmentsChars(s: string)
    ensures PathOnly(s, SlashSegments(s))
    decreases |s|
  {
    hide PathOnly, SlashSegment;
    SlashSegmentChars(s);
    var n := SlashSegment(s);
    if n > 0 {
      SlashSegmentsChars(s[n..]);
      PathOnlyMore(s, n, SlashSegments(s[n..]));
    }
  }

  lemma SlashPathChars(s: string)
    ensures PathOnly(s, SlashPath(s))
  {
    hide PathOnly, PathSegment, SegmentsSlash;
    PathOnlyNone(s);
    if StartsWith(s, '/') {
      var n := 1 + SegmentsSlash(s[1..]);
      PathOnlySlash(s);
      SegmentsSlashChars(s[1..]);
      PathOnlyMore(s, 1, SegmentsSlash(s[1..]));
      SegmentChars(s[n..]);
      PathOnlyMore(s, n, PathSegment(s[n..]));
    }
  }

  lemma StarChars(s: string)
    ensures ("**" <= s ==> PathOnly(s, 2)) && ("*" <= s ==> PathOnly(s, 1))
  {
    assert "**"[0] == '*' && "**"[1] == '*' && "*"[0] == '*';
  }

  lemma PathCharsOnly(s: string)
    ensures PathOnly(s, Path(s))
  {
    hide PathOnly, SlashPath, SlashSegments;
    PathOnlyNone(s);
    SlashPathChars(s);
    StarChars(s);
    if "**" <= s {
      SlashSegmentsChars(s[2..]);
      PathOnlyMore(s, 2, SlashSegments(s[2..]));
    }
    if "*" <= s {
      SlashSegmentsChars(s[1..]);
      PathOnlyMore(s, 1, SlashSegments(s[1..]));
    }
  }

  lemma NeatPort(s: string, gap: string, tail: Tail)
    requires ReadPort(s) == Some(tail) && Solid(s) && Still(s) && IsGap(gap)
    ensures Neat(PortText(gap, tail))
  {
    hide *;
    var y := s[Gap(s)..];
    SolidRest(s, Gap(s));
    StillAfterGap(s);
    ReadPortAt(s, Gap(s));
    PortTextUnfolds(gap, tail);
    if Port(y) == 0 {
      PathHasNoPort(s);
      NeatPath(s, gap, tail);
    } else {
      var inner := ReadPath(y[Port(y)..]).value;
      SomeNeatPort(y, gap, inner);
      SamePath(gap, inner, tail);
    }
  }

  lemma SomeNeatPort(y: string, gap: string, inner: Tail)
    requires Port(y) > 0 && ReadPath(y[Port(y)..]) == Some(inner) && Solid(y) && Still(y) && IsGap(gap)
    ensures Neat(y[..Port(y)] + PathText(gap, inner))
  {
    hide *;
    var n := Port(y);
    PortEnds(y);
    SolidRest(y, n);
    PathApart(y[n..]);
    ApartCut(y, n);
    StillCut(y, n);
    NeatPath(y[n..], gap, inner);
    PartIsNeat(y, n, PathText(gap, inner));
  }

  lemma PortEnds(y: string)
    requires Port(y) > 0
    ensures y != "" && !IsAlnum(y[0]) && !IsSpace(y[Port(y) - 1])
  {
    var n := Port(y);
    assert y[n - 1] == y[1..][n - 2] && IsDigit(y[1..][n - 2]);
  }

  // ---- Printed urls ----

  /** A host and what follows: without keywords, and with a solid end. */
  lemma StillHost(scheme: Option<string>, y: string, fragment: Fragment, gap: string)
    requires Host(y) > 0 && ReadHost(scheme, y) == Some(fragment) && Solid(y) && Still(y) && IsGap(gap)
    ensures fragment.UrlFragment?
    ensures var x := y[..Host(y)] + PortText(gap, TailOf(fragment)); Still(x) && Solid(x)
    ensures Apart(y[Host(y)..]) && Apart(PortText(gap, TailOf(fragment)))
  {
    hide *;
    var n := Host(y);
    var tail := ReadHostUnfolds(scheme, y, fragment);
    SolidRest(y, n);
    PortApart(y[n..]);
    ApartCut(y, n);
    StillCut(y, n);
    NeatPort(y[n..], gap, tail);
    HostEndsSolid(y);
    PartIsNeat(y, n, PortText(gap, tail));
    NeatIsApart(PortText(gap, tail));
  }

  lemma NeatIsApart(x: string)
    requires Neat(x)
    ensures Apart(x) && Still(x) && Solid(x)
  {
    hide Still;
  }

  lemma HostEndsSolid(y: string)
    requires Host(y) > 0
    ensures !IsSpace(y[Host(y) - 1])
  {
    HostChars(y);
    hide Host;
    assert IsHostChar(y[Host(y) - 1]);
  }

  /** Texts that share a start, and then both end or go on apart: neither starts with a bare NOT unless both
      do. */
  lemma BareStart(t: string, x: string, n: nat)
    requires Shares(t, x, n) && (n >= 4 || (Apart(t[n..]) && Apart(x[n..]))) && !IsBareNot(t)
    ensures !IsBareNot(x)
  {
    hide EqIgnoreCase;
    if n >= 3 {
      assert t[..3] == x[..3];
      assert n == 3 ==> (|t| > 3 ==> t[3..][0] == t[3]) && (|x| > 3 ==> x[3..][0] == x[3]);
    } else {
      NotIsAlnum(x);
      assert n < |x| ==> x[n..][0] == x[n];
    }
  }

  lemma NotIsAlnum(x: string)
    ensures IsBareNot(x) ==> |x| >= 3 && IsAlnum(x[0]) && IsAlnum(x[1]) && IsAlnum(x[2])
  {
    if |x| >= 3 {
      assert Lower(x[..3])[0] == LowerChar(x[0]) && Lower(x[..3])[1] == LowerChar(x[1]) &&
             Lower(x[..3])[2] == LowerChar(x[2]);
      assert Lower("NOT")[0] == 'n' && Lower("NOT")[1] == 'o' && Lower("NOT")[2] == 't';
    }
  }

  lemma PrefixIsBare(x: string)
    ensures IsNotPrefix(x) ==> IsBareNot(x)
  {
    if IsNotPrefix(x) {
      var w := x[..4];
      assert x[3] == w[3] && Lower(w)[3] == LowerChar(w[3]) && Lower("NOT ")[3] == ' ';
      assert forall i | 0 <= i < 3 :: x[..3][i] == w[i] && "NOT"[i] == "NOT "[i];
      assert forall i | 0 <= i < 3 :: Lower(x[..3])[i] == Lower(w)[i] == Lower("NOT ")[i] == Lower("NOT")[i];
      assert Lower(x[..3]) == Lower("NOT");
    }
  }

  lemma StillUrl(t: string, fragment: Fragment)
    requires ReadUrl(t) == Some(fragment) && Solid(t) && Still(t) && !IsBareNot(t)
    ensures fragment.UrlFragment?
    ensures var x := Render(fragment); Still(x) && Solid(x) && !IsBareNot(x)
  {
    hide *;
    ReadUrlUnfolds(t);
    if Scheme(t) > 0 && Host(AfterScheme(t)) > 0 {
      StillSchemeUrl(t, fragment);
    } else if Host(t) > 0 {
      StillHostUrl(t, fragment);
    } else {
      StillPathUrl(t, fragment, ReadPath(t).value);
    }
  }

  lemma StillSchemeUrl(t: string, fragment: Fragment)
    requires Scheme(t) > 0 && Host(AfterScheme(t)) > 0
    requires ReadHost(Some(t[..Scheme(t)]), AfterScheme(t)) == Some(fragment)
    requires Solid(t) && Still(t) && !IsBareNot(t)
    ensures fragment.UrlFragment?
    ensures var x := Render(fragment); Still(x) && Solid(x) && !IsBareNot(x)
  {
    hide *;
    var n, y := Scheme(t), AfterScheme(t);
    AfterSchemeIs(t);
    SolidRest(t, n);
    SolidRest(t[n..], Gap(t[n..]));
    SchemeCut(t);
    StillCut(t, n);
    StillAfterGap(t[n..]);
    var tail := ReadHostUnfolds(Some(t[..n]), y, fragment);
    var gap := RenderIs(fragment);
    StillHost(Some(t[..n]), y, fragment, gap);
    PartsAre(fragment, t[..n], y[..Host(y)]);
    var z := y[..Host(y)] + PortText(gap, TailOf(fragment));
    SchemeJoin(t, z);
    StillJoin(t[..n], z);
    HostNotEmpty(y, PortText(gap, TailOf(fragment)));
    SolidAfter(t[..n], z);
    SharesPrefix(t, n, z);
    BareStart(t, t[..n] + z, n);
  }

  lemma SchemeCut(t: string)
    requires Scheme(t) > 0
    ensures Edge(t, Scheme(t)) && Scheme(t) >= 4
  {
    var j := SchemeShape(t);
    hide Scheme;
  }

  lemma SchemeJoin(t: string, z: string)
    requires Scheme(t) > 0
    ensures Edge(t[..Scheme(t)] + z, |t[..Scheme(t)]|)
  {
    var j := SchemeShape(t);
    hide Scheme;
  }

  lemma HostNotEmpty(y: string, c: string)
    requires Host(y) > 0
    ensures y[..Host(y)] + c != ""
  {
    hide Host;
  }

  lemma SolidAfter(a: string, z: string)
    requires Solid(z) && z != ""
    ensures Solid(a + z)
  {
  }

  lemma StillHostUrl(t: string, fragment: Fragment)
    requires Host(t) > 0 && ReadHost(None, t) == Some(fragment) && Solid(t) && Still(t) && !IsBareNot(t)
    ensures fragment.UrlFragment?
    ensures var x := Render(fragment); Still(x) && Solid(x) && !IsBareNot(x)
  {
    hide *;
    var n := Host(t);
    var tail := ReadHostUnfolds(None, t, fragment);
    var gap := RenderIs(fragment);
    StillHost(None, t, fragment, gap);
    HostPartsAre(fragment, t[..n]);
    var c := PortText(gap, TailOf(fragment));
    var x := t[..n] + c;
    NothingBefore(x);
    SharesPrefix(t, n, c);
    PrefixBack(t, n, c);
    BareStart(t, x, n);
  }

  lemma StillPathUrl(t: string, fragment: Fragment, tail: Tail)
    requires (Path(t) > 0 || Query(t) > 0) && ReadPath(t) == Some(tail) && fragment == UrlOf(None, None, tail)
    requires Solid(t) && Still(t)
    ensures fragment.UrlFragment?
    ensures var x := Render(fragment); Still(x) && Solid(x) && !IsBareNot(x)
  {
    hide *;
    BareUrl(fragment, tail);
    var gap := RenderIs(fragment);
    var x := PortText(gap, tail);
    NothingBefore(x);
    PathOnlyPort(t, tail);
    NeatPort(t, gap, tail);
    NeatIsApart(x);
    ApartIsNotBare(x);
  }

  lemma PathOnlyPort(t: string, tail: Tail)
    requires (Path(t) > 0 || Query(t) > 0) && ReadPath(t) == Some(tail)
    ensures ReadPort(t) == Some(tail)
  {
    StartNoGap(t);
    WholeText(t);
    hide Gap, ReadPath, QueryBody, Path;
    if Path(t) > 0 {
      PathStarts(t);
    }
  }

  lemma ApartIsNotBare(x: string)
    requires Apart(x)
    ensures !IsBareNot(x)
  {
    NotIsAlnum(x);
  }

  // ---- Leaves ----

  /** What a clean leaf prints as is clean. */
  lemma CleanPrints(t: string, fragment: Fragment)
    requires CleanLeaf(t) && ReadLeaf(t) == Some(fragment)
    ensures CleanLeaf(Render(fragment))
  {
    hide *;
    CleanUnfolds(t);
    LeafReads(t, fragment);
    if fragment.UrlFragment? {
      TrimmedIsSolid(t);
      PlainUrl(t);
      QuietIsStill(t);
      StillUrl(t, fragment);
      UrlReads(t, fragment);
      var x := Render(fragment);
      StillIsQuiet(x);
      PrefixIsBare(x);
      CleanIs(x);
    }
  }

  lemma CleanUnfolds(t: string)
    requires CleanLeaf(t)
    ensures t != "" && Trimmed(t) && Quiet(t, And) && Quiet(t, Or) && !IsBareNot(t)
  {
    hide Trimmed, Quiet, IsBareNot, IsNotPrefix, Balanced;
  }

  lemma CleanIs(x: string)
    requires x != "" && !IsSpace(x[0]) && Solid(x) && Still(x) && Masked(x) && Balanced(x)
    requires Quiet(x, And) && Quiet(x, Or) && !IsNotPrefix(x) && !IsBareNot(x)
    ensures CleanLeaf(x)
  {
    PlainIsFlat(x);
    assert x[0] in x;
    hide Quiet, Balanced, IsBareNot, IsNotPrefix, MatchesKeyword;
  }
}
