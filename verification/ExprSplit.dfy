/** Cutting an expression at its top-level AND or OR keywords. */
module ExprSplit {
  import opened Wrappers
  import opened Text
  import opened DslAst

  datatype LogicOp = And | Or

  datatype Segment = Segment(start: nat, text: string) {
    function End(): nat {
      start + |text|
    }
  }

  function Keyword(op: LogicOp): string {
    match op
    case And => "AND"
    case Or => "OR"
  }

  predicate MatchesKeyword(s: string, index: nat, op: LogicOp) {
    var after := index + |Keyword(op)|;
    && after <= |s|
    && EqIgnoreCase(s[index..after], Keyword(op))
    && (index == 0 || !IsAlnum(s[index - 1]))
    && (after >= |s| || !IsAlnum(s[after]))
  }

  // ---- The scan ----

  datatype ScanResult =
    | Stray(at: nat)
    | Done(depth: nat, start: nat, segments: seq<Segment>)

  function CommentEnd(s: string, i: nat): (n: nat)
    requires i <= |s|
    ensures i <= n <= |s|
    ensures i < |s| && s[i] != '\n' ==> i < n
    decreases |s| - i
  {
    if i < |s| && s[i] != '\n' then CommentEnd(s, i + 1) else i
  }

  function Push(segments: seq<Segment>, s: string, start: nat, end: nat): seq<Segment>
    requires start <= end <= |s|
  {
    if Trim(s[start..end]) == "" then segments else segments + [Segment(start, s[start..end])]
  }

  function Scan(s: string, op: LogicOp, i: nat, depth: nat, start: nat, segments: seq<Segment>): (r: ScanResult)
    requires start <= i <= |s|
    ensures r.Done? ==> r.start <= |s|
    decreases |s| - i
  {
    if i == |s| then Done(depth, start, segments)
    else if s[i] == '(' then Scan(s, op, i + 1, depth + 1, start, segments)
    else if s[i] == ')' then
      if depth == 0 then Stray(i) else Scan(s, op, i + 1, depth - 1, start, segments)
    else if depth == 0 && s[i] == '#' then Scan(s, op, CommentEnd(s, i), depth, start, segments)
    else if depth == 0 && MatchesKeyword(s, i, op) then
      var next := i + |Keyword(op)|;
      Scan(s, op, next, depth, next, Push(segments, s, start, i))
    else Scan(s, op, i + 1, depth, start, segments)
  }

  function Max(a: nat, b: nat): nat {
    if a < b then b else a
  }

  function Finish(s: string, base: nat, allowUnclosed: bool, depth: nat, segments: seq<Segment>)
    : Result<seq<Segment>, ParseError>
  {
    if depth != 0 then
      if allowUnclosed then Ok(segments)
      else Err(Syntax(Span(base + Max(|s|, 1) - 1, base + |s|), "unclosed '('"))
    else if segments == [] then Err(Syntax(Span(base, base + Max(|s|, 1)), "empty expression"))
    else Ok(segments)
  }

  function Split(s: string, op: LogicOp, base: nat, allowUnclosed: bool): Result<seq<Segment>, ParseError> {
    match Scan(s, op, 0, 0, 0, [])
    case Stray(at) => Err(Syntax(Span(base + at, base + at + 1), "unexpected ')'"))
    case Done(depth, start, segments) => Finish(s, base, allowUnclosed, depth, Push(segments, s, start, |s|))
  }

  method SplitTopLevel(s: string, op: LogicOp, base: nat, allowUnclosed: bool)
    returns (r: Result<seq<Segment>, ParseError>)
    ensures r == Split(s, op, base, allowUnclosed)
  {
    hide MatchesKeyword, Finish, Push, Trim;
    var segments: seq<Segment> := [];
    var depth: nat, start: nat, index: nat := 0, 0, 0;
    while index < |s|
      invariant start <= index <= |s|
      invariant Scan(s, op, 0, 0, 0, []) == Scan(s, op, index, depth, start, segments)
    {
      var ch := s[index];
      if ch == '(' {
        depth := depth + 1;
        index := index + 1;
        continue;
      }
      if ch == ')' {
        if depth == 0 {
          return Err(Syntax(Span(base + index, base + index + 1), "unexpected ')'"));
        }
        depth := depth - 1;
        index := index + 1;
        continue;
      }
      if depth == 0 && ch == '#' {
        index := SkipComment(s, index);
        continue;
      }
      if depth == 0 && MatchesKeyword(s, index, op) {
        KeywordIsLetters(s, op, index);
        segments := Push(segments, s, start, index);
        index := index + |Keyword(op)|;
        start := index;
        continue;
      }
      index := index + 1;
    }
    return Finish(s, base, allowUnclosed, depth, Push(segments, s, start, |s|));
  }

  method SkipComment(s: string, from: nat) returns (index: nat)
    requires from <= |s|
    ensures index == CommentEnd(s, from)
  {
    index := from;
    while index < |s| && s[index] != '\n'
      invariant index <= |s|
      invariant CommentEnd(s, index) == CommentEnd(s, from)
    {
      index := index + 1;
    }
  }

  // ---- Parenthesis levels, by counting ----

  function Weight(c: char): int {
    if c == '(' then 1 else if c == ')' then -1 else 0
  }

  /** Opening minus closing parentheses among the first `k` characters. */
  function Level(s: string, k: nat): int
    requires k <= |s|
  {
    if k == 0 then 0 else Level(s, k - 1) + Weight(s[k - 1])
  }

  function Net(s: string): int {
    Level(s, |s|)
  }

  ghost predicate NonNegative(s: string, a: nat, b: nat)
    requires b <= |s|
  {
    forall k | a <= k <= b :: Level(s, k) >= 0
  }

  ghost predicate Balanced(s: string) {
    Net(s) == 0 && NonNegative(s, 0, |s|)
  }

  /** No comment sign, as in every masked source. */
  predicate Masked(s: string) {
    '#' !in s
  }

  predicate TopKeyword(s: string, op: LogicOp, k: nat) {
    MatchesKeyword(s, k, op) && Level(s, k) == 0
  }

  ghost predicate NoKeyword(s: string, op: LogicOp, a: nat, b: nat)
    requires b <= |s|
  {
    forall k: nat | a <= k < b :: !TopKeyword(s, op, k)
  }

  ghost predicate Quiet(s: string, op: LogicOp) {
    NoKeyword(s, op, 0, |s|)
  }

  lemma {:induction false} LevelOfSlice(s: string, a: nat, b: nat, k: nat)
    requires a <= b <= |s| && k <= b - a
    ensures Level(s, a + k) == Level(s, a) + Level(s[a..b], k)
  {
    if k > 0 {
      LevelOfSlice(s, a, b, k - 1);
      assert s[a + k - 1] == s[a..b][k - 1];
    }
  }

  lemma LevelOfConcat(a: string, b: string, k: nat)
    requires k <= |b|
    ensures Level(a + b, |a|) == Net(a)
    ensures Level(a + b, |a| + k) == Net(a) + Level(b, k)
  {
    assert (a + b)[0..|a|] == a && (a + b)[|a|..|a + b|] == b;
    LevelOfSlice(a + b, 0, |a|, |a|);
    LevelOfSlice(a + b, |a|, |a + b|, k);
  }

  lemma LevelOfPrefix(a: string, b: string, k: nat)
    requires k <= |a|
    ensures Level(a + b, k) == Level(a, k)
  {
    assert (a + b)[0..|a|] == a;
    LevelOfSlice(a + b, 0, |a|, k);
  }

  lemma LevelSteps(s: string, i: nat)
    requires i < |s|
    ensures Level(s, i + 1) == Level(s, i) + Weight(s[i])
  {
  }

  lemma KeywordIsLetters(s: string, op: LogicOp, i: nat)
    requires MatchesKeyword(s, i, op)
    ensures i + |Keyword(op)| <= |s|
    ensures forall k | i <= k < i + |Keyword(op)| :: IsAlnum(s[k])
  {
    var w := s[i..i + |Keyword(op)|];
    forall k | i <= k < i + |Keyword(op)| ensures IsAlnum(s[k]) {
      assert LowerChar(w[k - i]) == Lower(w)[k - i] == Lower(Keyword(op))[k - i];
    }
  }

  lemma TopKeywordMatches(s: string, op: LogicOp, i: nat)
    requires TopKeyword(s, op, i)
    ensures MatchesKeyword(s, i, op) && i < i + |Keyword(op)| <= |s|
  {
  }

  lemma ScanCuts(s: string, op: LogicOp, i: nat, start: nat, segments: seq<Segment>)
    requires start <= i && TopKeyword(s, op, i)
    ensures var next := i + |Keyword(op)|;
            && next <= |s| && Level(s, i) == 0
            && Scan(s, op, i, 0, start, segments) == Scan(s, op, next, 0, next, Push(segments, s, start, i))
  {
    KeywordIsLetters(s, op, i);
  }

  lemma ScanSteps(s: string, op: LogicOp, i: nat, start: nat, segments: seq<Segment>)
    requires Masked(s) && start <= i < |s| && !TopKeyword(s, op, i) && Level(s, i) >= 0 && Level(s, i + 1) >= 0
    ensures Scan(s, op, i, Level(s, i), start, segments) == Scan(s, op, i + 1, Level(s, i + 1), start, segments)
  {
    LevelSteps(s, i);
    assert s[i] != '#';
    hide Level, MatchesKeyword;
  }

  /** Over a stretch without top-level keywords the scan only follows the level. */
  lemma {:induction false} ScanSkips(s: string, op: LogicOp, i: nat, j: nat, start: nat, segments: seq<Segment>)
    requires Masked(s) && start <= i <= j <= |s|
    requires NonNegative(s, i, j) && NoKeyword(s, op, i, j)
    ensures Scan(s, op, i, Level(s, i), start, segments) == Scan(s, op, j, Level(s, j), start, segments)
    decreases j - i
  {
    hide Level, TopKeyword, Scan;
    if i < j {
      ScanSteps(s, op, i, start, segments);
      ScanSkips(s, op, i + 1, j, start, segments);
    }
  }

  // ---- What a strict split is ----

  predicate InSegments(segments: seq<Segment>, i: nat) {
    exists j | 0 <= j < |segments| :: segments[j].start <= i < segments[j].End()
  }

  predicate InKeyword(s: string, op: LogicOp, i: nat) {
    exists k: nat | i < k + |Keyword(op)| && k <= i :: TopKeyword(s, op, k)
  }

  /** A segment is a whole stretch between top-level keywords: it is bounded by the ends of the text
      or by such keywords, contains none, is not blank, and its parentheses balance. */
  ghost predicate IsStretch(s: string, op: LogicOp, g: Segment) {
    var n := |Keyword(op)|;
    && g.End() <= |s| && g.text == s[g.start..g.End()]
    && !Blank(g.text) && Level(s, g.start) == 0
    && (g.start == 0 || (g.start >= n && TopKeyword(s, op, g.start - n)))
    && (g.End() == |s| || TopKeyword(s, op, g.End()))
    && NoKeyword(s, op, g.start, g.End())
    && NonNegative(s, g.start, g.End())
  }

  ghost predicate Stretches(s: string, op: LogicOp, segments: seq<Segment>) {
    && (forall j | 0 <= j < |segments| :: IsStretch(s, op, segments[j]))
    && (forall j, k | 0 <= j < k < |segments| :: segments[j].End() < segments[k].start)
  }

  /** The first `end` characters are covered by segments, keywords and white space. */
  ghost predicate Covered(s: string, op: LogicOp, segments: seq<Segment>, end: nat)
    requires end <= |s|
  {
    forall i: nat | i < end :: InSegments(segments, i) || InKeyword(s, op, i) || IsSpace(s[i])
  }

  ghost predicate ScanInvariant(s: string, op: LogicOp, i: nat, start: nat, segments: seq<Segment>) {
    var n := |Keyword(op)|;
    && start <= i <= |s|
    && Stretches(s, op, segments)
    && (forall j | 0 <= j < |segments| :: segments[j].End() < start)
    && (start == 0 || (start >= n && TopKeyword(s, op, start - n)))
    && Level(s, start) == 0
    && NonNegative(s, 0, i)
    && NoKeyword(s, op, start, i)
    && Covered(s, op, segments, start)
  }

  /** A keyword keeps the level, and no other occurrence starts inside it. */
  lemma KeywordLevel(s: string, op: LogicOp, i: nat)
    requires MatchesKeyword(s, i, op)
    ensures i + |Keyword(op)| <= |s|
    ensures forall k | i <= k <= i + |Keyword(op)| :: Level(s, k) == Level(s, i)
    ensures forall k: nat | i < k <= i + |Keyword(op)| :: !MatchesKeyword(s, k, op)
  {
    hide *;
    KeywordIsLetters(s, op, i);
    NoneInside(s, op, i);
    forall k | i <= k <= i + |Keyword(op)| ensures Level(s, k) == Level(s, i) {
      LettersLevel(s, i, k);
    }
  }

  lemma {:induction false} LettersLevel(s: string, i: nat, k: nat)
    requires i <= k <= |s| && forall j | i <= j < k :: IsAlnum(s[j])
    ensures Level(s, k) == Level(s, i)
  {
    if i < k {
      LettersLevel(s, i, k - 1);
      LevelSteps(s, k - 1);
      hide Level;
    }
  }

  lemma NoneInside(s: string, op: LogicOp, i: nat)
    requires i + |Keyword(op)| <= |s| && forall k | i <= k < i + |Keyword(op)| :: IsAlnum(s[k])
    ensures forall k: nat | i < k <= i + |Keyword(op)| :: !MatchesKeyword(s, k, op)
  {
    hide IsAlnum, EqIgnoreCase;
  }

  lemma PushCovers(s: string, op: LogicOp, i: nat, start: nat, segments: seq<Segment>)
    requires start <= i <= |s| && Covered(s, op, segments, start)
    ensures Covered(s, op, Push(segments, s, start, i), i)
  {
    var all, g := Push(segments, s, start, i), Segment(start, s[start..i]);
    forall p: nat | p < i ensures InSegments(all, p) || InKeyword(s, op, p) || IsSpace(s[p]) {
      if p < start {
        if InSegments(segments, p) {
          var j :| 0 <= j < |segments| && segments[j].start <= p < segments[j].End();
          assert all[j] == segments[j];
        }
      } else if Blank(g.text) {
        assert g.text[p - start] == s[p];
      } else {
        assert all[|segments|] == g;
      }
    }
  }

  lemma PushKeeps(s: string, op: LogicOp, i: nat, start: nat, segments: seq<Segment>)
    requires start <= i <= |s| && Stretches(s, op, segments)
    requires forall j | 0 <= j < |segments| :: segments[j].End() < start
    requires IsStretch(s, op, Segment(start, s[start..i])) || Blank(s[start..i])
    ensures var all := Push(segments, s, start, i);
            && Stretches(s, op, all)
            && (forall j | 0 <= j < |all| :: all[j].End() <= i)
  {
    hide IsStretch, TopKeyword, Blank, Trim;
    if Trim(s[start..i]) != "" {
      var all := segments + [Segment(start, s[start..i])];
      assert forall j | 0 <= j < |segments| :: all[j] == segments[j];
    }
  }

  lemma LastIsStretch(s: string, op: LogicOp, i: nat, start: nat, segments: seq<Segment>)
    requires ScanInvariant(s, op, i, start, segments)
    requires i == |s| || TopKeyword(s, op, i)
    ensures IsStretch(s, op, Segment(start, s[start..i])) || Blank(s[start..i])
  {
    hide Covered, Stretches, Level, TopKeyword, Blank;
  }

  lemma CutKeeps(s: string, op: LogicOp, i: nat, start: nat, segments: seq<Segment>)
    requires ScanInvariant(s, op, i, start, segments) && TopKeyword(s, op, i)
    ensures var next := i + |Keyword(op)|;
            i < next <= |s| && ScanInvariant(s, op, next, next, Push(segments, s, start, i))
  {
    var next, all := i + |Keyword(op)|, Push(segments, s, start, i);
    KeywordLevel(s, op, i);
    LastIsStretch(s, op, i, start, segments);
    PushKeeps(s, op, i, start, segments);
    PushCovers(s, op, i, start, segments);
    forall p: nat | p < next ensures InSegments(all, p) || InKeyword(s, op, p) || IsSpace(s[p]) {
      assert p >= i ==> InKeyword(s, op, p);
    }
  }

  lemma StepKeeps(s: string, op: LogicOp, i: nat, start: nat, segments: seq<Segment>)
    requires ScanInvariant(s, op, i, start, segments)
    requires i < |s| && !TopKeyword(s, op, i) && Level(s, i + 1) >= 0
    ensures ScanInvariant(s, op, i + 1, start, segments)
  {
    hide Covered, Stretches, Level, TopKeyword;
  }

  lemma InvariantLevel(s: string, op: LogicOp, i: nat, start: nat, segments: seq<Segment>)
    requires ScanInvariant(s, op, i, start, segments)
    ensures NonNegative(s, 0, i) && Level(s, i) >= 0
  {
  }

  ghost predicate ScanEnds(s: string, op: LogicOp, r: ScanResult) {
    match r
    case Stray(at) => at < |s| && s[at] == ')' && Level(s, at) == 0 && NonNegative(s, 0, at)
    case Done(depth, start, segments) => depth == Net(s) && ScanInvariant(s, op, |s|, start, segments)
  }

  lemma ScanStops(s: string, op: LogicOp, i: nat, start: nat, segments: seq<Segment>)
    requires Masked(s) && ScanInvariant(s, op, i, start, segments) && !TopKeyword(s, op, i)
    requires i < |s| ==> Level(s, i + 1) < 0
    ensures Level(s, i) >= 0 && ScanEnds(s, op, Scan(s, op, i, Level(s, i), start, segments))
  {
    InvariantLevel(s, op, i, start, segments);
    if i < |s| {
      LevelSteps(s, i);
    }
    hide Level, NonNegative, MatchesKeyword, Stretches, Covered;
  }

  lemma {:induction false} ScanTiles(
    s: string, op: LogicOp, i: nat, depth: nat, start: nat, segments: seq<Segment>)
    requires Masked(s) && start <= i <= |s| && depth == Level(s, i) && ScanInvariant(s, op, i, start, segments)
    ensures ScanEnds(s, op, Scan(s, op, i, depth, start, segments))
    decreases |s| - i
  {
    hide *;
    if TopKeyword(s, op, i) {
      assert MatchesKeyword(s, i, op) by { TopKeywordMatches(s, op, i); }
      KeywordLevel(s, op, i);
      CutKeeps(s, op, i, start, segments);
      ScanCuts(s, op, i, start, segments);
      var next := i + |Keyword(op)|;
      ScanTiles(s, op, next, 0, next, Push(segments, s, start, i));
    } else if i < |s| && Level(s, i + 1) >= 0 {
      StepKeeps(s, op, i, start, segments);
      ScanSteps(s, op, i, start, segments);
      ScanTiles(s, op, i + 1, Level(s, i + 1), start, segments);
    } else {
      ScanStops(s, op, i, start, segments);
    }
  }

  lemma ScanFromStart(s: string, op: LogicOp)
    requires Masked(s)
    ensures ScanEnds(s, op, Scan(s, op, 0, 0, 0, []))
  {
    ScanTiles(s, op, 0, 0, 0, []);
  }

  /** A strict split tiles its input: the segments are whole stretches between top-level keywords, in
      order, with balanced parentheses; every other position belongs to a top-level keyword or is
      white space; and no position belongs to both a segment and a keyword. */
  lemma SplitTiles(s: string, op: LogicOp, base: nat, segments: seq<Segment>)
    requires Masked(s) && Split(s, op, base, false) == Ok(segments)
    ensures Balanced(s) && segments != []
    ensures Stretches(s, op, segments)
    ensures forall i: nat | i < |s| :: InSegments(segments, i) || InKeyword(s, op, i) || IsSpace(s[i])
    ensures forall i: nat | i < |s| && InSegments(segments, i) :: !InKeyword(s, op, i)
  {
    ScanSays(s, op);
    hide Scan, ScanInvariant, Push, Level, Stretches, Covered, NonNegative;
    SegmentsAvoidKeywords(s, op, segments);
    CoveredSays(s, op, segments);
  }

  /** Where a scan ends: at a stray parenthesis, or at the end with all pushed. */
  ghost predicate Scanned(s: string, op: LogicOp, r: ScanResult) {
    match r
    case Stray(at) => StrayAt(s, at)
    case Done(depth, start, segments) =>
      && start <= |s| && depth == Net(s) && NonNegative(s, 0, |s|)
      && Stretches(s, op, Push(segments, s, start, |s|))
      && Covered(s, op, Push(segments, s, start, |s|), |s|)
  }

  lemma ScanSays(s: string, op: LogicOp)
    requires Masked(s)
    ensures Scanned(s, op, Scan(s, op, 0, 0, 0, []))
  {
    hide Scan, Push, Stretches, Covered;
    ScanFromStart(s, op);
    match Scan(s, op, 0, 0, 0, [])
    case Stray(at) =>
    case Done(depth, start, segments) => LastPush(s, op, start, segments);
  }

  lemma SegmentsAvoidKeywords(s: string, op: LogicOp, segments: seq<Segment>)
    requires Stretches(s, op, segments)
    ensures forall i: nat | i < |s| && InSegments(segments, i) :: !InKeyword(s, op, i)
  {
    hide IsStretch, InKeyword;
    forall i: nat | i < |s| && InSegments(segments, i) ensures !InKeyword(s, op, i) {
      var j :| 0 <= j < |segments| && segments[j].start <= i < segments[j].End();
      StretchAvoidsKeywords(s, op, segments[j], i);
    }
  }

  lemma CoveredSays(s: string, op: LogicOp, segments: seq<Segment>)
    requires Covered(s, op, segments, |s|)
    ensures forall i: nat | i < |s| :: InSegments(segments, i) || InKeyword(s, op, i) || IsSpace(s[i])
  {
    hide InSegments, InKeyword, IsSpace;
  }

  lemma LastPush(s: string, op: LogicOp, start: nat, segments: seq<Segment>)
    requires ScanInvariant(s, op, |s|, start, segments)
    ensures Net(s) == 0 ==> Balanced(s)
    ensures NonNegative(s, 0, |s|) && Stretches(s, op, Push(segments, s, start, |s|))
    ensures Covered(s, op, Push(segments, s, start, |s|), |s|)
  {
    LastIsStretch(s, op, |s|, start, segments);
    PushKeeps(s, op, |s|, start, segments);
    PushCovers(s, op, |s|, start, segments);
  }

  lemma StretchAvoidsKeywords(s: string, op: LogicOp, g: Segment, i: nat)
    requires IsStretch(s, op, g) && g.start <= i < g.End()
    ensures !InKeyword(s, op, i)
  {
    var n := |Keyword(op)|;
    if g.start > 0 {
      KeywordLevel(s, op, g.start - n);
    }
    hide Level, MatchesKeyword, Blank;
    assert forall k: nat | g.start <= k <= i :: !TopKeyword(s, op, k);
    assert g.start > 0 ==> forall k: nat | g.start - n < k <= g.start :: !TopKeyword(s, op, k);
  }

  predicate Exposed(s: string, op: LogicOp, i: nat) {
    i < |s| && !IsSpace(s[i]) && !InKeyword(s, op, i)
  }

  /** Exactly which inputs a strict split accepts: balanced ones with something besides keywords
      and white space. */
  lemma SplitAccepts(s: string, op: LogicOp, base: nat)
    requires Masked(s)
    ensures Split(s, op, base, false).Ok? <==> Balanced(s) && exists i :: Exposed(s, op, i)
  {
    if Split(s, op, base, false).Ok? {
      var segments := Split(s, op, base, false).value;
      SplitTiles(s, op, base, segments);
      StretchExposes(s, op, segments[0]);
    } else if Balanced(s) {
      UnsplitHidesAll(s, op, base);
    }
  }

  lemma StretchExposes(s: string, op: LogicOp, g: Segment)
    requires IsStretch(s, op, g)
    ensures exists i :: Exposed(s, op, i)
  {
    var i :| 0 <= i < |g.text| && !IsSpace(g.text[i]);
    assert s[g.start + i] == g.text[i];
    StretchAvoidsKeywords(s, op, g, g.start + i);
    assert Exposed(s, op, g.start + i);
  }

  lemma UnsplitHidesAll(s: string, op: LogicOp, base: nat)
    requires Masked(s) && Balanced(s) && Split(s, op, base, false).Err?
    ensures forall i :: !Exposed(s, op, i)
  {
    ScanFromStart(s, op);
    match Scan(s, op, 0, 0, 0, [])
    case Stray(at) =>
      LevelSteps(s, at);
    case Done(depth, start, segments) =>
      LastPush(s, op, start, segments);
  }

  /** A split that lets a parenthesis stay open tiles its input too; only the last segment may be open. */
  lemma OpenSplitTiles(s: string, op: LogicOp, base: nat, segments: seq<Segment>)
    requires Masked(s) && Split(s, op, base, true) == Ok(segments)
    ensures Stretches(s, op, segments) && segments != []
    ensures forall i: nat | i < |s| :: InSegments(segments, i) || InKeyword(s, op, i) || IsSpace(s[i])
    ensures forall i: nat | i < |s| && InSegments(segments, i) :: !InKeyword(s, op, i)
  {
    ScanSays(s, op);
    if Net(s) > 0 {
      OpenTail(s, op, base, segments);
    }
    hide Scan, ScanInvariant, Push, Level, Stretches, Covered, NonNegative;
    SegmentsAvoidKeywords(s, op, segments);
    CoveredSays(s, op, segments);
  }

  /** The closing parenthesis that nothing opened, if there is one. */
  ghost predicate StrayAt(s: string, at: nat) {
    at < |s| && s[at] == ')' && Level(s, at) == 0 && NonNegative(s, 0, at)
  }

  /** What a split that fails says: the first closing parenthesis that nothing opened; or else, if that is
      not allowed, that one stays open; or else that there is nothing but keywords and white space. */
  lemma SplitErrors(s: string, op: LogicOp, base: nat, allowUnclosed: bool)
    requires Masked(s) && Split(s, op, base, allowUnclosed).Err?
    ensures var e := Split(s, op, base, allowUnclosed).error;
            if NonNegative(s, 0, |s|) then
              var closed := Net(s) == 0;
              && e == Syntax(Span(base + if closed then 0 else |s| - 1, base + Max(|s|, 1)),
                             if closed then "empty expression" else "unclosed '('")
              && (closed || !allowUnclosed)
            else
              exists at :: StrayAt(s, at) && e == Syntax(Span(base + at, base + at + 1), "unexpected ')'")
  {
    ScanSays(s, op);
    NoLevel(s);
    hide Scan, Push, Level, Net, NonNegative, Stretches, Covered, StrayAt;
    match Scan(s, op, 0, 0, 0, [])
    case Stray(at) => StrayIsNegative(s, at);
    case Done(_, _, _) =>
  }

  lemma StrayIsNegative(s: string, at: nat)
    requires StrayAt(s, at)
    ensures !NonNegative(s, 0, |s|)
  {
    LevelSteps(s, at);
  }

  lemma NoLevel(s: string)
    ensures s == "" ==> Net(s) == 0
  {
  }

  /** Unless a parenthesis stays open, a split that allows it is the strict split. */
  lemma SplitsAgree(s: string, op: LogicOp, base: nat)
    requires Masked(s)
    ensures Net(s) <= 0 ==> Split(s, op, base, true) == Split(s, op, base, false)
    ensures Net(s) > 0 ==> Split(s, op, base, false).Err?
  {
    ScanFromStart(s, op);
  }

  // ---- Slices and concatenations ----

  /** A position where no two letters or digits meet, so that keywords neither appear nor vanish
      when the text is cut there. */
  predicate Edge(s: string, a: nat) {
    a == 0 || a >= |s| || !IsAlnum(s[a - 1]) || !IsAlnum(s[a])
  }

  lemma SliceOfSlice(s: string, a: nat, b: nat, c: nat, d: nat)
    requires a <= b <= |s| && c <= d <= b - a
    ensures s[a..b][c..d] == s[a + c..a + d]
  {
    var x, y := s[a..b][c..d], s[a + c..a + d];
    assert forall i | 0 <= i < |x| :: x[i] == s[a..b][c + i] == s[a + c + i] == y[i];
  }

  lemma KeywordEnds(w: string, op: LogicOp)
    requires |w| == |Keyword(op)| && EqIgnoreCase(w, Keyword(op))
    ensures IsAlnum(w[0]) && IsAlnum(w[|w| - 1])
  {
    assert Lower(w)[0] == LowerChar(w[0]) && Lower(w)[|w| - 1] == LowerChar(w[|w| - 1]);
  }

  lemma KeywordOfSlice(s: string, op: LogicOp, a: nat, b: nat, k: nat)
    requires a <= b <= |s| && Edge(s, a) && Edge(s, b)
    ensures MatchesKeyword(s[a..b], k, op) <==> a + k + |Keyword(op)| <= b && MatchesKeyword(s, a + k, op)
  {
    hide EqIgnoreCase, IsAlnum, Edge;
    var n := |Keyword(op)|;
    if k + n <= b - a {
      SliceOfSlice(s, a, b, k, k + n);
      if EqIgnoreCase(s[a + k..a + k + n], Keyword(op)) {
        WordInSlice(s, op, a, b, k);
      }
    }
  }

  lemma WordInSlice(s: string, op: LogicOp, a: nat, b: nat, k: nat)
    requires a <= b <= |s| && Edge(s, a) && Edge(s, b)
    requires var m := k + |Keyword(op)|; m <= b - a && EqIgnoreCase(s[a + k..a + m], Keyword(op))
    ensures var m := k + |Keyword(op)|;
            && ((k == 0 || !IsAlnum(s[a..b][k - 1])) <==> (a + k == 0 || !IsAlnum(s[a + k - 1])))
            && ((m == b - a || !IsAlnum(s[a..b][m])) <==> (a + m == |s| || !IsAlnum(s[a + m])))
  {
    hide EqIgnoreCase, IsAlnum, Edge;
    var m := k + |Keyword(op)|;
    KeywordEnds(s[a + k..a + m], op);
    BoundaryOfSlice(s, a, b, k, m);
  }

  /** Where a slice cuts at an edge, letters and digits at its ends have none beside them. */
  lemma BoundaryOfSlice(s: string, a: nat, b: nat, k: nat, m: nat)
    requires a <= b <= |s| && Edge(s, a) && Edge(s, b) && k < m <= b - a
    requires IsAlnum(s[a + k]) && IsAlnum(s[a + m - 1])
    ensures (k == 0 || !IsAlnum(s[a..b][k - 1])) <==> (a + k == 0 || !IsAlnum(s[a + k - 1]))
    ensures (m == b - a || !IsAlnum(s[a..b][m])) <==> (a + m == |s| || !IsAlnum(s[a + m]))
  {
    hide IsAlnum;
    if k > 0 {
      assert s[a..b][k - 1] == s[a + k - 1];
    }
    if m < b - a {
      assert s[a..b][m] == s[a + m];
    }
  }

  lemma QuietOfSlice(s: string, op: LogicOp, a: nat, b: nat)
    requires a <= b <= |s| && Edge(s, a) && Edge(s, b)
    requires Level(s, a) == 0 && Level(s, b) == 0 && NonNegative(s, a, b)
    ensures Balanced(s[a..b])
    ensures NoKeyword(s, op, a, b) ==> Quiet(s[a..b], op)
  {
    var p := s[a..b];
    forall k | 0 <= k <= |p| ensures Level(p, k) == Level(s, a + k) {
      LevelOfSlice(s, a, b, k);
    }
    hide Level, MatchesKeyword;
    forall k: nat | k < |p| && TopKeyword(p, op, k) ensures TopKeyword(s, op, a + k) {
      KeywordOfSlice(s, op, a, b, k);
    }
  }

  lemma StretchEdges(s: string, op: LogicOp, g: Segment)
    requires IsStretch(s, op, g)
    ensures Edge(s, g.start) && Edge(s, g.End())
    ensures Level(s, g.start) == 0 && Level(s, g.End()) >= 0
  {
  }

  /** A stretch closes every parenthesis it opens: it ends at a keyword or at the end of a balanced text. */
  lemma StretchCloses(s: string, op: LogicOp, g: Segment)
    requires Balanced(s) && IsStretch(s, op, g)
    ensures Level(s, g.End()) == 0
  {
    if g.End() < |s| {
      assert TopKeyword(s, op, g.End());
    }
  }

  lemma SplitQuiet(p: string, op: LogicOp, base: nat, allowUnclosed: bool)
    requires Masked(p) && Balanced(p) && Quiet(p, op) && !Blank(p)
    ensures Split(p, op, base, allowUnclosed) == Ok([Segment(0, p)])
  {
    ScanSkips(p, op, 0, |p|, 0, []);
    assert Scan(p, op, 0, 0, 0, []) == Done(0, 0, []);
    hide Scan, Level, TopKeyword, MatchesKeyword;
    assert p[0..|p|] == p;
    assert Push([], p, 0, |p|) == [Segment(0, p)];
  }

  lemma StretchIsQuiet(s: string, op: LogicOp, g: Segment)
    requires Masked(s) && Balanced(s) && IsStretch(s, op, g)
    ensures Balanced(g.text) && Quiet(g.text, op) && Masked(g.text) && !Blank(g.text)
  {
    StretchEdges(s, op, g);
    StretchCloses(s, op, g);
    hide Level, TopKeyword, Edge;
    QuietOfSlice(s, op, g.start, g.End());
  }

  /** The segments of a strict split are balanced, and splitting one again changes nothing. */
  lemma ResplitIsIdentity(s: string, op: LogicOp, base: nat, segments: seq<Segment>, j: nat, base': nat)
    requires Masked(s) && Split(s, op, base, false) == Ok(segments) && j < |segments|
    ensures Balanced(segments[j].text) && Quiet(segments[j].text, op) && Masked(segments[j].text)
    ensures Split(segments[j].text, op, base', false) == Ok([Segment(0, segments[j].text)])
  {
    SplitTiles(s, op, base, segments);
    var g := segments[j];
    StretchIsQuiet(s, op, g);
    hide *;
    SplitQuiet(g.text, op, base', false);
  }

  lemma LevelsOfConcat(a: string, b: string)
    ensures forall k | 0 <= k <= |a + b| ::
              Level(a + b, k) == if k < |a| then Level(a, k) else Net(a) + Level(b, k - |a|)
  {
    forall k | 0 <= k <= |a + b|
      ensures Level(a + b, k) == if k < |a| then Level(a, k) else Net(a) + Level(b, k - |a|)
    {
      if k < |a| { LevelOfPrefix(a, b, k); } else { LevelOfConcat(a, b, k - |a|); }
    }
  }

  lemma KeywordOfConcat(a: string, b: string, op: LogicOp, k: nat)
    requires Edge(a + b, |a|) && MatchesKeyword(a + b, k, op)
    ensures if k < |a| then MatchesKeyword(a, k, op) else MatchesKeyword(b, k - |a|, op)
  {
    var s := a + b;
    assert s[0..|a|] == a && s[|a|..|s|] == b;
    KeywordIsLetters(s, op, k);
    hide MatchesKeyword, IsAlnum;
    if k < |a| {
      KeywordOfSlice(s, op, 0, |a|, k);
    } else {
      KeywordOfSlice(s, op, |a|, |s|, k - |a|);
    }
  }

  lemma QuietConcat(a: string, b: string, op: LogicOp)
    requires Balanced(a) && Balanced(b) && Edge(a + b, |a|)
    ensures Balanced(a + b)
    ensures Quiet(a, op) && Quiet(b, op) ==> Quiet(a + b, op)
  {
    LevelsOfConcat(a, b);
    hide Level, MatchesKeyword;
    forall k: nat | k < |a + b| && TopKeyword(a + b, op, k)
      ensures (k < |a| && TopKeyword(a, op, k)) || (k >= |a| && TopKeyword(b, op, k - |a|))
    {
      KeywordOfConcat(a, b, op, k);
    }
  }

  // ---- Every segment is a slice; an open parenthesis stays in the last one ----

  ghost predicate Slices(s: string, segments: seq<Segment>) {
    forall j | 0 <= j < |segments| ::
      segments[j].End() <= |s| && segments[j].text == s[segments[j].start..segments[j].End()]
  }

  lemma PushSlices(s: string, start: nat, i: nat, segments: seq<Segment>)
    requires start <= i <= |s| && Slices(s, segments)
    ensures Slices(s, Push(segments, s, start, i))
  {
  }

  lemma {:induction false} ScanSlices(
    s: string, op: LogicOp, i: nat, depth: nat, start: nat, segments: seq<Segment>)
    requires start <= i <= |s| && Slices(s, segments)
    ensures var r := Scan(s, op, i, depth, start, segments);
            r.Done? ==> r.start <= |s| && Slices(s, Push(r.segments, s, r.start, |s|))
    decreases |s| - i
  {
    hide MatchesKeyword, Slices, Push;
    if i == |s| {
      PushSlices(s, start, i, segments);
    } else {
      if s[i] == '(' {
        ScanSlices(s, op, i + 1, depth + 1, start, segments);
      } else if s[i] == ')' {
        if depth > 0 {
          ScanSlices(s, op, i + 1, depth - 1, start, segments);
        }
      } else if depth == 0 && s[i] == '#' {
        ScanSlices(s, op, CommentEnd(s, i), depth, start, segments);
      } else if depth == 0 && MatchesKeyword(s, i, op) {
        KeywordIsLetters(s, op, i);
        PushSlices(s, start, i, segments);
        var next := i + |Keyword(op)|;
        ScanSlices(s, op, next, depth, next, Push(segments, s, start, i));
      } else {
        ScanSlices(s, op, i + 1, depth, start, segments);
      }
    }
  }

  lemma SplitSlices(s: string, op: LogicOp, base: nat, allowUnclosed: bool)
    ensures var r := Split(s, op, base, allowUnclosed);
            r.Ok? ==> Slices(s, r.value) && forall j | 0 <= j < |r.value| :: |r.value[j].text| <= |s|
  {
    ScanSlices(s, op, 0, 0, 0, []);
    hide Scan, Trim;
  }

  predicate Flat(s: string) {
    '(' !in s && ')' !in s
  }

  lemma {:induction false} FlatLevel(s: string, k: nat)
    requires Flat(s) && k <= |s|
    ensures Level(s, k) == 0
  {
    if k > 0 {
      FlatLevel(s, k - 1);
    }
  }

  lemma FlatBalanced(s: string)
    requires Flat(s)
    ensures Balanced(s)
  {
    forall k | 0 <= k <= |s| ensures Level(s, k) == 0 {
      FlatLevel(s, k);
    }
  }

  lemma BlankIsLevel(s: string)
    requires Blank(s)
    ensures Balanced(s) && Masked(s) && forall op :: Quiet(s, op)
  {
    FlatBalanced(s);
    forall op, k: nat | k < |s| && MatchesKeyword(s, k, op) ensures IsAlnum(s[k]) {
      KeywordIsLetters(s, op, k);
    }
    hide MatchesKeyword;
  }

  lemma NetConcat(a: string, b: string)
    ensures Net(a + b) == Net(a) + Net(b)
  {
    LevelOfConcat(a, b, |b|);
  }

  lemma NetTrim(s: string)
    ensures Net(Trim(s)) == Net(s)
  {
    if Blank(s) {
      BlankIsLevel(s);
    } else {
      TrimSplits(s);
      var k, t := ContentStart(s), Trim(s);
      var a, b := s[..k], s[k + |t|..];
      assert s == a + t + b;
      BlankIsLevel(a);
      BlankIsLevel(b);
      NetConcat(a, t);
      NetConcat(a + t, b);
    }
  }

  lemma OpenSuffix(s: string, start: nat)
    requires start <= |s| && Level(s, start) == 0 && Net(s) > 0
    ensures Net(s[start..|s|]) > 0 && !Blank(s[start..|s|])
  {
    var tail := s[start..|s|];
    LevelOfSlice(s, start, |s|, |tail|);
    hide Level, Quiet;
    if Blank(tail) {
      BlankIsLevel(tail);
    }
  }

  /** A split that lets a parenthesis stay open keeps the whole excess in its last segment. */
  lemma OpenTail(s: string, op: LogicOp, base: nat, segments: seq<Segment>)
    requires Masked(s) && Net(s) > 0 && Split(s, op, base, true) == Ok(segments)
    ensures segments != [] && Net(segments[|segments| - 1].text) > 0
  {
    ScanFromStart(s, op);
    OpenSuffix(s, Scan(s, op, 0, 0, 0, []).start);
    hide Scan, Net, Covered, Stretches, NoKeyword, NonNegative;
  }
}
