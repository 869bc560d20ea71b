/** Path patterns: literal prefixes, and globs matched segment by segment. */
module PathGlob {
  import opened Wrappers
  import opened Text

  datatype SegmentPattern = Literal(text: string) | SingleWildcard | MultiWildcard

  datatype PathMatcher = Exact(prefix: string) | Segments(patterns: seq<SegmentPattern>)

  // ---- Splitting ----

  function SplitOn(s: string, c: char): (r: seq<string>)
    ensures r != []
  {
    if c !in s then [s]
    else
      var k := FirstOf(s, c);
      [s[..k]] + SplitOn(s[k + 1..], c)
  }

  function FirstOf(s: string, c: char): (k: nat)
    requires c in s
    ensures k < |s| && s[k] == c && c !in s[..k]
  {
    if s[0] == c then 0
    else
      assert c in s[1..];
      1 + FirstOf(s[1..], c)
  }

  function NonEmpty(parts: seq<string>): seq<string> {
    if parts == [] then []
    else (if parts[0] == "" then [] else [parts[0]]) + NonEmpty(parts[1..])
  }

  function TrimSlashes(s: string): string {
    if s != "" && s[0] == '/' then TrimSlashes(s[1..]) else s
  }

  function PathSegments(path: string): seq<string> {
    NonEmpty(SplitOn(TrimSlashes(path), '/'))
  }

  // ---- Matching ----

  predicate MatchSegments(pattern: seq<SegmentPattern>, path: seq<string>, pi: nat, ti: nat)
    requires pi <= |pattern| && ti <= |path|
    decreases |pattern| - pi, 0
  {
    if pi == |pattern| then ti == |path|
    else
      match pattern[pi]
      case Literal(literal) =>
        ti < |path| && EqIgnoreCase(path[ti], literal) && MatchSegments(pattern, path, pi + 1, ti + 1)
      case SingleWildcard =>
        ti < |path| && MatchSegments(pattern, path, pi + 1, ti + 1)
      case MultiWildcard =>
        pi + 1 == |pattern| || MatchSomewhere(pattern, path, pi + 1, ti)
  }

  /** The search for a position from which the rest of the pattern matches. */
  predicate MatchSomewhere(pattern: seq<SegmentPattern>, path: seq<string>, pi: nat, from: nat)
    requires pi <= |pattern| && from <= |path|
    decreases |pattern| - pi, 1
  {
    exists next | from <= next <= |path| :: MatchSegments(pattern, path, pi, next)
  }

  predicate PathPrefixMatch(prefix: string, path: string) {
    && prefix <= path
    && (|path| == |prefix|
        || (prefix != "" && prefix[|prefix| - 1] == '/')
        || path[|prefix|] == '/')
  }

  predicate MatchPath(matcher: PathMatcher, path: string) {
    match matcher
    case Exact(prefix) => PathPrefixMatch(prefix, path)
    case Segments(patterns) => MatchSegments(patterns, PathSegments(path), 0, 0)
  }

  // ---- The language of a glob, declaratively ----

  /** What one pattern may stand for: a literal one equal segment (ignoring case), a star one
      segment, a double star any number of them. */
  ghost predicate StandsFor(p: SegmentPattern, part: seq<string>) {
    match p
    case Literal(text) => |part| == 1 && EqIgnoreCase(part[0], text)
    case SingleWildcard => |part| == 1
    case MultiWildcard => true
  }

  function Flatten(parts: seq<seq<string>>): seq<string> {
    if parts == [] then [] else parts[0] + Flatten(parts[1..])
  }

  /** The path is cut into one part for each pattern. */
  ghost predicate CutInto(pattern: seq<SegmentPattern>, path: seq<string>, parts: seq<seq<string>>) {
    && |parts| == |pattern| && Flatten(parts) == path
    && forall k | 0 <= k < |parts| :: StandsFor(pattern[k], parts[k])
  }

  ghost predicate GlobMatches(pattern: seq<SegmentPattern>, path: seq<string>) {
    exists parts :: CutInto(pattern, path, parts)
  }

  lemma PrependPart(p: SegmentPattern, part: seq<string>, pattern: seq<SegmentPattern>, path: seq<string>)
    requires StandsFor(p, part) && GlobMatches(pattern, path)
    ensures GlobMatches([p] + pattern, part + path)
  {
    var parts :| CutInto(pattern, path, parts);
    assert ([part] + parts)[1..] == parts;
    assert CutInto([p] + pattern, part + path, [part] + parts);
  }

  lemma FirstPart(pattern: seq<SegmentPattern>, path: seq<string>) returns (n: nat)
    requires pattern != [] && GlobMatches(pattern, path)
    ensures n <= |path| && StandsFor(pattern[0], path[..n]) && GlobMatches(pattern[1..], path[n..])
  {
    var parts :| CutInto(pattern, path, parts);
    n := |parts[0]|;
    assert path[..n] == parts[0] && path[n..] == Flatten(parts[1..]);
    assert CutInto(pattern[1..], path[n..], parts[1..]);
  }

  lemma MatchStep(pattern: seq<SegmentPattern>, path: seq<string>, pi: nat, ti: nat) returns (next: nat)
    requires pi < |pattern| && ti <= |path| && MatchSegments(pattern, path, pi, ti)
    ensures ti <= next <= |path| && StandsFor(pattern[pi], path[ti..next])
    ensures MatchSegments(pattern, path, pi + 1, next)
  {
    if pattern[pi] != MultiWildcard {
      next := ti + 1;
    } else if pi + 1 == |pattern| {
      next := |path|;
    } else {
      next :| ti <= next <= |path| && MatchSegments(pattern, path, pi + 1, next);
    }
  }

  lemma {:induction false} MatchIsGlob(pattern: seq<SegmentPattern>, path: seq<string>, pi: nat, ti: nat)
    requires pi <= |pattern| && ti <= |path| && MatchSegments(pattern, path, pi, ti)
    ensures GlobMatches(pattern[pi..], path[ti..])
    decreases |pattern| - pi
  {
    hide GlobMatches, StandsFor;
    if pi == |pattern| {
      NothingMatches();
    } else {
      var next := MatchStep(pattern, path, pi, ti);
      MatchIsGlob(pattern, path, pi + 1, next);
      PrependPart(pattern[pi], path[ti..next], pattern[pi + 1..], path[next..]);
      assert [pattern[pi]] + pattern[pi + 1..] == pattern[pi..];
      assert path[ti..next] + path[next..] == path[ti..];
    }
  }

  lemma NothingMatches()
    ensures GlobMatches([], [])
  {
    assert CutInto([], [], []);
  }

  lemma OnlyNothing(path: seq<string>)
    requires GlobMatches([], path)
    ensures path == []
  {
  }

  lemma {:induction false} GlobIsMatch(pattern: seq<SegmentPattern>, path: seq<string>, pi: nat, ti: nat)
    requires pi <= |pattern| && ti <= |path| && GlobMatches(pattern[pi..], path[ti..])
    ensures MatchSegments(pattern, path, pi, ti)
    decreases |pattern| - pi
  {
    hide GlobMatches;
    if pi == |pattern| {
      OnlyNothing(path[ti..]);
    } else {
      var n := FirstPart(pattern[pi..], path[ti..]);
      assert pattern[pi..][1..] == pattern[pi + 1..] && path[ti..][n..] == path[ti + n..];
      GlobIsMatch(pattern, path, pi + 1, ti + n);
    }
  }

  /** The backtracking matcher decides exactly the declarative language. */
  lemma MatcherDecidesGlob(pattern: seq<SegmentPattern>, path: seq<string>)
    ensures MatchSegments(pattern, path, 0, 0) <==> GlobMatches(pattern, path)
  {
    assert pattern[0..] == pattern && path[0..] == path;
    if MatchSegments(pattern, path, 0, 0) {
      MatchIsGlob(pattern, path, 0, 0);
    } else if GlobMatches(pattern, path) {
      GlobIsMatch(pattern, path, 0, 0);
    }
  }

  // ---- Compiling a pattern ----

  function CompileSegment(segment: string): Option<SegmentPattern> {
    if segment == "**" then Some(MultiWildcard)
    else if segment == "*" then Some(SingleWildcard)
    else if '*' in segment then None
    else Some(Literal(segment))
  }

  function CompileSegments(segments: seq<string>): Option<seq<SegmentPattern>> {
    if segments == [] then Some([])
    else
      match CompileSegment(segments[0])
      case None => None
      case Some(p) => CompiledAfter([p], CompileSegments(segments[1..]))
  }

  /** `None` is the source's invalid-glob error. */
  function CompilePathSpec(pattern: string): Option<PathMatcher> {
    if '*' !in pattern then Some(Exact(pattern))
    else
      var segments := PathSegments(pattern);
      if segments == [] then None
      else match CompileSegments(segments)
        case None => None
        case Some(patterns) => Some(Segments(patterns))
  }

  function CompiledAfter(done: seq<SegmentPattern>, rest: Option<seq<SegmentPattern>>): Option<seq<SegmentPattern>> {
    match rest case Some(more) => Some(done + more) case None => None
  }

  lemma CompiledNothing(rest: Option<seq<SegmentPattern>>)
    ensures CompiledAfter([], rest) == rest
  {
    assert rest.Some? ==> [] + rest.value == rest.value;
  }

  lemma CompiledMore(done: seq<SegmentPattern>, p: Option<SegmentPattern>, rest: Option<seq<SegmentPattern>>)
    ensures p.Some? ==> CompiledAfter(done, CompiledAfter([p.value], rest)) == CompiledAfter(done + [p.value], rest)
  {
    assert p.Some? && rest.Some? ==> done + ([p.value] + rest.value) == done + [p.value] + rest.value;
  }

  method CompilePath(pattern: string) returns (r: Option<PathMatcher>)
    ensures r == CompilePathSpec(pattern)
  {
    if '*' !in pattern {
      return Some(Exact(pattern));
    }
    var segments := PathSegments(pattern);
    if segments == [] {
      return None;
    }
    var compiled: seq<SegmentPattern> := [];
    var rest := segments;
    CompiledNothing(CompileSegments(rest));
    while rest != []
      invariant CompileSegments(segments) == CompiledAfter(compiled, CompileSegments(rest))
    {
      var segment := rest[0];
      CompiledMore(compiled, CompileSegment(segment), CompileSegments(rest[1..]));
      rest := rest[1..];
      if segment == "**" {
        compiled := compiled + [MultiWildcard];
      } else if segment == "*" {
        compiled := compiled + [SingleWildcard];
      } else if '*' in segment {
        return None;
      } else {
        compiled := compiled + [Literal(segment)];
      }
    }
    assert compiled + [] == compiled;
    return Some(Segments(compiled));
  }

  // ---- A star-free pattern against the same pattern with a trailing double star ----

  lemma {:induction false} NonEmptyConcat(a: seq<string>, b: seq<string>)
    ensures NonEmpty(a + b) == NonEmpty(a) + NonEmpty(b)
  {
    if a == [] {
      assert a + b == b;
    } else {
      assert (a + b)[1..] == a[1..] + b;
      NonEmptyConcat(a[1..], b);
    }
  }

  lemma {:induction false} SplitAtSlash(a: string, b: string)
    ensures SplitOn(a + "/" + b, '/') == SplitOn(a, '/') + SplitOn(b, '/')
    decreases |a|
  {
    hide *;
    var j := FirstSlash(a);
    SplitOff(a + "/" + b, j);
    if j < |a| {
      SplitOff(a, j);
      var c := a[j + 1..];
      SplitAtSlash(c, b);
      assert (a + "/" + b)[j + 1..] == c + "/" + b && (a + "/" + b)[..j] == a[..j];
      assert [a[..j]] + (SplitOn(c, '/') + SplitOn(b, '/')) == [a[..j]] + SplitOn(c, '/') + SplitOn(b, '/');
    } else {
      Unsplit(a);
      assert (a + "/" + b)[j + 1..] == b && (a + "/" + b)[..j] == a;
    }
  }

  /** The position of the first slash, or the length of a text without one. */
  lemma FirstSlash(a: string) returns (j: nat)
    ensures j <= |a| && (j < |a| ==> a[j] == '/') && forall i | 0 <= i < j :: a[i] != '/'
  {
    j := if '/' in a then FirstOf(a, '/') else |a|;
  }

  lemma SplitOff(s: string, j: nat)
    requires j < |s| && s[j] == '/' && forall i | 0 <= i < j :: s[i] != '/'
    ensures SplitOn(s, '/') == [s[..j]] + SplitOn(s[j + 1..], '/')
  {
    hide FirstOf;
    FirstIs(s, j);
    assert '/' in s;
  }

  lemma Unsplit(s: string)
    requires forall i | 0 <= i < |s| :: s[i] != '/'
    ensures SplitOn(s, '/') == [s]
  {
  }

  lemma FirstIs(s: string, j: nat)
    requires j < |s| && s[j] == '/' && forall i | 0 <= i < j :: s[i] != '/'
    ensures FirstOf(s, '/') == j
  {
    var k := FirstOf(s, '/');
    assert forall i | 0 <= i < k :: s[i] == s[..k][i];
  }

  lemma {:induction false} TrimmedSlashesSplit(s: string)
    ensures NonEmpty(SplitOn(TrimSlashes(s), '/')) == NonEmpty(SplitOn(s, '/'))
  {
    if s != "" && s[0] == '/' {
      assert s == "" + "/" + s[1..];
      SplitAtSlash("", s[1..]);
      NonEmptyConcat(SplitOn("", '/'), SplitOn(s[1..], '/'));
      assert NonEmpty([""]) == [];
      TrimmedSlashesSplit(s[1..]);
    }
  }

  /** Joining two paths with a slash appends their segments. */
  lemma SegmentsConcat(a: string, b: string)
    ensures PathSegments(a + "/" + b) == PathSegments(a) + PathSegments(b)
  {
    TrimmedSlashesSplit(a);
    TrimmedSlashesSplit(b);
    TrimmedSlashesSplit(a + "/" + b);
    SplitAtSlash(a, b);
    NonEmptyConcat(SplitOn(a, '/'), SplitOn(b, '/'));
  }

  /** A path under a literal prefix has the prefix's segments first. */
  lemma PrefixSegments(prefix: string, path: string)
    requires PathPrefixMatch(prefix, path)
    ensures PathSegments(prefix) <= PathSegments(path)
  {
    hide PathSegments;
    NoSegments();
    if path != prefix {
      var a, rest := PrefixParts(prefix, path);
      SegmentsConcat(a, rest);
      if prefix != a {
        SegmentsConcat(a, "");
      }
    }
  }

  lemma NoSegments()
    ensures PathSegments("") == []
  {
  }

  /** A proper prefix ends at a slash, its own last character or the next of the path. */
  lemma PrefixParts(prefix: string, path: string) returns (a: string, rest: string)
    requires PathPrefixMatch(prefix, path) && path != prefix
    ensures (prefix == a || prefix == a + "/" + "") && path == a + "/" + rest
  {
    if prefix != "" && prefix[|prefix| - 1] == '/' {
      a, rest := prefix[..|prefix| - 1], path[|prefix|..];
    } else {
      a, rest := prefix, path[|prefix| + 1..];
    }
  }

  function Literals(segments: seq<string>): seq<SegmentPattern> {
    seq(|segments|, i requires 0 <= i < |segments| => Literal(segments[i]))
  }

  lemma {:induction false} CompileLiterals(segments: seq<string>)
    requires forall i | 0 <= i < |segments| :: '*' !in segments[i]
    ensures CompileSegments(segments + ["**"]) == Some(Literals(segments) + [MultiWildcard])
  {
    var all := segments + ["**"];
    if segments == [] {
      assert all == ["**"] && all[1..] == [];
      assert [MultiWildcard] + [] == Literals(segments) + [MultiWildcard];
    } else {
      assert all[1..] == segments[1..] + ["**"];
      CompileLiterals(segments[1..]);
      assert "**"[0] == '*' && "*"[0] == '*';
      assert [Literal(segments[0])] + (Literals(segments[1..]) + [MultiWildcard]) ==
             Literals(segments) + [MultiWildcard];
    }
  }

  lemma {:induction false} SplitKeepsStarFree(s: string)
    requires '*' !in s
    ensures forall i | 0 <= i < |SplitOn(s, '/')| :: '*' !in SplitOn(s, '/')[i]
  {
    if '/' in s {
      SplitKeepsStarFree(s[FirstOf(s, '/') + 1..]);
    }
  }

  lemma {:induction false} NonEmptyKeepsStarFree(parts: seq<string>)
    requires forall i | 0 <= i < |parts| :: '*' !in parts[i]
    ensures forall i | 0 <= i < |NonEmpty(parts)| :: '*' !in NonEmpty(parts)[i]
  {
    if parts != [] {
      NonEmptyKeepsStarFree(parts[1..]);
    }
  }

  lemma StarFreeSegments(p: string)
    requires '*' !in p
    ensures forall i | 0 <= i < |PathSegments(p)| :: '*' !in PathSegments(p)[i]
  {
    TrimmedSlashesSplit(p);
    SplitKeepsStarFree(p);
    NonEmptyKeepsStarFree(SplitOn(p, '/'));
  }

  /** What a star-free pattern followed by a slash and a double star compiles to. */
  lemma DoubleStarCompiles(p: string)
    requires '*' !in p
    ensures CompilePathSpec(p + "/" + "**") == Some(Segments(Literals(PathSegments(p)) + [MultiWildcard]))
  {
    var q := p + "/" + "**";
    assert q[|p| + 1] == '*';
    SegmentsConcat(p, "**");
    assert TrimSlashes("**") == "**" && SplitOn("**", '/') == ["**"];
    assert NonEmpty(["**"]) == ["**"] + NonEmpty([]);
    assert PathSegments(q) == PathSegments(p) + ["**"];
    hide TrimSlashes, SplitOn, NonEmpty, PathSegments, CompileSegments;
    StarFreeSegments(p);
    CompileLiterals(PathSegments(p));
  }

  /** It matches exactly the paths whose first segments are those of the pattern, ignoring case. */
  lemma {:induction false} LiteralsMatch(words: seq<string>, path: seq<string>, pi: nat)
    requires pi <= |words| && pi <= |path|
    ensures MatchSegments(Literals(words) + [MultiWildcard], path, pi, pi) <==>
            |words| <= |path| && forall i | pi <= i < |words| :: EqIgnoreCase(path[i], words[i])
    decreases |words| - pi
  {
    var pattern := Literals(words) + [MultiWildcard];
    if pi < |words| {
      assert pattern[pi] == Literal(words[pi]);
      if pi < |path| {
        LiteralsMatch(words, path, pi + 1);
      }
    } else {
      assert pattern[pi] == MultiWildcard;
    }
  }

  /** Whatever a star-free pattern matches, the pattern followed by a slash and a double star matches
      too; and the latter matches exactly the paths that start with the same segments, ignoring case. */
  lemma DoubleStarCoversPrefix(p: string, path: string)
    requires '*' !in p
    ensures var exact, glob := CompilePathSpec(p).value, CompilePathSpec(p + "/" + "**");
            && glob.Some?
            && (MatchPath(exact, path) ==> MatchPath(glob.value, path))
            && (MatchPath(glob.value, path) <==>
                var words, segments := PathSegments(p), PathSegments(path);
                |words| <= |segments| && forall i | 0 <= i < |words| :: EqIgnoreCase(segments[i], words[i]))
  {
    DoubleStarCompiles(p);
    LiteralsMatch(PathSegments(p), PathSegments(path), 0);
    if PathPrefixMatch(p, path) {
      PrefixSegments(p, path);
    }
  }

  // ---- Exactly when the two agree ----

  /** The position after the last slash. */
  lemma LastSlash(p: string) returns (k: nat)
    ensures k <= |p| && (k == 0 || p[k - 1] == '/') && forall i | k <= i < |p| :: p[i] != '/'
  {
    k := |p|;
    while k > 0 && p[k - 1] != '/'
      invariant k <= |p| && forall i | k <= i < |p| :: p[i] != '/'
    {
      k := k - 1;
    }
  }

  lemma HeadSegments(head: string, tail: string)
    requires head == "" || head[|head| - 1] == '/'
    ensures PathSegments(head + tail) == PathSegments(head) + PathSegments(tail)
  {
    hide PathSegments;
    NoSegments();
    if head == "" {
      assert head + tail == tail && PathSegments("") + PathSegments(tail) == PathSegments(tail);
    } else {
      var a := head[..|head| - 1];
      assert head == a + "/" + "" && head + tail == a + "/" + tail;
      SegmentsConcat(a, tail);
      SegmentsConcat(a, "");
    }
  }

  /** A text that does not start at a slash has its characters up to the first slash as first segment. */
  lemma FirstSegment(t: string) returns (j: nat)
    requires t != "" && t[0] != '/'
    ensures j <= |t| && (j < |t| ==> t[j] == '/') && forall i | 0 <= i < j :: t[i] != '/'
    ensures PathSegments(t) != [] && PathSegments(t)[0] == t[..j]
  {
    j := FirstSlash(t);
    if j < |t| {
      SplitOff(t, j);
    } else {
      Unsplit(t);
      assert t[..j] == t;
    }
    hide SplitOn;
    assert t[..j] != "";
  }

  lemma LongerTail(head: string, word: string, rest: string) returns (i: nat)
    requires head == "" || head[|head| - 1] == '/'
    requires word <= rest && |word| < |rest| && word != "" && rest[|word|] != '/'
    requires forall x | 0 <= x < |word| :: word[x] != '/'
    ensures i < |PathSegments(head + word)| && i < |PathSegments(head + rest)|
    ensures |PathSegments(head + word)[i]| < |PathSegments(head + rest)[i]|
  {
    hide PathSegments;
    HeadSegments(head, word);
    HeadSegments(head, rest);
    assert word[0] == rest[0];
    var m := FirstSegment(word);
    var n := FirstSegment(rest);
    SlashAfter(word, rest, n);
    i := |PathSegments(head)|;
  }

  lemma SlashAfter(word: string, rest: string, n: nat)
    requires word <= rest && |word| < |rest| && rest[|word|] != '/' && forall x | 0 <= x < |word| :: word[x] != '/'
    requires n <= |rest| && (n < |rest| ==> rest[n] == '/')
    ensures |word| < n
  {
    assert forall x | 0 <= x < |word| :: rest[x] == word[x];
  }

  /** Where a prefix stops inside a segment of the path, that segment is longer than the prefix's last. */
  lemma LongerSegment(p: string, path: string) returns (i: nat)
    requires p <= path && p != "" && p[|p| - 1] != '/' && |p| < |path| && path[|p|] != '/'
    ensures i < |PathSegments(p)| && i < |PathSegments(path)| && |PathSegments(p)[i]| < |PathSegments(path)[i]|
  {
    hide PathSegments;
    var k := LastSlash(p);
    assert p == p[..k] + p[k..] && path == p[..k] + path[k..] && p[k..] <= path[k..];
    i := LongerTail(p[..k], p[k..], path[k..]);
  }

  /** A star-free pattern matches exactly what it matches with a slash and a double star after it, so far as
      the path starts with it letter for letter: a path told apart only by letter case or by repeated slashes
      is the double star's alone. The empty pattern also asks for a path that is empty or starts at a slash. */
  lemma PrefixIsGlobWithText(p: string, path: string)
    requires '*' !in p
    ensures var exact, glob := CompilePathSpec(p).value, CompilePathSpec(p + "/" + "**");
            && glob.Some?
            && (MatchPath(exact, path) <==>
                && MatchPath(glob.value, path)
                && p <= path
                && (p == "" ==> path == "" || path[0] == '/'))
  {
    hide PathSegments, CompileSegments, MatchSegments;
    DoubleStarCoversPrefix(p, path);
    hide CompilePathSpec;
    StarFreeCompiles(p);
    if p != "" && p <= path && !PathPrefixMatch(p, path) {
      var i := LongerSegment(p, path);
      LongerDiffers(PathSegments(path)[i], PathSegments(p)[i]);
    }
  }

  lemma LongerDiffers(a: string, b: string)
    requires |a| > |b|
    ensures !EqIgnoreCase(a, b)
  {
    assert |Lower(a)| == |a| && |Lower(b)| == |b|;
  }

  /** Both ways to be told apart: the double star ignores letter case, and it ignores repeated slashes. */
  lemma DoubleStarMatchesMore()
    ensures var glob := CompilePathSpec("/A" + "/" + "**");
            glob.Some? && MatchPath(glob.value, "/a") && MatchPath(glob.value, "//A")
    ensures !MatchPath(CompilePathSpec("/A").value, "/a") && !MatchPath(CompilePathSpec("/A").value, "//A")
  {
    OneSegment('A');
    OneSegment('a');
    TwoSlashes('A');
    assert "/A"[1] != "/a"[1] && "/A"[1] != "//A"[1] && EqIgnoreCase("A", "a");
    hide PathSegments, CompilePathSpec, MatchSegments;
    StarFreeCompiles("/A");
    DoubleStarCoversPrefix("/A", "/a");
    DoubleStarCoversPrefix("/A", "//A");
  }

  lemma TwoSlashes(c: char)
    requires c != '/'
    ensures PathSegments(['/', '/', c]) == [[c]]
  {
    OneSegment(c);
    assert ['/', '/', c][1..] == ['/', c];
  }

  lemma StarFreeCompiles(p: string)
    requires '*' !in p
    ensures CompilePathSpec(p) == Some(Exact(p))
  {
  }

  lemma OneSegment(c: char)
    requires c != '/'
    ensures PathSegments(['/', c]) == [[c]]
  {
    assert ['/', c][1..] == [c];
    assert TrimSlashes([c]) == [c] && SplitOn([c], '/') == [[c]];
    assert NonEmpty([[c]]) == [[c]] + NonEmpty([]);
  }
}
