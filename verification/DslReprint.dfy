/** A leaf printed and read again: every part is found again, but for a query that ends in white space. */
module DslReprint {
  import opened Wrappers
  import opened Text
  import opened DslAst
  import opened Format
  import opened DslGrammar
  import opened DslStable
  import opened DslSeam

  // ---- Printed text, from its end ----

  predicate Solid(s: string) {
    s == "" || !IsSpace(s[|s| - 1])
  }

  function CliText(tail: Tail): string {
    match tail.cli case None => "" case Some(cli) => " " + TrimStart(cli.text)
  }

  function QueryText(tail: Tail): string {
    match tail.query case None => CliText(tail) case Some(query) => "?" + query + CliText(tail)
  }

  function PathText(gap: string, tail: Tail): string {
    match tail.path case None => QueryText(tail) case Some(path) => gap + path + QueryText(tail)
  }

  function PortText(gap: string, tail: Tail): string {
    match tail.port case None => PathText(gap, tail) case Some(port) => port + PathText(gap, tail)
  }

  /** The query ends in white space. */
  predicate Spaced(tail: Tail) {
    tail.query.Some? && tail.query.value != "" && IsWs(tail.query.value[|tail.query.value| - 1])
  }

  /** What is read again: a query that ends in white space has become longer. */
  function Grown(tail: Tail): Tail {
    if Spaced(tail) then tail.(query := Some(tail.query.value + " ")) else tail
  }

  /** Nothing, or a query, or arguments after a space. */
  predicate Closing(x: string) {
    x == "" || x[0] == '?' || (|x| > 1 && x[0] == ' ' && x[1] == '-')
  }

  lemma ClosingHasNone(x: string)
    requires Closing(x)
    ensures Path(x[Gap(x)..]) == 0 && Port(x[Gap(x)..]) == 0
    ensures Stops(x, 0, IsHostChar) && Stops(x, 0, IsPathOrSlash) && Stops(x, 0, IsDigit)
  {
    var y := x[Gap(x)..];
    assert x != "" && x[0] == ' ' ==> Gap(x) == 1 && y[0] == '-';
    if Path(y) > 0 {
      PathStarts(y);
    }
  }

  // ---- Arguments ----

  lemma CliReads(s: string, tail: Tail)
    requires ReadCli(s) == Some(tail) && Solid(s)
    ensures tail == Tail(None, None, None, tail.cli)
    ensures if tail.cli.None? then s == "" else StartsWith(s[Gap(s)..], '-') && CliText(tail) == " " + s[Gap(s)..]
    ensures ReadCli(CliText(tail)) == Some(tail)
  {
    hide *;
    var r := s[Gap(s)..];
    ReadCliUnfolds(s);
    if r == "" {
      GapIsAll(s);
      AllGone(s);
      NoCli(tail);
      ReadNothing();
    } else {
      SolidRest(s, Gap(s));
      SomeCliReads(r, tail);
    }
  }

  lemma ReadCliUnfolds(s: string)
    ensures ReadCli(s) == if s[Gap(s)..] == "" then Some(Tail(None, None, None, None)) else CliOf(s[Gap(s)..])
  {
    hide Args, Gap;
  }

  /** Arguments that reach to the end of the text. */
  function CliOf(r: string): Option<Tail> {
    match Args(r)
    case None => None
    case Some(args) =>
      if Gap(r[args.n..]) < |r| - args.n then None
      else Some(Tail(None, None, None, Some(CliArgs(args.args, r[..args.n]))))
  }

  lemma GapIsAll(s: string)
    requires s[Gap(s)..] == ""
    ensures Gap(s) == |s|
  {
    hide Gap;
    assert |s[Gap(s)..]| == |s| - Gap(s);
  }

  lemma ReadNothing()
    ensures ReadCli("") == Some(Tail(None, None, None, None))
  {
    hide Args;
  }

  lemma SomeCliReads(r: string, tail: Tail)
    requires CliOf(r) == Some(tail) && Solid(r)
    ensures StartsWith(r, '-')
    ensures tail.cli.Some? && tail == Tail(None, None, None, tail.cli) && CliText(tail) == " " + r
    ensures ReadCli(" " + r) == Some(tail)
  {
    hide *;
    CliIsAll(r, tail);
    Untrimmed(r);
    AfterSpace(r);
    ReadCliUnfolds(" " + r);
    StartSomething(r);
  }

  lemma StartSomething(r: string)
    requires StartsWith(r, '-')
    ensures r != ""
  {
  }

  lemma CliIsAll(r: string, tail: Tail)
    requires CliOf(r) == Some(tail) && Solid(r)
    ensures StartsWith(r, '-')
    ensures tail.cli.Some? && tail == Tail(None, None, None, tail.cli) && tail.cli.value.text == r
    ensures CliText(tail) == " " + TrimStart(r)
  {
    hide Args, Gap, TrimStart;
    ArgsStart(r);
    var n := Args(r).value.n;
    SolidRest(r, n);
    AllGone(r[n..]);
    assert r[..n] == r;
  }

  lemma AllGone(s: string)
    requires Gap(s) == |s| && Solid(s)
    ensures s == ""
  {
    assert s != "" ==> IsWs(s[|s| - 1]);
    hide Gap;
  }

  lemma SolidRest(s: string, n: nat)
    requires Solid(s) && n <= |s|
    ensures Solid(s[n..])
  {
  }

  lemma Untrimmed(r: string)
    requires StartsWith(r, '-')
    ensures TrimStart(r) == r
  {
  }

  lemma AfterSpace(r: string)
    requires StartsWith(r, '-')
    ensures Gap(" " + r) == 1 && (" " + r)[1..] == r
  {
    assert (" " + r)[1..][0] == '-';
  }

  lemma CliCloses(s: string, tail: Tail)
    requires ReadCli(s) == Some(tail) && Solid(s)
    ensures Closing(CliText(tail)) && Query(CliText(tail)[Gap(CliText(tail))..]) == 0
  {
    CliReads(s, tail);
    hide ReadCli, QueryBody;
    if tail.cli.Some? {
      AfterSpace(s[Gap(s)..]);
    }
  }

  // ---- Queries ----

  lemma QueryLong(y: string)
    requires Query(y) > 0
    ensures Query(y) >= 2 && StartsWith(y, '?')
  {
    hide QueryBody;
  }

  /** A query and the arguments after it, with one space between them. */
  lemma SeamHolds(y: string, n: nat, r: string)
    requires 0 < n <= |y| && !IsWs(y[n - 1]) && r == y[n..][Gap(y[n..])..] && Gap(y[n..]) > 0 && StartsWith(r, '-')
    ensures Alike(Seam(n, Gap(y[n..]), 1), y, y[..n] + (" " + r))
  {
    var k, z := Gap(y[n..]), y[n..];
    assert forall i | 0 <= i < k :: IsWs(z[i]);
    hide Gap;
    SameSuffix(y, n, n + k);
    SeamOf(y, n, k, r);
  }

  lemma SeamOf(y: string, n: nat, k: nat, r: string)
    requires 0 < n && 0 < k && n + k <= |y| && !IsWs(y[n - 1]) && y[n + k..] == r && StartsWith(r, '-')
    requires forall i | 0 <= i < k :: IsWs(y[n..][i])
    ensures Alike(Seam(n, k, 1), y, y[..n] + (" " + r))
  {
    hide IsWs;
    var x := y[..n] + (" " + r);
    assert x[n + 1..] == r && x[n] == ' ';
    assert forall i | n <= i < n + k :: y[i] == y[n..][i - n];
    assert y[n + k] == y[n + k..][0];
    SpaceIsWs();
  }

  lemma SpaceIsWs()
    ensures IsWs(' ')
  {
  }

  lemma GapBetween(y: string, n: nat)
    requires 0 < n <= |y| && Ends(y, n) && !IsWs(y[n - 1]) && StartsWith(y[n..][Gap(y[n..])..], '-')
    ensures Gap(y[n..]) > 0
  {
    assert n < |y| ==> y[n] == y[n..][0];
  }

  /** The query is found again if it does not end in white space. */
  lemma SolidQueryReads(y: string, inner: Tail)
    requires Query(y) > 0 && ReadCli(y[Query(y)..]) == Some(inner) && Solid(y) && !IsWs(y[Query(y) - 1])
    ensures var x := y[..Query(y)] + CliText(inner);
            Query(x) == Query(y) && x[Query(y)..] == CliText(inner)
  {
    hide *;
    var n := Query(y);
    SolidRest(y, n);
    CliReads(y[n..], inner);
    var x := y[..n] + CliText(inner);
    PrefixBack(y, n, CliText(inner));
    if inner.cli.None? {
      NoCli(inner);
      assert y[..n] + "" == y;
    } else {
      var r := y[n..][Gap(y[n..])..];
      QueryEnds(y);
      GapBetween(y, n);
      SeamHolds(y, n, r);
      QueryAlike(Seam(n, Gap(y[n..]), 1), y, x);
      BeforeIsSame(n, Gap(y[n..]), Query(x));
    }
  }

  lemma NoCli(tail: Tail)
    requires tail.cli.None?
    ensures CliText(tail) == ""
  {
  }

  lemma PrefixBack(y: string, n: nat, c: string)
    requires n <= |y|
    ensures (y[..n] + c)[..n] == y[..n] && (y[..n] + c)[n..] == c
  {
  }

  lemma BeforeIsSame(n: nat, k: nat, m: nat)
    requires Reads(Seam(n, k, 1), n, m)
    ensures m == n
  {
  }

  /** The position after the last character that is not white space. */
  lemma LastSolid(y: string, n: nat) returns (at: nat)
    requires 0 < n <= |y| && !IsWs(y[0])
    ensures 0 < at <= n && !IsWs(y[at - 1]) && forall i | at <= i < n :: IsWs(y[i])
  {
    at := n;
    while IsWs(y[at - 1])
      invariant 0 < at <= n && forall i | at <= i < n :: IsWs(y[i])
      decreases at
    {
      at := at - 1;
    }
  }

  /** A query that ends in white space takes the space before the arguments too. */
  lemma SpacedQueryReads(y: string, inner: Tail)
    requires Query(y) > 0 && ReadCli(y[Query(y)..]) == Some(inner) && Solid(y) && IsWs(y[Query(y) - 1])
    ensures inner.cli.Some?
    ensures var n, x := Query(y), y[..Query(y)] + CliText(inner);
            && Query(x) == n + 1 && n + 1 <= |x| && ReadCli(x[n + 1..]) == Some(inner)
            && x[1..n + 1] == y[1..n] + " "
  {
    hide *;
    var n := Query(y);
    QueryLong(y);
    QuestionIsNoWs(y);
    SolidRest(y, n);
    CliReads(y[n..], inner);
    if inner.cli.None? {
      SolidEnd(y);
    } else {
      var r := y[n..];
      QueryEnds(y);
      NoMoreGap(y, n);
      var at := LastSolid(y, n);
      SpacedSeam(y, at, n, r);
      QueryAlike(Seam(at, n - at, n - at + 1), y, y[..n] + (" " + r));
      AfterIsMoved(at, n, Query(y[..n] + (" " + r)));
      LongerParts(y, n, r);
    }
  }

  lemma QuestionIsNoWs(y: string)
    requires StartsWith(y, '?')
    ensures y != "" && !IsWs(y[0])
  {
  }

  lemma NoMoreGap(y: string, n: nat)
    requires 0 < n <= |y| && Ends(y, n) && IsWs(y[n - 1])
    ensures Gap(y[n..]) == 0 && y[n..][0..] == y[n..]
    ensures StartsWith(y[n..], '-') ==> n < |y|
  {
    assert n < |y| ==> y[n] == y[n..][0];
  }

  lemma SpacedSeam(y: string, at: nat, n: nat, r: string)
    requires 0 < at < n <= |y| && !IsWs(y[at - 1]) && (forall i | at <= i < n :: IsWs(y[i]))
    requires r == y[n..] && StartsWith(r, '-')
    ensures Alike(Seam(at, n - at, n - at + 1), y, y[..n] + (" " + r))
  {
    SpaceIsWs();
    hide IsWs;
    var x := y[..n] + (" " + r);
    assert x[n + 1..] == r && x[n] == ' ';
    assert y[n] == y[n..][0];
    assert forall i | 0 <= i < n :: x[i] == y[i];
  }

  lemma AfterIsMoved(at: nat, n: nat, m: nat)
    requires at < n && Reads(Seam(at, n - at, n - at + 1), n, m)
    ensures m == n + 1
  {
  }

  lemma LongerParts(y: string, n: nat, r: string)
    requires 0 < n <= |y| && StartsWith(r, '-')
    ensures var x := y[..n] + (" " + r);
            n + 1 <= |x| && ReadCli(x[n + 1..]) == ReadCli(r) && x[1..n + 1] == y[1..n] + " "
  {
    hide ReadCli;
    OneMore(y, n, r);
  }

  lemma OneMore(y: string, n: nat, r: string)
    requires 0 < n <= |y|
    ensures var x := y[..n] + (" " + r);
            n + 1 <= |x| && x[n + 1..] == r && x[1..n + 1] == y[1..n] + " "
  {
    var x := y[..n] + (" " + r);
    assert x[..n + 1] == y[..n] + " ";
    assert x[1..n + 1] == x[..n + 1][1..];
  }

  lemma SolidEnd(y: string)
    requires Solid(y) && y != ""
    ensures !IsWs(y[|y| - 1])
  {
  }

  lemma ReadQueryUnfolds(x: string)
    requires StartsWith(x, '?')
    ensures Gap(x) == 0
    ensures ReadQuery(x) == if Query(x) == 0 then ReadCli(x)
                            else match ReadCli(x[Query(x)..])
                                 case None => None
                                 case Some(tail) => Some(tail.(query := Some(x[1..Query(x)])))
  {
    hide Query, ReadCli;
    NoGap(x);
    WholeText(x);
    hide Gap;
  }

  lemma QueryReads(s: string, tail: Tail)
    requires ReadQuery(s) == Some(tail) && Solid(s)
    ensures Closing(QueryText(tail))
    ensures ReadQuery(QueryText(tail)) == Some(Grown(tail))
  {
    hide Query, ReadCli, CliText, Gap, Closing;
    var y := s[Gap(s)..];
    SolidRest(s, Gap(s));
    if Query(y) == 0 {
      CliReads(s, tail);
      CliCloses(s, tail);
    } else {
      var inner := ReadCli(y[Query(y)..]).value;
      SomeQueryReads(y, inner);
    }
  }

  lemma SomeQueryReads(y: string, inner: Tail)
    requires Query(y) > 0 && ReadCli(y[Query(y)..]) == Some(inner) && Solid(y)
    ensures var tail := inner.(query := Some(y[1..Query(y)]));
            Closing(QueryText(tail)) && ReadQuery(QueryText(tail)) == Some(Grown(tail))
  {
    hide *;
    QueryLong(y);
    var n := Query(y);
    var tail := inner.(query := Some(y[1..n]));
    QueryTextIs(y, n, inner);
    var x := QueryText(tail);
    ReadQueryUnfolds(x);
    SpacedIs(y, n, tail);
    SolidRest(y, n);
    CliReads(y[n..], inner);
    GrownIs(tail);
    if IsWs(y[n - 1]) {
      SpacedQueryReads(y, inner);
    } else {
      SolidQueryReads(y, inner);
      QueryPart(y, n, CliText(inner));
    }
  }

  lemma GrownIs(tail: Tail)
    requires tail.query.Some?
    ensures Grown(tail) == if Spaced(tail) then tail.(query := Some(tail.query.value + " ")) else tail
  {
    hide Spaced;
  }

  lemma QueryTextIs(y: string, n: nat, inner: Tail)
    requires StartsWith(y, '?') && 2 <= n <= |y|
    ensures var x := QueryText(inner.(query := Some(y[1..n])));
            x == y[..n] + CliText(inner) && StartsWith(x, '?') && Closing(x)
  {
    assert "?" + y[1..n] == y[..n];
    assert CliText(inner) == CliText(inner.(query := Some(y[1..n])));
    hide CliText;
  }

  lemma SpacedIs(y: string, n: nat, tail: Tail)
    requires 2 <= n <= |y| && tail.query == Some(y[1..n])
    ensures Spaced(tail) <==> IsWs(y[n - 1])
  {
    hide IsWs;
  }

  lemma QueryPart(y: string, n: nat, c: string)
    requires 2 <= n <= |y|
    ensures (y[..n] + c)[1..n] == y[1..n]
  {
  }

  lemma CliHasNoQuery(x: string)
    ensures ReadCli(x).Some? ==> ReadCli(x).value.query.None?
  {
    hide Args;
  }

  // ---- Paths and ports ----

  predicate IsGap(gap: string) {
    gap == "" || gap == " "
  }

  /** A part, found again after a gap. */
  lemma AfterGap(gap: string, x: string)
    requires IsGap(gap) && x != "" && !IsWs(x[0])
    ensures Gap(gap + x) == |gap| && (gap + x)[|gap|..] == x
  {
    assert gap + x == if gap == "" then x else " " + x;
  }

  lemma SharesPrefix(y: string, n: nat, c: string)
    requires n <= |y|
    ensures Shares(y, y[..n] + c, n)
    ensures (forall kind: char -> bool :: Stops(c, 0, kind) ==> Stops(y[..n] + c, n, kind))
  {
  }

  lemma ReadPathAt(x: string, w: nat)
    requires w == Gap(x)
    ensures ReadPath(x) == if Path(x[w..]) == 0 then ReadQuery(x)
                           else match ReadQuery(x[w..][Path(x[w..])..])
                                case None => None
                                case Some(tail) => Some(tail.(path := Some(x[w..][..Path(x[w..])])))
  {
    hide Gap, Path, ReadQuery;
  }

  lemma QueryHasNoPath(x: string)
    ensures ReadQuery(x).Some? ==> ReadQuery(x).value.path.None? && ReadQuery(x).value.port.None?
  {
    hide Args, Query;
  }

  lemma PathReads(s: string, gap: string, tail: Tail)
    requires ReadPath(s) == Some(tail) && Solid(s) && IsGap(gap)
    ensures ReadPath(PathText(gap, tail)) == Some(Grown(tail))
  {
    hide *;
    var y := s[Gap(s)..];
    ReadPathAt(s, Gap(s));
    if Path(y) == 0 {
      QueryHasNoPath(s);
      QueryReads(s, tail);
      PathTextUnfolds(gap, tail);
      var x := QueryText(tail);
      ClosingHasNone(x);
      ReadPathAt(x, Gap(x));
    } else {
      var inner := ReadQuery(y[Path(y)..]).value;
      SolidRest(s, Gap(s));
      PathFound(y, gap, inner);
    }
  }

  lemma PathTextUnfolds(gap: string, tail: Tail)
    ensures PathText(gap, tail) ==
            if tail.path.None? then QueryText(tail)
            else gap + (tail.path.value + QueryText(tail))
  {
    hide QueryText;
  }

  lemma PathFound(y: string, gap: string, inner: Tail)
    requires Path(y) > 0 && ReadQuery(y[Path(y)..]) == Some(inner) && Solid(y) && IsGap(gap)
    ensures var tail := inner.(path := Some(y[..Path(y)]));
            ReadPath(PathText(gap, tail)) == Some(Grown(tail))
  {
    hide *;
    var n := Path(y);
    var tail := inner.(path := Some(y[..n]));
    SolidRest(y, n);
    QueryReads(y[n..], inner);
    QueryHasNoPath(y[n..]);
    SameQuery(inner, tail);
    PathTextUnfolds(gap, tail);
    var c := QueryText(inner);
    ClosingHasNone(c);
    var x := y[..n] + c;
    SharesPrefix(y, n, c);
    PathStable(y, x);
    PrefixBack(y, n, c);
    PathStarts(y);
    SamePrefixStart(y, n, c);
    AfterGap(gap, x);
    ReadPathAt(gap + x, |gap|);
    GrownParts(inner, tail);
  }

  lemma SameQuery(a: Tail, b: Tail)
    requires a.query == b.query && a.cli == b.cli
    ensures QueryText(a) == QueryText(b)
  {
  }

  lemma SamePrefixStart(y: string, n: nat, c: string)
    requires 0 < n <= |y|
    requires IsAlnum(y[0]) || y[0] == '/' || y[0] == '*' || y[0] == ':'
    ensures (y[..n] + c) != "" && (y[..n] + c)[0] == y[0] && !IsWs((y[..n] + c)[0])
  {
  }

  /** Path and port have no part in how a query grows. */
  lemma GrownParts(inner: Tail, tail: Tail)
    requires tail == inner.(path := tail.path, port := tail.port)
    ensures Grown(tail) == Grown(inner).(path := tail.path, port := tail.port)
    ensures Grown(inner).path == inner.path && Grown(inner).port == inner.port
  {
  }

  lemma ReadPortAt(x: string, w: nat)
    requires w == Gap(x)
    ensures ReadPort(x) == if Port(x[w..]) == 0 then ReadPath(x)
                           else match ReadPath(x[w..][Port(x[w..])..])
                                case None => None
                                case Some(tail) => Some(tail.(port := Some(x[w..][..Port(x[w..])])))
  {
    hide Gap, Port, ReadPath;
  }

  lemma PathHasNoPort(x: string)
    ensures ReadPath(x).Some? ==> ReadPath(x).value.port.None?
  {
    hide Path, ReadQuery;
    QueryHasNoPath(x);
    QueryHasNoPath(x[Gap(x)..][Path(x[Gap(x)..])..]);
    ReadPathAt(x, Gap(x));
  }

  /** What a printed path with what follows it starts with. */
  predicate Following(x: string) {
    x == "" || x[0] in "?/* "
  }

  lemma FollowingStops(x: string)
    requires Following(x) || StartsWith(x, ':')
    ensures Stops(x, 0, IsHostChar) && Stops(x, 0, IsDigit)
  {
  }

  lemma PathTextFollows(s: string, gap: string, tail: Tail)
    requires ReadPath(s) == Some(tail) && Solid(s) && IsGap(gap)
    ensures Following(PathText(gap, tail))
    ensures Port(PathText(gap, tail)[Gap(PathText(gap, tail))..]) == 0
  {
    hide *;
    var y := s[Gap(s)..];
    ReadPathAt(s, Gap(s));
    PathTextUnfolds(gap, tail);
    if Path(y) == 0 {
      QueryHasNoPath(s);
      QueryReads(s, tail);
      ClosingHasNone(QueryText(tail));
      ClosingFollows(QueryText(tail));
    } else {
      var n := Path(y);
      PathStarts(y);
      SamePrefixStart(y, n, QueryText(tail));
      AfterGap(gap, y[..n] + QueryText(tail));
      NoPortAt(y[..n] + QueryText(tail));
      GapFollows(gap, y[..n] + QueryText(tail));
    }
  }

  lemma ClosingFollows(x: string)
    requires Closing(x)
    ensures Following(x)
  {
  }

  lemma NoPortAt(x: string)
    requires x != "" && x[0] != ':'
    ensures Port(x) == 0
  {
  }

  lemma GapFollows(gap: string, x: string)
    requires IsGap(gap) && x != "" && (x[0] == '/' || x[0] == '*')
    ensures Following(gap + x)
  {
    assert gap + x == if gap == "" then x else " " + x;
  }

  lemma PortReads(s: string, gap: string, tail: Tail)
    requires ReadPort(s) == Some(tail) && Solid(s) && IsGap(gap)
    ensures Following(PortText(gap, tail)) || StartsWith(PortText(gap, tail), ':')
    ensures ReadPort(PortText(gap, tail)) == Some(Grown(tail))
  {
    hide *;
    var y := s[Gap(s)..];
    ReadPortAt(s, Gap(s));
    if Port(y) == 0 {
      PathHasNoPort(s);
      PathReads(s, gap, tail);
      PathTextFollows(s, gap, tail);
      PortTextUnfolds(gap, tail);
      ReadPortAt(PathText(gap, tail), Gap(PathText(gap, tail)));
    } else {
      var inner := ReadPath(y[Port(y)..]).value;
      SolidRest(s, Gap(s));
      PortFound(y, gap, inner);
    }
  }

  lemma PortTextUnfolds(gap: string, tail: Tail)
    ensures PortText(gap, tail) ==
            if tail.port.None? then PathText(gap, tail)
            else tail.port.value + PathText(gap, tail)
  {
    hide PathText;
  }

  lemma PortFound(y: string, gap: string, inner: Tail)
    requires Port(y) > 0 && ReadPath(y[Port(y)..]) == Some(inner) && Solid(y) && IsGap(gap)
    ensures var tail := inner.(port := Some(y[..Port(y)]));
            StartsWith(PortText(gap, tail), ':') && ReadPort(PortText(gap, tail)) == Some(Grown(tail))
  {
    hide *;
    var n := Port(y);
    var tail := inner.(port := Some(y[..n]));
    SolidRest(y, n);
    PathReads(y[n..], gap, inner);
    PathTextFollows(y[n..], gap, inner);
    PathHasNoPort(y[n..]);
    SamePath(gap, inner, tail);
    PortTextUnfolds(gap, tail);
    var c := PathText(gap, inner);
    FollowingStops(c);
    var x := y[..n] + c;
    SharesPrefix(y, n, c);
    PortStable(y, x);
    PrefixBack(y, n, c);
    PortStarts(y, n, c);
    ColonNoGap(x);
    ReadPortAt(x, 0);
    WholeText(x);
    GrownParts(inner, tail);
  }

  lemma SamePath(gap: string, a: Tail, b: Tail)
    requires a.path == b.path && a.query == b.query && a.cli == b.cli
    ensures PathText(gap, a) == PathText(gap, b)
  {
  }

  lemma PortStarts(y: string, n: nat, c: string)
    requires n == Port(y) > 0
    ensures StartsWith(y[..n] + c, ':')
  {
  }

  lemma NoGap(x: string)
    requires x != "" && !IsWs(x[0])
    ensures Gap(x) == 0
  {
  }

  lemma ColonNoGap(x: string)
    requires StartsWith(x, ':')
    ensures Gap(x) == 0
  {
  }

  lemma WholeText(x: string)
    ensures x[0..] == x
  {
  }
}
