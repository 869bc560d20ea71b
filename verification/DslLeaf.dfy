/** A whole leaf, printed and read again: it is the same leaf exactly when its query does not end in white
    space. */
module DslLeaf {
  import opened Wrappers
  import opened Text
  import opened DslAst
  import opened Format
  import opened DslGrammar
  import opened DslStable
  import opened DslReprint

  // ---- Printed leaves ----

  function PartText(part: Option<string>): string {
    match part case None => "" case Some(text) => text
  }

  function TailOf(fragment: Fragment): Tail
    requires fragment.UrlFragment?
  {
    Tail(fragment.url.port, fragment.url.path, fragment.url.query, fragment.cli)
  }

  /** A query that ends in white space. */
  predicate SpacedQuery(fragment: Fragment) {
    fragment.UrlFragment? && Spaced(TailOf(fragment))
  }

  /** What a printed leaf is read as: the same, or one with a longer query. */
  function Regrown(fragment: Fragment): Fragment {
    if SpacedQuery(fragment)
    then fragment.(url := fragment.url.(query := Some(fragment.url.query.value + " ")))
    else fragment
  }

  /** Scheme, host, port, a space or none, path, query and arguments. */
  lemma RenderIs(fragment: Fragment) returns (gap: string)
    requires fragment.UrlFragment?
    ensures IsGap(gap) && (fragment.url.host.None? || fragment.url.path.None? ==> gap == "")
    ensures fragment.url.path.Some? && StartsWith(fragment.url.path.value, '/') ==> gap == ""
    ensures var url := fragment.url;
            url.host.Some? && url.port.None? && url.path.Some? && !StartsWith(url.path.value, '/') ==> gap == " "
    ensures Render(fragment) ==
            PartText(fragment.url.scheme) + (PartText(fragment.url.host) + PortText(gap, TailOf(fragment)))
  {
    hide EndsWith, TrimStart;
    var url, tail := fragment.url, TailOf(fragment);
    var head := PartText(url.scheme) + PartText(url.host);
    var front := Append(Append(Append("", url.scheme), url.host), url.port);
    gap := if url.path.Some? && url.host.Some? && !("/" <= url.path.value) && EndsWith(front, url.host.value)
           then " " else "";
    assert front == head + PartText(url.port);
    GapIs(front, PartText(url.scheme), url);
    PathAppended(front, url, gap, tail);
    QueryAppended(url, tail);
    RenderUnfolds(fragment);
    PortJoined(head, gap, tail);
    hide *;
    Regroup(PartText(url.scheme), PartText(url.host), PortText(gap, tail));
  }

  /** A path that does not start with a slash is set off from a host just before it. */
  lemma GapIs(front: string, scheme: string, url: Url)
    requires front == scheme + PartText(url.host) + PartText(url.port)
    ensures url.host.Some? && url.port.None? ==> EndsWith(front, url.host.value)
    ensures url.path.Some? ==> ("/" <= url.path.value <==> StartsWith(url.path.value, '/'))
  {
    if url.host.Some? && url.port.None? {
      assert front == scheme + url.host.value;
    }
  }

  lemma Regroup(a: string, b: string, c: string)
    ensures a + b + c == a + (b + c)
  {
  }

  lemma PathAppended(front: string, url: Url, gap: string, tail: Tail)
    requires tail.path == url.path && IsGap(gap)
    requires gap == if url.path.Some? && url.host.Some? && !("/" <= url.path.value) && EndsWith(front, url.host.value)
                    then " " else ""
    ensures AppendPath(front, url) + QueryText(tail) == front + PathText(gap, tail)
  {
    hide EndsWith, QueryText;
    if url.path.Some? {
      var p, q := url.path.value, QueryText(tail);
      assert front + " " + p + q == front + (" " + p + q);
      assert front + p + q == front + ("" + p + q);
    }
  }

  lemma QueryAppended(url: Url, tail: Tail)
    requires tail.query == url.query
    ensures forall text :: AppendQuery(text, url) + CliText(tail) == text + QueryText(tail)
  {
    hide CliText;
    forall text ensures AppendQuery(text, url) + CliText(tail) == text + QueryText(tail) {
      if url.query.Some? {
        assert text + "?" + url.query.value + CliText(tail) == text + ("?" + url.query.value + CliText(tail));
      }
    }
  }

  lemma RenderUnfolds(fragment: Fragment)
    requires fragment.UrlFragment?
    ensures Render(fragment) == UrlText(fragment.url) + CliText(TailOf(fragment))
  {
    hide UrlText, TrimStart;
    if fragment.cli.None? {
      assert UrlText(fragment.url) + "" == UrlText(fragment.url);
    } else {
      var c := TrimStart(fragment.cli.value.text);
      assert UrlText(fragment.url) + " " + c == UrlText(fragment.url) + (" " + c);
    }
  }

  lemma PortJoined(head: string, gap: string, tail: Tail)
    ensures head + PartText(tail.port) + PathText(gap, tail) == head + PortText(gap, tail)
  {
    hide PathText;
    if tail.port.Some? {
      assert head + tail.port.value + PathText(gap, tail) == head + (tail.port.value + PathText(gap, tail));
    }
  }

  // ---- Hosts and schemes ----

  predicate HostOnly(s: string, n: nat) {
    n <= |s| && forall i | 0 <= i < n :: IsHostChar(s[i])
  }

  lemma HostOnlyMore(s: string, n: nat, m: nat)
    requires n <= |s| && HostOnly(s, n) && HostOnly(s[n..], m)
    ensures HostOnly(s, n + m)
  {
    assert forall i | n <= i < n + m :: s[i] == s[n..][i - n];
  }

  lemma OctetChars(s: string)
    ensures HostOnly(s, Octet(s)) && (StartsWith(s[Octet(s)..], '.') ==> HostOnly(s, Octet(s) + 1))
  {
    assert forall i | 0 <= i < Octet(s) :: IsDigit(s[i]);
  }

  lemma {:induction false} OctetsChars(s: string, k: nat)
    ensures HostOnly(s, Octets(s, k))
    decreases k
  {
    hide HostOnly, Octet;
    OctetChars(s);
    NoHostChars(s);
    if k > 1 && Octets(s, k) > 0 {
      var d := Octet(s);
      OctetsChars(s[d + 1..], k - 1);
      HostOnlyMore(s, d + 1, Octets(s[d + 1..], k - 1));
    }
  }

  lemma NoHostChars(s: string)
    ensures HostOnly(s, 0)
  {
  }

  lemma LabelChars(s: string)
    ensures HostOnly(s, Label(s))
  {
  }

  lemma DotLabelChars(s: string)
    ensures HostOnly(s, DotLabel(s))
  {
    hide Label;
    if DotLabel(s) > 0 {
      LabelChars(s[1..]);
      HostOnlyMore(s, 1, Label(s[1..]));
    }
  }

  lemma {:induction false} DotLabelsChars(s: string)
    ensures HostOnly(s, DotLabels(s))
    decreases |s|
  {
    hide HostOnly, DotLabel;
    DotLabelChars(s);
    var n := DotLabel(s);
    if n > 0 {
      DotLabelsChars(s[n..]);
      HostOnlyMore(s, n, DotLabels(s[n..]));
    }
  }

  lemma HostChars(s: string)
    ensures HostOnly(s, Host(s))
  {
    hide Octets, Label, DotLabels, HostOnly;
    if "localhost" <= s {
      LocalhostChars(s);
    } else {
      OctetsChars(s, 4);
      LabelChars(s);
      var n := Label(s);
      DotLabelsChars(s[n..]);
      HostOnlyMore(s, n, DotLabels(s[n..]));
    }
  }

  lemma LocalhostChars(s: string)
    requires "localhost" <= s
    ensures HostOnly(s, 9)
  {
    var w := "localhost";
    assert forall i | 0 <= i < 9 :: s[i] == w[i] && IsHostChar(w[i]);
  }

  /** A scheme is letters, a colon and slashes. */
  lemma SchemeShape(x: string) returns (j: nat)
    requires Scheme(x) > 0
    ensures 0 < j && j + 3 == Scheme(x) <= |x| && x[j] == ':' && x[j + 1] == '/' && x[j + 2] == '/'
    ensures forall i | 0 <= i < j :: IsAlpha(x[i])
  {
    j := Scheme(x) - 3;
    var a, b, c, d := "http://", "https://", "ws://", "wss://";
    var e, f, g, h := "HTTP://", "HTTPS://", "WS://", "WSS://";
  }

  lemma SameWord(s: string, n: nat, c: string, w: string)
    requires |w| <= n <= |s|
    ensures w <= s <==> w <= s[..n] + c
  {
    var x := s[..n] + c;
    assert x[..|w|] == s[..|w|];
  }

  lemma WebSocketIsNoHttp(x: string)
    requires x != "" && (x[0] == 'w' || x[0] == 'W')
    ensures !("http://" <= x) && !("HTTP://" <= x) && !("https://" <= x) && !("HTTPS://" <= x)
  {
    assert "http://"[0] == 'h' && "HTTP://"[0] == 'H' && "https://"[0] == 'h' && "HTTPS://"[0] == 'H';
  }

  lemma SchemeStable(s: string, c: string)
    requires Scheme(s) > 0
    ensures Scheme(s[..Scheme(s)] + c) == Scheme(s)
  {
    var n := Scheme(s);
    var x := s[..n] + c;
    if n >= 7 {
      SameWord(s, n, c, "http://");
      SameWord(s, n, c, "HTTP://");
      if n == 8 {
        SameWord(s, n, c, "https://");
        SameWord(s, n, c, "HTTPS://");
      }
    } else {
      assert "ws://"[0] == 'w' && "WS://"[0] == 'W' && "wss://"[0] == 'w' && "WSS://"[0] == 'W';
      assert x[0] == s[0];
      WebSocketIsNoHttp(x);
      SameWord(s, n, c, "ws://");
      SameWord(s, n, c, "WS://");
      if n == 6 {
        SameWord(s, n, c, "wss://");
        SameWord(s, n, c, "WSS://");
      }
    }
  }

  lemma NoScheme(x: string, n: nat)
    requires HostOnly(x, n) && Stops(x, n, IsHostChar)
    requires n + 1 < |x| && x[n] == ':' ==> x[n + 1] != '/'
    ensures Scheme(x) == 0
  {
    if Scheme(x) > 0 {
      var j := SchemeShape(x);
      LeadingIs(x, IsHostChar, j);
      LeadingIs(x, IsHostChar, n);
    }
  }

  lemma PortTextColon(s: string, gap: string, tail: Tail)
    requires ReadPort(s) == Some(tail) && Solid(s) && IsGap(gap) && StartsWith(PortText(gap, tail), ':')
    ensures |PortText(gap, tail)| > 1 && PortText(gap, tail)[1] != '/'
  {
    hide *;
    var y := s[Gap(s)..];
    ReadPortAt(s, Gap(s));
    PortTextUnfolds(gap, tail);
    if Port(y) == 0 {
      PathHasNoPort(s);
      PathTextFollows(s, gap, tail);
      FollowingNoColon(PathText(gap, tail));
    } else {
      PortDigit(y, PathText(gap, tail));
    }
  }

  lemma FollowingNoColon(x: string)
    requires Following(x)
    ensures !StartsWith(x, ':')
  {
  }

  lemma PortDigit(y: string, c: string)
    requires Port(y) > 0
    ensures |y[..Port(y)] + c| > 1 && (y[..Port(y)] + c)[1] != '/'
  {
    assert y[1] == y[1..][0];
  }

  // ---- Hosts with what follows ----

  /** A host and what follows it, printed with or without a space before the path. */
  lemma HostReads(y: string, scheme: Option<string>, fragment: Fragment, gap: string)
    requires Host(y) > 0 && ReadHost(scheme, y) == Some(fragment) && Solid(y) && IsGap(gap)
    ensures fragment.UrlFragment? && fragment.url.scheme == scheme && fragment.url.host == Some(y[..Host(y)])
    ensures var x := y[..Host(y)] + PortText(gap, TailOf(fragment));
            && Host(x) == Host(y) && x[0] == y[0] && IsAlnum(x[0]) && Scheme(x) == 0
            && ReadHost(scheme, x) == Some(Regrown(fragment))
  {
    hide *;
    var n := Host(y);
    var tail := ReadHostUnfolds(scheme, y, fragment);
    SolidRest(y, n);
    PortReads(y[n..], gap, tail);
    var c := PortText(gap, tail);
    FollowingStops(c);
    var x := y[..n] + c;
    SharesPrefix(y, n, c);
    HostStable(y, x);
    PrefixBack(y, n, c);
    HostStarts(y);
    SamePrefixStart(y, n, c);
    HostChars(y);
    PrefixChars(y, n, c);
    if StartsWith(c, ':') {
      PortTextColon(y[n..], gap, tail);
    }
    ColonAfter(y, n, c);
    NoScheme(x, n);
    ReadHostAgain(scheme, x, n, Grown(tail));
  }

  lemma ReadHostUnfolds(scheme: Option<string>, y: string, fragment: Fragment) returns (tail: Tail)
    requires ReadHost(scheme, y) == Some(fragment)
    ensures ReadPort(y[Host(y)..]) == Some(tail) && fragment == UrlOf(scheme, Some(y[..Host(y)]), tail)
    ensures fragment.UrlFragment? && fragment.url.scheme == scheme && fragment.url.host == Some(y[..Host(y)])
    ensures TailOf(fragment) == tail && Regrown(fragment) == UrlOf(scheme, Some(y[..Host(y)]), Grown(tail))
  {
    hide Host, ReadPort, Spaced;
    tail := ReadPort(y[Host(y)..]).value;
  }

  lemma PrefixChars(y: string, n: nat, c: string)
    requires HostOnly(y, n)
    ensures HostOnly(y[..n] + c, n)
  {
    hide IsHostChar;
  }

  lemma ColonAfter(y: string, n: nat, c: string)
    requires n <= |y| && (StartsWith(c, ':') ==> |c| > 1 && c[1] != '/')
    ensures var x := y[..n] + c; n + 1 < |x| && x[n] == ':' ==> x[n + 1] != '/'
  {
  }

  lemma ReadHostAgain(scheme: Option<string>, x: string, n: nat, tail: Tail)
    requires Host(x) == n && ReadPort(x[n..]) == Some(tail)
    ensures ReadHost(scheme, x) == Some(UrlOf(scheme, Some(x[..n]), tail))
  {
    hide Host, ReadPort;
  }

  // ---- Urls ----

  lemma SchemeUrlReads(s: string, fragment: Fragment, gap: string)
    requires Scheme(s) > 0 && Host(AfterScheme(s)) > 0 && Solid(s) && IsGap(gap)
    requires ReadHost(Some(s[..Scheme(s)]), AfterScheme(s)) == Some(fragment)
    ensures fragment.UrlFragment?
    ensures var x := PartText(fragment.url.scheme) + (PartText(fragment.url.host) + PortText(gap, TailOf(fragment)));
            && x != "" && IsAlnum(x[0])
            && ReadUrl(x) == Some(Regrown(fragment))
  {
    hide *;
    var n, y := Scheme(s), AfterScheme(s);
    AfterSchemeIs(s);
    SolidRest(s, n);
    SolidRest(s[n..], Gap(s[n..]));
    HostReads(y, Some(s[..n]), fragment, gap);
    PartsAre(fragment, s[..n], y[..Host(y)]);
    var z := y[..Host(y)] + PortText(gap, TailOf(fragment));
    SchemeStable(s, z);
    PrefixBack(s, n, z);
    AlnumNoGap(z);
    AfterSchemeBack(s[..n] + z, n, z);
    SchemeFirst(s, z);
    ReadUrlUnfolds(s[..n] + z);
  }

  lemma PartsAre(fragment: Fragment, scheme: string, host: string)
    requires fragment.UrlFragment? && fragment.url.scheme == Some(scheme) && fragment.url.host == Some(host)
    ensures PartText(fragment.url.scheme) == scheme && PartText(fragment.url.host) == host
  {
  }

  lemma AfterSchemeIs(s: string)
    ensures AfterScheme(s) == s[Scheme(s)..][Gap(s[Scheme(s)..])..]
  {
  }

  lemma AlnumNoGap(z: string)
    requires z != "" && IsAlnum(z[0])
    ensures Gap(z) == 0 && z[0..] == z
  {
  }

  lemma AfterSchemeBack(x: string, n: nat, z: string)
    requires Scheme(x) == n && x[n..] == z && Gap(z) == 0 && z[0..] == z
    ensures AfterScheme(x) == z
  {
    hide Scheme, Gap;
  }

  lemma SchemeFirst(s: string, z: string)
    requires Scheme(s) > 0
    ensures s[..Scheme(s)] + z != "" && IsAlnum((s[..Scheme(s)] + z)[0])
  {
    var j := SchemeShape(s);
  }

  lemma ReadUrlUnfolds(s: string)
    ensures ReadUrl(s) ==
            if Scheme(s) > 0 && Host(AfterScheme(s)) > 0 then ReadHost(Some(s[..Scheme(s)]), AfterScheme(s))
            else if Host(s) > 0 then ReadHost(None, s)
            else if Path(s) > 0 || Query(s) > 0 then
              match ReadPath(s)
              case None => None
              case Some(tail) => Some(UrlOf(None, None, tail))
            else None
  {
    hide Scheme, Host, AfterScheme, ReadHost, Path, Query, ReadPath;
  }

  lemma HostUrlReads(s: string, fragment: Fragment, gap: string)
    requires Host(s) > 0 && Solid(s) && IsGap(gap) && ReadHost(None, s) == Some(fragment)
    ensures fragment.UrlFragment?
    ensures var x := PartText(fragment.url.scheme) + (PartText(fragment.url.host) + PortText(gap, TailOf(fragment)));
            && x != "" && IsAlnum(x[0])
            && ReadUrl(x) == Some(Regrown(fragment))
  {
    hide *;
    HostReads(s, None, fragment, gap);
    HostPartsAre(fragment, s[..Host(s)]);
    var x := s[..Host(s)] + PortText(gap, TailOf(fragment));
    NothingBefore(x);
    ReadUrlUnfolds(x);
  }

  lemma HostPartsAre(fragment: Fragment, host: string)
    requires fragment.UrlFragment? && fragment.url.scheme == None && fragment.url.host == Some(host)
    ensures PartText(fragment.url.scheme) == "" && PartText(fragment.url.host) == host
  {
  }

  lemma NothingBefore(x: string)
    ensures "" + x == x
  {
  }

  lemma PathUrlReads(s: string, tail: Tail)
    requires (Path(s) > 0 || Query(s) > 0) && ReadPath(s) == Some(tail) && Solid(s)
    ensures var x := PortText("", tail);
            && x != "" && x[0] in "/*?"
            && ReadUrl(x) == Some(UrlOf(None, None, Grown(tail)))
  {
    hide *;
    AnyGap();
    StartNoGap(s);
    ReadPathAt(s, 0);
    WholeText(s);
    PathHasNoPort(s);
    PathReads(s, "", tail);
    PathTextFollows(s, "", tail);
    PortTextUnfolds("", tail);
    var x := PathText("", tail);
    PathTextStarts(s, tail);
    NeitherSchemeNorHost(x);
    ReadUrlUnfolds(x);
    PartsFound(s, x, tail);
  }

  lemma StartNoGap(s: string)
    requires Path(s) > 0 || Query(s) > 0
    ensures Gap(s) == 0 && s != ""
  {
    hide QueryBody, GlobPath, SlashPath;
    if Path(s) > 0 {
      PathStarts(s);
    }
  }

  lemma PathTextStarts(s: string, tail: Tail)
    requires (Path(s) > 0 || Query(s) > 0) && ReadPath(s) == Some(tail) && Gap(s) == 0 && s[0..] == s
    ensures var x := PathText("", tail); x != "" && x[0] in "/*?"
  {
    hide Query, ReadCli, QueryText;
    ReadPathAt(s, 0);
    if Path(s) > 0 {
      PathStarts(s);
    } else {
      QueryStartsText(s, tail);
    }
    hide Path;
  }

  lemma QueryStartsText(s: string, tail: Tail)
    requires Query(s) > 0 && ReadQuery(s) == Some(tail) && Gap(s) == 0
    ensures tail.path.None? && tail.query.Some? && QueryText(tail) != "" && QueryText(tail)[0] == '?'
  {
    QueryHasNoPath(s);
    hide Query, ReadCli, CliText;
    WholeText(s);
  }

  lemma NeitherSchemeNorHost(x: string)
    requires x != "" && x[0] in "/*?"
    ensures Scheme(x) == 0 && Host(x) == 0 && Gap(x) == 0 && x[0..] == x
  {
    NoHostChars(x);
    NoScheme(x, 0);
    if Host(x) > 0 {
      HostStarts(x);
    }
  }

  lemma PartsFound(s: string, x: string, tail: Tail)
    requires Gap(s) == 0 && s[0..] == s && Gap(x) == 0 && x[0..] == x
    requires (Path(s) > 0 || Query(s) > 0) && ReadPath(s) == Some(tail)
    requires ReadPath(x) == Some(Grown(tail))
    ensures Path(x) > 0 || Query(x) > 0
  {
    hide *;
    PathOrQuery(s, tail);
    PathOrQuery(x, Grown(tail));
    GrownHasParts(tail);
  }

  lemma GrownHasParts(tail: Tail)
    ensures Grown(tail).path == tail.path && (Grown(tail).query.Some? <==> tail.query.Some?)
  {
  }

  lemma PathOrQuery(s: string, tail: Tail)
    requires Gap(s) == 0 && s[0..] == s && ReadPath(s) == Some(tail)
    ensures Path(s) > 0 <==> tail.path.Some?
    ensures Path(s) == 0 ==> (Query(s) > 0 <==> tail.query.Some?)
  {
    hide Path, Query, ReadCli;
    ReadPathAt(s, 0);
    QueryHasNoPath(s);
    CliHasNoQuery(s);
  }

  lemma UrlReads(s: string, fragment: Fragment)
    requires ReadUrl(s) == Some(fragment) && Solid(s)
    ensures fragment.UrlFragment?
    ensures Render(fragment) != "" && !IsSpace(Render(fragment)[0]) && Render(fragment)[0] != '-'
    ensures ReadUrl(Render(fragment)) == Some(Regrown(fragment))
  {
    hide *;
    ReadUrlUnfolds(s);
    if Scheme(s) > 0 && Host(AfterScheme(s)) > 0 {
      AnyGap();
      SchemeUrlReads(s, fragment, "");
      var gap := RenderIs(fragment);
      SchemeUrlReads(s, fragment, gap);
      FirstIsAlnum(Render(fragment));
    } else if Host(s) > 0 {
      AnyGap();
      HostUrlReads(s, fragment, "");
      var gap := RenderIs(fragment);
      HostUrlReads(s, fragment, gap);
      FirstIsAlnum(Render(fragment));
    } else {
      var tail := ReadPath(s).value;
      PathUrlReads(s, tail);
      BareUrl(fragment, tail);
      var gap := RenderIs(fragment);
      NothingBefore(PortText(gap, TailOf(fragment)));
      FirstIsSign(Render(fragment));
    }
  }

  lemma AnyGap()
    ensures IsGap("")
  {
  }

  lemma FirstIsAlnum(x: string)
    requires x != "" && IsAlnum(x[0])
    ensures !IsSpace(x[0]) && x[0] != '-'
  {
  }

  lemma FirstIsSign(x: string)
    requires x != "" && x[0] in "/*?"
    ensures !IsSpace(x[0]) && x[0] != '-'
  {
  }

  lemma BareUrl(fragment: Fragment, tail: Tail)
    requires fragment == UrlOf(None, None, tail)
    ensures fragment.UrlFragment? && fragment.url.host.None? && TailOf(fragment) == tail
    ensures PartText(fragment.url.scheme) == "" && PartText(fragment.url.host) == ""
    ensures Regrown(fragment) == UrlOf(None, None, Grown(tail))
  {
  }

  // ---- Leaves ----

  /** A trimmed text that the grammar reads: its leaf, printed, is read as the same leaf, but for one more
      space at the end of a query that ends in white space. */
  lemma LeafReads(t: string, fragment: Fragment)
    requires t != "" && Trimmed(t) && ReadLeaf(t) == Some(fragment)
    ensures ReadLeaf(Render(fragment)) == Some(Regrown(fragment))
    ensures fragment.CliOnly? ==> Render(fragment) == t
    ensures fragment.UrlFragment? ==> ReadUrl(t) == Some(fragment)
  {
    hide *;
    TrimmedIsSolid(t);
    ReadLeafUnfolds(t);
    if Args(t).Some? {
      OnlyArgs(t, fragment);
    } else {
      UrlReads(t, fragment);
      var x := Render(fragment);
      SolidStart(x);
      if Args(x).Some? {
        ArgsStart(x);
        DashStart(x);
      }
      ReadLeafUnfolds(x);
    }
  }

  lemma DashStart(x: string)
    requires StartsWith(x, '-')
    ensures x != "" && x[0] == '-'
  {
  }

  lemma TrimmedIsSolid(t: string)
    requires t != "" && Trimmed(t)
    ensures Solid(t) && Gap(t) == 0 && t[0..] == t
  {
  }

  lemma SolidStart(x: string)
    requires x != "" && !IsSpace(x[0])
    ensures Gap(x) == 0 && x[0..] == x
  {
  }

  lemma ReadLeafUnfolds(t: string)
    requires Gap(t) == 0 && t[0..] == t
    ensures ReadLeaf(t) ==
            match Args(t)
            case Some(args) =>
              if Gap(t[args.n..]) < |t| - args.n then None else Some(CliOnly(CliArgs(args.args, t[..args.n])))
            case None => ReadUrl(t)
  {
    hide Args, ReadUrl, Gap;
  }

  lemma OnlyArgs(t: string, fragment: Fragment)
    requires Solid(t) && Args(t).Some? && Gap(t) == 0 && t[0..] == t && ReadLeaf(t) == Some(fragment)
    ensures fragment.CliOnly? && Render(fragment) == t && Regrown(fragment) == fragment
  {
    hide *;
    ReadLeafUnfolds(t);
    var n := Args(t).value.n;
    SolidRest(t, n);
    ArgsToTheEnd(t, n, fragment);
  }

  lemma ArgsToTheEnd(t: string, n: nat, fragment: Fragment)
    requires n <= |t| && Solid(t[n..])
    requires exists args ::
               (if Gap(t[n..]) < |t| - n then None else Some(CliOnly(CliArgs(args, t[..n])))) == Some(fragment)
    ensures fragment.CliOnly? && Render(fragment) == t && Regrown(fragment) == fragment
  {
    hide Gap;
    AllGone(t[n..]);
    assert t[..n] == t;
  }
}
