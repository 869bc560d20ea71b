/** What the leaf grammar reads holds no parenthesis and no comment sign; so a clean leaf prints as a clean
    leaf. */
module DslClean {
  import opened Wrappers
  import opened Text
  import opened DslAst
  import opened ExprSplit
  import opened ExprParser
  import opened PaddedSplit
  import opened Format
  import opened FormatClean
  import opened DslGrammar
  import opened DslStable
  import opened DslReprint
  import opened DslLeaf

  // ---- Plain characters ----

  predicate IsPlain(c: char) {
    c != '(' && c != ')' && c != '#'
  }

  predicate PlainTo(s: string, n: nat) {
    n <= |s| && forall i | 0 <= i < n :: IsPlain(s[i])
  }

  predicate Plain(s: string) {
    PlainTo(s, |s|)
  }

  lemma PlainMore(s: string, n: nat, m: nat)
    requires PlainTo(s, n) && PlainTo(s[n..], m)
    ensures PlainTo(s, n + m)
  {
    assert forall i | n <= i < n + m :: s[i] == s[n..][i - n];
  }

  lemma PlainNone(s: string)
    ensures PlainTo(s, 0)
  {
  }

  lemma PlainOne(s: string, c: char)
    requires StartsWith(s, c) && IsPlain(c)
    ensures PlainTo(s, 1)
  {
  }

  lemma PlainLeading(s: string, kind: char -> bool)
    requires forall c | kind(c) :: IsPlain(c)
    ensures PlainTo(s, Leading(s, kind))
  {
    hide IsPlain;
  }

  lemma PlainQueryChars(s: string)
    ensures PlainTo(s, Leading(s, IsQueryChar))
  {
    PlainLeading(s, IsQueryChar);
  }

  lemma PlainPathChars(s: string)
    ensures PlainTo(s, Leading(s, IsPathChar))
  {
    PlainLeading(s, IsPathChar);
  }

  lemma PlainValueChars(s: string)
    ensures PlainTo(s, Leading(s, IsValueChar))
  {
    PlainLeading(s, IsValueChar);
  }

  lemma PlainDigits(s: string)
    ensures PlainTo(s, Leading(s, IsDigit))
  {
    PlainLeading(s, IsDigit);
  }

  lemma PlainAlphas(s: string)
    ensures PlainTo(s, Leading(s, IsAlpha))
  {
    PlainLeading(s, IsAlpha);
  }

  lemma PlainLabelChars(s: string)
    ensures PlainTo(s, Leading(s, IsLabelChar))
  {
    PlainLeading(s, IsLabelChar);
  }

  lemma PlainSpaces(s: string)
    ensures PlainTo(s, Gap(s))
  {
    PlainLeading(s, IsWs);
  }

  // ---- Paths and ports ----

  lemma PlainHost(s: string)
    ensures PlainTo(s, Host(s))
  {
    HostChars(s);
    hide Host;
  }

  lemma PlainScheme(s: string)
    ensures PlainTo(s, Scheme(s))
  {
    if Scheme(s) > 0 {
      var j := SchemeShape(s);
      hide Scheme;
      assert forall i | 0 <= i < j + 3 :: IsPlain(s[i]);
    }
  }

  lemma PlainPort(s: string)
    ensures PlainTo(s, Port(s))
  {
    hide PlainTo, Leading;
    PlainNone(s);
    if StartsWith(s, ':') {
      PlainOne(s, ':');
      PlainDigits(s[1..]);
      PlainMore(s, 1, Leading(s[1..], IsDigit));
    }
  }

  lemma PlainSegment(s: string)
    ensures PlainTo(s, PathSegment(s))
  {
    PlainPathChars(s);
    assert "**"[0] == '*' && "**"[1] == '*' && "*"[0] == '*';
  }

  lemma {:induction false} PlainSegmentsSlash(s: string)
    ensures PlainTo(s, SegmentsSlash(s))
    decreases |s|
  {
    hide PlainTo, PathSegment;
    PlainNone(s);
    PlainSegment(s);
    var n := PathSegment(s);
    if SegmentsSlash(s) > 0 {
      PlainOne(s[n..], '/');
      PlainMore(s, n, 1);
      PlainSegmentsSlash(s[n + 1..]);
      PlainMore(s, n + 1, SegmentsSlash(s[n + 1..]));
    }
  }

  lemma PlainSlashPath(s: string)
    ensures PlainTo(s, SlashPath(s))
  {
    hide PlainTo, PathSegment, SegmentsSlash;
    PlainNone(s);
    if StartsWith(s, '/') {
      var n := 1 + SegmentsSlash(s[1..]);
      PlainOne(s, '/');
      PlainSegmentsSlash(s[1..]);
      PlainMore(s, 1, SegmentsSlash(s[1..]));
      PlainSegment(s[n..]);
      PlainMore(s, n, PathSegment(s[n..]));
    }
  }

  lemma PlainSlashSegment(s: string)
    ensures PlainTo(s, SlashSegment(s))
  {
    hide PlainTo, PathSegment;
    PlainNone(s);
    if StartsWith(s, '/') {
      PlainOne(s, '/');
      PlainSegment(s[1..]);
      PlainMore(s, 1, PathSegment(s[1..]));
    }
  }

  lemma {:induction false} PlainSlashSegments(s: string)
    ensures PlainTo(s, SlashSegments(s))
    decreases |s|
  {
    hide PlainTo, SlashSegment;
    PlainSlashSegment(s);
    var n := SlashSegment(s);
    if n > 0 {
      PlainSlashSegments(s[n..]);
      PlainMore(s, n, SlashSegments(s[n..]));
    }
  }

  lemma PlainStars(s: string)
    ensures ("**" <= s ==> PlainTo(s, 2)) && ("*" <= s ==> PlainTo(s, 1))
  {
    assert "**"[0] == '*' && "**"[1] == '*' && "*"[0] == '*';
  }

  lemma PlainPath(s: string)
    ensures PlainTo(s, Path(s))
  {
    hide PlainTo, SlashPath, SlashSegments;
    PlainNone(s);
    PlainSlashPath(s);
    PlainStars(s);
    if "**" <= s {
      PlainSlashSegments(s[2..]);
      PlainMore(s, 2, SlashSegments(s[2..]));
    }
    if "*" <= s {
      PlainSlashSegments(s[1..]);
      PlainMore(s, 1, SlashSegments(s[1..]));
    }
  }

  // ---- Queries ----

  lemma PlainSign(s: string, c: char)
    requires IsPlain(c)
    ensures PlainTo(s, Sign(s, c))
  {
    hide PlainTo, Gap;
    PlainNone(s);
    if StartsWith(s, c) {
      PlainOne(s, c);
      PlainSpaces(s[1..]);
      PlainMore(s, 1, Gap(s[1..]));
    }
  }

  lemma PlainKey(s: string)
    ensures PlainTo(s, QueryKey(s))
  {
    hide PlainTo, Gap, Leading;
    PlainNone(s);
    PlainQueryChars(s);
    var key := Leading(s, IsQueryChar);
    PlainSpaces(s[key..]);
    PlainMore(s, key, Gap(s[key..]));
  }

  lemma PlainPair(s: string)
    ensures PlainTo(s, QueryPair(s))
  {
    hide PlainTo, QueryKey, EqValue;
    PlainNone(s);
    PlainKey(s);
    var key := QueryKey(s);
    PlainValue(s[key..]);
    PlainMore(s, key, EqValue(s[key..]));
  }

  lemma PlainValue(s: string)
    ensures PlainTo(s, EqValue(s))
  {
    hide PlainTo, Leading, Sign;
    PlainNone(s);
    PlainSign(s, '=');
    var at := Sign(s, '=');
    PlainQueryChars(s[at..]);
    PlainMore(s, at, Leading(s[at..], IsQueryChar));
  }

  lemma PlainAndPair(s: string)
    ensures PlainTo(s, AndPair(s))
  {
    hide PlainTo, Sign, QueryPair;
    PlainNone(s);
    PlainSign(s, '&');
    var at := Sign(s, '&');
    PlainPair(s[at..]);
    PlainMore(s, at, QueryPair(s[at..]));
  }

  lemma {:induction false} PlainMorePairs(s: string)
    ensures PlainTo(s, MorePairs(s))
    decreases |s|
  {
    hide PlainTo, Gap, AndPair;
    PlainNone(s);
    PlainSpaces(s);
    PlainAndPair(s[Gap(s)..]);
    PlainMore(s, Gap(s), AndPair(s[Gap(s)..]));
    var n := SpacedPair(s);
    if n > 0 {
      PlainMorePairs(s[n..]);
      PlainMore(s, n, MorePairs(s[n..]));
    }
  }

  lemma PlainRestPairs(s: string)
    ensures PlainTo(s, RestPairs(s))
  {
    hide PlainTo, AndPair, MorePairs;
    PlainNone(s);
    PlainAndPair(s);
    PlainMorePairs(s[AndPair(s)..]);
    PlainMore(s, AndPair(s), MorePairs(s[AndPair(s)..]));
  }

  lemma PlainBody(s: string)
    ensures PlainTo(s, QueryBody(s))
  {
    hide PlainTo, QueryPair, Gap, RestPairs;
    PlainNone(s);
    PlainPair(s);
    var n := QueryPair(s);
    PlainSpaces(s[n..]);
    PlainMore(s, n, Gap(s[n..]));
    var first := FirstPair(s);
    PlainRestPairs(s[first..]);
    PlainMore(s, first, RestPairs(s[first..]));
  }

  lemma PlainQuery(s: string)
    ensures PlainTo(s, Query(s))
  {
    hide PlainTo, Sign, QueryBody;
    PlainNone(s);
    PlainSign(s, '?');
    var at := Sign(s, '?');
    PlainBody(s[at..]);
    PlainMore(s, at, QueryBody(s[at..]));
  }

  // ---- Arguments ----

  lemma PlainShortFlag(s: string)
    ensures PlainTo(s, ShortFlag(s))
  {
    hide PlainTo, Sign, Leading;
    PlainNone(s);
    PlainSign(s, '-');
    var at := Sign(s, '-');
    PlainAlphas(s[at..]);
    PlainMore(s, at, Leading(s[at..], IsAlpha));
  }

  lemma PlainLongFlag(s: string)
    ensures PlainTo(s, LongFlag(s))
  {
    if "--" <= s {
      assert "--"[0] == '-' && "--"[1] == '-';
      assert PlainTo(s, 2);
      hide PlainTo, Leading;
      PlainNone(s);
      PlainLabelChars(s[2..]);
      PlainMore(s, 2, Leading(s[2..], IsLabelChar));
    }
  }

  lemma ArgValueReads(s: string)
    ensures ArgValue(s).Some? ==>
              || ArgValue(s).value.n == Leading(s, IsValueChar)
              || ArgValue(s).value.n == Sign(s, '=') + Leading(s[Sign(s, '=')..], IsValueChar)
  {
    hide Leading, Gap;
  }

  lemma EqualsIsPlain()
    ensures IsPlain('=')
  {
  }

  lemma PlainArgValue(s: string)
    ensures ArgValue(s).Some? ==> PlainTo(s, ArgValue(s).value.n)
  {
    hide *;
    var at := Sign(s, '=');
    ArgValueReads(s);
    EqualsIsPlain();
    PlainValueChars(s);
    PlainSign(s, '=');
    PlainValueChars(s[at..]);
    PlainMore(s, at, Leading(s[at..], IsValueChar));
  }

  lemma PlainArg(s: string)
    ensures Arg(s).Some? ==> PlainTo(s, Arg(s).value.n)
  {
    hide PlainTo, Gap, ShortFlag, LongFlag, ArgValue;
    PlainShortFlag(s);
    PlainLongFlag(s);
    var flag := Flag(s);
    PlainSpaces(s[flag..]);
    PlainMore(s, flag, Gap(s[flag..]));
    var at := flag + Gap(s[flag..]);
    PlainArgValue(s[at..]);
    if ArgValue(s[at..]).Some? {
      PlainMore(s, at, ArgValue(s[at..]).value.n);
    }
  }

  lemma {:induction false} PlainMoreArgs(s: string)
    ensures PlainTo(s, MoreArgs(s).n)
    decreases |s|
  {
    hide PlainTo, Gap, Arg;
    PlainNone(s);
    PlainSpaces(s);
    var w := Gap(s);
    PlainArg(s[w..]);
    if Arg(s[w..]).Some? {
      var n := w + Arg(s[w..]).value.n;
      PlainMore(s, w, Arg(s[w..]).value.n);
      PlainMoreArgs(s[n..]);
      PlainMore(s, n, MoreArgs(s[n..]).n);
    }
  }

  lemma PlainArgs(s: string)
    ensures Args(s).Some? ==> PlainTo(s, Args(s).value.n)
  {
    hide PlainTo, Gap, Arg, MoreArgs;
    PlainArg(s);
    if Arg(s).Some? {
      var n := Arg(s).value.n;
      PlainSpaces(s[n..]);
      PlainMore(s, n, Gap(s[n..]));
      var at := n + Gap(s[n..]);
      PlainArg(s[at..]);
      if Arg(s[at..]).Some? {
        var m := at + Arg(s[at..]).value.n;
        PlainMore(s, at, Arg(s[at..]).value.n);
        PlainMoreArgs(s[m..]);
        PlainMore(s, m, MoreArgs(s[m..]).n);
      }
    }
  }

  // ---- Whatever is read to the end is plain ----

  lemma PlainAll(s: string, n: nat)
    requires n <= |s| && PlainTo(s, n) && Plain(s[n..])
    ensures Plain(s)
  {
    PlainMore(s, n, |s| - n);
  }

  lemma PlainAfterGap(s: string)
    requires Plain(s[Gap(s)..])
    ensures Plain(s)
  {
    PlainSpaces(s);
    hide Gap;
    PlainAll(s, Gap(s));
  }

  lemma PlainCli(s: string)
    requires ReadCli(s).Some?
    ensures Plain(s)
  {
    hide PlainTo, Args, Gap;
    var r := s[Gap(s)..];
    PlainNone(r);
    if r != "" {
      PlainArgs(r);
      var n := Args(r).value.n;
      PlainGap(r[n..]);
      PlainAll(r, n);
    }
    PlainAfterGap(s);
  }

  lemma PlainGap(s: string)
    requires Gap(s) == |s|
    ensures Plain(s)
  {
    PlainSpaces(s);
  }

  lemma PlainReadQuery(s: string)
    requires ReadQuery(s).Some?
    ensures Plain(s)
  {
    hide Plain, PlainTo, Query, Gap, ReadCli;
    var r := s[Gap(s)..];
    if Query(r) == 0 {
      PlainCli(s);
    } else {
      PlainQuery(r);
      PlainCli(r[Query(r)..]);
      PlainAll(r, Query(r));
      PlainAfterGap(s);
    }
  }

  lemma PlainReadPath(s: string)
    requires ReadPath(s).Some?
    ensures Plain(s)
  {
    hide Plain, PlainTo, Path, Gap, ReadQuery;
    var r := s[Gap(s)..];
    if Path(r) == 0 {
      PlainReadQuery(s);
    } else {
      PlainPath(r);
      PlainReadQuery(r[Path(r)..]);
      PlainAll(r, Path(r));
      PlainAfterGap(s);
    }
  }

  lemma PlainReadPort(s: string)
    requires ReadPort(s).Some?
    ensures Plain(s)
  {
    hide Plain, PlainTo, Port, Gap, ReadPath;
    var r := s[Gap(s)..];
    if Port(r) == 0 {
      PlainReadPath(s);
    } else {
      PlainPort(r);
      PlainReadPath(r[Port(r)..]);
      PlainAll(r, Port(r));
      PlainAfterGap(s);
    }
  }

  lemma PlainReadHost(scheme: Option<string>, s: string)
    requires ReadHost(scheme, s).Some?
    ensures Plain(s)
  {
    hide Plain, PlainTo, Host, ReadPort;
    PlainHost(s);
    PlainReadPort(s[Host(s)..]);
    PlainAll(s, Host(s));
  }

  lemma PlainUrl(s: string)
    requires ReadUrl(s).Some?
    ensures Plain(s)
  {
    hide *;
    ReadUrlUnfolds(s);
    if Scheme(s) > 0 && Host(AfterScheme(s)) > 0 {
      AfterSchemeIs(s);
      PlainReadHost(Some(s[..Scheme(s)]), AfterScheme(s));
      PlainAfterGap(s[Scheme(s)..]);
      PlainScheme(s);
      PlainAll(s, Scheme(s));
    } else if Host(s) > 0 {
      PlainReadHost(None, s);
    } else {
      PlainReadPath(s);
    }
  }

  lemma PlainLeaf(t: string)
    requires ReadLeaf(t).Some?
    ensures Plain(t)
  {
    hide Plain, PlainTo, Args, Gap, ReadUrl;
    var s := t[Gap(t)..];
    if Args(s).Some? {
      var n := Args(s).value.n;
      PlainArgs(s);
      PlainGap(s[n..]);
      PlainAll(s, n);
    } else {
      PlainUrl(s);
    }
    PlainAfterGap(t);
  }
}
