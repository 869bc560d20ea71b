/** What a host, port or path of the leaf grammar takes depends on no more than what it took and the one
    character after it. */
module DslStable {
  import opened Wrappers
  import opened Text
  import opened DslAst
  import opened DslGrammar

  // ---- Texts that start alike ----

  predicate Shares(s: string, x: string, n: nat) {
    n <= |s| && n <= |x| && forall i | 0 <= i < n :: s[i] == x[i]
  }

  lemma SharesRest(s: string, x: string, n: nat, d: nat)
    requires Shares(s, x, n) && d <= n
    ensures Shares(s[d..], x[d..], n - d) && Shares(s, x, d)
  {
  }

  /** The text ends after `n` characters, or goes on with a character of another kind. */
  predicate Stops(x: string, n: nat, kind: char -> bool) {
    n < |x| ==> !kind(x[n])
  }

  /** What holds at a place that both texts share, or at the place where they part, holds from there on. */
  lemma Later(s: string, x: string, n: nat, d: nat, kind: char -> bool)
    requires Shares(s, x, n) && d <= n && Stops(x, n, kind)
    ensures d <= |s| && d <= |x| && Shares(s, x, d) && Shares(s[d..], x[d..], n - d) && Stops(x[d..], n - d, kind)
  {
  }

  lemma SharedAt(s: string, x: string, n: nat, d: nat, c: char)
    requires Shares(s, x, n) && d < n
    ensures d < |s| && d < |x| && (StartsWith(s[d..], c) <==> StartsWith(x[d..], c))
  {
  }

  lemma SameSuffix(s: string, a: nat, b: nat)
    requires a <= b <= |s|
    ensures s[a..][b - a..] == s[b..]
  {
  }

  predicate IsHostChar(c: char) {
    IsLabelChar(c) || c == '.'
  }

  predicate IsPathOrSlash(c: char) {
    IsPathChar(c) || c == '/'
  }

  lemma LeadingIs(s: string, kind: char -> bool, n: nat)
    requires n <= |s| && (forall i | 0 <= i < n :: kind(s[i])) && Stops(s, n, kind)
    ensures Leading(s, kind) == n
  {
  }

  lemma LeadingStable(s: string, x: string, kind: char -> bool)
    requires Shares(s, x, Leading(s, kind)) && Stops(x, Leading(s, kind), kind)
    ensures Leading(x, kind) == Leading(s, kind)
  {
    LeadingIs(x, kind, Leading(s, kind));
  }

  // ---- Where each part starts ----

  lemma OctetSome(s: string)
    ensures Octet(s) > 0 <==> s != "" && IsDigit(s[0])
  {
  }

  lemma OctetsStart(s: string, k: nat)
    requires Octets(s, k) > 0
    ensures s != "" && IsDigit(s[0])
  {
    OctetSome(s);
  }

  lemma HostStarts(s: string)
    requires Host(s) > 0
    ensures s != "" && IsAlnum(s[0])
  {
    hide Octets, DotLabels;
    if "localhost" <= s {
      assert s[0] == "localhost"[0];
    } else if Octets(s, 4) > 0 {
      OctetsStart(s, 4);
    }
  }

  lemma GlobStarts(s: string)
    requires GlobPath(s) > 0
    ensures s != "" && s[0] == '*'
  {
    hide SlashSegments;
    assert "**"[0] == '*' && "*"[0] == '*';
  }

  lemma PathStarts(s: string)
    requires Path(s) > 0
    ensures s != "" && (s[0] == '/' || s[0] == '*')
  {
    hide GlobPath;
    if SlashPath(s) == 0 {
      GlobStarts(s);
    }
  }

  lemma ArgsStart(s: string)
    requires Args(s).Some?
    ensures StartsWith(s, '-')
  {
    assert "--"[0] == '-';
    hide Leading, ArgValue, MoreArgs;
  }

  // ---- Hosts ----

  lemma OctetStable(s: string, x: string)
    requires Shares(s, x, Octet(s)) && Stops(x, Octet(s), IsDigit)
    ensures Octet(x) == Octet(s)
  {
    LeadingIs(x, IsDigit, Octet(s));
  }

  lemma OctetsStep(s: string, k: nat)
    requires k > 1
    ensures var d := Octet(s);
            Octets(s, k) == if d == 0 || !StartsWith(s[d..], '.') || Octets(s[d + 1..], k - 1) == 0 then 0
                            else d + 1 + Octets(s[d + 1..], k - 1)
  {
    hide Octet;
  }

  lemma OneOctet(s: string)
    ensures Octets(s, 1) == Octets(s, 0) == Octet(s)
  {
  }

  lemma {:induction false} OctetsStable(s: string, x: string, k: nat)
    requires Octets(s, k) > 0 && Shares(s, x, Octets(s, k)) && Stops(x, Octets(s, k), IsHostChar)
    ensures Octets(x, k) == Octets(s, k)
    decreases k
  {
    hide *;
    var d, n := Octet(s), Octets(s, k);
    if k <= 1 {
      OneOctet(s);
      OneOctet(x);
      DigitStop(x, n);
      OctetStable(s, x);
    } else {
      OctetsStep(s, k);
      OctetsStep(x, k);
      SharedAt(s, x, n, d, '.');
      Later(s, x, n, d, IsHostChar);
      Later(s, x, n, d + 1, IsHostChar);
      DotStop(x, d);
      OctetStable(s, x);
      OctetsStable(s[d + 1..], x[d + 1..], k - 1);
    }
  }

  lemma DigitStop(x: string, n: nat)
    requires Stops(x, n, IsHostChar)
    ensures Stops(x, n, IsDigit) && Stops(x, n, IsLabelChar)
  {
  }

  lemma DotStop(x: string, n: nat)
    requires n <= |x| && StartsWith(x[n..], '.')
    ensures Stops(x, n, IsDigit) && Stops(x, n, IsLabelChar)
  {
  }

  /** Groups of digits inside a host are there whatever follows the host. */
  lemma {:induction false} OctetsStay(s: string, x: string, n: nat, k: nat)
    requires Shares(s, x, n) && Stops(x, n, IsHostChar) && Octets(x, k) > 0
    ensures Octets(s, k) > 0
    decreases k
  {
    hide *;
    if k <= 1 {
      OneOctet(s);
      OneOctet(x);
      OctetThere(s, x, n);
    } else {
      OctetsStep(s, k);
      OctetsStep(x, k);
      var d := Octet(x);
      OctetBeforeDot(s, x, n);
      Later(s, x, n, d + 1, IsHostChar);
      OctetsStay(s[d + 1..], x[d + 1..], n - d - 1, k - 1);
    }
  }

  lemma OctetThere(s: string, x: string, n: nat)
    requires Shares(s, x, n) && Stops(x, n, IsHostChar) && Octet(x) > 0
    ensures Octet(s) > 0
  {
    OctetSome(x);
    OctetSome(s);
  }

  lemma OctetBeforeDot(s: string, x: string, n: nat)
    requires Shares(s, x, n) && Stops(x, n, IsHostChar) && Octet(x) > 0 && StartsWith(x[Octet(x)..], '.')
    ensures Octet(x) < n && Octet(s) == Octet(x) && StartsWith(s[Octet(x)..], '.')
  {
    var d := Octet(x);
    assert x[d] == '.';
    assert forall i | 0 <= i < d :: IsDigit(x[i]);
    LeadingIs(s, IsDigit, d);
  }

  lemma LabelStable(s: string, x: string)
    requires Label(s) > 0 && Shares(s, x, Label(s)) && Stops(x, Label(s), IsLabelChar)
    ensures Label(x) == Label(s)
  {
    LeadingStable(s, x, IsLabelChar);
  }

  lemma DotLabelStable(s: string, x: string)
    requires DotLabel(s) > 0 && Shares(s, x, DotLabel(s)) && Stops(x, DotLabel(s), IsLabelChar)
    ensures DotLabel(x) == DotLabel(s)
  {
    Later(s, x, DotLabel(s), 1, IsLabelChar);
    SharedStart(s, x, DotLabel(s), '.');
    hide Label, Shares;
    LabelStable(s[1..], x[1..]);
  }

  lemma {:induction false} DotLabelsStable(s: string, x: string)
    requires Shares(s, x, DotLabels(s)) && Stops(x, DotLabels(s), IsHostChar)
    ensures DotLabels(x) == DotLabels(s)
    decreases |s|
  {
    hide DotLabel, Shares, Stops;
    var n, m := DotLabels(s), DotLabel(s);
    if n == 0 {
      NoDot(x);
    } else {
      Later(s, x, n, m, IsHostChar);
      DotNext(s[m..], x[m..]);
      RestStops(x, m, IsLabelChar);
      DotLabelStable(s, x);
      DotLabelsStable(s[m..], x[m..]);
    }
  }

  lemma NoDot(x: string)
    requires Stops(x, 0, IsHostChar)
    ensures DotLabel(x) == 0
  {
  }

  lemma SharedStart(s: string, x: string, n: nat, c: char)
    requires Shares(s, x, n) && n > 0
    ensures StartsWith(s, c) <==> StartsWith(x, c)
  {
  }

  lemma RestStops(x: string, n: nat, kind: char -> bool)
    requires n <= |x| && Stops(x[n..], 0, kind)
    ensures Stops(x, n, kind)
  {
  }

  /** Labels after dots, or their end, do not go on with a label. */
  lemma DotNext(s: string, x: string)
    requires Shares(s, x, DotLabels(s)) && Stops(x, DotLabels(s), IsHostChar)
    ensures Stops(x, 0, IsLabelChar)
  {
  }

  lemma DomainStable(s: string, x: string)
    requires Domain(s) > 0 && Shares(s, x, Domain(s)) && Stops(x, Domain(s), IsHostChar)
    ensures Domain(x) == Domain(s)
  {
    var m, n := Label(s), Domain(s);
    hide Label, DotLabels;
    SharesRest(s, x, n, m);
    DotNext(s[m..], x[m..]);
    LabelStable(s, x);
    DotLabelsStable(s[m..], x[m..]);
  }

  lemma NoDomain(s: string, x: string)
    requires Label(s) > 0 && Shares(s, x, Label(s)) && Stops(x, Label(s), IsHostChar)
    ensures Domain(x) == 0 && Label(x) == Label(s)
  {
    LabelStable(s, x);
  }

  lemma NotLocalhost(s: string, x: string, n: nat)
    requires !("localhost" <= s) && Shares(s, x, n) && Stops(x, n, IsHostChar)
    ensures !("localhost" <= x)
  {
    var w := "localhost";
    assert forall i | 0 <= i < 9 :: IsHostChar(w[i]);
  }

  lemma HostStable(s: string, x: string)
    requires Host(s) > 0 && Shares(s, x, Host(s)) && Stops(x, Host(s), IsHostChar)
    ensures Host(x) == Host(s)
  {
    var n := Host(s);
    hide Octets, Domain, Label, Shares;
    if "localhost" <= s {
      LocalhostStable(s, x);
    } else {
      NotLocalhost(s, x, n);
      if Octets(s, 4) > 0 {
        OctetsStable(s, x, 4);
      } else {
        if Octets(x, 4) > 0 {
          OctetsStay(s, x, n, 4);
        } else if Domain(s) > 0 {
          DomainStable(s, x);
        } else {
          NoDomain(s, x);
        }
      }
    }
  }

  lemma LocalhostStable(s: string, x: string)
    requires "localhost" <= s && Shares(s, x, 9)
    ensures "localhost" <= x
  {
  }

  // ---- Ports and paths ----

  lemma PortStable(s: string, x: string)
    requires Port(s) > 0 && Shares(s, x, Port(s)) && Stops(x, Port(s), IsDigit)
    ensures Port(x) == Port(s)
  {
    SharesRest(s, x, Port(s), 1);
    LeadingStable(s[1..], x[1..], IsDigit);
  }

  lemma SegmentStable(s: string, x: string)
    requires Shares(s, x, PathSegment(s)) && Stops(x, PathSegment(s), IsPathChar)
    ensures PathSegment(x) == PathSegment(s)
  {
    assert "**"[0] == '*' && "**"[1] == '*' && "*"[0] == '*';
    if !("*" <= s) {
      assert Leading(s, IsPathChar) == 0 ==> Stops(x, 0, IsPathChar);
      LeadingStable(s, x, IsPathChar);
    }
  }

  lemma SegmentsSlashStep(s: string)
    ensures var a := PathSegment(s);
            if a == 0 || !StartsWith(s[a..], '/') then SegmentsSlash(s) == 0
            else
              && a + 1 <= |s|
              && SegmentsSlash(s) == a + 1 + SegmentsSlash(s[a + 1..])
              && s[a + 1..][SegmentsSlash(s[a + 1..])..] == s[SegmentsSlash(s)..]
  {
    hide PathSegment;
  }

  /** Segments before slashes, and one that no slash follows. */
  function SlashedSegments(s: string): (n: nat)
    ensures n <= |s|
  {
    SegmentsSlash(s) + PathSegment(s[SegmentsSlash(s)..])
  }

  lemma {:induction false} SegmentsSlashStable(s: string, x: string)
    requires Shares(s, x, SlashedSegments(s)) && Stops(x, SlashedSegments(s), IsPathOrSlash)
    ensures SegmentsSlash(x) == SegmentsSlash(s) && SlashedSegments(x) == SlashedSegments(s)
    decreases |s|
  {
    hide *;
    var a, k, n := PathSegment(s), SegmentsSlash(s), SlashedSegments(s);
    SlashedUnfolds(s);
    SlashedUnfolds(x);
    SegmentsSlashStep(s);
    SegmentsSlashStep(x);
    if k == 0 {
      PathStop(x, n);
      SegmentStable(s, x);
      NoSlash(x, n);
    } else {
      SharedAt(s, x, n, a, '/');
      Later(s, x, n, a, IsPathOrSlash);
      Later(s, x, n, a + 1, IsPathOrSlash);
      SlashStop(x, a);
      SegmentStable(s, x);
      SlashedUnfolds(s[a + 1..]);
      SlashedUnfolds(x[a + 1..]);
      SegmentsSlashStable(s[a + 1..], x[a + 1..]);
    }
  }

  lemma SlashedUnfolds(s: string)
    ensures SlashedSegments(s) == SegmentsSlash(s) + PathSegment(s[SegmentsSlash(s)..])
    ensures SegmentsSlash(s) == 0 ==> SlashedSegments(s) == PathSegment(s)
  {
    assert s[0..] == s;
    hide PathSegment, SegmentsSlash;
  }

  lemma PathStop(x: string, n: nat)
    requires Stops(x, n, IsPathOrSlash)
    ensures Stops(x, n, IsPathChar)
  {
  }

  lemma SlashStop(x: string, n: nat)
    requires n <= |x| && StartsWith(x[n..], '/')
    ensures Stops(x, n, IsPathChar)
  {
  }

  lemma NoSlash(x: string, n: nat)
    requires n <= |x| && Stops(x, n, IsPathOrSlash)
    ensures !StartsWith(x[n..], '/')
  {
  }

  lemma SlashPathStep(s: string)
    ensures SlashPath(s) == if StartsWith(s, '/') then 1 + SlashedSegments(s[1..]) else 0
  {
    if StartsWith(s, '/') {
      SameSuffix(s, 1, 1 + SegmentsSlash(s[1..]));
    }
    hide PathSegment, SegmentsSlash;
  }

  lemma SlashPathStable(s: string, x: string)
    requires SlashPath(s) > 0 && Shares(s, x, SlashPath(s)) && Stops(x, SlashPath(s), IsPathOrSlash)
    ensures SlashPath(x) == SlashPath(s)
  {
    hide *;
    SlashPathStep(s);
    SlashPathStep(x);
    SharedStart(s, x, SlashPath(s), '/');
    Later(s, x, SlashPath(s), 1, IsPathOrSlash);
    SegmentsSlashStable(s[1..], x[1..]);
  }

  lemma SlashSegmentStable(s: string, x: string)
    requires SlashSegment(s) > 0 && Shares(s, x, SlashSegment(s)) && Stops(x, SlashSegment(s), IsPathChar)
    ensures SlashSegment(x) == SlashSegment(s)
  {
    Later(s, x, SlashSegment(s), 1, IsPathChar);
    SharedStart(s, x, SlashSegment(s), '/');
    hide PathSegment, Shares;
    SegmentStable(s[1..], x[1..]);
  }

  lemma {:induction false} SlashSegmentsStable(s: string, x: string)
    requires Shares(s, x, SlashSegments(s)) && Stops(x, SlashSegments(s), IsPathOrSlash)
    ensures SlashSegments(x) == SlashSegments(s)
    decreases |s|
  {
    hide SlashSegment, Shares, Stops;
    var n, m := SlashSegments(s), SlashSegment(s);
    if n == 0 {
      NoSlashSegment(x);
    } else {
      Later(s, x, n, m, IsPathOrSlash);
      SlashNext(s[m..], x[m..]);
      RestStops(x, m, IsPathChar);
      SlashSegmentStable(s, x);
      SlashSegmentsStable(s[m..], x[m..]);
    }
  }

  lemma NoSlashSegment(x: string)
    requires Stops(x, 0, IsPathOrSlash)
    ensures SlashSegment(x) == 0
  {
  }

  lemma SlashNext(s: string, x: string)
    requires Shares(s, x, SlashSegments(s)) && Stops(x, SlashSegments(s), IsPathOrSlash)
    ensures Stops(x, 0, IsPathChar)
  {
    hide PathSegment;
  }

  lemma GlobPathStable(s: string, x: string)
    requires GlobPath(s) > 0 && Shares(s, x, GlobPath(s)) && Stops(x, GlobPath(s), IsPathOrSlash)
    ensures GlobPath(x) == GlobPath(s)
  {
    var n := GlobPath(s);
    hide SlashSegments;
    assert "**"[0] == '*' && "**"[1] == '*' && "*"[0] == '*';
    if "**" <= s && SlashSegments(s[2..]) > 0 {
      SharesRest(s, x, n, 2);
      SlashSegmentsStable(s[2..], x[2..]);
    } else {
      SharesRest(s, x, n, 1);
      SlashSegmentsStable(s[1..], x[1..]);
      SlashFirst(s[1..]);
      assert x[0] == s[0] && x[1] == s[1] == '/';
    }
  }

  lemma SlashFirst(s: string)
    requires SlashSegments(s) > 0
    ensures s != "" && s[0] == '/'
  {
  }

  lemma PathStable(s: string, x: string)
    requires Path(s) > 0 && Shares(s, x, Path(s)) && Stops(x, Path(s), IsPathOrSlash)
    ensures Path(x) == Path(s)
  {
    hide GlobPath, SegmentsSlash, PathSegment;
    if SlashPath(s) > 0 {
      SlashPathStable(s, x);
    } else {
      GlobStarts(s);
      assert x[0] == s[0];
      GlobPathStable(s, x);
    }
  }
}
