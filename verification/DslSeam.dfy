/** Queries and the white space after them: how much of it there is changes nothing but how much of it is
    read, and a query that has read some has read all. */
module DslSeam {
  import opened Wrappers
  import opened Text
  import opened DslAst
  import opened DslGrammar

  // ---- Two texts that differ in one stretch of white space ----

  /** The same text, or texts that share `at` characters, then have `left` and `right` characters of white
      space, and then go on alike, with an argument. */
  datatype Joint = Same | Seam(at: nat, left: nat, right: nat)

  predicate Alike(j: Joint, s: string, x: string) {
    match j
    case Same => s == x
    case Seam(at, left, right) =>
      && 0 < left && 0 < right && at + left < |s| && at + right < |x|
      && (forall i | 0 <= i < at :: s[i] == x[i])
      && (forall i | at <= i < at + left :: IsWs(s[i]))
      && (forall i | at <= i < at + right :: IsWs(x[i]))
      && (at > 0 ==> !IsWs(s[at - 1]))
      && s[at + left..] == x[at + right..] && s[at + left] == '-'
  }

  /** A position outside the stretch. */
  predicate Outside(j: Joint, n: nat) {
    j.Seam? ==> n <= j.at || n >= j.at + j.left
  }

  /** The same position in the other text. */
  function Moved(j: Joint, n: nat): nat
    requires Outside(j, n)
  {
    if j.Same? || n <= j.at then n else n - j.left + j.right
  }

  function Rest(j: Joint, n: nat): Joint
    requires Outside(j, n)
  {
    if j.Same? || n > j.at then Same else Seam(j.at - n, j.left, j.right)
  }

  lemma AlikeRest(j: Joint, s: string, x: string, n: nat)
    requires Alike(j, s, x) && Outside(j, n) && n <= |s|
    ensures Moved(j, n) <= |x| && Alike(Rest(j, n), s[n..], x[Moved(j, n)..])
  {
    hide Alike;
    if j.Seam? {
      if n <= j.at {
        BeforeSeam(j, s, x, n);
      } else {
        AfterSeam(j, s, x, n);
      }
    } else {
      SameRest(s, x, n);
    }
  }

  lemma SameRest(s: string, x: string, n: nat)
    requires Alike(Same, s, x) && n <= |s|
    ensures n <= |x| && Alike(Same, s[n..], x[n..])
  {
  }

  lemma BeforeSeam(j: Joint, s: string, x: string, n: nat)
    requires j.Seam? && Alike(j, s, x) && n <= j.at
    ensures n <= |s| && n <= |x| && Alike(Seam(j.at - n, j.left, j.right), s[n..], x[n..])
  {
    assert s[n..][j.at - n + j.left..] == s[j.at + j.left..];
    assert x[n..][j.at - n + j.right..] == x[j.at + j.right..];
  }

  lemma AfterSeam(j: Joint, s: string, x: string, n: nat)
    requires j.Seam? && Alike(j, s, x) && j.at + j.left <= n <= |s|
    ensures n - j.left + j.right <= |x| && Alike(Same, s[n..], x[n - j.left + j.right..])
  {
    var d := n - j.at - j.left;
    assert |s| - j.at - j.left == |s[j.at + j.left..]| == |x[j.at + j.right..]|;
    assert s[j.at + j.left..][d..] == s[n..];
    assert x[j.at + j.right..][d..] == x[n - j.left + j.right..];
  }

  lemma Further(j: Joint, n: nat, m: nat)
    requires Outside(j, n) && Outside(Rest(j, n), m)
    ensures Outside(j, n + m) && Moved(j, n + m) == Moved(j, n) + Moved(Rest(j, n), m)
  {
  }

  // ---- Every rule of a query reads both alike ----

  /** Both texts are read equally far, and nothing of the one exactly when nothing of the other. */
  predicate Reads(j: Joint, n: nat, m: nat) {
    Outside(j, n) && m == Moved(j, n) && (n == 0 <==> m == 0)
  }

  lemma NoneRead(j: Joint)
    ensures Reads(j, 0, 0)
  {
  }

  /** One rule read after another. */
  lemma Then(j: Joint, s: string, x: string, n: nat, n': nat, m: nat, m': nat)
    requires Alike(j, s, x) && Reads(j, n, n') && Reads(Rest(j, n), m, m')
    ensures Reads(j, n + m, n' + m')
  {
    Further(j, n, m);
  }

  lemma ThenAlike(j: Joint, s: string, x: string, n: nat, n': nat)
    requires Alike(j, s, x) && Reads(j, n, n') && n <= |s|
    ensures n' <= |x| && Alike(Rest(j, n), s[n..], x[n'..])
  {
    AlikeRest(j, s, x, n);
  }

  lemma CharsAlike(j: Joint, s: string, x: string)
    requires Alike(j, s, x)
    ensures Reads(j, Leading(s, IsQueryChar), Leading(x, IsQueryChar))
  {
    if j.Seam? {
      var n := Leading(s, IsQueryChar);
      CharsStop(s, j.at);
      CharsStop(x, j.at);
      assert n < j.at ==> s[n] == x[n];
    }
  }

  lemma CharsStop(s: string, n: nat)
    requires n < |s| && IsWs(s[n])
    ensures Leading(s, IsQueryChar) <= n
  {
    SpaceIsNoQuery(s[n]);
    hide IsWs, IsQueryChar;
  }

  lemma SpaceIsNoQuery(c: char)
    requires IsWs(c)
    ensures !IsQueryChar(c)
  {
  }

  lemma GapAlike(j: Joint, s: string, x: string)
    requires Alike(j, s, x)
    ensures Reads(j, Gap(s), Gap(x))
  {
    if j.Seam? {
      if j.at > 0 {
        assert s[j.at - 1] == x[j.at - 1];
        assert forall i | 0 <= i < j.at :: s[i] == x[i];
      } else {
        assert x[j.right] == x[j.right..][0] == s[j.left..][0] == '-';
      }
    }
  }

  lemma StartAlike(j: Joint, s: string, x: string, c: char)
    requires Alike(j, s, x) && !IsWs(c)
    ensures StartsWith(s, c) <==> StartsWith(x, c)
    ensures StartsWith(s, c) ==> Reads(j, 1, 1)
  {
  }

  lemma SignAlike(j: Joint, s: string, x: string, c: char)
    requires Alike(j, s, x) && !IsWs(c)
    ensures Reads(j, Sign(s, c), Sign(x, c))
  {
    hide *;
    StartAlike(j, s, x, c);
    SignUnfolds(s, c);
    SignUnfolds(x, c);
    NoneRead(j);
    if StartsWith(s, c) {
      StartSome(s, c);
      ThenAlike(j, s, x, 1, 1);
      GapAlike(Rest(j, 1), s[1..], x[1..]);
      Then(j, s, x, 1, 1, Gap(s[1..]), Gap(x[1..]));
    }
  }

  lemma StartSome(s: string, c: char)
    requires StartsWith(s, c)
    ensures |s| >= 1
  {
  }

  lemma SignUnfolds(s: string, c: char)
    ensures Sign(s, c) == if StartsWith(s, c) then 1 + Gap(s[1..]) else 0
  {
  }

  lemma KeyAlike(j: Joint, s: string, x: string)
    requires Alike(j, s, x)
    ensures Reads(j, QueryKey(s), QueryKey(x))
  {
    hide Alike, Leading, Gap, Reads, Rest;
    CharsAlike(j, s, x);
    NoneRead(j);
    var n, n' := Leading(s, IsQueryChar), Leading(x, IsQueryChar);
    ReadsSome(j, n, n');
    if n > 0 {
      ThenAlike(j, s, x, n, n');
      GapAlike(Rest(j, n), s[n..], x[n'..]);
      Then(j, s, x, n, n', Gap(s[n..]), Gap(x[n'..]));
    }
  }

  lemma ReadsSome(j: Joint, n: nat, m: nat)
    requires Reads(j, n, m)
    ensures Outside(j, n) && (n == 0 <==> m == 0)
  {
  }

  lemma ValueAlike(j: Joint, s: string, x: string)
    requires Alike(j, s, x)
    ensures Reads(j, EqValue(s), EqValue(x))
  {
    hide Alike, Leading, Sign, Reads, Rest;
    SignAlike(j, s, x, '=');
    NoneRead(j);
    var n, n' := Sign(s, '='), Sign(x, '=');
    ReadsSome(j, n, n');
    if n > 0 {
      ThenAlike(j, s, x, n, n');
      CharsAlike(Rest(j, n), s[n..], x[n'..]);
      Then(j, s, x, n, n', Leading(s[n..], IsQueryChar), Leading(x[n'..], IsQueryChar));
    }
  }

  lemma PairAlike(j: Joint, s: string, x: string)
    requires Alike(j, s, x)
    ensures Reads(j, QueryPair(s), QueryPair(x))
  {
    hide Alike, QueryKey, EqValue, Reads, Rest;
    KeyAlike(j, s, x);
    NoneRead(j);
    var n, n' := QueryKey(s), QueryKey(x);
    ReadsSome(j, n, n');
    if n > 0 {
      ThenAlike(j, s, x, n, n');
      ValueAlike(Rest(j, n), s[n..], x[n'..]);
      Then(j, s, x, n, n', EqValue(s[n..]), EqValue(x[n'..]));
    }
  }

  lemma AndPairAlike(j: Joint, s: string, x: string)
    requires Alike(j, s, x)
    ensures Reads(j, AndPair(s), AndPair(x))
  {
    hide Alike, Sign, QueryPair, Reads, Rest;
    SignAlike(j, s, x, '&');
    NoneRead(j);
    var n, n' := Sign(s, '&'), Sign(x, '&');
    ReadsSome(j, n, n');
    if n > 0 {
      ThenAlike(j, s, x, n, n');
      PairAlike(Rest(j, n), s[n..], x[n'..]);
      ReadsSome(Rest(j, n), QueryPair(s[n..]), QueryPair(x[n'..]));
      Then(j, s, x, n, n', QueryPair(s[n..]), QueryPair(x[n'..]));
    }
  }

  lemma SpacedPairAlike(j: Joint, s: string, x: string)
    requires Alike(j, s, x)
    ensures Reads(j, SpacedPair(s), SpacedPair(x))
  {
    hide Alike, Gap, AndPair, Reads, Rest;
    GapAlike(j, s, x);
    NoneRead(j);
    var n, n' := Gap(s), Gap(x);
    ReadsSome(j, n, n');
    ThenAlike(j, s, x, n, n');
    AndPairAlike(Rest(j, n), s[n..], x[n'..]);
    ReadsSome(Rest(j, n), AndPair(s[n..]), AndPair(x[n'..]));
    Then(j, s, x, n, n', AndPair(s[n..]), AndPair(x[n'..]));
  }

  lemma {:induction false} MorePairsAlike(j: Joint, s: string, x: string)
    requires Alike(j, s, x)
    ensures Reads(j, MorePairs(s), MorePairs(x))
    decreases |s|
  {
    hide Alike, SpacedPair, Reads, Rest;
    SpacedPairAlike(j, s, x);
    NoneRead(j);
    var n, n' := SpacedPair(s), SpacedPair(x);
    ReadsSome(j, n, n');
    if n > 0 {
      ThenAlike(j, s, x, n, n');
      MorePairsAlike(Rest(j, n), s[n..], x[n'..]);
      Then(j, s, x, n, n', MorePairs(s[n..]), MorePairs(x[n'..]));
    }
  }

  lemma RestPairsAlike(j: Joint, s: string, x: string)
    requires Alike(j, s, x)
    ensures Reads(j, RestPairs(s), RestPairs(x))
  {
    hide Alike, AndPair, MorePairs, Reads, Rest;
    AndPairAlike(j, s, x);
    NoneRead(j);
    var n, n' := AndPair(s), AndPair(x);
    ReadsSome(j, n, n');
    if n > 0 {
      ThenAlike(j, s, x, n, n');
      MorePairsAlike(Rest(j, n), s[n..], x[n'..]);
      Then(j, s, x, n, n', MorePairs(s[n..]), MorePairs(x[n'..]));
    }
  }

  lemma FirstPairAlike(j: Joint, s: string, x: string)
    requires Alike(j, s, x)
    ensures Reads(j, FirstPair(s), FirstPair(x))
  {
    hide Alike, QueryPair, Gap, Reads, Rest;
    PairAlike(j, s, x);
    NoneRead(j);
    var n, n' := QueryPair(s), QueryPair(x);
    ReadsSome(j, n, n');
    if n > 0 {
      ThenAlike(j, s, x, n, n');
      GapAlike(Rest(j, n), s[n..], x[n'..]);
      Then(j, s, x, n, n', Gap(s[n..]), Gap(x[n'..]));
    }
  }

  lemma BodyAlike(j: Joint, s: string, x: string)
    requires Alike(j, s, x)
    ensures Reads(j, QueryBody(s), QueryBody(x))
  {
    hide Alike, FirstPair, RestPairs, Reads, Rest;
    FirstPairAlike(j, s, x);
    NoneRead(j);
    var n, n' := FirstPair(s), FirstPair(x);
    ReadsSome(j, n, n');
    if n > 0 {
      ThenAlike(j, s, x, n, n');
      RestPairsAlike(Rest(j, n), s[n..], x[n'..]);
      Then(j, s, x, n, n', RestPairs(s[n..]), RestPairs(x[n'..]));
    }
  }

  lemma QueryAlike(j: Joint, s: string, x: string)
    requires Alike(j, s, x)
    ensures Reads(j, Query(s), Query(x))
  {
    hide Alike, Sign, QueryBody, Reads, Rest;
    SignAlike(j, s, x, '?');
    NoneRead(j);
    var n, n' := Sign(s, '?'), Sign(x, '?');
    ReadsSome(j, n, n');
    if n > 0 {
      ThenAlike(j, s, x, n, n');
      BodyAlike(Rest(j, n), s[n..], x[n'..]);
      ReadsSome(Rest(j, n), QueryBody(s[n..]), QueryBody(x[n'..]));
      Then(j, s, x, n, n', QueryBody(s[n..]), QueryBody(x[n'..]));
    }
  }

  // ---- Where a query ends ----

  /** After white space no white space; after anything else no query character. */
  predicate Ends(s: string, n: nat) {
    0 < n < |s| ==> if IsWs(s[n - 1]) then !IsWs(s[n]) else !IsQueryChar(s[n])
  }

  lemma NoEnd(s: string)
    ensures Ends(s, 0)
  {
  }

  lemma EndsLater(s: string, n: nat, m: nat)
    requires n <= |s| && m <= |s| - n && Ends(s[n..], m) && m > 0
    ensures Ends(s, n + m)
  {
  }

  /** A text read up to some end, and then more or nothing. */
  lemma EndsMore(s: string, n: nat, m: nat)
    requires n <= |s| && m <= |s| - n && Ends(s, n) && Ends(s[n..], m)
    ensures Ends(s, n + m)
  {
    if m > 0 {
      EndsLater(s, n, m);
    }
  }

  lemma GapEnds(s: string)
    ensures Ends(s, Gap(s))
  {
  }

  lemma CharsEnd(s: string)
    ensures Ends(s, Leading(s, IsQueryChar))
  {
  }

  lemma KeyEnds(s: string)
    ensures Ends(s, QueryKey(s))
  {
    hide Ends, Gap, Leading;
    NoEnd(s);
    CharsEnd(s);
    var n := Leading(s, IsQueryChar);
    if n > 0 {
      GapEnds(s[n..]);
      EndsMore(s, n, Gap(s[n..]));
    }
  }

  lemma ValueEnds(s: string)
    ensures Ends(s, EqValue(s))
  {
    hide Ends, Gap;
    NoEnd(s);
    var at := Sign(s, '=');
    if at > 0 {
      CharsEnd(s[at..]);
      if Leading(s[at..], IsQueryChar) > 0 {
        EndsLater(s, at, Leading(s[at..], IsQueryChar));
      } else {
        SignEnds(s);
      }
    }
  }

  lemma SignEnds(s: string)
    requires StartsWith(s, '=') && Leading(s[Sign(s, '=')..], IsQueryChar) == 0
    ensures Ends(s, Sign(s, '='))
  {
    var at := Sign(s, '=');
    assert at < |s| ==> s[at] == s[at..][0] == s[1..][at - 1];
    assert at > 1 ==> s[at - 1] == s[1..][at - 2];
  }

  lemma PairEnds(s: string)
    ensures Ends(s, QueryPair(s))
  {
    hide Ends, QueryKey, EqValue;
    NoEnd(s);
    KeyEnds(s);
    var n := QueryKey(s);
    if n > 0 {
      ValueEnds(s[n..]);
      EndsMore(s, n, EqValue(s[n..]));
    }
  }

  lemma AndPairEnds(s: string)
    ensures Ends(s, AndPair(s))
  {
    hide Ends, Sign, QueryPair;
    NoEnd(s);
    var at := Sign(s, '&');
    if AndPair(s) > 0 {
      PairEnds(s[at..]);
      EndsLater(s, at, QueryPair(s[at..]));
    }
  }

  lemma SpacedPairEnds(s: string)
    ensures Ends(s, SpacedPair(s))
  {
    hide Ends, Gap, AndPair;
    NoEnd(s);
    var w := Gap(s);
    AndPairEnds(s[w..]);
    if SpacedPair(s) > 0 {
      EndsLater(s, w, AndPair(s[w..]));
    }
  }

  lemma {:induction false} MorePairsEnd(s: string)
    ensures Ends(s, MorePairs(s))
    decreases |s|
  {
    hide Ends, SpacedPair;
    SpacedPairEnds(s);
    var n := SpacedPair(s);
    if n > 0 {
      MorePairsEnd(s[n..]);
      EndsMore(s, n, MorePairs(s[n..]));
    }
  }

  lemma RestPairsEnd(s: string)
    ensures Ends(s, RestPairs(s))
  {
    hide Ends, AndPair, MorePairs;
    AndPairEnds(s);
    var n := AndPair(s);
    if n > 0 {
      MorePairsEnd(s[n..]);
      EndsMore(s, n, MorePairs(s[n..]));
    }
  }

  lemma FirstPairEnds(s: string)
    ensures Ends(s, FirstPair(s))
  {
    hide Ends, QueryPair, Gap;
    PairEnds(s);
    var n := QueryPair(s);
    if n > 0 {
      GapEnds(s[n..]);
      EndsMore(s, n, Gap(s[n..]));
    }
  }

  lemma BodyEnds(s: string)
    ensures Ends(s, QueryBody(s))
  {
    hide Ends, FirstPair, RestPairs;
    FirstPairEnds(s);
    var n := FirstPair(s);
    if n > 0 {
      RestPairsEnd(s[n..]);
      EndsMore(s, n, RestPairs(s[n..]));
    }
  }

  lemma QueryEnds(s: string)
    ensures Ends(s, Query(s))
  {
    hide Ends, Sign, QueryBody;
    NoEnd(s);
    var at := Sign(s, '?');
    if Query(s) > 0 {
      BodyEnds(s[at..]);
      EndsLater(s, at, QueryBody(s[at..]));
    }
  }
}
