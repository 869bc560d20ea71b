/** Texts cut at separators, and the queries, paths, schemes, ports and flags made of such parts: each way of
    reading one against the text it takes apart. */
module TextParts {
  import opened Wrappers
  import opened Text
  import opened PathGlob
  import opened Eval
  import opened Compile
  import opened ExprSplit

  // ---- Parts between separators ----

  function Joined(parts: seq<string>, c: char): string {
    if parts == [] then ""
    else if |parts| == 1 then parts[0]
    else parts[0] + [c] + Joined(parts[1..], c)
  }

  /** The text is these parts with separators between them, and they hold none. */
  predicate IsCut(s: string, c: char, parts: seq<string>) {
    parts != [] && Joined(parts, c) == s && forall i | 0 <= i < |parts| :: c !in parts[i]
  }

  lemma {:induction false} SplitOnCuts(s: string, c: char)
    ensures IsCut(s, c, SplitOn(s, c))
  {
    if c in s {
      var k := FirstOf(s, c);
      var head, rest := s[..k], SplitOn(s[k + 1..], c);
      SplitOnCuts(s[k + 1..], c);
      hide FirstOf;
      assert ([head] + rest)[1..] == rest;
      assert s == head + [c] + s[k + 1..];
      assert forall i | 1 <= i < |[head] + rest| :: ([head] + rest)[i] == rest[i - 1];
    }
  }

  /** There is one way to cut a text, and splitting finds it. */
  lemma {:induction false} CutIsSplit(s: string, c: char, parts: seq<string>)
    requires IsCut(s, c, parts)
    ensures parts == SplitOn(s, c)
    decreases |parts|
  {
    if |parts| > 1 {
      var rest := Joined(parts[1..], c);
      assert s == parts[0] + ([c] + rest);
      FirstAt(parts[0], c, rest);
      CutIsSplit(rest, c, parts[1..]);
      assert s[|parts[0]| + 1..] == rest && s[..|parts[0]|] == parts[0];
      hide FirstOf;
    }
  }

  lemma {:induction false} FirstAt(a: string, c: char, b: string)
    requires c !in a
    ensures var s := a + ([c] + b); s[|a|] == c && c in s && FirstOf(s, c) == |a|
  {
    var s := a + ([c] + b);
    assert s[|a|] == c;
    if a != "" {
      assert s[1..] == a[1..] + ([c] + b);
      FirstAt(a[1..], c, b);
    }
  }

  /** The parts that are not empty, in order. */
  predicate Nonempty(parts: seq<string>, words: seq<string>) {
    if parts == [] then words == []
    else if parts[0] == "" then Nonempty(parts[1..], words)
    else words != [] && words[0] == parts[0] && Nonempty(parts[1..], words[1..])
  }

  lemma {:induction false} NonemptyIs(parts: seq<string>, words: seq<string>)
    ensures Nonempty(parts, words) <==> words == NonEmpty(parts)
  {
    if parts != [] {
      if parts[0] == "" {
        NonemptyIs(parts[1..], words);
        assert [] + NonEmpty(parts[1..]) == NonEmpty(parts[1..]);
      } else if words != [] {
        NonemptyIs(parts[1..], words[1..]);
        assert words == [words[0]] + words[1..];
        assert ([parts[0]] + NonEmpty(parts[1..]))[1..] == NonEmpty(parts[1..]);
      }
    }
  }

  // ---- Two sides of a sign ----

  /** The text before the first sign and the text after it, or all of it and nothing. */
  predicate Sides(s: string, c: char, left: string, right: string) {
    if c in s then c !in left && s == left + [c] + right else left == s && right == ""
  }

  lemma SidesAre(s: string, c: char, left: string, right: string)
    ensures Sides(s, c, left, right) <==> SplitOnce(s, c) == (left, right)
  {
    if c in s {
      var k := FirstOf(s, c);
      assert s == s[..k] + [c] + s[k + 1..];
      if c !in left && s == left + [c] + right {
        assert s == left + ([c] + right);
        FirstAt(left, c, right);
        assert s[..|left|] == left && s[|left| + 1..] == right;
      }
      hide FirstOf;
    }
  }

  /** Each part that is not empty gives a pair, in order. */
  predicate PairsAre(parts: seq<string>, pairs: seq<(string, string)>) {
    if parts == [] then pairs == []
    else if parts[0] == "" then PairsAre(parts[1..], pairs)
    else pairs != [] && Sides(parts[0], '=', pairs[0].0, pairs[0].1) && PairsAre(parts[1..], pairs[1..])
  }

  /** What a query says, read off a cut of its text. */
  ghost predicate QueryHas(query: string, pairs: seq<(string, string)>) {
    exists parts :: IsCut(query, '&', parts) && PairsAre(parts, pairs)
  }

  lemma {:induction false} PairsAreRead(parts: seq<string>, pairs: seq<(string, string)>)
    ensures PairsAre(parts, pairs) <==> pairs == Pairs(NonEmpty(parts))
  {
    hide Sides, SplitOnce;
    if parts != [] {
      var rest := NonEmpty(parts[1..]);
      if parts[0] == "" {
        PairsAreRead(parts[1..], pairs);
        assert [] + rest == rest;
      } else {
        assert ([parts[0]] + rest)[1..] == rest;
        if pairs != [] {
          PairsAreRead(parts[1..], pairs[1..]);
          SidesAre(parts[0], '=', pairs[0].0, pairs[0].1);
          assert pairs == [pairs[0]] + pairs[1..];
          assert ([SplitOnce(parts[0], '=')] + Pairs(rest))[1..] == Pairs(rest);
        }
      }
    }
  }

  lemma QueryHasItsPairs(query: string, pairs: seq<(string, string)>)
    ensures QueryHas(query, pairs) <==> pairs == QueryPairs(query)
  {
    hide SplitOn, Pairs, NonEmpty, IsCut, PairsAre;
    SplitOnCuts(query, '&');
    PairsAreRead(SplitOn(query, '&'), pairs);
    EmptyQuery();
    forall parts | IsCut(query, '&', parts) ensures parts == SplitOn(query, '&') {
      CutIsSplit(query, '&', parts);
    }
  }

  lemma EmptyQuery()
    ensures Pairs(NonEmpty(SplitOn("", '&'))) == []
  {
  }

  // ---- Pairs, written and read back ----

  function PairText(pair: (string, string)): string {
    pair.0 + "=" + pair.1
  }

  function PairTexts(pairs: seq<(string, string)>): seq<string> {
    seq(|pairs|, i requires 0 <= i < |pairs| => PairText(pairs[i]))
  }

  /** Pairs joined by signs are what is read back. */
  lemma PairsReadBack(pairs: seq<(string, string)>)
    requires forall i | 0 <= i < |pairs| :: '=' !in pairs[i].0 && '&' !in pairs[i].0 && '&' !in pairs[i].1
    ensures QueryPairs(Joined(PairTexts(pairs), '&')) == pairs
  {
    var parts := PairTexts(pairs);
    if pairs == [] {
      EmptyQuery();
    } else {
      assert IsCut(Joined(parts, '&'), '&', parts);
      PairsWritten(pairs);
      assert QueryHas(Joined(parts, '&'), pairs);
      QueryHasItsPairs(Joined(parts, '&'), pairs);
    }
  }

  lemma {:induction false} PairsWritten(pairs: seq<(string, string)>)
    requires forall i | 0 <= i < |pairs| :: '=' !in pairs[i].0
    ensures PairsAre(PairTexts(pairs), pairs)
  {
    if pairs != [] {
      PairsWritten(pairs[1..]);
      assert PairTexts(pairs)[1..] == PairTexts(pairs[1..]);
      assert '=' in PairText(pairs[0]) by { assert PairText(pairs[0])[|pairs[0].0|] == '='; }
    }
  }

  // ---- Paths ----

  /** The segments of a path: its parts between slashes that are not empty. */
  ghost predicate HasSegments(path: string, segments: seq<string>) {
    exists parts :: IsCut(path, '/', parts) && Nonempty(parts, segments)
  }

  lemma SegmentsAre(path: string, segments: seq<string>)
    ensures HasSegments(path, segments) <==> segments == PathSegments(path)
  {
    hide SplitOn, NonEmpty, IsCut, Nonempty, TrimSlashes;
    TrimmedSlashesSplit(path);
    SplitOnCuts(path, '/');
    NonemptyIs(SplitOn(path, '/'), segments);
    forall parts | IsCut(path, '/', parts) ensures parts == SplitOn(path, '/') {
      CutIsSplit(path, '/', parts);
    }
  }

  /** What a word of a pattern stands for. */
  predicate Spells(word: string, pattern: SegmentPattern) {
    match pattern
    case MultiWildcard => word == "**"
    case SingleWildcard => word == "*"
    case Literal(text) => text == word && '*' !in word
  }

  predicate AllSpell(words: seq<string>, patterns: seq<SegmentPattern>) {
    |words| == |patterns| && forall i | 0 <= i < |words| :: Spells(words[i], patterns[i])
  }

  lemma SegmentSpells(word: string, pattern: SegmentPattern)
    ensures Spells(word, pattern) <==> CompileSegment(word) == Some(pattern)
  {
    assert "**"[0] == '*' && "*"[0] == '*';
  }

  lemma {:induction false} SegmentsSpell(words: seq<string>, patterns: seq<SegmentPattern>)
    ensures AllSpell(words, patterns) <==> CompileSegments(words) == Some(patterns)
  {
    hide Spells, CompileSegment;
    if words != [] && patterns != [] {
      SegmentSpells(words[0], patterns[0]);
      SegmentsSpell(words[1..], patterns[1..]);
      FirstSpells(words, patterns);
      assert patterns == [patterns[0]] + patterns[1..];
      if CompileSegments(words[1..]).Some? {
        assert ([patterns[0]] + CompileSegments(words[1..]).value)[1..] == CompileSegments(words[1..]).value;
      }
    }
  }

  lemma FirstSpells(words: seq<string>, patterns: seq<SegmentPattern>)
    requires words != [] && patterns != []
    ensures AllSpell(words, patterns) <==> Spells(words[0], patterns[0]) && AllSpell(words[1..], patterns[1..])
  {
    hide Spells;
    assert words == [words[0]] + words[1..] && patterns == [patterns[0]] + patterns[1..];
  }

  /** Every word is a star, two stars, or has none. */
  predicate Spellable(words: seq<string>) {
    forall i | 0 <= i < |words| :: '*' !in words[i] || words[i] == "*" || words[i] == "**"
  }

  lemma {:induction false} SpellableCompiles(words: seq<string>)
    ensures Spellable(words) <==> CompileSegments(words).Some?
  {
    if words != [] {
      SpellableCompiles(words[1..]);
      assert words == [words[0]] + words[1..];
    }
  }

  // ---- Schemes and ports ----

  function Times(w: string, n: nat): string {
    if n == 0 then "" else Times(w, n - 1) + w
  }

  /** The text without any of the endings. */
  ghost predicate Stripped(s: string, ending: string, core: string) {
    (exists n: nat :: s == core + Times(ending, n)) && forall x: string :: core != x + ending
  }

  lemma {:induction false} StrippedIs(s: string, ending: string, core: string)
    requires ending != ""
    ensures Stripped(s, ending, core) <==> core == TrimEndMatches(s, ending)
    decreases |s|
  {
    if Stripped(s, ending, core) {
      var n: nat :| s == core + Times(ending, n);
      TrimTimes(core, ending, n);
    }
    if core == TrimEndMatches(s, ending) {
      TrimStrips(s, ending);
    }
  }

  lemma {:induction false} TrimTimes(core: string, ending: string, n: nat)
    requires ending != "" && forall x: string :: core != x + ending
    ensures TrimEndMatches(core + Times(ending, n), ending) == core
  {
    var s := core + Times(ending, n);
    if n == 0 {
      assert s == core;
      NoEnding(core, ending);
    } else {
      var front := core + Times(ending, n - 1);
      assert s == front + ending;
      assert s[|s| - |ending|..] == ending && s[..|s| - |ending|] == front;
      TrimTimes(core, ending, n - 1);
    }
  }

  lemma NoEnding(core: string, ending: string)
    ensures EndsWith(core, ending) <==> exists x: string :: core == x + ending
  {
    if EndsWith(core, ending) {
      assert core == core[..|core| - |ending|] + ending;
    }
  }

  lemma {:induction false} TrimStrips(s: string, ending: string)
    requires ending != ""
    ensures Stripped(s, ending, TrimEndMatches(s, ending))
    decreases |s|
  {
    hide EndsWith;
    NoEnding(s, ending);
    if EndsWith(s, ending) {
      var front := s[..|s| - |ending|];
      WithEnding(s, ending);
      TrimStrips(front, ending);
      StripsMore(front, ending, TrimEndMatches(front, ending));
    } else {
      assert s == s + Times(ending, 0);
    }
  }

  lemma WithEnding(s: string, ending: string)
    requires EndsWith(s, ending)
    ensures |ending| <= |s| && s == s[..|s| - |ending|] + ending
  {
  }

  lemma StripsMore(front: string, ending: string, core: string)
    requires Stripped(front, ending, core)
    ensures Stripped(front + ending, ending, core)
  {
    var n: nat :| front == core + Times(ending, n);
    assert front + ending == core + Times(ending, n + 1);
  }

  /** The number that digits write, read from the left. */
  function ReadDigits(digits: string, soFar: nat): nat
    requires forall i | 0 <= i < |digits| :: '0' <= digits[i] <= '9'
  {
    if digits == "" then soFar else ReadDigits(digits[1..], 10 * soFar + (digits[0] - '0') as nat)
  }

  lemma {:induction false} ReadFurther(digits: string, soFar: nat)
    requires AllDigits(digits) && digits != ""
    ensures var n := |digits| - 1;
            ReadDigits(digits, soFar) == 10 * ReadDigits(digits[..n], soFar) + (digits[n] - '0') as nat
  {
    var n := |digits| - 1;
    if n > 0 {
      ReadFurther(digits[1..], 10 * soFar + (digits[0] - '0') as nat);
      assert digits[1..][..n - 1] == digits[..n][1..];
    }
  }

  lemma {:induction false} ReadIsDecimal(digits: string)
    requires AllDigits(digits)
    ensures ReadDigits(digits, 0) == DecimalValue(digits)
  {
    if digits != "" {
      ReadFurther(digits, 0);
      ReadIsDecimal(digits[..|digits| - 1]);
    }
  }

  /** A number below 65536 in decimal digits, perhaps after a plus sign. */
  ghost predicate Writes(text: string, number: nat) {
    exists digits: string ::
      && (text == digits || text == "+" + digits) && digits != ""
      && (forall i | 0 <= i < |digits| :: '0' <= digits[i] <= '9')
      && ReadDigits(digits, 0) == number < 65536
  }

  lemma WritesIs(text: string, number: nat)
    ensures Writes(text, number) <==> ParseU16(text) == Some(number)
  {
    hide ReadDigits, DecimalValue;
    var digits := if text != "" && text[0] == '+' then text[1..] else text;
    if AllDigits(digits) {
      ReadIsDecimal(digits);
      assert digits != text ==> text == "+" + digits;
    }
    if Writes(text, number) {
      var ds: string :| && (text == ds || text == "+" + ds) && ds != ""
                        && (forall i | 0 <= i < |ds| :: '0' <= ds[i] <= '9')
                        && ReadDigits(ds, 0) == number < 65536;
      assert text == "+" + ds ==> text[1..] == ds;
      ReadIsDecimal(ds);
    }
  }

  /** Colons, and then a number. */
  ghost predicate PortIs(raw: string, port: nat) {
    exists n: nat, text: string :: raw == Times(":", n) + text && Writes(text, port)
  }

  lemma {:induction false} ColonsGo(n: nat, text: string)
    requires text != "" && text[0] != ':'
    ensures TrimColons(Times(":", n) + text) == text
  {
    var raw := Times(":", n) + text;
    if n == 0 {
      assert raw == text;
    } else {
      TimesFront(":", n);
      assert raw[1..] == Times(":", n - 1) + text;
      ColonsGo(n - 1, text);
    }
  }

  lemma {:induction false} TimesFront(w: string, n: nat)
    requires n > 0
    ensures Times(w, n) == w + Times(w, n - 1)
  {
    if n > 1 {
      TimesFront(w, n - 1);
      assert w + Times(w, n - 2) + w == w + (Times(w, n - 2) + w);
    } else {
      assert Times(w, 1) == "" + w == w + "";
    }
  }

  lemma {:induction false} ColonsTrimmed(raw: string) returns (n: nat)
    ensures raw == Times(":", n) + TrimColons(raw)
  {
    if raw != "" && raw[0] == ':' {
      var m := ColonsTrimmed(raw[1..]);
      n := m + 1;
      TimesFront(":", n);
      assert raw == ":" + raw[1..];
      assert ":" + (Times(":", m) + TrimColons(raw[1..])) == ":" + Times(":", m) + TrimColons(raw[1..]);
    } else {
      n := 0;
    }
  }

  lemma PortIsParsed(raw: string, port: nat)
    ensures PortIs(raw, port) <==> ParsePort(raw) == Some(port)
  {
    hide Writes, ParseU16, TrimColons, Times;
    if PortIs(raw, port) {
      var n: nat, text: string :| raw == Times(":", n) + text && Writes(text, port);
      WritesStart(text, port);
      ColonsGo(n, text);
      WritesIs(text, port);
    }
    var n := ColonsTrimmed(raw);
    WritesIs(TrimColons(raw), port);
  }

  lemma WritesStart(text: string, number: nat)
    requires Writes(text, number)
    ensures text != "" && text[0] != ':'
  {
  }

  // ---- Flags, and letter case ----

  /** The text without its white space. */
  predicate Squeezed(s: string, t: string) {
    if s == "" then t == ""
    else if IsSpace(s[0]) then Squeezed(s[1..], t)
    else t != "" && t[0] == s[0] && Squeezed(s[1..], t[1..])
  }

  lemma {:induction false} SqueezedIs(s: string, t: string)
    ensures Squeezed(s, t) <==> t == WithoutSpaces(s)
  {
    if s != "" {
      if IsSpace(s[0]) {
        SqueezedIs(s[1..], t);
        assert "" + WithoutSpaces(s[1..]) == WithoutSpaces(s[1..]);
      } else if t != "" {
        SqueezedIs(s[1..], t[1..]);
        assert t == [t[0]] + t[1..];
        assert ([s[0]] + WithoutSpaces(s[1..]))[1..] == WithoutSpaces(s[1..]);
      }
    }
  }

  /** The same letter in either case, or the same character. */
  predicate SameLetter(a: char, b: char) {
    a == b || ('a' <= a <= 'z' && b as int == a as int - 32) || ('A' <= a <= 'Z' && b as int == a as int + 32)
  }

  predicate SameLetters(a: string, b: string) {
    |a| == |b| && forall i | 0 <= i < |a| :: SameLetter(a[i], b[i])
  }

  /** Comparing without case is comparing letter by letter. */
  lemma SameLettersAre(a: string, b: string)
    ensures SameLetters(a, b) <==> EqIgnoreCase(a, b)
  {
    forall c, d ensures SameLetter(c, d) <==> LowerChar(c) == LowerChar(d) {
      LetterIs(c, d);
    }
    hide LowerChar, SameLetter;
    assert |Lower(a)| == |a| && |Lower(b)| == |b|;
    assert forall i | 0 <= i < |a| :: Lower(a)[i] == LowerChar(a[i]);
    assert forall i | 0 <= i < |b| :: Lower(b)[i] == LowerChar(b[i]);
  }

  lemma LetterIs(c: char, d: char)
    ensures SameLetter(c, d) <==> LowerChar(c) == LowerChar(d)
  {
  }

  /** A flag is a name if, without white space and case, it is spelt so. */
  ghost predicate IsFlag(flag: string, name: string) {
    exists t :: Squeezed(flag, t) && SameLetters(t, name)
  }

  lemma FlagIs(flag: string, name: string)
    ensures IsFlag(flag, name) <==> EqIgnoreCase(WithoutSpaces(flag), name)
  {
    hide Squeezed, SameLetters, EqIgnoreCase;
    SqueezedIs(flag, WithoutSpaces(flag));
    SameLettersAre(WithoutSpaces(flag), name);
    forall t | Squeezed(flag, t) ensures t == WithoutSpaces(flag) {
      SqueezedIs(flag, t);
    }
  }

  /** A keyword is its letters in either case, with no letter or digit right before or after. */
  lemma KeywordIs(pre: string, word: string, post: string, op: LogicOp)
    requires |word| == if op == And then 3 else 2
    ensures MatchesKeyword(pre + word + post, |pre|, op) <==>
            && SameLetters(word, if op == And then "AND" else "OR")
            && (pre == "" || !IsAlnum(pre[|pre| - 1]))
            && (post == "" || !IsAlnum(post[0]))
  {
    SameLettersAre(word, Keyword(op));
    hide SameLetters, EqIgnoreCase, IsAlnum;
    var s := pre + word + post;
    assert s[|pre|..|pre| + |word|] == word;
    assert pre != "" ==> s[|pre| - 1] == pre[|pre| - 1];
    assert post != "" ==> s[|pre| + |word|] == post[0];
  }
}
