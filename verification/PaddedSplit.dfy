/** Splitting a text that was put together from pieces and keywords gives the pieces back. */
module PaddedSplit {
  import opened Wrappers
  import opened Text
  import opened DslAst
  import opened ExprSplit

  /** Non-empty, without outer white space, comment-free, balanced, and without a top-level keyword
      of the given operators. */
  ghost predicate Clean(t: string, ops: set<LogicOp>) {
    t != "" && Trimmed(t) && Masked(t) && Balanced(t) && forall op | op in ops :: Quiet(t, op)
  }

  ghost predicate AllClean(pieces: seq<string>, ops: set<LogicOp>) {
    forall i | 0 <= i < |pieces| :: Clean(pieces[i], ops)
  }

  function Join(pieces: seq<string>, separator: string): string {
    if pieces == [] then ""
    else if |pieces| == 1 then pieces[0]
    else pieces[0] + separator + Join(pieces[1..], separator)
  }

  /** What stands between two pieces: white space, a keyword, white space. */
  datatype Glue = Glue(left: string, op: LogicOp, right: string) {
    predicate Valid() {
      left != "" && right != "" && Blank(left) && Blank(right)
    }

    function Text(): string {
      left + Keyword(op) + right
    }
  }

  function Padded(pre: string, pieces: seq<string>, glue: Glue, post: string): string
    requires pieces != []
    decreases |pieces|
  {
    if |pieces| == 1 then pre + pieces[0] + post
    else pre + pieces[0] + glue.left + Keyword(glue.op) + Padded(glue.right, pieces[1..], glue, post)
  }

  /** The segments that splitting `Padded` at offset `at` should give. */
  function Cutouts(at: nat, pre: string, pieces: seq<string>, glue: Glue, post: string): seq<Segment>
    requires pieces != []
    decreases |pieces|
  {
    if |pieces| == 1 then [Segment(at, pre + pieces[0] + post)]
    else
      var first := Segment(at, pre + pieces[0] + glue.left);
      [first] + Cutouts(first.End() + |Keyword(glue.op)|, glue.right, pieces[1..], glue, post)
  }

  lemma {:induction false} PaddedIsJoin(pre: string, pieces: seq<string>, glue: Glue, post: string)
    requires pieces != []
    ensures Padded(pre, pieces, glue, post) == pre + Join(pieces, glue.Text()) + post
    decreases |pieces|
  {
    if |pieces| > 1 {
      PaddedIsJoin(glue.right, pieces[1..], glue, post);
      var p, rest := pieces[0], Join(pieces[1..], glue.Text());
      calc {
        pre + p + glue.left + Keyword(glue.op) + (glue.right + rest + post);
        pre + (p + (glue.left + Keyword(glue.op) + glue.right) + rest) + post;
      }
    }
  }

  /** No segment is longer than a bound. */
  predicate Within(parts: seq<Segment>, limit: nat) {
    forall j | 0 <= j < |parts| :: |parts[j].text| <= limit
  }

  lemma WithinRest(parts: seq<Segment>, limit: nat)
    requires Within(parts, limit) && parts != []
    ensures Within(parts[1..], limit)
  {
  }

  lemma {:induction false} CutoutsFit(at: nat, pre: string, pieces: seq<string>, glue: Glue, post: string)
    requires pieces != []
    ensures Within(Cutouts(at, pre, pieces, glue, post), |Padded(pre, pieces, glue, post)|)
    decreases |pieces|
  {
    if |pieces| > 1 {
      var next := at + |pre + pieces[0] + glue.left| + |Keyword(glue.op)|;
      CutoutsFit(next, glue.right, pieces[1..], glue, post);
    }
  }

  lemma QuietConcat3(a: string, t: string, b: string, op: LogicOp)
    requires Blank(a) && Blank(b) && Balanced(t) && Quiet(t, op) && Masked(t)
    ensures Balanced(a + t + b) && Quiet(a + t + b, op) && Masked(a + t + b)
  {
    hide Balanced, Quiet;
    BlankIsLevel(a);
    BlankIsLevel(b);
    assert Edge(a + t, |a|);
    assert Edge(a + t + b, |a + t|);
    hide Blank, Edge;
    QuietConcat(a, t, op);
    QuietConcat(a + t, b, op);
  }

  lemma PaddedMasked(pre: string, pieces: seq<string>, glue: Glue, post: string)
    requires pieces != [] && Masked(pre) && Masked(post) && glue.Valid()
    requires forall i | 0 <= i < |pieces| :: Masked(pieces[i])
    ensures Masked(Padded(pre, pieces, glue, post))
    decreases |pieces|
  {
    if |pieces| > 1 {
      PaddedMasked(glue.right, pieces[1..], glue, post);
    }
  }

  lemma RegionLevels(a: string, x: string, r: string)
    requires Net(a) == 0
    ensures forall k | 0 <= k <= |x| :: Level(a + x + r, |a| + k) == Level(x, k)
  {
    forall k | 0 <= k <= |x| ensures Level(a + x + r, |a| + k) == Level(x, k) {
      LevelOfPrefix(a + x, r, |a| + k);
      LevelOfConcat(a, x, k);
    }
  }

  lemma KeywordInRegion(t: string, a: nat, b: nat, op: LogicOp, k: nat)
    requires a <= k < b <= |t| && Edge(t, a) && Edge(t, b) && MatchesKeyword(t, k, op)
    ensures MatchesKeyword(t[a..b], k - a, op)
  {
    hide MatchesKeyword, IsAlnum;
    KeywordIsLetters(t, op, k);
    KeywordOfSlice(t, op, a, b, k - a);
  }

  /** A quiet stretch stays quiet inside a longer text that it is cleanly cut out of. */
  lemma RegionQuiet(a: string, x: string, r: string, op: LogicOp)
    requires Net(a) == 0 && Balanced(x) && Quiet(x, op)
    requires Edge(a + x + r, |a|) && Edge(a + x + r, |a| + |x|)
    ensures var t, k := a + x + r, |a| + |x|;
            && Level(t, |a|) == 0 && Level(t, k) == 0
            && NonNegative(t, |a|, k) && NoKeyword(t, op, |a|, k)
  {
    hide Level, MatchesKeyword, Edge;
    var t, b := a + x + r, |a| + |x|;
    RegionLevels(a, x, r);
    assert t[|a|..b] == x;
    assert Level(t, |a| + 0) == Level(x, 0) by { LevelStartsAtZero(x); }
    LevelStartsAtZero(x);
    forall k | |a| <= k <= b ensures Level(t, k) >= 0 {
      assert Level(t, |a| + (k - |a|)) == Level(x, k - |a|);
    }
    forall k: nat | |a| <= k < b && TopKeyword(t, op, k) ensures TopKeyword(x, op, k - |a|) {
      assert Level(t, |a| + (k - |a|)) == Level(x, k - |a|);
      KeywordInRegion(t, |a|, b, op, k);
    }
  }

  lemma LevelStartsAtZero(x: string)
    ensures Level(x, 0) == 0
  {
  }

  ghost predicate AllQuiet(pieces: seq<string>, op: LogicOp) {
    forall i | 0 <= i < |pieces| ::
      pieces[i] != "" && Trimmed(pieces[i]) && Masked(pieces[i]) && Balanced(pieces[i]) && Quiet(pieces[i], op)
  }

  lemma PieceNotBlank(a: string, t: string, b: string)
    requires t != "" && Trimmed(t)
    ensures !Blank(a + t + b)
  {
    assert (a + t + b)[|a|] == t[0];
  }

  /** One stretch of the scan, up to the next keyword or the end. */
  lemma ScanPiece(done: string, pre: string, piece: string, post: string, rest: string, op: LogicOp,
                  segments: seq<Segment>)
    requires Net(done) == 0 && Masked(done) && Masked(rest) && (done != "" ==> pre != "") && (rest != "" ==> post != "")
    requires Blank(pre) && Blank(post)
    requires piece != "" && Trimmed(piece) && Masked(piece) && Balanced(piece) && Quiet(piece, op)
    ensures var x := pre + piece + post;
            var t, k := done + x + rest, |done| + |x|;
            && !Blank(x) && Net(done + x) == 0 && Masked(done + x)
            && Level(t, k) == 0
            && Scan(t, op, |done|, 0, |done|, segments) == Scan(t, op, k, 0, |done|, segments)
            && Push(segments, t, |done|, k) == segments + [Segment(|done|, x)]
  {
    hide *;
    var x := pre + piece + post;
    var t, k := done + x + rest, |done| + |x|;
    PieceNotBlank(pre, piece, post);
    PieceEdges(done, pre, piece, post, rest);
    BlankIsLevel(pre);
    BlankIsLevel(post);
    QuietConcat3(pre, piece, post, op);
    RegionQuiet(done, x, rest, op);
    MaskedConcat(done, x);
    MaskedConcat(done + x, rest);
    BalancedNet(x);
    NetConcat(done, x);
    ScanSkips(t, op, |done|, k, |done|, segments);
    assert t[|done|..k] == x;
    PushIs(t, |done|, k, x, segments);
  }

  lemma PieceEdges(done: string, pre: string, piece: string, post: string, rest: string)
    requires (done != "" ==> pre != "") && (rest != "" ==> post != "") && Blank(pre) && Blank(post)
    ensures var x := pre + piece + post;
            Edge(done + x + rest, |done|) && Edge(done + x + rest, |done| + |x|)
  {
    var x := pre + piece + post;
    var t, k := done + x + rest, |done| + |x|;
    assert pre != "" ==> t[|done|] == pre[0];
    assert post != "" ==> t[k - 1] == post[|post| - 1];
  }

  lemma PushIs(t: string, start: nat, end: nat, x: string, segments: seq<Segment>)
    requires start <= end <= |t| && t[start..end] == x && !Blank(x)
    ensures Push(segments, t, start, end) == segments + [Segment(start, x)]
  {
  }

  lemma BalancedNet(x: string)
    requires Balanced(x)
    ensures Net(x) == 0
  {
  }

  lemma MaskedConcat(a: string, b: string)
    requires Masked(a) && Masked(b)
    ensures Masked(a + b)
  {
  }

  lemma GlueKeyword(before: string, glue: Glue, after: string)
    requires glue.Valid() && before != "" && IsSpace(before[|before| - 1])
    requires after != "" && IsSpace(after[0])
    ensures var t := before + Keyword(glue.op) + after;
            |before| + |Keyword(glue.op)| <= |t| && MatchesKeyword(t, |before|, glue.op)
  {
    var n := |Keyword(glue.op)|;
    var t := before + Keyword(glue.op) + after;
    assert t[|before|..|before| + n] == Keyword(glue.op);
  }

  lemma PaddedStarts(pre: string, pieces: seq<string>, glue: Glue, post: string)
    requires pieces != [] && pre != ""
    ensures Padded(pre, pieces, glue, post) != "" && Padded(pre, pieces, glue, post)[0] == pre[0]
  {
  }

  lemma KeywordFlat(op: LogicOp)
    ensures Masked(Keyword(op)) && Flat(Keyword(op)) && Net(Keyword(op)) == 0
  {
    FlatLevel(Keyword(op), |Keyword(op)|);
  }

  /** The segments end up exactly the cutouts, whatever came before. */
  ghost predicate ScansTo(t: string, op: LogicOp, at: nat, segments: seq<Segment>, all: seq<Segment>)
    requires at <= |t|
  {
    var r := Scan(t, op, at, 0, at, segments);
    r.Done? && r.depth == 0 && Push(r.segments, t, r.start, |t|) == all
  }

  lemma ScanLast(done: string, pre: string, piece: string, post: string, op: LogicOp, segments: seq<Segment>)
    requires Net(done) == 0 && Masked(done) && (done != "" ==> pre != "")
    requires Blank(pre) && Blank(post)
    requires piece != "" && Trimmed(piece) && Masked(piece) && Balanced(piece) && Quiet(piece, op)
    ensures var x := pre + piece + post;
            ScansTo(done + x, op, |done|, segments, segments + [Segment(|done|, x)])
  {
    var x := pre + piece + post;
    assert done + x + "" == done + x;
    hide Net, Level, Masked, Blank, Balanced, Quiet, Push;
    assert Masked("") by { MaskedNothing(); }
    ScanPiece(done, pre, piece, post, "", op, segments);
  }

  lemma MaskedNothing()
    ensures Masked("")
  {
  }

  lemma ScanNext(done: string, pre: string, piece: string, glue: Glue, after: string, segments: seq<Segment>,
                 all: seq<Segment>)
    requires Net(done) == 0 && Masked(done) && (done != "" ==> pre != "")
    requires Blank(pre) && glue.Valid() && Masked(after) && after != "" && IsSpace(after[0])
    requires piece != "" && Trimmed(piece) && Masked(piece) && Balanced(piece) && Quiet(piece, glue.op)
    ensures var x := pre + piece + glue.left;
            var done' := done + x + Keyword(glue.op);
            && Net(done') == 0 && Masked(done') && done' != ""
            && (ScansTo(done' + after, glue.op, |done'|, segments + [Segment(|done|, x)], all)
                ==> ScansTo(done' + after, glue.op, |done|, segments, all))
  {
    hide *;
    var x, word := pre + piece + glue.left, Keyword(glue.op);
    var rest := word + after;
    var done' := done + x + word;
    NextFacts(done + x, glue, after);
    assert done + x + rest == done' + after;
    ScanPiece(done, pre, piece, glue.left, rest, glue.op, segments);
    GlueEnds(done, pre, piece, glue);
    GlueKeyword(done + x, glue, after);
    NetConcat(done + x, word);
    MaskedConcat(done + x, word);
    TopKeywordHolds(done' + after, glue.op, |done + x|);
    ScanCuts(done' + after, glue.op, |done + x|, |done|, segments);
    ScansToStep(done' + after, glue.op, |done|, segments, |done'|, segments + [Segment(|done|, x)], all);
  }

  lemma NextFacts(before: string, glue: Glue, after: string)
    requires glue.Valid() && Masked(after)
    ensures var word := Keyword(glue.op);
            && Masked(word) && Net(word) == 0 && Masked(word + after) && word + after != ""
            && Blank(glue.left) && glue.left != ""
  {
    KeywordFlat(glue.op);
  }

  lemma GlueEnds(done: string, pre: string, piece: string, glue: Glue)
    requires glue.Valid()
    ensures var before := done + (pre + piece + glue.left);
            before != "" && IsSpace(before[|before| - 1])
  {
    var before := done + (pre + piece + glue.left);
    assert before[|before| - 1] == glue.left[|glue.left| - 1];
  }

  lemma TopKeywordHolds(t: string, op: LogicOp, k: nat)
    requires k <= |t| && MatchesKeyword(t, k, op) && Level(t, k) == 0
    ensures TopKeyword(t, op, k)
  {
  }

  lemma ScansToStep(t: string, op: LogicOp, at: nat, segments: seq<Segment>,
                    at': nat, segments': seq<Segment>, all: seq<Segment>)
    requires at <= |t| && at' <= |t|
    requires Scan(t, op, at, 0, at, segments) == Scan(t, op, at', 0, at', segments')
    ensures ScansTo(t, op, at', segments', all) ==> ScansTo(t, op, at, segments, all)
  {
    hide Scan, Push;
  }

  lemma {:induction false} ScanPadded(done: string, pre: string, pieces: seq<string>, glue: Glue, post: string,
                                      segments: seq<Segment>)
    requires Net(done) == 0 && Masked(done) && (done != "" ==> pre != "")
    requires Blank(pre) && Blank(post) && glue.Valid()
    requires pieces != [] && AllQuiet(pieces, glue.op)
    ensures ScansTo(done + Padded(pre, pieces, glue, post), glue.op, |done|, segments,
                    segments + Cutouts(|done|, pre, pieces, glue, post))
    decreases |pieces|
  {
    hide Net, Masked, Blank, Balanced, Quiet, ScansTo, Trimmed;
    var piece := pieces[0];
    if |pieces| == 1 {
      ScanLast(done, pre, piece, post, glue.op, segments);
    } else {
      var x := pre + piece + glue.left;
      var done' := done + x + Keyword(glue.op);
      var after := Padded(glue.right, pieces[1..], glue, post);
      AfterGlue(pieces[1..], glue, post);
      var all := segments + Cutouts(|done|, pre, pieces, glue, post);
      ScanNext(done, pre, piece, glue, after, segments, all);
      ScanPadded(done', glue.right, pieces[1..], glue, post, segments + [Segment(|done|, x)]);
      assert done + Padded(pre, pieces, glue, post) == done' + after;
      assert all == segments + [Segment(|done|, x)] + Cutouts(|done'|, glue.right, pieces[1..], glue, post);
    }
  }

  lemma AfterGlue(pieces: seq<string>, glue: Glue, post: string)
    requires pieces != [] && AllQuiet(pieces, glue.op) && glue.Valid() && Blank(post)
    ensures var after := Padded(glue.right, pieces, glue, post);
            Masked(after) && after != "" && IsSpace(after[0]) && Blank(glue.right) && glue.right != ""
  {
    BlankIsLevel(glue.right);
    BlankIsLevel(post);
    PaddedMasked(glue.right, pieces, glue, post);
    PaddedStarts(glue.right, pieces, glue, post);
  }

  /** Splitting pieces that were joined by keywords gives exactly the padded pieces. */
  lemma SplitPadded(pre: string, pieces: seq<string>, glue: Glue, post: string, base: nat)
    requires Blank(pre) && Blank(post) && glue.Valid() && pieces != [] && AllQuiet(pieces, glue.op)
    ensures Split(Padded(pre, pieces, glue, post), glue.op, base, false) == Ok(Cutouts(0, pre, pieces, glue, post))
  {
    var t := Padded(pre, pieces, glue, post);
    assert Net("") == 0 && Masked("");
    hide Net, Masked, Blank, Scan, Push, Padded, Balanced, Quiet;
    ScanPadded("", pre, pieces, glue, post, []);
    assert "" + t == t;
    assert [] + Cutouts(0, pre, pieces, glue, post) == Cutouts(0, pre, pieces, glue, post);
  }
}
