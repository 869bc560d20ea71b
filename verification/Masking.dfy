/** Line comments are blanked before parsing, so that offsets stay those of the original source. */
module Masking {
  import opened Wrappers
  import opened Text
  import opened DslAst
  import opened ExprSplit
  import opened ExprParser

  datatype Program = Program(expr: Option<Expr>)

  /** Whether a comment is open when the character at `i` is reached. */
  predicate CommentBefore(s: string, i: nat)
    requires i <= |s|
  {
    i > 0 && s[i - 1] != '\n' && (s[i - 1] == '#' || CommentBefore(s, i - 1))
  }

  function MaskedChar(s: string, i: nat): char
    requires i < |s|
  {
    if s[i] != '\n' && (s[i] == '#' || CommentBefore(s, i)) then ' ' else s[i]
  }

  function Mask(s: string): (r: string) {
    seq(|s|, i requires 0 <= i < |s| => MaskedChar(s, i))
  }

  method MaskLineComments(source: string) returns (masked: string)
    ensures masked == Mask(source)
  {
    masked := "";
    var i := 0;
    while i < |source|
      invariant 0 <= i <= |source| && masked == Mask(source)[..i] && !CommentBefore(source, i)
    {
      var ch := source[i];
      i := i + 1;
      if ch == '#' {
        masked := masked + [' '];
        while i < |source|
          invariant 0 < i <= |source| && masked == Mask(source)[..i] && CommentBefore(source, i)
        {
          var next := source[i];
          i := i + 1;
          if next == '\n' {
            masked := masked + ['\n'];
            break;
          }
          masked := masked + [' '];
        }
        if i == |source| {
          break;
        }
      } else {
        masked := masked + [ch];
      }
    }
  }

  /** A comment runs from a comment sign to the end of its line. */
  ghost predicate InComment(s: string, i: nat)
    requires i < |s|
  {
    exists j | 0 <= j <= i :: s[j] == '#' && forall k | j <= k <= i :: s[k] != '\n'
  }

  lemma {:induction false} CommentBeforeMeans(s: string, i: nat)
    requires i <= |s|
    ensures CommentBefore(s, i) <==> i > 0 && InComment(s, i - 1)
  {
    if i > 0 {
      CommentBeforeMeans(s, i - 1);
      if i > 1 && InComment(s, i - 2) && s[i - 1] != '\n' {
        var j :| 0 <= j <= i - 2 && s[j] == '#' && forall k | j <= k <= i - 2 :: s[k] != '\n';
        assert forall k | j <= k <= i - 1 :: s[k] != '\n';
      }
    }
  }

  /** Masking keeps the length and every newline, leaves no comment sign, and blanks exactly the
      characters of comments. */
  lemma MaskBlanksComments(s: string)
    ensures |Mask(s)| == |s| && Masked(Mask(s))
    ensures forall i | 0 <= i < |s| :: Mask(s)[i] == '\n' <==> s[i] == '\n'
    ensures forall i | 0 <= i < |s| :: Mask(s)[i] == if InComment(s, i) then ' ' else s[i]
  {
    forall i | 0 <= i < |s| ensures Mask(s)[i] == if InComment(s, i) then ' ' else s[i] {
      CommentBeforeMeans(s, i + 1);
    }
  }

  lemma {:induction false} CommentOfConcat(a: string, b: string, k: nat)
    requires k <= |a + b|
    ensures CommentBefore(a + b, k) ==
            if k <= |a| then CommentBefore(a, k)
            else CommentBefore(b, k - |a|) || (CommentBefore(a, |a|) && '\n' !in b[..k - |a|])
  {
    if k > 0 {
      CommentOfConcat(a, b, k - 1);
      if k > |a| {
        assert b[..k - |a|] == b[..k - |a| - 1] + [b[k - |a| - 1]];
      }
    }
  }

  /** Masking works piece by piece, unless a comment crosses the cut. */
  lemma MaskConcat(a: string, b: string)
    requires !CommentBefore(a, |a|)
    ensures Mask(a + b) == Mask(a) + Mask(b)
    ensures CommentBefore(a + b, |a + b|) == CommentBefore(b, |b|)
  {
    forall i | 0 <= i < |a + b| ensures Mask(a + b)[i] == (Mask(a) + Mask(b))[i] {
      CommentOfConcat(a, b, i);
    }
    CommentOfConcat(a, b, |a + b|);
  }

  lemma MaskOfMasked(s: string)
    requires Masked(s)
    ensures Mask(s) == s && !CommentBefore(s, |s|)
  {
    forall i | 0 <= i <= |s| ensures !CommentBefore(s, i) {
      NoCommentBefore(s, i);
    }
  }

  lemma {:induction false} NoCommentBefore(s: string, i: nat)
    requires Masked(s) && i <= |s|
    ensures !CommentBefore(s, i)
  {
    if i > 0 {
      NoCommentBefore(s, i - 1);
    }
  }

  function ParseProgram(g: LeafGrammar, source: string): Result<Program, ParseError> {
    var expr :- ParseExpr(g, Mask(source), 0);
    Ok(Program(expr))
  }

  function ParseProgramPartial(g: LeafGrammar, source: string): Partial<Program> {
    var r := ParseExprPartial(g, Mask(source), 0);
    Partial(Program(r.tree), r.error)
  }
}
