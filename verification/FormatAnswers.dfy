/** What the formatter, and the document check built on it, answer for any document at all. */
module FormatAnswers {
  import opened Wrappers
  import opened Text
  import opened DslAst
  import opened ExprParser
  import opened Masking
  import opened Format
  import opened FormatRoundTrip

  // ---- The operations on top of the formatter ----

  predicate CanFormatDsl(g: LeafGrammar, content: string) {
    match FormatDsl(g, content)
    case Ok(formatted) => formatted.Some?
    case Err(_) => false
  }

  datatype DocumentCheck = DocumentCheck(isValid: bool, formatted: Option<string>)

  function ValidateDslDocument(g: LeafGrammar, content: string): DocumentCheck {
    if Trim(content) == "" then DocumentCheck(false, None)
    else if ParseProgram(g, content).Err? then DocumentCheck(false, None)
    else
      match FormatDsl(g, content)
      case Ok(Some(formatted)) => DocumentCheck(true, Some(formatted))
      case Ok(None) => DocumentCheck(false, None)
      case Err(_) => DocumentCheck(false, None)
  }

  // ---- What they answer ----

  /** Every blank document is refused, every other one that does not parse gets no answer, and every other one
      that parses gets a text: itself, if it is comments alone. */
  lemma FormatterAnswers(g: LeafGrammar, source: string)
    ensures FormatDsl(g, source) == Err(FormatError.Empty) <==> Blank(source)
    ensures FormatDsl(g, source) == Ok(None) <==> !Blank(source) && ParseProgram(g, source).Err?
    ensures FormatDsl(g, source).Ok? && FormatDsl(g, source).value.Some? <==>
            !Blank(source) && ParseProgram(g, source).Ok?
    ensures !Blank(source) && Blank(Mask(source)) ==> FormatDsl(g, source) == Ok(Some(source))
  {
    hide ParseOr, FormatOr, TrimOffset, Mask;
    assert Trim(source) == "" <==> Blank(source);
    assert Trim(Mask(source)) == "" <==> Blank(Mask(source));
    hide Trim, Blank;
  }

  /** Only what parses and is not blank can count as formatted: comments alone always do, and an expression does
      if and only if it prints as it stands. */
  lemma FormattedIs(g: LeafGrammar, s: string)
    ensures IsDslFormatted(g, s) ==> !Blank(s) && ParseProgram(g, s).Ok?
    ensures !Blank(s) && Blank(Mask(s)) ==> IsDslFormatted(g, s)
    ensures forall e | ParseProgram(g, s) == Ok(Program(Some(e))) ::
              e.span.start <= e.span.end <= |s|
              && (IsDslFormatted(g, s) <==> s[e.span.start..e.span.end] == FormatOr(e.or, ""))
  {
    hide *;
    FormatterAnswers(g, s);
    FormattedUnfolds(g, s);
    forall e | ParseProgram(g, s) == Ok(Program(Some(e)))
      ensures e.span.start <= e.span.end <= |s|
              && (IsDslFormatted(g, s) <==> s[e.span.start..e.span.end] == FormatOr(e.or, ""))
    {
      DocumentParts(g, s, e);
      var before, middle, after := s[..e.span.start], s[e.span.start..e.span.end], s[e.span.end..];
      assert s == before + middle + after;
      FormatIs(g, before, middle, after, e);
      SameMiddle(before, middle, FormatOr(e.or, ""), after);
    }
  }

  lemma FormattedUnfolds(g: LeafGrammar, s: string)
    ensures IsDslFormatted(g, s) <==> FormatDsl(g, s) == Ok(Some(s))
  {
    hide FormatDsl;
  }

  lemma SameMiddle(before: string, x: string, y: string, after: string)
    ensures before + x + after == before + y + after <==> x == y
  {
    var a, b := before + x + after, before + y + after;
    if a == b {
      assert |x| == |y|;
      assert x == a[|before|..|before| + |x|] && y == b[|before|..|before| + |y|];
    }
  }

  /** A document can be formatted if and only if it is valid, if and only if it is not blank and parses; and what
      the check then offers is what the formatter gives. */
  lemma ValidIsFormattable(g: LeafGrammar, content: string)
    ensures CanFormatDsl(g, content) <==> !Blank(content) && ParseProgram(g, content).Ok?
    ensures ValidateDslDocument(g, content).isValid <==> CanFormatDsl(g, content)
    ensures CanFormatDsl(g, content) ==> FormatDsl(g, content) == Ok(ValidateDslDocument(g, content).formatted)
    ensures !CanFormatDsl(g, content) ==> ValidateDslDocument(g, content).formatted == None
  {
    FormatterAnswers(g, content);
    hide FormatDsl, ParseProgram;
  }
}
