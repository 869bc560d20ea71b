/** The pretty printer for match expressions. */
module Format {
  import opened Wrappers
  import opened Text
  import opened DslAst
  import opened ExprSplit
  import opened ExprParser
  import opened PaddedSplit
  import opened Masking

  datatype FormatError = Empty | Parse(error: ParseError)

  // ---- Leaves ----

  predicate EndsWith(s: string, suffix: string) {
    |suffix| <= |s| && s[|s| - |suffix|..] == suffix
  }

  function Append(text: string, part: Option<string>): string {
    match part case Some(s) => text + s case None => text
  }

  /** A path that does not start with a slash is set off from the host by a space. */
  function AppendPath(text: string, url: Url): string {
    if url.path.Some? && url.host.Some? && !("/" <= url.path.value) && EndsWith(text, url.host.value)
    then text + " " + url.path.value
    else Append(text, url.path)
  }

  function AppendQuery(text: string, url: Url): string {
    match url.query case Some(query) => text + "?" + query case None => text
  }

  function UrlText(url: Url): string {
    AppendQuery(AppendPath(Append(Append(Append("", url.scheme), url.host), url.port), url), url)
  }

  method FormatUrl(url: Url) returns (text: string)
    ensures text == UrlText(url)
  {
    text := "";
    if url.scheme.Some? {
      text := text + url.scheme.value;
    }
    if url.host.Some? {
      text := text + url.host.value;
    }
    if url.port.Some? {
      text := text + url.port.value;
    }
    if url.path.Some? {
      if url.host.Some? && !("/" <= url.path.value) && EndsWith(text, url.host.value) {
        text := text + " ";
      }
      text := text + url.path.value;
    }
    if url.query.Some? {
      text := text + "?";
      text := text + url.query.value;
    }
  }

  function Render(fragment: Fragment): string {
    match fragment
    case CliOnly(args) => args.text
    case UrlFragment(url, None) => UrlText(url)
    case UrlFragment(url, Some(cli)) => UrlText(url) + " " + TrimStart(cli.text)
  }

  // ---- Expressions ----

  function OrGlue(indent: string): string {
    "\n" + indent + "OR "
  }

  function AndGlue(parts: seq<string>): string {
    if exists i | 0 <= i < |parts| :: '\n' in parts[i] then "\nAND " else " AND "
  }

  function FormatOr(or: OrExpr, indent: string): string {
    if or.branches == [] then "" else indent + Join(FormatBranches(or.branches, indent), OrGlue(indent))
  }

  function FormatBranches(branches: seq<AndExpr>, indent: string): (r: seq<string>)
    ensures |r| == |branches|
  {
    if branches == [] then [] else [FormatAnd(branches[0], indent)] + FormatBranches(branches[1..], indent)
  }

  function FormatAnd(and: AndExpr, indent: string): string {
    var parts := FormatTerms(and.terms, indent);
    Join(parts, AndGlue(parts))
  }

  function FormatTerms(terms: seq<NotExpr>, indent: string): (r: seq<string>)
    ensures |r| == |terms|
  {
    if terms == [] then [] else [FormatNot(terms[0], indent)] + FormatTerms(terms[1..], indent)
  }

  function FormatNot(n: NotExpr, indent: string): string {
    match n
    case Not(inner, _) => "NOT " + FormatNot(inner, indent)
    case Prim(primary) => FormatPrimary(primary, indent)
  }

  function FormatPrimary(primary: Primary, indent: string): string {
    match primary
    case Grouped(expr) =>
      if |expr.or.branches| > 1 then "(" + "\n" + FormatOr(expr.or, indent + "  ") + ("\n" + indent) + ")"
      else "(" + "" + FormatOr(expr.or, "") + "" + ")"
    case Leaf(fragment, _, _) => Render(fragment)
  }

  method FormatOrExpr(or: OrExpr, indent: string) returns (result: string)
    ensures result == FormatOr(or, indent)
    decreases or, 1
  {
    hide FormatAnd, FormatBranches, OrGlue;
    result := "";
    if or.branches == [] {
      return;
    }
    if |or.branches| == 1 {
      BranchAt(or.branches, indent, 0);
      var content := FormatAndExpr(or.branches[0], indent);
      if indent == "" {
        return content;
      }
      return indent + content;
    }
    ghost var all := FormatBranches(or.branches, indent);
    ghost var glue := OrGlue(indent);
    for index := 0 to |or.branches|
      invariant result == if index == 0 then "" else indent + Join(all[..index], glue)
    {
      BranchAt(or.branches, indent, index);
      var formatted := FormatAndExpr(or.branches[index], indent);
      assert all[..index + 1] == all[..index] + [formatted];
      if index == 0 {
        result := indent + formatted;
      } else {
        result := result + "\n" + indent + "OR ";
        result := result + formatted;
        JoinMore(all[..index], formatted, glue);
        Reassociate(indent, Join(all[..index], glue), indent, formatted);
      }
    }
    assert all[..|or.branches|] == all;
  }

  lemma Reassociate(a: string, b: string, indent: string, c: string)
    ensures a + b + "\n" + indent + "OR " + c == a + (b + OrGlue(indent) + c)
  {
  }

  method FormatAndExpr(and: AndExpr, indent: string) returns (text: string)
    ensures text == FormatAnd(and, indent)
    decreases and, 1
  {
    var parts: seq<string> := [];
    for k := 0 to |and.terms|
      invariant parts == FormatTerms(and.terms, indent)[..k]
    {
      TermAt(and.terms, indent, k);
      var part := FormatNotExpr(and.terms[k], indent);
      parts := parts + [part];
    }
    assert parts == FormatTerms(and.terms, indent);
    return Join(parts, AndGlue(parts));
  }

  method FormatNotExpr(n: NotExpr, indent: string) returns (text: string)
    ensures text == FormatNot(n, indent)
    decreases n, 1
  {
    match n {
      case Not(inner, _) =>
        var innerText := FormatNotExpr(inner, indent);
        return "NOT " + innerText;
      case Prim(Leaf(fragment, _, _)) =>
        return Render(fragment);
      case Prim(Grouped(expr)) =>
        if |expr.or.branches| > 1 {
          var inner := FormatOrExpr(expr.or, indent + "  ");
          return "(" + "\n" + inner + ("\n" + indent) + ")";
        }
        var inner := FormatOrExpr(expr.or, "");
        return "(" + "" + inner + "" + ")";
    }
  }

  lemma {:induction false} BranchAt(branches: seq<AndExpr>, indent: string, k: nat)
    requires k < |branches|
    ensures FormatBranches(branches, indent)[k] == FormatAnd(branches[k], indent)
  {
    if k > 0 {
      BranchAt(branches[1..], indent, k - 1);
    }
  }

  lemma {:induction false} TermAt(terms: seq<NotExpr>, indent: string, k: nat)
    requires k < |terms|
    ensures FormatTerms(terms, indent)[k] == FormatNot(terms[k], indent)
  {
    if k > 0 {
      TermAt(terms[1..], indent, k - 1);
    }
  }

  lemma {:induction false} JoinMore(pieces: seq<string>, last: string, separator: string)
    requires pieces != []
    ensures Join(pieces + [last], separator) == Join(pieces, separator) + separator + last
  {
    var more := pieces + [last];
    assert more[1..] == pieces[1..] + [last];
    if |pieces| > 1 {
      JoinMore(pieces[1..], last, separator);
      var rest := Join(pieces[1..], separator);
      assert pieces[0] + separator + (rest + separator + last) == pieces[0] + separator + rest + separator + last;
    }
  }

  // ---- Documents ----

  function Min(a: nat, b: nat): nat {
    if a < b then a else b
  }

  /** The expression is replaced by its formatted text; what stands before and after it, comments
      included, is kept as it is. */
  function FormatDsl(g: LeafGrammar, source: string): Result<Option<string>, FormatError> {
    if Trim(source) == "" then Err(Empty)
    else
      match ParseProgram(g, source)
      case Err(_) => Ok(None)
      case Ok(Program(None)) => Ok(Some(source))
      case Ok(Program(Some(expr))) =>
        var before := source[..Min(expr.span.start, |source|)];
        var after := source[Min(expr.span.end, |source|)..];
        Ok(Some(before + FormatOr(expr.or, "") + after))
  }

  predicate IsDslFormatted(g: LeafGrammar, content: string) {
    match FormatDsl(g, content)
    case Ok(Some(formatted)) => content == formatted
    case _ => false
  }
}
