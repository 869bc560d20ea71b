/** The syntax tree of a match expression. Offsets count characters of the masked source. */
module DslAst {
  import opened Wrappers

  datatype Span = Span(start: nat, end: nat)

  datatype ParseError = Syntax(span: Span, message: string)

  datatype Expr = Expr(or: OrExpr, span: Span)

  datatype OrExpr = OrExpr(branches: seq<AndExpr>, span: Span)

  datatype AndExpr = AndExpr(terms: seq<NotExpr>, span: Span)

  datatype NotExpr =
    | Not(inner: NotExpr, span: Span)
    | Prim(primary: Primary)

  /** A leaf carries the trimmed text it was parsed from besides its components. */
  datatype Primary =
    | Leaf(fragment: Fragment, text: string, span: Span)
    | Grouped(expr: Expr)

  datatype Fragment =
    | CliOnly(args: CliArgs)
    | UrlFragment(url: Url, cli: Option<CliArgs>)

  /** `query` is without the leading question mark; `scheme` and `port` keep their punctuation. */
  datatype Url = Url(
    scheme: Option<string>,
    host: Option<string>,
    port: Option<string>,
    path: Option<string>,
    query: Option<string>)

  /** `text` is the slice of the source that the arguments span. */
  datatype CliArgs = CliArgs(args: seq<CliArg>, text: string)

  datatype CliArg = CliArg(flag: string, value: Option<CliArgValue>)

  datatype CliArgValue = Eq(text: string) | Bare(text: string)

  /** What the leaf grammar says of one trimmed fragment. */
  datatype LeafResult =
    | Accepted(fragment: Fragment)
    | Rejected(at: nat, message: string)

  type LeafGrammar = string -> LeafResult
}
