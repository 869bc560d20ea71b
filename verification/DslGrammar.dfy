/** The leaf grammar: what a parsing expression grammar makes of a trimmed text that is a url with arguments,
    or arguments alone. Every rule is a function of the text still to be read and says how much of it the rule
    takes, zero if it fails. White space may stand between the parts of a rule; where an optional part
    follows, the white space before it is taken even if that part is absent. */
module DslGrammar {
  import opened Wrappers
  import opened Text
  import opened DslAst

  predicate IsWs(c: char) {
    c == ' ' || c == '\t' || c == '\r' || c == '\n'
  }

  predicate IsDigit(c: char) {
    '0' <= c <= '9'
  }

  predicate IsAlpha(c: char) {
    'a' <= c <= 'z' || 'A' <= c <= 'Z'
  }

  predicate IsLabelChar(c: char) {
    IsAlnum(c) || c == '-'
  }

  predicate IsPathChar(c: char) {
    IsAlnum(c) || c in "_~!$&'*+,;=:@%-"
  }

  predicate IsQueryChar(c: char) {
    IsAlnum(c) || c in "_./:=@%-,*+"
  }

  predicate IsValueChar(c: char) {
    IsAlnum(c) || c in "_./:=@%-"
  }

  /** How many characters from the start are of a kind. */
  function Leading(s: string, kind: char -> bool): (n: nat)
    ensures n <= |s| && (forall i | 0 <= i < n :: kind(s[i])) && (n < |s| ==> !kind(s[n]))
  {
    if s == "" || !kind(s[0]) then 0 else 1 + Leading(s[1..], kind)
  }

  function Gap(s: string): (n: nat)
    ensures n <= |s| && (forall i | 0 <= i < n :: IsWs(s[i])) && (n < |s| ==> !IsWs(s[n]))
  {
    Leading(s, IsWs)
  }

  predicate StartsWith(s: string, c: char) {
    s != "" && s[0] == c
  }

  // ---- Urls ----

  function Scheme(s: string): (n: nat)
    ensures n <= |s|
  {
    if "http://" <= s || "HTTP://" <= s then 7
    else if "https://" <= s || "HTTPS://" <= s then 8
    else if "ws://" <= s || "WS://" <= s then 5
    else if "wss://" <= s || "WSS://" <= s then 6
    else 0
  }

  /** One to three digits. */
  function Octet(s: string): (n: nat)
    ensures n <= |s|
  {
    var n := Leading(s, IsDigit);
    if n < 3 then n else 3
  }

  function Octets(s: string, k: nat): (n: nat)
    ensures n <= |s|
  {
    var d := Octet(s);
    if d == 0 || k <= 1 then d
    else if !StartsWith(s[d..], '.') then 0
    else
      var more := Octets(s[d + 1..], k - 1);
      if more == 0 then 0 else d + 1 + more
  }

  function Label(s: string): (n: nat)
    ensures n <= |s|
  {
    if s != "" && IsAlnum(s[0]) then Leading(s, IsLabelChar) else 0
  }

  function DotLabel(s: string): (n: nat)
    ensures n <= |s|
  {
    if !StartsWith(s, '.') || Label(s[1..]) == 0 then 0 else 1 + Label(s[1..])
  }

  function DotLabels(s: string): (n: nat)
    ensures n <= |s|
  {
    if DotLabel(s) == 0 then 0 else DotLabel(s) + DotLabels(s[DotLabel(s)..])
  }

  function Domain(s: string): (n: nat)
    ensures n <= |s|
  {
    var n := Label(s);
    if n == 0 || DotLabels(s[n..]) == 0 then 0 else n + DotLabels(s[n..])
  }

  function Host(s: string): (n: nat)
    ensures n <= |s|
  {
    if "localhost" <= s then 9
    else if Octets(s, 4) > 0 then Octets(s, 4)
    else if Domain(s) > 0 then Domain(s)
    else Label(s)
  }

  function Port(s: string): (n: nat)
    ensures n <= |s|
  {
    if !StartsWith(s, ':') then 0
    else
      var n := Leading(s[1..], IsDigit);
      if n == 0 then 0 else 1 + n
  }

  function PathSegment(s: string): (n: nat)
    ensures n <= |s|
  {
    if "**" <= s then 2 else if "*" <= s then 1 else Leading(s, IsPathChar)
  }

  /** Any number of segments, each before a slash. */
  function SegmentsSlash(s: string): (n: nat)
    ensures n <= |s|
  {
    var n := PathSegment(s);
    if n == 0 || !StartsWith(s[n..], '/') then 0 else n + 1 + SegmentsSlash(s[n + 1..])
  }

  function SlashPath(s: string): (n: nat)
    ensures n <= |s|
  {
    if !StartsWith(s, '/') then 0
    else
      var n := 1 + SegmentsSlash(s[1..]);
      n + PathSegment(s[n..])
  }

  function SlashSegment(s: string): (n: nat)
    ensures n <= |s|
  {
    if !StartsWith(s, '/') || PathSegment(s[1..]) == 0 then 0 else 1 + PathSegment(s[1..])
  }

  function SlashSegments(s: string): (n: nat)
    ensures n <= |s|
  {
    if SlashSegment(s) == 0 then 0 else SlashSegment(s) + SlashSegments(s[SlashSegment(s)..])
  }

  function GlobPath(s: string): (n: nat)
    ensures n <= |s|
  {
    if "**" <= s && SlashSegments(s[2..]) > 0 then 2 + SlashSegments(s[2..])
    else if "*" <= s && SlashSegments(s[1..]) > 0 then 1 + SlashSegments(s[1..])
    else 0
  }

  function Path(s: string): (n: nat)
    ensures n <= |s|
  {
    if SlashPath(s) > 0 then SlashPath(s) else GlobPath(s)
  }

  // ---- Queries ----

  /** A key, which is greedy and may hold equals signs, and the white space after it. */
  function QueryKey(s: string): (n: nat)
    ensures n <= |s|
  {
    var key := Leading(s, IsQueryChar);
    if key == 0 then 0 else key + Gap(s[key..])
  }

  /** A sign, and the white space after it. */
  function Sign(s: string, c: char): (n: nat)
    ensures n <= |s|
  {
    if StartsWith(s, c) then 1 + Gap(s[1..]) else 0
  }

  function EqValue(s: string): (n: nat)
    ensures n <= |s|
  {
    var at := Sign(s, '=');
    if at == 0 then 0 else at + Leading(s[at..], IsQueryChar)
  }

  /** The equals sign of a pair can only stand after white space. */
  function QueryPair(s: string): (n: nat)
    ensures n <= |s|
  {
    var key := QueryKey(s);
    if key == 0 then 0 else key + EqValue(s[key..])
  }

  function AndPair(s: string): (n: nat)
    ensures n <= |s|
  {
    var at := Sign(s, '&');
    if at == 0 || QueryPair(s[at..]) == 0 then 0 else at + QueryPair(s[at..])
  }

  function SpacedPair(s: string): (n: nat)
    ensures n <= |s|
  {
    if AndPair(s[Gap(s)..]) == 0 then 0 else Gap(s) + AndPair(s[Gap(s)..])
  }

  /** Any number of further pairs; white space before something else is left. */
  function MorePairs(s: string): (n: nat)
    ensures n <= |s|
  {
    if SpacedPair(s) == 0 then 0 else SpacedPair(s) + MorePairs(s[SpacedPair(s)..])
  }

  /** Further pairs, if there are any. */
  function RestPairs(s: string): (n: nat)
    ensures n <= |s|
  {
    if AndPair(s) == 0 then 0 else AndPair(s) + MorePairs(s[AndPair(s)..])
  }

  /** A pair, and the white space after it. */
  function FirstPair(s: string): (n: nat)
    ensures n <= |s|
  {
    if QueryPair(s) == 0 then 0 else QueryPair(s) + Gap(s[QueryPair(s)..])
  }

  function QueryBody(s: string): (n: nat)
    ensures n <= |s|
  {
    var first := FirstPair(s);
    if first == 0 then 0 else first + RestPairs(s[first..])
  }

  function Query(s: string): (n: nat)
    ensures n <= |s|
  {
    var at := Sign(s, '?');
    if at == 0 || QueryBody(s[at..]) == 0 then 0 else at + QueryBody(s[at..])
  }

  // ---- Arguments ----

  function ShortFlag(s: string): (n: nat)
    ensures n <= |s|
  {
    var at := Sign(s, '-');
    if at == 0 || Leading(s[at..], IsAlpha) == 0 then 0 else at + Leading(s[at..], IsAlpha)
  }

  function LongFlag(s: string): (n: nat)
    ensures n <= |s|
  {
    if "--" <= s && Leading(s[2..], IsLabelChar) > 0 then 2 + Leading(s[2..], IsLabelChar) else 0
  }

  function Flag(s: string): (n: nat)
    ensures n <= |s|
  {
    if ShortFlag(s) > 0 then ShortFlag(s) else LongFlag(s)
  }

  datatype ReadValue = ReadValue(value: CliArgValue, n: nat)

  function ArgValue(s: string): (r: Option<ReadValue>)
    ensures r.Some? ==> r.value.n <= |s|
  {
    var at := Sign(s, '=');
    var n := Leading(s[at..], IsValueChar);
    if at > 0 && n > 0 then Some(ReadValue(Eq(s[at..at + n]), at + n))
    else
      var bare := Leading(s, IsValueChar);
      if bare == 0 then None else Some(ReadValue(Bare(s[..bare]), bare))
  }

  datatype ReadArgs = ReadArgs(args: seq<CliArg>, n: nat)

  function Arg(s: string): (r: Option<ReadArgs>)
    ensures r.Some? ==> 0 < r.value.n <= |s|
  {
    var flag := Flag(s);
    if flag == 0 then None
    else
      var at := flag + Gap(s[flag..]);
      match ArgValue(s[at..])
      case None => Some(ReadArgs([CliArg(s[..flag], None)], at))
      case Some(v) => Some(ReadArgs([CliArg(s[..flag], Some(v.value))], at + v.n))
  }

  function MoreArgs(s: string): (r: ReadArgs)
    ensures r.n <= |s|
  {
    var w := Gap(s);
    match Arg(s[w..])
    case None => ReadArgs([], 0)
    case Some(first) =>
      var more := MoreArgs(s[w + first.n..]);
      ReadArgs(first.args + more.args, w + first.n + more.n)
  }

  function Args(s: string): (r: Option<ReadArgs>)
    ensures r.Some? ==> 0 < r.value.n <= |s|
  {
    match Arg(s)
    case None => None
    case Some(first) =>
      var at := first.n + Gap(s[first.n..]);
      match Arg(s[at..])
      case None => Some(ReadArgs(first.args, at))
      case Some(second) =>
        var more := MoreArgs(s[at + second.n..]);
        Some(ReadArgs(first.args + second.args + more.args, at + second.n + more.n))
  }

  // ---- Whole leaves ----

  /** What may follow a host, and what may follow its parts, up to the end of the text. */
  datatype Tail = Tail(port: Option<string>, path: Option<string>, query: Option<string>, cli: Option<CliArgs>)

  function ReadCli(s: string): Option<Tail> {
    var r := s[Gap(s)..];
    if r == "" then Some(Tail(None, None, None, None))
    else
      match Args(r)
      case None => None
      case Some(args) =>
        if Gap(r[args.n..]) < |r| - args.n then None
        else Some(Tail(None, None, None, Some(CliArgs(args.args, r[..args.n]))))
  }

  function ReadQuery(s: string): Option<Tail> {
    var r := s[Gap(s)..];
    if Query(r) == 0 then ReadCli(s)
    else
      match ReadCli(r[Query(r)..])
      case None => None
      case Some(tail) => Some(tail.(query := Some(r[1..Query(r)])))
  }

  function ReadPath(s: string): Option<Tail> {
    var r := s[Gap(s)..];
    if Path(r) == 0 then ReadQuery(s)
    else
      match ReadQuery(r[Path(r)..])
      case None => None
      case Some(tail) => Some(tail.(path := Some(r[..Path(r)])))
  }

  function ReadPort(s: string): Option<Tail> {
    var r := s[Gap(s)..];
    if Port(r) == 0 then ReadPath(s)
    else
      match ReadPath(r[Port(r)..])
      case None => None
      case Some(tail) => Some(tail.(port := Some(r[..Port(r)])))
  }

  function UrlOf(scheme: Option<string>, host: Option<string>, tail: Tail): Fragment {
    UrlFragment(Url(scheme, host, tail.port, tail.path, tail.query), tail.cli)
  }

  /** A host and what follows. The alternative with white space between host and path never applies: the white
      space is skipped before it can be asked for. */
  function ReadHost(scheme: Option<string>, s: string): Option<Fragment> {
    match ReadPort(s[Host(s)..])
    case None => None
    case Some(tail) => Some(UrlOf(scheme, Some(s[..Host(s)]), tail))
  }

  function AfterScheme(s: string): string {
    s[Scheme(s)..][Gap(s[Scheme(s)..])..]
  }

  /** A url with a scheme, with a host only, or with neither; then arguments. */
  function ReadUrl(s: string): Option<Fragment> {
    if Scheme(s) > 0 && Host(AfterScheme(s)) > 0 then ReadHost(Some(s[..Scheme(s)]), AfterScheme(s))
    else if Host(s) > 0 then ReadHost(None, s)
    else if Path(s) > 0 || Query(s) > 0 then
      match ReadPath(s)
      case None => None
      case Some(tail) => Some(UrlOf(None, None, tail))
    else None
  }

  function ReadLeaf(t: string): Option<Fragment> {
    var s := t[Gap(t)..];
    match Args(s)
    case Some(args) =>
      if Gap(s[args.n..]) < |s| - args.n then None else Some(CliOnly(CliArgs(args.args, s[..args.n])))
    case None => ReadUrl(s)
  }

  /** A leaf grammar that accepts what this one does, with the same parts; how it words and places its
      errors is its own affair. */
  ghost predicate ReadsLikeDsl(g: LeafGrammar) {
    forall t :: match ReadLeaf(t)
                case Some(fragment) => g(t) == Accepted(fragment)
                case None => g(t).Rejected?
  }
}
