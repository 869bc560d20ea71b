# Verified model of Lynx

Lynx is a proxy that captures HTTP traffic, matches requests with a small expression language, and acts
on them with rules. This project models its parts with the most state and branching, and proves what they
keep.

| files | what they model |
|---|---|
| `Text`, `DslAst` | characters and white space; the syntax tree of match expressions |
| `ExprSplit`, `ExprParser`, `ParserAgreement`, `TolerantTrees`, `ParseErrors` | splitting at top-level `AND`/`OR`, the strict parser and its error-tolerant twin; what the latter keeps of a text that does not parse, and where errors point |
| `Masking`, `ParserSpans` | blanking comments; where every node of the tree lies in the source |
| `PaddedSplit`, `Format`, `FormatClean`, `FormatReparse`, `FormatRoundTrip`, `FormatExact`, `FormatMeaning`, `FormatAnswers`, `FormatLayout` | the formatter, and that its output reads back, under any leaf grammar; what it answers for any document, and how it breaks lines |
| `DslGrammar`, `DslStable`, `DslSeam`, `DslReprint`, `DslLeaf`, `DslClean`, `DslStill`, `DslExact`, `DslMeaning` | the language's own leaf grammar; exactly when formatting keeps tree and program, and reaches a fixed point |
| `PathGlob`, `Eval`, `Compile`, `TextParts`, `CompileMeaning`, `CompileFaults` | path globs, compiled programs, lowering; queries, paths, schemes, ports and flags as the parts they are cut into; what a program means, and which expressions compile |
| `RequestRules`, `RulesCache`, `RulesCacheRuns` | rule order and matching; the cache of the rules directory |
| `ProjectRules`, `ProjectRulesLaws` | pushing, pulling and applying a project's rules |
| `EventStore`, `EventRuns`, `EventHistory`, `EventPolls` | the cache of captured traffic and its event state machine |
| `BodyTee`, `ThrottledBody` | copying a body while it streams; slowing a body down |
| `TrafficRecords`, `TrafficFilter`, `TrafficFilterRuns`, `TrafficFilterFresh`, `TrafficFilterDisplay` | the interface's filter, evaluated in chunks with a cache of facts |
| `TraceWindow`, `TraceWindowRuns`, `TraceWindowRows` | the interface's window of captured traces |
| `FilterHistory` | the history of filters used last |

Code that works in place is modelled by methods and classes, each proved equal to a function of its input
or of the old state; the laws are then proved of those functions. Things that interleave (the event cache,
the rules cache, the filter, the tee, the throttled body, the trace window) are state machines: a run is a
list of steps with the states between them, and the main lemmas hold of every state of every run.

Parameters stand for what is outside: the clock (`now`, in milliseconds, and one reading for each
operation), fresh identifiers, the rule validator, how a url is displayed, and the facts that url, method and
headers give a record. The leaf grammar is a parameter of parser, formatter and compiler; the `Dsl` modules
prove what holds of the one the program uses, `ReadsLikeDsl`. Nowhere is the clock assumed to go forward,
except in `ThrottledBody.RateIsKept`, where times are ordered.

## Model

| member | source | states |
|---|---|---|
| `ExprSplit.SplitTopLevel` | crates/lynx-dsl/src/expr_parser.rs:162-249 | the scanning loop computes `Split`, errors included |
| `ExprSplit.SplitTiles` | crates/lynx-dsl/src/expr_parser.rs:162-249 | a strict split tiles its input: ordered whole stretches between top-level keywords, everything else keyword or white space, nothing both |
| `ExprSplit.SplitAccepts` | crates/lynx-dsl/src/expr_parser.rs:236-249 | a strict split succeeds if and only if parentheses balance and something besides keywords and white space is there |
| `ExprSplit.SplitsAgree` | crates/lynx-dsl/src/expr_parser.rs:236-249 | allowing an open parenthesis changes a split only when one stays open |
| `ExprSplit.ResplitIsIdentity` | crates/lynx-dsl/src/expr_parser.rs:162-270 | every segment is balanced, and splitting it again by the same operator gives back that one segment |
| `ExprSplit.QuietConcat` | crates/lynx-dsl/src/expr_parser.rs:251-270 | joining two texts where no letters or digits meet creates no top-level keyword |
| `TextParts.KeywordIs` | crates/lynx-dsl/src/expr_parser.rs:251-270 | a keyword stands at an index exactly when its letters do, in either case, with no letter or digit right before or after |
| `ExprSplit.SplitErrors` | crates/lynx-dsl/src/expr_parser.rs:162-249 | a split fails exactly on a parenthesis that closes too much, on one that stays open unless that is allowed, or on nothing to split; each error points where it should |
| `ExprSplit.OpenSplitTiles` | crates/lynx-dsl/src/expr_parser.rs:162-249 | a tolerant split tiles its input too, the stretch that stays open included |
| `ExprParser.ParseExpression` | crates/lynx-dsl/src/expr_parser.rs:5-16 | the strict parser computes `ParseExpr` |
| `ExprParser.ParseOrExpression` | crates/lynx-dsl/src/expr_parser.rs:38-46 | collecting the branches computes `ParseOr` |
| `ExprParser.ParseAndExpression` | crates/lynx-dsl/src/expr_parser.rs:80-88 | collecting the terms computes `ParseAnd` |
| `ExprParser.ParseNotExpression` | crates/lynx-dsl/src/expr_parser.rs:120-149 | negation needs a space after `NOT`; a bare `NOT` is an error |
| `ExprParser.ParsePrimaryFragment` | crates/lynx-dsl/src/parser.rs:62-105 | a primary is a group or a leaf of the grammar |
| `ExprParser.ParseGroupedExpression` | crates/lynx-dsl/src/expr_parser.rs:281-297 | a group is the expression between its outer parentheses |
| `ExprParser.ParseExpressionPartial` | crates/lynx-dsl/src/expr_parser.rs:19-36 | the tolerant parser computes `ParseExprPartial` |
| `ExprParser.ParseOrExpressionPartial` | crates/lynx-dsl/src/expr_parser.rs:48-78 | computes `ParseOrPartial`: tolerant branches and the first error, of which `TolerantTrees.TolerantTree` says what they are |
| `ExprParser.ParseAndExpressionPartial` | crates/lynx-dsl/src/expr_parser.rs:90-118 | tolerant terms, and the first error |
| `TolerantTrees.TolerantTree` | crates/lynx-dsl/src/expr_parser.rs:18-118 | what the tolerant parser keeps of any document: the branches before the first that does not parse, as the strict parser reads them; of that one the terms before the first that does not parse, unless there are none; and that one's error |
| `TolerantTrees.FirstTermIsKept` | crates/lynx-dsl/src/expr_parser.rs:18-118 | a document that splits and whose first term parses never yields an empty tree: the term is in it |
| `ParseErrors.ErrorPointsInside` | crates/lynx-dsl/src/parser.rs:40-51 | every error of the strict parser points into the document, or right after it |
| `ParseErrors.LeafErrorStands` | crates/lynx-dsl/src/parser.rs:62-105 | the error of a leaf stands where the grammar puts it in the leaf, counted from the start of the document |
| `ParseErrors.BareNotMarked` | crates/lynx-dsl/src/expr_parser.rs:120-149 | a NOT without space and operand is marked as a whole |
| `ParseErrors.AnyCaseNegates` | crates/lynx-dsl/src/expr_parser.rs:120-149 | NOT and a space negate in any letter case |
| `ParseErrors.NestedErrorStands` | crates/lynx-dsl/src/expr_parser.rs:120-160 | operands of NOT and expressions in groups report their errors where they stand |
| `ParserAgreement.PartialRefinesStrict` | crates/lynx-dsl/src/expr_parser.rs:5-118 | the strict parser returns a tree exactly when the tolerant one returns it without error; unless a parenthesis stays open both report the same first error |
| `ParserAgreement.PartialProgramRefinesStrict` | crates/lynx-dsl/src/parser.rs:40-60 | the same on whole documents with comments |
| `Masking.MaskLineComments` | crates/lynx-dsl/src/parser.rs:20-38 | the nested loop computes `Mask` |
| `Masking.MaskBlanksComments` | crates/lynx-dsl/src/parser.rs:16-38 | masking keeps length and newlines, leaves no comment sign, and blanks exactly the characters of comments |
| `Masking.MaskConcat` | crates/lynx-dsl/src/parser.rs:20-38 | masking works piece by piece unless a comment crosses the cut |
| `ParserSpans.ProgramSpans` | crates/lynx-dsl/src/expr_parser.rs:5-160 | every node is what its own slice of the masked source parses to; spans nest, and siblings are ordered and disjoint |
| `PaddedSplit.SplitPadded` | crates/lynx-dsl/src/expr_parser.rs:162-249 | splitting padded pieces joined by keywords gives back the pieces |
| `Format.FormatUrl` | crates/lynx-dsl/src/format.rs:122-147 | appending the parts of a url computes `UrlText` |
| `Format.FormatOrExpr` | crates/lynx-dsl/src/format.rs:28-61 | the appending loop computes `FormatOr`, a join of the branches |
| `Format.FormatAndExpr` | crates/lynx-dsl/src/format.rs:63-75 | terms are joined on one line, or on lines of their own if one has several |
| `Format.FormatNotExpr` | crates/lynx-dsl/src/format.rs:77-116 | negations, groups and leaves print as `FormatNot` |
| `FormatClean.OrIsClean` | crates/lynx-dsl/src/format.rs:28-116 | printed text is trimmed, balanced and free of comments |
| `FormatReparse.OrReparses` | crates/lynx-dsl/src/format.rs:28-116 | printed text parses back to the tree it was printed from, at any indentation |
| `FormatRoundTrip.FormatRoundTrips` | crates/lynx-dsl/src/format.rs:7-116 | under any leaf grammar, for a source whose leaves reprint: the formatted document keeps what stood around the expression, parses to the same tree in the same place, and is a fixed point for which `is_dsl_formatted` holds |
| `FormatRoundTrip.OwnTextReprints` | crates/lynx-dsl/src/format.rs:93-147 | leaves that print as their own text reprint, under any grammar |
| `FormatRoundTrip.SamePrintsOr` | crates/lynx-dsl/src/format.rs:28-116 | printing depends on nothing but the tree and its leaves' parts |
| `FormatExact.RoundTripIffLeavesReprint` | crates/lynx-dsl/src/format.rs:7-116 | under any leaf grammar the round trip holds if and only if every leaf reprints |
| `FormatMeaning.FormattingKeepsProgram` | crates/lynx-dsl/src/format.rs:7-26 | under any leaf grammar, for a source whose leaves reprint: the formatted document compiles to the same predicates and plan, or to the same error |
| `FormatAnswers.FormatterAnswers` | crates/lynx-dsl/src/format.rs:7-26 | under any leaf grammar: empty exactly for blank documents, no text exactly for others that do not parse, text exactly for others that do, and documents of comments alone unchanged |
| `FormatAnswers.FormattedIs` | crates/lynx-dsl/src/format.rs:153-162 | only documents that parse count as formatted; those of comments alone do, and any other exactly if its expression stands there as it is printed |
| `FormatAnswers.ValidIsFormattable` | crates/lynx-dsl/src/format.rs:149-196 | a document can be formatted, and is valid, exactly if it is not blank and parses; a valid one is shown formatted, another is not |
| `FormatLayout.OrBreaks` | crates/lynx-dsl/src/format.rs:28-61 | a printed expression takes one line exactly if it has no choice and no leaf with a line break |
| `FormatLayout.AndBreaks` | crates/lynx-dsl/src/format.rs:63-75 | every AND of a conjunction starts a line of its own exactly if one of its terms takes several |
| `FormatLayout.ChoiceLayout` | crates/lynx-dsl/src/format.rs:28-116 | each branch after its OR on a line of its own, indented as the group it stands in; groups two spaces further in |
| `FormatLayout.GroupLayout` | crates/lynx-dsl/src/format.rs:28-116 | a leaf and a group with a choice, line by line |
| `DslStable.HostStable` | crates/lynx-dsl/dsl.pest:26-29 | which host is read depends on its own text and on no more than whether a letter, digit, hyphen or dot follows |
| `DslStable.PathStable` | crates/lynx-dsl/dsl.pest:33-37 | the same of paths and path characters or slashes |
| `DslSeam.QueryAlike` | crates/lynx-dsl/dsl.pest:39-44 | the amount of white space before the arguments does not change what else a query reads |
| `DslSeam.QueryEnds` | crates/lynx-dsl/dsl.pest:39-44 | a query that ends in white space has taken all of it, any other all query characters |
| `DslLeaf.LeafReads` | crates/lynx-dsl/src/format.rs:93-147 | a leaf printed and read again is the same leaf, but for one more space at the end of a query that ends in white space |
| `DslStill.CleanPrints` | crates/lynx-dsl/src/format.rs:93-147 | a clean leaf prints as a clean leaf: no keyword, NOT, parenthesis or comment sign comes up |
| `DslExact.LeafPrintsIffSolid` | crates/lynx-dsl/src/format.rs:93-147 | a leaf reprints if and only if its query does not end in white space |
| `DslExact.RoundTripIffSolidQueries` | crates/lynx-dsl/src/format.rs:7-116 | with the language's grammar: a formatted document parses to the same tree, in the same place, if and only if no query in it ends in white space |
| `DslExact.KeyThenArguments` | crates/lynx-dsl/dsl.pest:14-44 | a key and then arguments: the query takes the white space between them |
| `DslExact.SpacedLeaf` | crates/lynx-dsl/dsl.pest:39-56 | such a leaf: `?a=1 -X POST` |
| `DslExact.LeavesBalance` | crates/lynx-dsl/dsl.pest:14-56 | no leaf of the language has a parenthesis |
| `DslExact.DslParsersAgree` | crates/lynx-dsl/src/parser.rs:40-60 | with the language's grammar the tolerant parser succeeds without error exactly when the strict one succeeds, with the same tree |
| `DslExact.DslTolerantTree` | crates/lynx-dsl/src/expr_parser.rs:18-118 | what the tolerant parser keeps of any document, with the language's grammar |
| `DslMeaning.FormattedParses` | crates/lynx-dsl/src/format.rs:7-116 | every document that parses formats to one that parses, to the same tree but for a space more in each such query |
| `DslMeaning.FormattingKeepsProgramIff` | crates/lynx-dsl/src/format.rs:7-26 | the formatted document compiles to the same program, or fails alike, if and only if the source fails to compile or has no such query |
| `DslMeaning.FixedPointIffSolid` | crates/lynx-dsl/src/format.rs:149-162 | the formatted document counts as formatted if and only if it has no such query; otherwise formatting it again makes it longer |
| `PathGlob.MatcherDecidesGlob` | crates/lynx-dsl/src/eval.rs:110-143 | the backtracking matcher holds exactly when the path can be cut so that a literal takes one equal segment, a star one, a double star any number |
| `PathGlob.CompilePath` | crates/lynx-dsl/src/compile.rs:247-279 | the loop over segments computes `CompilePathSpec`, failing on a star inside a segment |
| `PathGlob.DoubleStarCoversPrefix` | crates/lynx-dsl/src/eval.rs:82-143 | a star-free pattern matches no path that it with a slash and a double star would not |
| `PathGlob.PrefixIsGlobWithText` | crates/lynx-dsl/src/eval.rs:82-143 | a star-free pattern matches a path if and only if it with a slash and a double star does and the path starts with it letter for letter (the empty pattern also wants a path that is empty or starts at a slash) |
| `PathGlob.DoubleStarMatchesMore` | crates/lynx-dsl/src/eval.rs:93-101 | what the double star matches beyond: another letter case, repeated slashes |
| `Compile.LowerCtx.PushPredicate` | crates/lynx-dsl/src/compile.rs:190-195 | a predicate is appended and its index returned |
| `Compile.LowerCtx.LowerOrExpr` | crates/lynx-dsl/src/compile.rs:52-65 | lowering in place gives plan and pool of `LowerOrSpec` |
| `Compile.LowerCtx.LowerAndExpr` | crates/lynx-dsl/src/compile.rs:67-80 | the same for conjunctions |
| `Compile.LowerCtx.LowerNotExpr` | crates/lynx-dsl/src/compile.rs:82-90 | the same for negations |
| `Compile.LowerCtx.LowerFragment` | crates/lynx-dsl/src/compile.rs:92-109 | a url and its arguments become a conjunction of both |
| `Compile.LowerCtx.LowerUrl` | crates/lynx-dsl/src/compile.rs:111-146 | each part of a url becomes one predicate, in order |
| `Compile.LowerCtx.LowerCli` | crates/lynx-dsl/src/compile.rs:148-159 | each known argument becomes one predicate; none at all is an error |
| `Compile.LowerCtx.LowerCliArg` | crates/lynx-dsl/src/compile.rs:161-188 | method, header and query flags; others push nothing |
| `Compile.LowerProgramInPlace` | crates/lynx-dsl/src/compile.rs:36-44 | lowering from an empty context computes `LowerProgram` |
| `CompileMeaning.CompiledMeansSource` | crates/lynx-dsl/src/compile.rs:31-203 | a compiled program accepts exactly the requests that the expression describes; the plan's leaves are the pool's indices in order; every conjunction and disjunction has two parts or more |
| `CompileFaults.CompilesUnlessFaulty` | crates/lynx-dsl/src/compile.rs:31-203 | which expressions compile, and the error of any other: that of the first leaf in source order whose port is no number, whose path has a bad glob, whose query has no pair, whose flag lacks its value, or that constrains nothing |
| `TextParts.SidesAre` | crates/lynx-dsl/src/compile.rs:239-245 | a text is cut at its first separator: what stands before it and what stands after, or all of it and nothing |
| `TextParts.PairsReadBack` | crates/lynx-dsl/src/query.rs:7-23 | pairs joined by `=` and `&` are read back as they were |
| `TextParts.QueryHasItsPairs` | crates/lynx-dsl/src/query.rs:7-23 | the pairs read from a query are those it is made of |
| `TextParts.SegmentsSpell` | crates/lynx-dsl/src/compile.rs:247-271 | a path's patterns are what its segments spell: a star, a double star, or themselves |
| `TextParts.StrippedIs` | crates/lynx-dsl/src/compile.rs:205-207 | a scheme without any number of trailing separators |
| `TextParts.PortIsParsed` | crates/lynx-dsl/src/compile.rs:209-214 | a port is the number its digits write after any number of colons, up to 65535 |
| `TextParts.FlagIs` | crates/lynx-dsl/src/compile.rs:223-237 | flags are told by their letters in either case, whatever white space they hold |
| `CompileMeaning.HostLowers` | crates/lynx-dsl/src/eval.rs:50-63 | a dotted host matches itself and its subdomains, a plain label any host containing it |
| `CompileMeaning.QueryLowers` | crates/lynx-dsl/src/eval.rs:14-33 | a query matches when each pair it is made of is the last of its key in the request's query |
| `CompileMeaning.CollectIsLast` | crates/lynx-dsl/src/eval.rs:14-33 | collecting pairs keeps the last value of a key |
| `CompileMeaning.PathLowers` | crates/lynx-dsl/src/compile.rs:247-271 | a literal path is a prefix up to a segment boundary, a glob its language |
| `CompileMeaning.ArgLowers` | crates/lynx-dsl/src/compile.rs:161-188 | an argument's predicates say what the argument says: a header's name stands before the first `=`, its value after it |
| `RequestRules.SortIsStable` | crates/lynx-storage/src/storage/mod.rs:177-182 | rules sort by priority and id, all kept, ties in reading order |
| `RequestRules.HigherPriorityFirst` | crates/lynx-storage/src/storage/mod.rs:177-182 | rules come by falling priority, and by rising id among equals |
| `RequestRules.SortForgetsOrder` | crates/lynx-storage/src/storage/mod.rs:177-182 | without ties between different rules the order read in does not matter |
| `RequestRules.TiesKeepReadOrder` | crates/lynx-storage/src/storage/mod.rs:177-182 | with such a tie it does |
| `RequestRules.CompileAll` | crates/lynx-storage/src/dao/request_processing_dao/matcher.rs:17-30 | rules compile in order, up to the first invalid expression |
| `RequestRules.FirstInvalidStops` | crates/lynx-storage/src/dao/request_processing_dao/matcher.rs:17-30 | either every rule is there with its own program, or the error is that of the first that does not compile, under its id |
| `RequestRules.FindMatchingRules` | crates/lynx-storage/src/dao/request_processing_dao/matcher.rs:32-47 | the loop computes `Matching` |
| `RequestRules.MatchingRulesApply` | crates/lynx-storage/src/dao/request_processing_dao/matcher.rs:17-47 | a request matches exactly the enabled rules whose expressions describe it, in order |
| `RulesCache.DataStore.RulesDirFingerprint` | crates/lynx-storage/src/storage/mod.rs:108-129 | count and latest modification time of the rule files, in any order of enumeration |
| `RulesCache.FingerprintIsUnique` | crates/lynx-storage/src/storage/mod.rs:108-129 | a directory has one fingerprint |
| `RulesCache.RuleFilesAre` | crates/lynx-storage/src/storage/mod.rs:108-129 | rule files are those whose name ends in `.json`, but for `templates.json` |
| `RulesCache.DataStore.IsRulesCacheStale` | crates/lynx-storage/src/storage/mod.rs:131-133 | stale exactly when the fingerprint is not the directory's |
| `RulesCache.DataStore.LoadAllRules` | crates/lynx-storage/src/storage/mod.rs:156-184 | the sorted rules for some order of enumeration, or the first unreadable file in it |
| `RulesCacheRuns.LoadIsDirectory` | crates/lynx-storage/src/storage/mod.rs:156-184 | a load gives every rule as often as rule files hold it, sorted, or the error of some rule file that is unreadable |
| `RulesCache.DataStore.GetRulesCacheEntry` | crates/lynx-storage/src/storage/mod.rs:139-154 | a valid cache answers; otherwise a load does, cached only if it succeeds |
| `RulesCacheRuns.ReadsAreFresh` | crates/lynx-storage/src/storage/mod.rs:103-193 | in every history in which each write of a rule file has a time later than the cache has seen, or is followed by an invalidation, a read gives what a load would |
| `RulesCacheRuns.IncreasingIsWatchful` | crates/lynx-storage/src/storage/mod.rs:108-133 | strictly increasing modification times are such a history |
| `RulesCacheRuns.SameFingerprint` | crates/lynx-storage/src/storage/mod.rs:108-133 | a fingerprint that still holds, with every other rule file later than it, means that no rule file changed, came or went |
| `RulesCacheRuns.UnseenWrite` | crates/lynx-storage/src/storage/mod.rs:108-144 | a rewritten rule file goes unseen if and only if it was there and its new time is the latest in the directory, or is earlier while another rule file holds the latest |
| `RulesCacheRuns.UnseenDelete` | crates/lynx-storage/src/storage/mod.rs:108-144 | a deletion goes unseen if and only if there was no such rule file |
| `RulesCacheRuns.OrderFreeIffNoTies` | crates/lynx-storage/src/storage/mod.rs:156-184 | with readable files, loading ignores the order of enumeration if and only if no two different rules share priority and id |
| `RulesCacheRuns.LoadForgetsOrder` | crates/lynx-storage/src/storage/mod.rs:156-193 | then whole entries agree too, and so do errors other than unreadable files |
| `RulesCacheRuns.DistinctIdsNeverTie` | crates/lynx-storage/src/storage/mod.rs:177-182 | rules with ids of their own never tie |
| `ProjectRules.ProjectService.PushRules` | crates/lynx-storage/src/project_config/service.rs:37-76 | the file becomes the ascending list of merged rules; the report counts them |
| `ProjectRules.ProjectService.PullRules` | crates/lynx-storage/src/project_config/service.rs:78-125 | an invalid rule stops before anything is written; otherwise rules are updated or created one by one |
| `ProjectRules.ProjectService.WriteRules` | crates/lynx-storage/src/project_config/service.rs:106-117 | the loop computes `PullAll`, stopping at a new id that came twice |
| `ProjectRules.ProjectService.ApplyConfig` | crates/lynx-storage/src/project_config/service.rs:127-171 | the project's rules are switched as the file says, and the report counts the switches |
| `ProjectRulesLaws.PushIsUnion` | crates/lynx-storage/src/project_config/service.rs:46-66 | push writes, strictly ascending, the union of both sides; running rules win, then the last in the file |
| `ProjectRulesLaws.PushIsIdempotent` | crates/lynx-storage/src/project_config/service.rs:37-76 | pushing twice writes the same file |
| `ProjectRulesLaws.PushThenApply` | crates/lynx-storage/src/project_config/service.rs:37-171 | applying after a push switches nothing |
| `ProjectRulesLaws.ApplyReachesFixpoint` | crates/lynx-storage/src/project_config/service.rs:127-171 | apply keeps all but the enabled flags of its own project's rules; a second application changes and reports nothing |
| `ProjectRulesLaws.CountsAddUp` | crates/lynx-storage/src/project_config/service.rs:141-168 | the three counts sum to the number of rules changed |
| `ProjectRulesLaws.ApplyCounts` | crates/lynx-storage/src/project_config/service.rs:141-168 | which rules each of the four counts of an apply report counts |
| `ProjectRulesLaws.PullWrites` | crates/lynx-storage/src/project_config/service.rs:106-117 | a write loop that succeeds writes every listed rule and changes nothing else |
| `ProjectRulesLaws.PullCounts` | crates/lynx-storage/src/project_config/service.rs:106-125 | a pull fails exactly when a new id came twice, on the first that did; otherwise it created one rule for each listed with a new id and updated one for each other |
| `ProjectRulesLaws.FieldsAreKept` | crates/lynx-storage/src/project_config/service.rs:46-66 | rules keep every field on the way to the file and back, but for their capture ids |
| `ProjectRulesLaws.PushThenPull` | crates/lynx-storage/src/project_config/service.rs:37-125 | push then pull leaves the project unchanged, up to capture ids, if and only if the pull is rejected or the file had no id that the project lacks; it is rejected exactly for an invalid rule, and then changes no rule |
| `ProjectRulesLaws.RejectedIsInvalid` | crates/lynx-storage/src/project_config/service.rs:89-92 | a pull is rejected if and only if the validator refuses some rule of the file |
| `ProjectRulesLaws.PushThenPullGains` | crates/lynx-storage/src/project_config/service.rs:37-125 | with such an id, and a valid rule, the pull succeeds and the project gains the rule |
| `EventStore.MessageEventCache.HandleEvent` | crates/lynx-core/src/layers/message_package_layer/event_handler.rs:13-229 | an event starts its trace's entry anew, or updates it, or finds none |
| `EventStore.MessageEventCache.Update` | crates/lynx-core/src/layers/message_package_layer/event_handler.rs:32-226 | the field updates of thirteen kinds of event compute `Apply` |
| `EventStore.MessageEventCache.RemoveOldestCompleted` | crates/lynx-core/src/layers/message_package_layer/message_event_store.rs:329-366 | expired entries go, then above the threshold one oldest deletable entry |
| `EventStore.MessageEventCache.OldestKey` | crates/lynx-core/src/layers/message_package_layer/message_event_store.rs:355-360 | a deletable key of least completion time, if there is any |
| `EventStore.MessageEventCache.Insert` | crates/lynx-core/src/layers/message_package_layer/message_event_store.rs:368-371 | insertion, then eviction |
| `EventStore.MessageEventCache.GetNewRequests` | crates/lynx-core/src/layers/message_package_layer/message_event_store.rs:385-405 | every new entry is reported once and unmarked; those due for deletion leave |
| `EventStore.MessageEventCache.GetRequestByKeys` | crates/lynx-core/src/layers/message_package_layer/message_event_store.rs:407-435 | reports new or terminal entries in the order asked and removes those due for deletion, exactly as `EventPolls.KeysPollLeaves` says |
| `EventRuns.DeletableIsClosedAndTerminal` | crates/lynx-core/src/layers/message_package_layer/message_event_store.rs:229-303 | completion time if and only if terminal; deletable if and only if terminal with nothing open, whatever the clock says |
| `EventRuns.OpenEntryStays` | crates/lynx-core/src/layers/message_package_layer/message_event_store.rs:329-435 | no step but a clear drops an entry with an open tunnel or websocket |
| `EventRuns.StepLeavers` | crates/lynx-core/src/layers/message_package_layer/message_event_store.rs:329-435 | only entries due for deletion leave, and a trace that just started stays |
| `EventRuns.VictimCompletedFirst` | crates/lynx-core/src/layers/message_package_layer/message_event_store.rs:329-366 | an evicted entry outlived its time or completed no later than any deletable entry that stays |
| `EventRuns.OneUnexpiredVictim` | crates/lynx-core/src/layers/message_package_layer/message_event_store.rs:352-365 | at most one evicted entry had not outlived its time |
| `EventRuns.SizeIsBounded` | crates/lynx-core/src/layers/message_package_layer/message_event_store.rs:329-371 | the cache never exceeds the larger of ten and the greatest number of undeletable entries right after an insert so far |
| `EventPolls.KeysPollLeaves` | crates/lynx-core/src/layers/message_package_layer/message_event_store.rs:407-435 | in every run: a poll by keys drops exactly the entries asked for that are terminal with nothing open, and changes no other |
| `EventPolls.NewPollLeaves` | crates/lynx-core/src/layers/message_package_layer/message_event_store.rs:385-405 | a poll for new entries drops exactly those that are terminal with nothing open, and only takes the mark off the others |
| `EventPolls.KeysPollReports` | crates/lynx-core/src/layers/message_package_layer/message_event_store.rs:407-435 | a poll by keys reports, in the order asked, exactly the entries that are new or terminal |
| `EventPolls.OverIsReportedOnce` | crates/lynx-core/src/layers/message_package_layer/message_event_store.rs:407-435 | a terminal entry with nothing open is reported by the poll that asks for it, and then stays away until its trace starts anew |
| `EventPolls.StartLeaves` | crates/lynx-core/src/layers/message_package_layer/message_event_store.rs:329-371 | a start drops exactly the entries past their ten minutes and then, if more than ten are left, exactly one entry that is over and completed first, if there is any |
| `EventPolls.EventsLeaveAll` | crates/lynx-core/src/layers/message_package_layer/event_handler.rs:13-229 | no other event adds or drops an entry |
| `EventHistory.EntryTellsItsHistory` | crates/lynx-core/src/layers/message_package_layer/event_handler.rs:13-229 | a cached entry is a function of the events since its trace's last start: whole bodies, the last thousand messages, how it ended, what is open, every timing, whether it was polled |
| `EventHistory.LogMore` | crates/lynx-core/src/layers/message_package_layer/event_handler.rs:113-195 | the log stays the last thousand messages since the last websocket start, through every event |
| `EventHistory.RequestMore` | crates/lynx-core/src/layers/message_package_layer/event_handler.rs:32-53 | the request body stays the initial body and all chunks |
| `EventHistory.ResponseMore` | crates/lynx-core/src/layers/message_package_layer/event_handler.rs:74-121 | the response body stays that of the last response start and all chunks since |
| `EventHistory.TimingsMore` | crates/lynx-core/src/layers/message_package_layer/event_handler.rs:32-226 | every timing stays the time of the last event of its kind; the end of a response body looks at the request body |
| `EventHistory.EndMore` | crates/lynx-core/src/layers/message_package_layer/event_handler.rs:54-73 | the status is that of the last final event, the completion time that of the first |
| `EventHistory.StepEntry` | crates/lynx-core/src/layers/message_package_layer/event_handler.rs:13-229 | only a trace's own events touch its entry, but for the mark that a poll takes off |
| `BodyTee.Tee.RunTask` | crates/lynx-core/src/layers/message_package_layer/message_event_data.rs:377-390 | what the copier does between two waits |
| `BodyTee.MainIsPrefix` | crates/lynx-core/src/layers/message_package_layer/message_event_data.rs:359-395 | frames sent on are always a prefix of the body; a living copy holds that prefix's data, at most one frame ahead |
| `BodyTee.RestIsComplete` | crates/lynx-core/src/layers/message_package_layer/message_event_data.rs:359-395 | at rest the main receiver has the whole body, whatever became of the copy, except that a body with upper size hint zero loses its frames |
| `BodyTee.EveryStepCounts` | crates/lynx-core/src/layers/message_package_layer/message_event_data.rs:377-390 | every step leaves less to do, so every run comes to rest |
| `BodyTee.CopyGoneNeverBlocks` | crates/lynx-core/src/layers/message_package_layer/message_event_data.rs:377-390 | without copy receiver only a full main channel holds the copier up |
| `ThrottledBody.Throttled.PollFrame` | crates/lynx-core/src/layers/request_processing_layer/throttled_body.rs:59-97 | the polling loop computes `Next` and keeps delay and held-back frame together |
| `ThrottledBody.NothingIsLost` | crates/lynx-core/src/layers/request_processing_layer/throttled_body.rs:59-97 | a delay runs exactly while a frame is held; frames out, held and to come are the body's frames in order |
| `ThrottledBody.EndedMeansAllOut` | crates/lynx-core/src/layers/request_processing_layer/throttled_body.rs:99-101 | a body that says it has ended has handed out every frame |
| `ThrottledBody.HeldUntilDue` | crates/lynx-core/src/layers/request_processing_layer/throttled_body.rs:59-97 | a held frame is due exactly its time after the poll that took it: no earlier poll hands out anything, and the first from then on hands it out |
| `ThrottledBody.ShortFrameIsOutAtOnce` | crates/lynx-core/src/layers/request_processing_layer/throttled_body.rs:37-97 | a frame that takes no time is handed out by the poll that takes it |
| `ThrottledBody.OthersPassThrough` | crates/lynx-core/src/layers/request_processing_layer/throttled_body.rs:59-97 | errors, waits and the end are passed on |
| `ThrottledBody.TotalDelayBounds` | crates/lynx-core/src/layers/request_processing_layer/throttled_body.rs:37-50 | T times the rate is at most 1000 L, and without saturation 1000 L is less than (T + n) times the rate |
| `ThrottledBody.TotalDelayInBits` | crates/lynx-core/src/layers/request_processing_layer/throttled_body.rs:21-50 | the same in kilobits a second, the unit of the setting |
| `ThrottledBody.RateIsKept` | crates/lynx-core/src/layers/request_processing_layer/throttled_body.rs:59-97 | in real time: what came out since the first poll is less than the rate allows, up to a millisecond a chunk |
| `TrafficFilter.MatchFilter.Judge` | ui/src/composables/useTrafficMatchFilter.ts:110-125 | a record is judged by the facts cached under its key, or by its own, which are then cached |
| `TrafficFilter.MatchFilter.FilterChunk` | ui/src/composables/useTrafficMatchFilter.ts:108-126 | a chunk computes `Sift`: the records accepted by the facts used, and the cache it leaves |
| `TrafficFilter.MatchFilter.GoOn` | ui/src/composables/useTrafficMatchFilter.ts:103-142 | a run goes on for one chunk, and then yields, is dropped, or publishes |
| `TrafficFilter.MatchFilter.RunApplyFilter` | ui/src/composables/useTrafficMatchFilter.ts:82-143 | a run starts with a new generation |
| `TrafficFilter.MatchFilter.ApplyFilter` | ui/src/composables/useTrafficMatchFilter.ts:145-197 | a submission clears, rejects or compiles and runs |
| `TrafficFilter.MatchFilter.ScheduleApply` | ui/src/composables/useTrafficMatchFilter.ts:200-232 | the watchers ask for a later run while a valid filter is active |
| `TrafficFilter.MatchFilter.ResumeRun` | ui/src/composables/useTrafficMatchFilter.ts:103-142 | a suspended run is taken up again |
| `TrafficFilterRuns.SupersededNeverPublishes` | ui/src/composables/useTrafficMatchFilter.ts:82-143 | a run suspended before a submission, a timer or an unmount shows nothing ever again |
| `TrafficFilterRuns.DisplayIsFilter` | ui/src/composables/useTrafficMatchFilter.ts:234-257 | in every interleaving, a valid filter at rest shows some earlier record list filtered by the program that the submitted expression compiles to, each record judged by facts of its trace with its key that were read since facts were last forgotten; idle shows all, invalid none |
| `TrafficFilterDisplay.DisplayDuringRun` | ui/src/composables/useTrafficMatchFilter.ts:82-257 | while a run is under way the display is what it was right after the last finished run or clearing: all records there were, or some record list filtered by the program of the expression then in force |
| `TrafficFilterDisplay.ErrorIsTold` | ui/src/composables/useTrafficMatchFilter.ts:145-197 | an error is told exactly while the filter is invalid: the compiler's, for the submitted expression |
| `TrafficFilterDisplay.NeverHangs` | ui/src/composables/useTrafficMatchFilter.ts:82-143 | while a filter is being applied, and the component is there, a run of it is under way |
| `TrafficFilterDisplay.RunGetsOn` | ui/src/composables/useTrafficMatchFilter.ts:103-142 | such a run, taken up again, gets four hundred records further, or to its end, and then comes to rest |
| `TrafficFilterFresh.SiftIsFilter` | ui/src/composables/useTrafficMatchFilter.ts:103-126 | with a cache that tells the records' facts, a chunk filters by the records as they are, and leaves such a cache |
| `TrafficFilterFresh.VerdictIsCurrent` | ui/src/composables/useTrafficMatchFilter.ts:221-232 | in every interleaving, unless the watcher of the records by trace has yet to run, every verdict is that of the current record |
| `TrafficFilterFresh.KeyTellsFacts` | ui/src/lib/http/request-facts.ts:95-125 | records with the same key have the same facts if and only if they state the same method; a key confuses no methods but a missing and an empty one |
| `TrafficFilterFresh.VerdictNeedsNoWatcher` | ui/src/composables/useTrafficMatchFilter.ts:110-121 | where no record has an empty method every verdict is that of the current record, even if that watcher never runs |
| `TrafficFilterFresh.EmptyMethodStale` | ui/src/composables/useTrafficMatchFilter.ts:116-121 | a method that turns from missing to empty before the watcher runs: the verdict is still that of a GET request |
| `TrafficFilterFresh.FreshAtRest` | ui/src/composables/useTrafficMatchFilter.ts:82-257 | with no timer and no watcher outstanding, a valid filter at rest shows, in order, exactly the current records that the submitted expression describes |
| `TrafficFilterFresh.FilterMeansExpression` | ui/src/composables/useTrafficMatchFilter.ts:108-126 | plain filtering keeps exactly the records that the expression describes |
| `FilterHistory.TrafficFilterHistoryDao.SanitizeEntries` | crates/lynx-storage/src/dao/traffic_filter_history_dao.rs:60-76 | the loop gives the first twenty distinct trimmed entries |
| `FilterHistory.TrafficFilterHistoryDao.Append` | crates/lynx-storage/src/dao/traffic_filter_history_dao.rs:39-53 | the in-place retain, insert and truncate compute `AppendBounded` |
| `FilterHistory.BoundedIsWindow` | crates/lynx-storage/src/dao/traffic_filter_history_dao.rs:32-76 | after any appends, replacements and clears the history is the first twenty of the uncut one |
| `FilterHistory.UnboundedIsByLastUse` | crates/lynx-storage/src/dao/traffic_filter_history_dao.rs:39-53 | the uncut history has every filter used, once, latest use first |
| `FilterHistory.SanitizedIs` | crates/lynx-storage/src/dao/traffic_filter_history_dao.rs:60-76 | a replaced history has exactly the entries that are not blank, trimmed, each once, in the order in which they first occur |
| `TraceWindow.RequestStreamStore.TrafficRecords` | ui/src/stores/modules/request-stream.store.ts:251-281 | rows taken from the row cache equal rows built anew |
| `TraceWindow.RequestStreamStore.Trim` | ui/src/stores/modules/request-stream.store.ts:342-365 | the oldest traces beyond the limit go, with their records and the selection |
| `TraceWindow.RequestStreamStore.Update` | ui/src/stores/modules/request-stream.store.ts:385-392 | a record is merged in place, and a notification sent if list or selection is concerned |
| `TraceWindow.RequestStreamStore.Remove` | ui/src/stores/modules/request-stream.store.ts:394-403 | a record and its place in the list go |
| `TraceWindow.RequestStreamStore.HandleEventFrame` | ui/src/stores/modules/request-stream.store.ts:434-669 | each stream event merges its patch, and promotes or prunes its trace |
| `TraceWindow.RequestStreamStore.FlushPendingEventFrames` | ui/src/stores/modules/request-stream.store.ts:671-683 | queued events are handled in one batch with one notification |
| `TraceWindowRuns.QuietPatchKeepsRows` | ui/src/stores/modules/request-stream-logic.ts:49-133 | a patch that asks for no notification changes no row and no listing |
| `TraceWindowRuns.WindowIsKept` | ui/src/stores/modules/request-stream.store.ts:226-417 | after every run no trace is listed twice, the listed traces are exactly those whose record has a url, the list is within the limit unless a trim is due, and rows read are as if built anew |
| `TraceWindowRuns.RowPerTrace` | ui/src/stores/modules/request-stream.store.ts:251-281 | one row for each listed trace, in order |
| `TraceWindowRows.RowShows` | ui/src/stores/modules/request-stream.store.ts:251-281 | a row shows its record's fields, and where it has none a GET that is pending |
| `TraceWindowRows.EventTouches` | ui/src/stores/modules/request-stream.store.ts:434-669 | an event leaves its trace's record with the fields it brings, and status and code as the response's code says, and every other record as it was |
| `TraceWindowRows.EventLists` | ui/src/stores/modules/request-stream.store.ts:342-403 | which traces an event lists, and drops: a request with a url is listed last, the oldest beyond the limit go, a response that ends without a url takes its record away, and nothing else comes or goes |
| `TraceWindowRows.SelectionFollows` | ui/src/stores/modules/request-stream.store.ts:342-403 | the selection goes exactly when the selected trace's record goes |
| `TraceWindowRows.RowAfterStart` | ui/src/stores/modules/request-stream.store.ts:434-669 | a request that starts with a url is in the list as read next: pending, with its method |
| `TraceWindowRows.RowAfterResponse` | ui/src/stores/modules/request-stream.store.ts:434-669 | a response turns its trace's row to success, or to an error from code four hundred on |
| `TraceWindowRows.SubscribedIsWithin` | ui/src/stores/modules/request-stream.store.ts:700-726 | after a subscription the list is within the limit, even if the limit was lowered and no trim came since |

## Left out

- FormatRoundTrips: requires that each leaf reprints, since the leaf grammar is any; `DslExact.RoundTripIffSolidQueries` gives the exact condition for the language's own.
- FormattingKeepsProgram: the same condition on leaves; `DslMeaning.FormattingKeepsProgramIff` is exact for the language's grammar.
- PartialRefinesStrict, TolerantTree, FirstTermIsKept: require that the leaf grammar accepts no text whose parentheses do not balance out; `DslExact.LeavesBalance` proves that of the language's.
- ReadsAreFresh: requires that writes are noticed or followed by an invalidation; `RulesCacheRuns.UnseenWrite` says which single writes are not. The gap between a fingerprint and the load beside it is not modelled, nor are failing directory reads.
- DisplayIsFilter, DisplayDuringRun: the match engine is loaded, so a submission runs up to its first yield without interruption; submissions that wait for the engine are not modelled.
- RoundTripIffLeavesReprint: leaf parts carry no spans, so equality of leaves does not compare them.
- Where and how the leaf grammar reports an error, and the spans of url and argument parts: a leaf is a trimmed text that is read, or is not.
- Characters outside ASCII: strings are sequences of characters, offsets count characters, and letter case is that of ASCII.
- The formatter drops comments inside the expression it reprints; only those before and after it are kept, which is what the code does and not what its round trip could be taken to promise.
- Repeated header names: the facts of a request map a name to one value.
- Diagnostics, highlighting and the text of error messages beyond their kind.
- The clock: one reading for each operation, where the code reads it several times in a row.
- `EventStore`: the order in which a concurrent map enumerates its entries is any order.
- VerdictIsCurrent: leaves out a clear of the trace store while a filter run is under way, after which the run goes on reading, and caching facts of, the discarded records; without empty methods `VerdictNeedsNoWatcher` and `FreshAtRest` cover it.
- FreshAtRest: leaves out an unmounted component, whose timer is gone.
- KeyTellsFacts: requires that a header name has no colon, that no row has a line break, and that url and headers count the same missing or empty; a key is a tuple of its parts, which are taken to hold no NUL.
- Errors after the data access layer: rules are written to a map and never fail for reasons of storage; the backup that a pull writes is not modelled.
- The wrapped body of a throttled one is a list of its answers to polls; wake-ups are not modelled.
- Vue's scheduling: a watcher runs at any time after the change it watches, or never; whether it runs where a computed value in between hands out the same object (`ui/src/views/Network.vue:50`) is not decided, and `VerdictNeedsNoWatcher` does without it.
- HTTP, TLS and WebSocket plumbing, certificates, decompression, ADB, daemon and command line, settings stores and the projects list.
