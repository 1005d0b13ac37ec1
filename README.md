# tRPC Boundary Inspector — a verified model

tRPC Boundary Inspector shows where a Next.js application's tRPC calls cross the network
boundary: from the browser, from a React Server Component or from the Edge runtime. It has
three parts, and this project models the logic of each of them.

- **Build-time transforms.** A Babel plugin (`packages/babel/src/index.ts`) and an SWC plugin
  (`packages/swc-plugin/src/lib.rs`) find every call of a tRPC terminal method such as
  `api.user.get.useQuery(...)`. They rewrite the call in place so that its options argument
  carries `trpc.context.__boundary = {file, line, side}`.
- **Runtime.** A tRPC client link (`packages/runtime/index.ts`, `boundaryLink`) forwards that
  record. It sends it as request headers and also as a `?__b=` suffix of the procedure path. A
  server-side logger (`boundaryLogger`) reads the record back from the headers or from the
  request URL. It then prints one or two console lines per procedure.
- **Static analyser.** A command-line analyser (`src/analyzer.ts`, `src/utils.ts`) collects
  every call whose callee text starts with `trpc.` or `api.`. It labels each call with the
  boundary of its file: Edge, Client, Server (RSC) or Unknown. Reporters turn the result into a
  Markdown report and a console summary. The root package has one reporter (`src/reporter.ts`)
  and the command-line package has another (`packages/cli/src/reporter.ts`).

Modules, one per file:

- `Ast` holds the syntax tree both transforms look at, the call node as a class that they
  rewrite in place, and the shared "find or create `trpc` → `context`, then append
  `__boundary`" operation.
- `BabelPlugin` and `SwcPlugin` are the two visitors, and lemmas compare them.
- `Utils` holds the file classifiers. `Analyzer` holds the project walk.
- `Aggregate` and `Grouping` hold the JavaScript `reduce`-into-object accumulations, the stable
  `Array.prototype.sort` and `slice`.
- `Markdown` holds `generateMarkdownReport`, which both reporters define identically.
- `Console`, `LegacyReporter` and `CliReporter` hold the console summaries, as the list of
  strings passed to `console.log`.
- `Runtime` holds the link and the logger.
- `UriCodec` holds `encodeURIComponent`, `decodeURIComponent` and `URLSearchParams.get`, which
  the runtime relies on.
- `Text` holds the JavaScript string built-ins the source uses.
- `Wrappers` holds `Option`.

State the source changes in place is modelled imperatively:

- `Ast.CallExpr` is the call node whose `args` the visitors rewrite.
- `Runtime.Operation` is the tRPC operation whose `path` and `headers` the link updates.

Each loop of the source is a method with a `while` loop. Each such method is proved equal to a
specification function, and the properties are proved about those functions.

## Model

| member | source | states |
|---|---|---|
| Utils.GetBoundaryLabel | src/utils.ts:32-37 | Edge exactly when the Edge declaration occurs; Client exactly when it does not and the file opens with `use client`; Server (RSC) exactly when neither holds and the path is under `app`; Unknown otherwise |
| Utils.EdgeRuntimeIsRegexSearch | src/utils.ts:24-27 | `isEdgeRuntime` holds exactly when the regular expression matches at some position of the text (unanchored search) |
| Utils.EdgeMatcherAgrees | src/utils.ts:26 | the greedy matcher of the model accepts exactly the texts that `export\s+const\s+runtime\s*=\s*['"]edge['"]` matches at their start |
| Utils.MatcherComplete | src/utils.ts:26 | whatever split of a text the regular expression admits (any lengths for its whitespace runs), the greedy matcher accepts it, when every run is followed by a non-space token |
| Utils.MatcherSound | src/utils.ts:26 | whatever the greedy matcher accepts has a split into one piece per token that the regular expression admits |
| Utils.EdgePatternSeparated | src/utils.ts:26 | in the Edge pattern every whitespace run is followed by a token that cannot match whitespace |
| Utils.ClientComponentByLeadingText | src/utils.ts:7-11 | the trim at the end of the text never changes the answer: only the text after leading whitespace is compared |
| Utils.ClientComponentIgnoresLeadingSpace | src/utils.ts:7-11 | any whitespace prefix leaves the answer unchanged |
| Utils.ClientComponentNeedsLeadingQuote | src/utils.ts:7-11 | a file whose first non-space character is not a quote is never a client file, even if a `use client` directive follows |
| Utils.AppDirOccurrence | src/utils.ts:16-18 | `isAppDir` holds exactly when `<sep>app<sep>` starts at some position of the path |
| Utils.AppDirOfInfix | src/utils.ts:16-18 | every path of the form `a<sep>app<sep>b` is an app-directory path |
| Utils.EdgeTakesPrecedence | src/utils.ts:32-37 | a file that is Edge, client and under `app` at once is labelled Edge |
| Utils.IsClientComponent | src/utils.ts:7-11 | `isClientComponent`: the trimmed text starts with a quoted `use client`; its partners are the three `ClientComponent…` lemmas |
| Utils.IsAppDir | src/utils.ts:16-18 | `isAppDir`: the path contains `<sep>app<sep>`; its partners are `AppDirOccurrence` and `AppDirOfInfix` |
| Utils.IsEdgeRuntime | src/utils.ts:24-27 | `isEdgeRuntime`: the Edge declaration matches at some position; its partners are `EdgeRuntimeIsRegexSearch` and the matcher lemmas |
| Analyzer.CollectFileCalls | src/analyzer.ts:42-66 | the loop over one file's call expressions returns the records of its call sites, in order |
| Analyzer.AnalyzeProject | src/analyzer.ts:20-73 | the result holds the records of all files, file by file, and `fileCount` is the number of files |
| Analyzer.RootedTextSplits | src/analyzer.ts:51-53 | a text starting with `trpc.` or `api.` splits into at least two parts, so the length guard never rejects it; the first part is the root |
| Analyzer.ExtractCallExactlyRooted | src/analyzer.ts:51-56 | a call site yields a record exactly when its callee text starts with `trpc.` or `api.` |
| Analyzer.ExtractCallReassembles | src/analyzer.ts:52-55 | the method holds no `.`, and the callee text is `root.method` or `root.path.method`, rebuilt from the record |
| Analyzer.SiteCallsSound | src/analyzer.ts:42-66 | every record of a file comes from one of its call sites |
| Analyzer.SiteCallsComplete | src/analyzer.ts:42-66 | every call site whose callee is an RPC call has its record among the file's records |
| Analyzer.ProjectCallsSound | src/analyzer.ts:37-67 | every record comes from an RPC call site of some file and carries that file's recorded path and boundary label |
| Analyzer.FileCallsIncluded | src/analyzer.ts:37-67 | every record of each file appears among the project's records |
| Analyzer.ProjectCallsComplete | src/analyzer.ts:37-67 | every RPC call site of every file is recorded in the project's result |
| Analyzer.RecordFields | src/analyzer.ts:57-63 | the record of a rooted call site carries the site's start line, the file's path and boundary, and the method and path split from the callee text |
| Analyzer.ExtractCall | src/analyzer.ts:51-56 | the callee text split at `.`: the path is the middle segments joined with `.` and the method the last, for a text rooted at `trpc.` or `api.`; characterised by `ExtractCallExactlyRooted` and `ExtractCallReassembles` |
| BabelPlugin.IsTrpcCallOnChain | packages/babel/src/index.ts:28-41 | on a dotted chain from an identifier, a call is detected exactly when the chain has two or more names and the last is a terminal method |
| BabelPlugin.IsTrpcCall | packages/babel/src/index.ts:28-41 | `isTrpcCall`: a member access named by a terminal method (a plain or computed identifier) whose object is a member access; characterised on dotted chains by `IsTrpcCallOnChain` |
| BabelPlugin.Directives | packages/babel/src/index.ts:58-60 | the directives are the string-literal statements that open the program, one per statement, in order, and the statement after them (if any) is not a string-literal statement |
| BabelPlugin.WithOptions | packages/babel/src/index.ts:68-77 | after padding there are exactly two arguments when there were fewer, else as many as before; every argument but the second is kept; a defined second argument leaves the arguments unchanged |
| BabelPlugin.StampArgs | packages/babel/src/index.ts:68-103 | a rewrite keeps the padded arguments' number and every argument but the options; a throw happens only for a non-spread object-literal options argument |
| BabelPlugin.VisitSpec | packages/babel/src/index.ts:50-105 | only a detected call can throw; a rewrite never drops an argument and changes none but the second |
| BabelPlugin.VisitCallExpression | packages/babel/src/index.ts:50-105 | the in-place visitor leaves callee and location alone, agrees with the visitor specification (rewritten arguments or a thrown `TypeError`), and leaves the arguments unchanged when it throws |
| BabelPlugin.EmptyArgumentsPadded | packages/babel/src/index.ts:68-102 | `f()` becomes `f(undefined, {trpc: {context: {__boundary: …}}})` |
| BabelPlugin.MissingOptionsReplaced | packages/babel/src/index.ts:73-102 | a missing or `undefined` second argument is replaced by a literal holding just the stamped path; the other arguments stay |
| BabelPlugin.NonObjectOptionsUntouched | packages/babel/src/index.ts:73-79 | a second argument that is neither `undefined` nor an object literal leaves the call unchanged |
| BabelPlugin.ObjectOptionsStamped | packages/babel/src/index.ts:79-103 | for an object-literal options argument: the visitor throws exactly when an existing `trpc` or `context` is not an object literal; otherwise only the options change and the context holds its old properties followed by one `__boundary` |
| BabelPlugin.OptionsPropertiesKept | packages/babel/src/index.ts:81-99 | the other properties of the options and of `trpc` keep their places; `trpc` and `context` are appended only when absent |
| BabelPlugin.StampTwice | packages/babel/src/index.ts:79-103 | there is no check for an existing `__boundary`: visiting twice leaves two of them |
| BabelPlugin.RecordFields | packages/babel/src/index.ts:54-66 | the record holds the file with the working directory replaced, the start line (0 when unknown), and `client` exactly when a directive is `use client`, else `server` |
| BabelPlugin.NonTrpcCallUntouched | packages/babel/src/index.ts:53 | calls that are not detected keep their arguments |
| BabelPlugin.ThrowLeavesArgs | packages/babel/src/index.ts:68-101 | the visitor throws only when padding changed nothing and the options were already an object literal |
| SwcPlugin.GetMethodType | packages/swc-plugin/src/lib.rs:86-100 | Query exactly for a plain identifier in the query table; Mutation exactly for one in the mutation table and not in the query table |
| SwcPlugin.GetTrpcMethodType | packages/swc-plugin/src/lib.rs:103-121 | a method type exactly when the callee is a member access, on a member access, named by a terminal method |
| SwcPlugin.CreateBoundaryObject | packages/swc-plugin/src/lib.rs:124-154 | an object literal of exactly three properties: `file` is the visitor's file name, `line` the given line, and `side` is `client` exactly for a client module and `server` otherwise |
| SwcPlugin.SameRecordAsBabel | packages/swc-plugin/src/lib.rs:124-154 | where the file names agree and both transforms classify the module alike, the SWC record equals the one the Babel transform builds |
| SwcPlugin.PadArgs | packages/swc-plugin/src/lib.rs:160-198 | after padding the options position exists (second for queries, first for mutations) |
| SwcPlugin.InjectBoundary | packages/swc-plugin/src/lib.rs:157-320 | the in-place rewrite of the arguments equals the value-level injection with the visitor's record; callee and location are unchanged |
| SwcPlugin.VisitMutCallExpr | packages/swc-plugin/src/lib.rs:326-339 | detected calls get the injection with their method type and line; other calls keep their arguments |
| SwcPlugin.RelativeFilenameUnderCwd | packages/swc-plugin/src/lib.rs:366-367 | a name under a non-empty working directory becomes `.` plus the remainder, and prefixing the directory gives the name back |
| SwcPlugin.RelativeFilenameElsewhere | packages/swc-plugin/src/lib.rs:358-370 | any other name is kept, with `unknown` for a missing one |
| SwcPlugin.MethodTablesPartition | packages/swc-plugin/src/lib.rs:18-45 | the query and mutation tables are disjoint and together are Babel's terminal-method table |
| SwcPlugin.QueryPadding | packages/swc-plugin/src/lib.rs:162-183 | query calls: `f()` becomes `f(undefined, {…})` and `f(x)` becomes `f(x, {…})` |
| SwcPlugin.MutationPadding | packages/swc-plugin/src/lib.rs:185-196 | mutation calls: `f()` becomes `f({…})` |
| SwcPlugin.ExistingOptions | packages/swc-plugin/src/lib.rs:200-319 | an existing options argument keeps all other arguments; a non-object is left as is; for an object literal the transform gives up exactly when `trpc` or `context` is not an object literal, else the context ends with one `__boundary` |
| SwcPlugin.DetectionAgreesOnNamedProps | packages/swc-plugin/src/lib.rs:103-121 | when the last property is a plain name, SWC and Babel detect the same calls |
| SwcPlugin.ComputedIdentifierDiverges | packages/swc-plugin/src/lib.rs:86-100 | `a.b[useQuery]` is detected by Babel but not by SWC |
| SwcPlugin.UndefinedOptionsDiverge | packages/swc-plugin/src/lib.rs:164-182 | `q.useQuery(x, undefined)` is left alone by SWC and stamped by Babel |
| SwcPlugin.DirectiveImpliesSwcClient | packages/swc-plugin/src/lib.rs:343-352 | a module with a Babel `use client` directive is a client module for SWC too |
| SwcPlugin.LateUseClientDiverges | packages/swc-plugin/src/lib.rs:343-352 | a `use client` statement after other code makes a client module for SWC but not for Babel |
| SwcPlugin.FileNamesAgree | packages/swc-plugin/src/lib.rs:366-370 | under a non-empty working directory that prefixes the name, both transforms record the same file |
| SwcPlugin.EmptyFileNameDiverges | packages/swc-plugin/src/lib.rs:358-370 | an empty file name stays empty in SWC but becomes `unknown` in Babel |
| SwcPlugin.IsClient | packages/swc-plugin/src/lib.rs:343-352 | a module (never a script) with a top-level `use client` string statement anywhere; compared with Babel by `DirectiveImpliesSwcClient` and `LateUseClientDiverges` |
| SwcPlugin.RelativeFilename | packages/swc-plugin/src/lib.rs:358-370 | the recorded file name; its partners are `RelativeFilenameUnderCwd` and `RelativeFilenameElsewhere` |
| Ast.FindProp | packages/babel/src/index.ts:81-83 | the index of the first property found under the name, or the length when there is none; no earlier property has that name |
| Ast.LookupPathProps | packages/babel/src/index.ts:85-102 | a freshly created path holds just the leaf at its end |
| Ast.EnsurePathSucceeds | packages/swc-plugin/src/lib.rs:203-318 | find-or-create succeeds exactly when no existing level of the path is a non-object |
| Ast.EnsurePathAppends | packages/swc-plugin/src/lib.rs:203-318 | afterwards the path exists and its object holds the former properties, in order, followed by exactly one leaf |
| Ast.EnsurePathFrame | packages/swc-plugin/src/lib.rs:205-257 | outside the path nothing moves; the found property keeps its key; a new one is appended only when none was found |
| Ast.ExistingOfLookup | packages/babel/src/index.ts:81-101 | on an existing path the properties seen before the operation are those found there |
| Ast.EnsurePathTwice | packages/babel/src/index.ts:79-103 | applied twice, the operation leaves two leaves at the end of the path |
| Ast.EnsurePathOnEmpty | packages/babel/src/index.ts:75-102 | inside a fresh empty literal it builds exactly the nested path literal |
| Ast.EnsurePath | packages/swc-plugin/src/lib.rs:203-318 | find-or-create then append: on success the outer literal keeps every property but the one found for the first name and grows by at most one |
| Aggregate.CountByKey | src/reporter.ts:14-17 | the `reduce` into an object followed by `Object.entries` returns the tally of the keys |
| Aggregate.TallyDistinct | src/reporter.ts:14-22 | no key has two entries |
| Aggregate.TallyCounts | src/reporter.ts:14-17 | a key has an entry exactly when it occurs, and the entry counts its occurrences |
| Aggregate.TallyEntryCount | src/reporter.ts:14-17 | every entry's key occurs, and its count is that key's number of occurrences |
| Aggregate.TallySum | src/reporter.ts:14-17 | the counts add up to the number of keys counted |
| Aggregate.TallyKeysOccur | src/reporter.ts:14-17 | every entry's key occurs among the keys counted |
| Aggregate.TallyFirstOccurrenceOrder | src/reporter.ts:14-22 | entries come in the order in which their keys first occur (insertion order of the object) |
| Aggregate.SortByPermutes | src/reporter.ts:33 | the sort returns a permutation of its input |
| Aggregate.SortBySorted | src/reporter.ts:33 | the sort result is ordered by ascending key |
| Aggregate.SortByStable | src/reporter.ts:33 | elements with equal keys keep their relative order |
| Aggregate.SortByDistinct | src/reporter.ts:33 | sorting elements with distinct names keeps them distinct |
| Aggregate.Take | src/reporter.ts:38 | `slice(0, n)` is the prefix of length min(n, length) |
| Grouping.GroupByKey | packages/cli/src/reporter.ts:121-133 | the grouping `reduce` followed by `Object.entries` returns the groups of the elements by key |
| Grouping.GroupByDistinct | packages/cli/src/reporter.ts:121-131 | no key has two groups |
| Grouping.GroupByItems | packages/cli/src/reporter.ts:121-131 | a key has a group exactly when some element has it, and the group holds exactly those elements, in order |
| Grouping.GroupContents | packages/cli/src/reporter.ts:121-131 | each group holds exactly the elements with its key, and at least one |
| Grouping.HavingMembers | packages/cli/src/reporter.ts:121-131 | the elements chosen for a key are elements with that key, and there are some exactly when the key occurs |
| Grouping.GroupOrder | packages/cli/src/reporter.ts:121-133 | groups come in the order in which their keys first occur |
| Grouping.GroupBySizes | packages/cli/src/reporter.ts:121-131 | the group sizes add up to the number of elements: each lands in exactly one group |
| Markdown.AppendCountRows | src/reporter.ts:22-24 | the loop appends one `\| key \| count \|` line per entry, in order |
| Markdown.AppendDetailRows | src/reporter.ts:47-49 | the loop appends one detail line per call, in order |
| Markdown.GenerateMarkdownReport | src/reporter.ts:7-52 | the report is the text of the report's lines: title, totals, summary table, top-files table and detail table |
| Markdown.MarkdownReport | src/reporter.ts:7-52 | the report as a value: the report's lines, each followed by a line break; `ReportSplitsIntoLines` reads the lines back |
| Markdown.ReportSplitsIntoLines | src/reporter.ts:7-52 | when no field holds a line break, splitting the report at line breaks gives exactly its lines and then an empty text |
| Markdown.HeaderTotals | src/reporter.ts:10-11 | the totals line shows the number of files and of calls, as decimal numerals of those values |
| Markdown.SummaryRowPerBoundary | src/reporter.ts:14-24 | a boundary has a summary row exactly when some call has it, and at most one |
| Markdown.SummaryRowCounts | src/reporter.ts:14-24 | each summary row counts the calls with its boundary, which is at least one |
| Markdown.SummaryTotal | src/reporter.ts:14-24 | the summary counts add up to the number of calls |
| Markdown.SummaryRowOrder | src/reporter.ts:14-24 | summary rows come in the order in which their boundaries first appear |
| Markdown.RankedFileCounts | src/reporter.ts:28-33 | each ranked file is a file of the calls with its number of calls |
| Markdown.RankedFilesComplete | src/reporter.ts:28-33 | every file with a call is ranked, exactly once |
| Markdown.RankedFilesDescending | src/reporter.ts:33 | files are ranked by descending number of calls |
| Markdown.RankedFilesStable | src/reporter.ts:33 | files with equal counts keep the order in which they first appear |
| Markdown.TopFilesTable | src/reporter.ts:33-40 | the table lists at most twenty files, all of them when there are fewer, and no file left out has more calls than one listed |
| Console.PrintLabels | src/reporter.ts:76-80 | the loop over the label table prints the label lines of the boundaries with a non-zero count |
| Console.CountOfTally | src/reporter.ts:77 | `summary[key]` is 0 for a missing key and the occurrence count otherwise |
| LegacyReporter.PrintHotspots | src/reporter.ts:93-95 | one `- file (count)` line per ranked file, in order |
| LegacyReporter.PrintConsoleSummary | src/reporter.ts:57-98 | the lines logged are the title, rule, total, label lines, hotspot title and hotspot lines |
| LegacyReporter.ComponentCounts | src/reporter.ts:65-80 | client, server and edge counts are printed in this order, each only when non-zero, with the number of calls with that boundary |
| LegacyReporter.HotspotsTop | src/reporter.ts:84-95 | at most five files, by descending count, each with its number of calls, and no file left out has more |
| CliReporter.GenerateMarkdownReport | packages/cli/src/reporter.ts:7-58 | the same report as the root package's, for the calls without their types |
| CliReporter.TypeLabel | packages/cli/src/reporter.ts:72-78 | a known type is shown as `[type]`, any other as `[unknown]` |
| CliReporter.PrintCollapsed | packages/cli/src/reporter.ts:146-165 | the collapsed view prints one line per distinct `path.method`, in order of first occurrence |
| CliReporter.PrintByLine | packages/cli/src/reporter.ts:167-176 | the detailed view prints one line per call, sorted by line |
| CliReporter.PrintFiles | packages/cli/src/reporter.ts:139-179 | each listed file gives its `- file (count)` line followed by its detail lines for the options |
| CliReporter.PrintConsoleSummary | packages/cli/src/reporter.ts:83-182 | the lines logged are the title, rule, total, label lines, hotspot title and file blocks |
| CliReporter.SummaryLabels | packages/cli/src/reporter.ts:104-115 | browser, server and edge counts are printed in this order, each only when non-zero |
| CliReporter.ListedFileCalls | packages/cli/src/reporter.ts:121-139 | each listed file shows exactly its calls, in order, and at least one |
| CliReporter.ListedFilesOrdered | packages/cli/src/reporter.ts:133 | files are listed by descending count, each once |
| CliReporter.ListedFilesTop | packages/cli/src/reporter.ts:133-137 | without `showAll` or `details` at most five files, none left out having more calls; otherwise every file |
| CliReporter.EveryFileGrouped | packages/cli/src/reporter.ts:121-133 | every file with a call is among the sorted groups |
| CliReporter.CollapsedCounts | packages/cli/src/reporter.ts:146-156 | each collapsed line stands for all calls with its key, keys are distinct, and the counts add up to the file's calls |
| CliReporter.CollapsedRepeat | packages/cli/src/reporter.ts:146-165 | the collapsed view has one line per key; line `i` shows the type label and text of the first call with its key, followed by ` (xN)` with `N` the number of such calls when that is more than one, and by nothing otherwise |
| CliReporter.DetailByLine | packages/cli/src/reporter.ts:168 | calls are sorted by ascending line, as a permutation that keeps calls on the same line in order |
| CliReporter.LineColumnAligned | packages/cli/src/reporter.ts:170 | below line 1000 the `L<line>` column is exactly five characters wide |
| Runtime.BoundaryLink | packages/runtime/index.ts:11-42 | the path gains the encoded record exactly when it names a file; the headers become the old ones overlaid with the link's; type and original path are sent; other headers are kept and only boundary headers are added |
| Runtime.LinkHeadersCarry | packages/runtime/index.ts:18-27 | type and original path are always sent; file, line and side are sent exactly when the record names a file |
| Runtime.LinkHeaders | packages/runtime/index.ts:18-27 | only boundary headers are written; type and original path always; the file exactly when the record names a file |
| Runtime.AnnotatedPathSuffix | packages/runtime/index.ts:29-30 | the path keeps its text as a prefix, and changes (gaining `?__b=`) exactly when the record names a file |
| Runtime.AnnotatedPath | packages/runtime/index.ts:29-30 | the new path starts with the old one and differs from it exactly when the record names a file |
| Runtime.MergeKeepsPrior | packages/runtime/index.ts:33-36 | the spread merge keeps every non-boundary header and lets the link's headers win |
| Runtime.GetHeader | packages/runtime/index.ts:51-55 | an empty or missing Fetch header reads as missing; a missing Node header reads as missing, a single Node value is returned as it is, and a Node array gives its first value |
| Runtime.SegmentRun | packages/runtime/index.ts:60 | the capture `[^?#]+` runs to the first `?` or `#` |
| Runtime.UrlSegmentFrom | packages/runtime/index.ts:60 | the result is the capture of the leftmost match of `/api/trpc/…`; none exactly when there is no match |
| Runtime.ResolvePath | packages/runtime/index.ts:57-64 | a truthy path header other than `NONE` is the path; otherwise the path is the header or a non-empty capture from the request URL |
| Runtime.ReadPath | packages/runtime/index.ts:57-64 | the statements that set `pathStr`, header first and then the URL fallback, leave exactly the resolved path |
| Runtime.NonEmptyParts | packages/runtime/index.ts:69 | `filter(Boolean)` keeps exactly the non-empty parts |
| Runtime.NonEmptyPartsAppend | packages/runtime/index.ts:69 | filtering a concatenation gives the filtered halves, concatenated: order is kept |
| Runtime.NonEmptyPartsSingle | packages/runtime/index.ts:69 | a single part is kept exactly when it is non-empty |
| Runtime.ResolveType | packages/runtime/index.ts:71-72 | a truthy type header wins; otherwise `mutation` exactly for a POST (in any case) and `query` otherwise |
| Runtime.ResolveRuntime | packages/runtime/index.ts:73-74 | `edge` exactly when `NEXT_RUNTIME` is `edge`, else `node` |
| Runtime.DefaultSide | packages/runtime/index.ts:89-91 | a truthy side header wins; otherwise `client` exactly when `x-trpc-source` is `nextjs-react`, else `server` |
| Runtime.PartRecords | packages/runtime/index.ts:85-104 | one record per part, in order |
| Runtime.PartRecord | packages/runtime/index.ts:86-104 | the record is named by the part, or by its text before `?` when it holds `?__b=`; it keeps the context's type and runtime; a file, line or side differs from the header's only when replaced by a non-empty one |
| Runtime.BoundaryLogger | packages/runtime/index.ts:47-116 | the logger writes exactly the lines of its outcome, and throws exactly when `decodeURIComponent` fails |
| Runtime.PrintParts | packages/runtime/index.ts:85-115 | the `forEach` prints the lines of the parts' records, in order |
| Runtime.ResolvePathFallback | packages/runtime/index.ts:57-64 | the URL is consulted only when the path header is missing, empty or `NONE`, and then its leftmost match is the path |
| Runtime.Outcome | packages/runtime/index.ts:66-68 | nothing is printed exactly when the resolved path is missing, empty, `NONE` or `trpc`, and a `URIError` exactly when it is not and fails to decode |
| Runtime.MalformedPathThrows | packages/runtime/index.ts:68 | a lone `%` in the path header makes the logger throw |
| Runtime.SafeOutcome | packages/runtime/index.ts:66-69 | the total logger never throws; it agrees with the logger wherever the logger does not throw, and otherwise splits the undecoded path |
| Runtime.SafeOutcomeKeepsMalformedPath | packages/runtime/index.ts:68-69 | for the path `%` the total logger prints one record named `%` |
| Runtime.NonEmptyPartsKeep | packages/runtime/index.ts:69 | filtering keeps a list of non-empty parts unchanged |
| Runtime.PathPartsShape | packages/runtime/index.ts:69 | every part is non-empty and free of commas |
| Runtime.BatchParts | packages/runtime/index.ts:69 | a batch path `a,b,c` of non-empty comma-free names gives back exactly those names, in order |
| Runtime.PlainPart | packages/runtime/index.ts:86-91 | a part without `?__b=` is printed under its own name with the header record |
| Runtime.TypeLabel | packages/runtime/index.ts:76-80 | the label is the type in square brackets, `call` standing for an empty type |
| Runtime.TypeLabelOfResolved | packages/runtime/index.ts:76-80 | a resolved type is never empty, so its label is `[type]` and the `call` fallback is never printed |
| Runtime.LogLineCount | packages/runtime/index.ts:106-114 | one procedure line per record plus one `from` line per record with a file |
| Runtime.RecordLines | packages/runtime/index.ts:106-114 | a record prints two lines when it has a truthy file, and one line otherwise |
| Runtime.RecordLinesShape | packages/runtime/index.ts:106-114 | the procedure line starts with `tRPC [runtime][side]`; a `from file[:line]` line follows exactly when there is a file |
| Runtime.EncodedAvoids | packages/runtime/index.ts:30 | the encoded record holds no `?`, `#`, `,` or `&`, and is empty only for the empty string |
| Runtime.TokenFields | packages/runtime/index.ts:99 | splitting the link's `file:line:side` token on `:` gives back the three fields when file and side hold no `:` |
| Runtime.PartMetaRoundTrip | packages/runtime/index.ts:93-104 | a part the link annotated is printed under its bare name with the file, line and side it carries, whatever the headers say |
| Runtime.PartMetaFields | packages/runtime/index.ts:93-104 | a part the link annotated is overridden by the `:`-separated fields of the token it carries, whatever the file name holds |
| Runtime.DriveLetterFileSplits | packages/runtime/index.ts:99 | the file `D:\lib\x.tsx` at line 12 is logged as the file `D`, the line `\lib\x.tsx` and the side `12` |
| Runtime.ColonFileRecord | packages/runtime/index.ts:93-104 | a file `drive:rest` is logged as the file `drive` with the line `rest`, and the side is the line number |
| Runtime.ColonFileToken | packages/runtime/index.ts:99 | the token of a file with one colon splits into four fields, drive then rest then line then side |
| Runtime.MetaFields | packages/runtime/index.ts:99 | the token is read from its right end into at most three fields, and agrees with `split(':')` whenever that gives at most three |
| Runtime.MetaFieldsRoundTrip | packages/runtime/index.ts:99 | read from the right, every token the link writes gives back its file, line and side, colons in the file included, and they replace the header's |
| Runtime.PartWithMeta | packages/runtime/index.ts:93-104 | a part with the marker is named by its text before `?`, and the fields of its `__b` value override the header record |
| Runtime.MetaParamOf | packages/runtime/index.ts:96-97 | `URLSearchParams` reads the encoded token back from the `__b=` query |
| Runtime.SinglePart | packages/runtime/index.ts:69 | a non-empty comma-free path gives a single record |
| Runtime.UrlRouteRoundTrip | packages/runtime/index.ts:57-104 | with no path header, a request to `/api/trpc/<encoded annotated path>` is printed once under the bare name with the encoded file, line and side |
| Runtime.NotSuppressed | packages/runtime/index.ts:66 | a path whose decoding holds a `?` is not suppressed |
| Runtime.UrlSegmentOfApiUrl | packages/runtime/index.ts:60-62 | the regular expression captures the segment right after `/api/trpc/` |
| Runtime.HeaderRouteRoundTrip | packages/runtime/index.ts:57-104 | the headers the link writes give one record under the original path with the header file, line, side and type |
| Text.SplitAround | packages/runtime/index.ts:99 | `split` at a separator between two strings is the split of each of them, concatenated |
| Text.SplitWithout | packages/runtime/index.ts:99 | a string without the separator splits into itself alone |
| UriCodec.DecodeEncode | packages/runtime/index.ts:68 | `decodeURIComponent(encodeURIComponent(s))` is `s` for every string |
| UriCodec.DecodeEncodedChar | packages/runtime/index.ts:68 | an escaped character decodes as one escape group spanning exactly its escapes |
| UriCodec.DecodePlainPrefix | packages/runtime/index.ts:68 | a `%`-free prefix decodes to itself, whatever follows |
| UriCodec.EncodedAlphabet | packages/runtime/index.ts:30 | `encodeURIComponent` writes only unreserved characters and `%` |
| UriCodec.FormDecodeEncode | packages/runtime/index.ts:96-97 | form decoding reads back exactly what `encodeURIComponent` wrote |
| UriCodec.FormDecodePlain | packages/runtime/index.ts:96-97 | text free of `%` and `+` is its own form decoding |
| UriCodec.SearchParamsGetPair | packages/runtime/index.ts:96-97 | the value of a lone `name=value` pair is read back form-decoded |
| UriCodec.SearchParamsGetSingle | packages/runtime/index.ts:96-97 | the value of a lone pair is read back unchanged when neither part needs decoding |
| UriCodec.EncodeURIComponent | packages/runtime/index.ts:30 | the built-in `encodeURIComponent`: unreserved characters stay, every other character becomes the `%HH` escapes of its UTF-8 bytes; partners `EncodedAlphabet` and `DecodeEncode` |
| UriCodec.DecodeURIComponent | packages/runtime/index.ts:68 | the built-in `decodeURIComponent`, `None` where it throws `URIError`; partners `DecodeEncode` and `DecodePlainPrefix` |
| UriCodec.FormDecode | packages/runtime/index.ts:96-97 | the percent-decoding `URLSearchParams` applies to names and values; never longer than its input |
| UriCodec.FormDecodeStrayByte | packages/runtime/index.ts:96-97 | an escaped byte that cannot lead a UTF-8 sequence is one U+FFFD |
| UriCodec.FormDecodeTruncatedSequence | packages/runtime/index.ts:96-97 | `%E2%82A` decodes to one U+FFFD followed by `A`: a cut-short sequence is replaced once, as the WHATWG Encoding Standard's UTF-8 decoder does |
| UriCodec.SearchParamsGet | packages/runtime/index.ts:96-97 | the built-in `URLSearchParams.get`: the form-decoded value of the first pair whose form-decoded name matches; partners `SearchParamsGetPair` and `SearchParamsGetSingle` |

## Left out

- Parsing, traversal order and code generation of Babel, SWC and ts-morph are not modelled. Each visitor is modelled on one call node. The loader finds files from glob patterns and is given as a list of files, each with its text and call sites in traversal order.
- The Next.js loader that runs the Babel plugin (packages/next/src/loader.ts) is not part of this model. Its return of the original source after a thrown `TypeError` is represented only by the `Threw` outcome.
- `process.cwd()`, `path.sep`, `process.env.NEXT_RUNTIME`, the SWC host's file name and working directory, and the source-map line lookup are parameters.
- Terminal colours (`chalk`) are dropped. `console.log` output is the list of strings logged. The module-load banner of the runtime package is not modelled.
- The SWC `PluginConfig` is not modelled. It is read from JSON but never used.
- Observables, `next(op)` and the subscription are not modelled: the link is the update it makes to the operation.
- The link's `op.context` is wrapped into the `Operation` fields. A missing context, and a missing `op.context.headers`, are taken as an empty record and an empty map.
- The `line` of the stamped record is a natural number, and `String(line)` is its decimal numeral. The link cannot pass on records whose fields have other JavaScript types.
- `Headers` lookups in the model are case-sensitive and use the exact lower-case names. The Fetch `Headers` object folds case.
- A Node header that is `undefined` is modelled as absent.
- `req` being absent is `Request(None, None)`.
- `toUpperCase` on the request method folds only ASCII letters.
- Integer-like object keys come first in JavaScript's `Object.entries` order. The model always uses insertion order, which matches the source for file paths and boundary labels.
- `Array.prototype.sort` is modelled as a stable insertion sort returning a new sequence. The in-place update of the sorted array is not modelled.
- The collapsed view keys calls by `path.method`. The model does not distinguish calls that share such a key but differ in other fields. It prints the first call of each key, as the source does.
- The command-line package's analyser, which assigns each call its communication `type`, is not part of this model. The type is an input of `CliReporter.CliCall`.
- The analyser's field `method` is called `methodName` in the model, because `method` is a Dafny keyword.
- `URLSearchParams` parsing is modelled for the query text between the first and second `?` of a part: this is what `part.split('?')` hands it.
- UriCodec.EncodeURIComponent: Dafny strings are sequences of Unicode scalar values, whereas JavaScript strings are UTF-16 code units. A lone surrogate cannot be represented, so the `URIError` that `encodeURIComponent` throws on one is not modelled.
- Runtime.BoundaryLink: for the same reason the link is total. In the source, a file name holding a lone surrogate (possible in a Windows file name reaching the transform as `state.filename`) makes `encodeURIComponent(metaStr)` at packages/runtime/index.ts:30 throw inside the link.
- Text: the JavaScript string built-ins (`split`, `join`, `trim`, `padEnd`, `startsWith`, `includes`, `replace`) are modelled for the inputs the source gives them, without regular-expression or locale behaviour.

## Findings

| source | as written | input that shows it | evidently intended | confidence | as-written member | corrected member |
|---|---|---|---|---|---|---|
| packages/runtime/index.ts:68 | `decodeURIComponent(pathStr)` is called without a guard, so a path header that is not valid percent-encoding makes the logger throw `URIError` into the request handler that called it | path header `%` (also `%E2`, `%ZZ`) | a logging helper that never throws: a path it cannot decode is logged as it stands | not executed | Runtime.MalformedPathThrows | Runtime.SafeOutcome |
| packages/runtime/index.ts:99 | `const [f, l, s] = meta.split(':')` takes the first three `:`-separated fields, but the file name is not escaped and may itself hold a colon: a Windows path outside the working directory, which the transform keeps absolute | a call in `D:\lib\x.tsx` at line 12 from the client: the logger prints the file `D`, the line `\lib\x.tsx` and the side `12` | the file is everything before the last two colons, so the line and the side come back whatever the file name holds | not executed | Runtime.DriveLetterFileSplits | Runtime.MetaFields |

`Runtime.Outcome` and the method `Runtime.BoundaryLogger` keep the code as written, throw included.
`Runtime.SafeOutcome` is the total logger: it never yields `URIError`, it equals `Outcome` wherever
`Outcome` does not throw (so every round trip proved about `Outcome` holds for it too), and
`Runtime.SafeOutcomeKeepsMalformedPath` shows what it prints for the failing input.

`Runtime.PartRecord` keeps `split(':')` as written; `Runtime.TokenFields` and
`Runtime.PartMetaRoundTrip` state the round trip for files without a colon, and
`Runtime.ColonFileRecord` states what happens to a file with one. `Runtime.MetaFields` reads
the token from its right end: `Runtime.MetaFieldsRoundTrip` proves that it gives back the file,
line and side of every token the link writes, and it agrees with `split(':')` on every token
with at most three fields, so every round trip proved for colon-free files holds for it too.
