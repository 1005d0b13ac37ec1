/**
 * The reporter of the command-line package (packages/cli/src/reporter.ts): the Markdown report
 * and the console summary, whose lines are modelled as the sequence of strings passed to
 * `console.log`, without the terminal colours.
 */
module CliReporter {
  import opened Text
  import opened Aggregate
  import opened Grouping
  import opened Analyzer
  import opened Markdown
  import opened Console

  /** The command-line package's `TRPCCall`: the analyser's record plus its communication type. */
  datatype CliCall = CliCall(call: TrpcCall, callType: string)

  datatype CliResult = CliResult(calls: seq<CliCall>, fileCount: nat)

  /** The options of `printConsoleSummary`; a missing option is `false`. */
  datatype Options = Options(showAll: bool, details: bool, collapse: bool)

  /** The result without the communication types, which the Markdown report does not show. */
  function Base(result: CliResult): AnalysisResult {
    AnalysisResult(Records(result.calls), result.fileCount)
  }

  function Records(calls: seq<CliCall>): (r: seq<TrpcCall>)
    ensures |r| == |calls| && forall i :: 0 <= i < |calls| ==> r[i] == calls[i].call
  {
    if calls == [] then [] else Records(calls[..|calls| - 1]) + [calls[|calls| - 1].call]
  }

  /** `generateMarkdownReport`, the same report as the root package's. */
  method GenerateMarkdownReport(result: CliResult) returns (report: string)
    ensures report == MarkdownReport(Base(result))
  {
    report := Markdown.GenerateMarkdownReport(Base(result));
  }

  // ---------------------------------------------------------------------------------------
  // Labels

  /** `TYPE_LABELS[type] || TYPE_LABELS.unknown` */
  function TypeLabel(callType: string): (r: string)
    ensures callType in KnownTypes ==> r == "[" + callType + "]"
    ensures callType !in KnownTypes ==> r == "[unknown]"
  {
    if callType == "query" then "[query]"
    else if callType == "mutation" then "[mutation]"
    else if callType == "subscription" then "[subscription]"
    else if callType == "utils" then "[utils]"
    else "[unknown]"
  }

  const KnownTypes: set<string> := {"query", "mutation", "subscription", "utils", "unknown"}

  /** The boundaries the summary has a line for, with their labels, in order. */
  const BoundaryLabels: seq<(string, string)> := [
    ("Client", "Crossings from Browser (Client): "),
    ("Server (RSC)", "Crossings from Server (RSC):  "),
    ("Edge", "Crossings from Edge Runtime:  ")
  ]

  /** The rule under the title: 32 box-drawing characters. */
  const Rule: string := "\U{2500}\U{2500}\U{2500}\U{2500}\U{2500}\U{2500}\U{2500}\U{2500}\U{2500}\U{2500}\U{2500}\U{2500}\U{2500}\U{2500}\U{2500}\U{2500}\U{2500}\U{2500}\U{2500}\U{2500}\U{2500}\U{2500}\U{2500}\U{2500}\U{2500}\U{2500}\U{2500}\U{2500}\U{2500}\U{2500}\U{2500}\U{2500}"

  // ---------------------------------------------------------------------------------------
  // The console summary, line by line

  function CallsOf(result: CliResult): seq<TrpcCall> {
    Base(result).calls
  }

  function HotspotsTitle(options: Options): string {
    if options.showAll then "All hotspots:" else "Top hotspots:"
  }

  function FileOf(c: CliCall): string {
    c.call.file
  }

  /** The file groups, most calls first. */
  function MoreItemsFirst(g: Group<CliCall>): int {
    -(|g.items| as int)
  }

  function GroupKey(g: Group<CliCall>): string {
    g.key
  }

  function LineOf(c: CliCall): int {
    c.call.line as int
  }

  /** The key `${procedurePath}.${method}` of the collapsed view. */
  function CollapseKey(c: CliCall): string {
    c.call.procedurePath + "." + c.call.methodName
  }

  /** The file groups that are listed. */
  function ListedFiles(calls: seq<CliCall>, options: Options): seq<Group<CliCall>> {
    var sorted := SortBy(GroupBy(calls, FileOf), MoreItemsFirst);
    if !options.showAll && !options.details then Take(sorted, 5) else sorted
  }

  /** `trpc.${procedurePath}.${method}` */
  function CallText(c: CliCall): string {
    "trpc." + c.call.procedurePath + "." + c.call.methodName
  }

  /** The line of one collapsed call: its first occurrence, and how many calls it stands for when more than one. */
  function CollapsedLine(g: Group<CliCall>): string
    requires g.items != []
  {
    var item := g.items[0];
    "  " + TypeLabel(item.callType) + " " + CallText(item) + (if |g.items| > 1 then " (x" + NatToString(|g.items|) + ")" else "")
  }

  function CollapsedLines(gs: seq<Group<CliCall>>): (lines: seq<string>)
    requires forall i :: 0 <= i < |gs| ==> gs[i].items != []
    ensures |lines| == |gs|
  {
    if gs == [] then [] else CollapsedLines(gs[..|gs| - 1]) + [CollapsedLine(gs[|gs| - 1])]
  }

  /** The line of one call in the detailed view: `L<line>` padded to five characters. */
  function ItemLine(c: CliCall): string {
    "  " + PadEnd("L" + NatToString(c.call.line), 5) + " " + TypeLabel(c.callType) + " " + CallText(c)
  }

  function ItemLines(items: seq<CliCall>): seq<string> {
    if items == [] then [] else ItemLines(items[..|items| - 1]) + [ItemLine(items[|items| - 1])]
  }

  /** `- file (count)` */
  function FileLine(g: Group<CliCall>): string {
    "- " + g.key + " " + "(" + NatToString(|g.items|) + ")"
  }

  /** The lines under a file in the detailed view. */
  function DetailLines(items: seq<CliCall>, options: Options): seq<string> {
    if !options.details then []
    else if options.collapse then
      GroupContentsAll(items, CollapseKey);
      CollapsedLines(GroupBy(items, CollapseKey))
    else ItemLines(SortBy(items, LineOf))
  }

  function FileBlocks(gs: seq<Group<CliCall>>, options: Options): seq<string> {
    if gs == [] then []
    else FileBlocks(gs[..|gs| - 1], options) + [FileLine(gs[|gs| - 1])] + DetailLines(gs[|gs| - 1].items, options)
  }

  /** Everything `printConsoleSummary(result, options)` logs, one string per `console.log`. */
  function ConsoleLines(result: CliResult, options: Options): seq<string> {
    ["\n" + "tRPC Network Boundary Inspection", Rule, "Total network boundary crossings:" + " " + NatToString(|result.calls|)]
    + LabelLines(Tally(Boundaries(CallsOf(result))), BoundaryLabels)
    + ["\n" + HotspotsTitle(options)]
    + FileBlocks(ListedFiles(result.calls, options), options)
    + [""]
  }

  /** Every group of a grouping holds at least one element. */
  lemma GroupContentsAll<T>(xs: seq<T>, keyOf: T -> string)
    ensures forall i :: 0 <= i < |GroupBy(xs, keyOf)| ==> GroupBy(xs, keyOf)[i].items != []
  {
    forall i | 0 <= i < |GroupBy(xs, keyOf)|
      ensures GroupBy(xs, keyOf)[i].items != []
    {
      GroupContents(xs, keyOf, i);
    }
  }

  // ---------------------------------------------------------------------------------------
  // The printer

  /** The `Object.values(collapsed).forEach` loop. */
  method PrintCollapsed(items: seq<CliCall>) returns (out: seq<string>)
    ensures out == DetailLines(items, Options(false, true, true))
  {
    var collapsed := GroupByKey(items, CollapseKey);
    GroupContentsAll(items, CollapseKey);
    out := [];
    var i := 0;
    while i < |collapsed|
      invariant 0 <= i <= |collapsed|
      invariant out == CollapsedLines(collapsed[..i])
    {
      assert collapsed[..i + 1][..i] == collapsed[..i];
      var item := collapsed[i].items[0];
      var count := |collapsed[i].items|;
      var countLabel := if count > 1 then " (x" + NatToString(count) + ")" else "";
      out := out + ["  " + TypeLabel(item.callType) + " " + CallText(item) + countLabel];
      i := i + 1;
    }
    assert collapsed[..i] == collapsed;
  }

  /** `info.items.sort((a, b) => a.line - b.line).forEach(...)` */
  method PrintByLine(items: seq<CliCall>) returns (out: seq<string>)
    ensures out == DetailLines(items, Options(false, true, false))
  {
    var sorted := SortBy(items, LineOf);
    out := [];
    var i := 0;
    while i < |sorted|
      invariant 0 <= i <= |sorted|
      invariant out == ItemLines(sorted[..i])
    {
      assert sorted[..i + 1][..i] == sorted[..i];
      var lineStr := PadEnd("L" + NatToString(sorted[i].call.line), 5);
      out := out + ["  " + lineStr + " " + TypeLabel(sorted[i].callType) + " " + CallText(sorted[i])];
      i := i + 1;
    }
    assert sorted[..i] == sorted;
  }

  /** The `sortedFiles.forEach` loop. */
  method PrintFiles(files: seq<Group<CliCall>>, options: Options) returns (out: seq<string>)
    ensures out == FileBlocks(files, options)
  {
    out := [];
    var i := 0;
    while i < |files|
      invariant 0 <= i <= |files|
      invariant out == FileBlocks(files[..i], options)
    {
      assert files[..i + 1][..i] == files[..i];
      var info := files[i];
      out := out + ["- " + info.key + " " + "(" + NatToString(|info.items|) + ")"];
      var details: seq<string> := [];
      if options.details {
        if options.collapse {
          details := PrintCollapsed(info.items);
        } else {
          details := PrintByLine(info.items);
        }
      }
      out := out + details;
      i := i + 1;
    }
    assert files[..i] == files;
  }

  /** `printConsoleSummary(result, options)` */
  method PrintConsoleSummary(result: CliResult, options: Options) returns (out: seq<string>)
    ensures out == ConsoleLines(result, options)
  {
    var calls := result.calls;
    out := ["\n" + "tRPC Network Boundary Inspection", Rule, "Total network boundary crossings:" + " " + NatToString(|calls|)];
    var summary := CountByKey(Boundaries(CallsOf(result)));
    var labels := PrintLabels(summary, BoundaryLabels);
    out := out + labels;
    var title := if options.showAll then "All hotspots:" else "Top hotspots:";
    out := out + ["\n" + title];
    var fileGroups := GroupByKey(calls, FileOf);
    var sortedFiles := SortBy(fileGroups, MoreItemsFirst);
    if !options.showAll && !options.details {
      sortedFiles := Take(sortedFiles, 5);
    }
    var blocks := PrintFiles(sortedFiles, options);
    out := out + blocks;
    out := out + [""];
  }

  // ---------------------------------------------------------------------------------------
  // What the summary says

  /**
   * The summary prints, in this order, the number of calls from the client, from server components
   * and from the edge runtime, each only when it is non-zero; other boundaries get no line.
   */
  lemma SummaryLabels(calls: seq<TrpcCall>)
    ensures LabelLines(Tally(Boundaries(calls)), BoundaryLabels) ==
      LabelLine(calls, "Client", "Crossings from Browser (Client): ")
      + LabelLine(calls, "Server (RSC)", "Crossings from Server (RSC):  ")
      + LabelLine(calls, "Edge", "Crossings from Edge Runtime:  ")
  {
    ThreeLabels(calls, BoundaryLabels);
  }

  /** Each listed file is shown with exactly its calls, in order. */
  lemma ListedFileCalls(calls: seq<CliCall>, options: Options, i: nat)
    requires i < |ListedFiles(calls, options)|
    ensures ListedFiles(calls, options)[i].items == Having(calls, FileOf, ListedFiles(calls, options)[i].key) != []
  {
    var gs := GroupBy(calls, FileOf);
    var sorted := SortBy(gs, MoreItemsFirst);
    var g := ListedFiles(calls, options)[i];
    assert g == sorted[i];
    SortByPermutes(gs, MoreItemsFirst);
    assert g in multiset(gs);
    var j :| 0 <= j < |gs| && gs[j] == g;
    GroupContents(calls, FileOf, j);
  }

  /** Files are listed by descending number of calls, each file once. */
  lemma ListedFilesOrdered(calls: seq<CliCall>, options: Options)
    ensures forall i, j :: 0 <= i < j < |ListedFiles(calls, options)| ==>
      |ListedFiles(calls, options)[i].items| >= |ListedFiles(calls, options)[j].items|
    ensures DistinctGroups(ListedFiles(calls, options))
  {
    var gs := GroupBy(calls, FileOf);
    SortBySorted(gs, MoreItemsFirst);
    GroupByDistinct(calls, FileOf);
    assert DistinctBy(gs, GroupKey);
    SortByDistinct(gs, MoreItemsFirst, GroupKey);
    assert DistinctBy(SortBy(gs, MoreItemsFirst), GroupKey);
  }

  /**
   * Without `showAll` or `details` at most five files are listed, and no file left out has more
   * calls than one listed; otherwise every file with a call is listed.
   */
  lemma ListedFilesTop(calls: seq<CliCall>, options: Options)
    ensures !options.showAll && !options.details ==> |ListedFiles(calls, options)| <= 5
    ensures forall i, j :: 0 <= i < |ListedFiles(calls, options)| <= j < |GroupBy(calls, FileOf)| ==>
      |ListedFiles(calls, options)[i].items| >= |SortBy(GroupBy(calls, FileOf), MoreItemsFirst)[j].items|
    ensures options.showAll || options.details ==> |ListedFiles(calls, options)| == |GroupBy(calls, FileOf)|
  {
    SortBySorted(GroupBy(calls, FileOf), MoreItemsFirst);
  }

  /** Every file with a call gets a group, which the full listing shows. */
  lemma EveryFileGrouped(calls: seq<CliCall>, f: string)
    requires f in KeysOf(calls, FileOf)
    ensures exists i :: 0 <= i < |SortBy(GroupBy(calls, FileOf), MoreItemsFirst)| && SortBy(GroupBy(calls, FileOf), MoreItemsFirst)[i].key == f
  {
    var gs := GroupBy(calls, FileOf);
    HavingMembers(calls, FileOf, f);
    GroupByItems(calls, FileOf, f);
    SortByPermutes(gs, MoreItemsFirst);
    var g := gs[GroupIndex(gs, f)];
    assert g in multiset(SortBy(gs, MoreItemsFirst));
  }

  /** In the collapsed view each line stands for all the calls with its key, and the counts add up to the file's calls. */
  lemma CollapsedCounts(items: seq<CliCall>, i: nat)
    requires i < |GroupBy(items, CollapseKey)|
    ensures GroupBy(items, CollapseKey)[i].items == Having(items, CollapseKey, GroupBy(items, CollapseKey)[i].key) != []
    ensures TotalItems(GroupBy(items, CollapseKey)) == |items|
    ensures DistinctGroups(GroupBy(items, CollapseKey))
  {
    GroupContents(items, CollapseKey, i);
    GroupBySizes(items, CollapseKey);
    GroupByDistinct(items, CollapseKey);
  }

  lemma {:induction false} CollapsedLinesAt(gs: seq<Group<CliCall>>, i: nat)
    requires forall j :: 0 <= j < |gs| ==> gs[j].items != []
    requires i < |gs|
    ensures CollapsedLines(gs)[i] == CollapsedLine(gs[i])
  {
    if i < |gs| - 1 {
      CollapsedLinesAt(gs[..|gs| - 1], i);
    }
  }

  /**
   * The `i`-th collapsed line describes the first call with its key and, when there are more
   * such calls, ends in ` (xN)` with `N` their number; a key with one call has no suffix.
   */
  lemma CollapsedRepeat(items: seq<CliCall>, options: Options, i: nat)
    requires i < |GroupBy(items, CollapseKey)|
    ensures Having(items, CollapseKey, GroupBy(items, CollapseKey)[i].key) != []
    ensures var same := Having(items, CollapseKey, GroupBy(items, CollapseKey)[i].key);
      var prefix := "  " + TypeLabel(same[0].callType) + " " + CallText(same[0]);
      options.details && options.collapse ==>
        && |DetailLines(items, options)| == |GroupBy(items, CollapseKey)|
        && DetailLines(items, options)[i] == prefix + (if |same| > 1 then " (x" + NatToString(|same|) + ")" else "")
  {
    var gs := GroupBy(items, CollapseKey);
    GroupContents(items, CollapseKey, i);
    GroupContentsAll(items, CollapseKey);
    CollapsedLinesAt(gs, i);
  }

  /** The detailed view lists a file's calls by ascending line, a permutation that keeps equal lines in order. */
  lemma DetailByLine(items: seq<CliCall>, line: nat)
    ensures SortedBy(SortBy(items, LineOf), LineOf)
    ensures multiset(SortBy(items, LineOf)) == multiset(items)
    ensures WithKey(SortBy(items, LineOf), LineOf, line as int) == WithKey(items, LineOf, line as int)
  {
    SortBySorted(items, LineOf);
    SortByPermutes(items, LineOf);
    SortByStable(items, LineOf, line as int);
  }

  /** Below line 1000 the line column is exactly five characters wide, so the type labels align. */
  lemma LineColumnAligned(c: CliCall)
    requires c.call.line < 1000
    ensures |PadEnd("L" + NatToString(c.call.line), 5)| == 5
    ensures ItemLine(c)[..8] == "  " + PadEnd("L" + NatToString(c.call.line), 5) + " "
  {
    NatToStringShort(c.call.line);
  }
}
