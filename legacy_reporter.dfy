/**
 * The console summary of the root package (src/reporter.ts): totals, the calls per boundary and
 * the five files with the most calls, modelled as the strings passed to `console.log`, without
 * the terminal colours. Its Markdown report is `Markdown.GenerateMarkdownReport`.
 */
module LegacyReporter {
  import opened Text
  import opened Aggregate
  import opened Analyzer
  import opened Markdown
  import opened Console

  /** The boundaries the summary has a line for, with their labels, in order. */
  const ComponentLabels: seq<(string, string)> := [
    ("Client", "Client Components:  "),
    ("Server (RSC)", "Server Components:  "),
    ("Edge", "Edge Components:    ")
  ]

  /** The rule under the title: 20 box-drawing characters. */
  const Rule: string := "\U{2500}\U{2500}\U{2500}\U{2500}\U{2500}\U{2500}\U{2500}\U{2500}\U{2500}\U{2500}\U{2500}\U{2500}\U{2500}\U{2500}\U{2500}\U{2500}\U{2500}\U{2500}\U{2500}\U{2500}"

  /** `- file (count)` */
  function HotspotLine(e: Entry): string {
    "- " + e.key + " " + "(" + NatToString(e.count) + ")"
  }

  function HotspotLines(entries: seq<Entry>): seq<string> {
    if entries == [] then [] else HotspotLines(entries[..|entries| - 1]) + [HotspotLine(entries[|entries| - 1])]
  }

  /** The five files with the most calls. */
  function Hotspots(calls: seq<TrpcCall>): seq<Entry> {
    Take(RankedFiles(calls), 5)
  }

  /** Everything `printConsoleSummary(result)` logs, one string per `console.log`. */
  function SummaryLines(result: AnalysisResult): seq<string> {
    ["\n" + "tRPC Boundary Summary", Rule, "Total boundary calls:" + " " + NatToString(|result.calls|)]
    + LabelLines(Tally(Boundaries(result.calls)), ComponentLabels)
    + ["\n" + "Top hotspots:"]
    + HotspotLines(Hotspots(result.calls))
    + [""]
  }

  /** The `sortedFiles.forEach` loop. */
  method PrintHotspots(entries: seq<Entry>) returns (out: seq<string>)
    ensures out == HotspotLines(entries)
  {
    out := [];
    var i := 0;
    while i < |entries|
      invariant 0 <= i <= |entries|
      invariant out == HotspotLines(entries[..i])
    {
      assert entries[..i + 1][..i] == entries[..i];
      out := out + ["- " + entries[i].key + " " + "(" + NatToString(entries[i].count) + ")"];
      i := i + 1;
    }
    assert entries[..i] == entries;
  }

  /** `printConsoleSummary(result)` */
  method PrintConsoleSummary(result: AnalysisResult) returns (out: seq<string>)
    ensures out == SummaryLines(result)
  {
    var calls := result.calls;
    out := ["\n" + "tRPC Boundary Summary", Rule, "Total boundary calls:" + " " + NatToString(|calls|)];
    var summary := CountByKey(Boundaries(calls));
    var labels := PrintLabels(summary, ComponentLabels);
    out := out + labels;
    out := out + ["\n" + "Top hotspots:"];
    var fileRanking := CountByKey(Files(calls));
    var sortedFiles := Take(SortBy(fileRanking, MoreCallsFirst), 5);
    var hotspots := PrintHotspots(sortedFiles);
    out := out + hotspots;
    out := out + [""];
  }

  // ---------------------------------------------------------------------------------------
  // What the summary says

  /**
   * The summary prints, in this order, the number of calls from client, server and edge
   * components, each only when it is non-zero; other boundaries get no line.
   */
  lemma ComponentCounts(calls: seq<TrpcCall>)
    ensures LabelLines(Tally(Boundaries(calls)), ComponentLabels) ==
      LabelLine(calls, "Client", "Client Components:  ")
      + LabelLine(calls, "Server (RSC)", "Server Components:  ")
      + LabelLine(calls, "Edge", "Edge Components:    ")
  {
    ThreeLabels(calls, ComponentLabels);
  }

  /** At most five files are listed, by descending number of calls, each with its number of calls; no file left out has more. */
  lemma HotspotsTop(calls: seq<TrpcCall>)
    ensures |Hotspots(calls)| <= 5
    ensures forall i, j :: 0 <= i < j < |Hotspots(calls)| ==> Hotspots(calls)[i].count >= Hotspots(calls)[j].count
    ensures forall i, j :: 0 <= i < |Hotspots(calls)| <= j < |RankedFiles(calls)| ==> Hotspots(calls)[i].count >= RankedFiles(calls)[j].count
    ensures forall i :: 0 <= i < |Hotspots(calls)| ==> Hotspots(calls)[i].count == Occurrences(Files(calls), Hotspots(calls)[i].key)
  {
    RankedFilesDescending(calls);
    forall i | 0 <= i < |Hotspots(calls)|
      ensures Hotspots(calls)[i].count == Occurrences(Files(calls), Hotspots(calls)[i].key)
    {
      RankedFileCounts(calls, i);
    }
  }
}
