/**
 * `generateMarkdownReport`, which packages/cli/src/reporter.ts and src/reporter.ts define
 * identically: a header with the totals, the number of calls per boundary, the twenty files with
 * the most calls and one row per call.
 */
module Markdown {
  import opened Text
  import opened Aggregate
  import opened Analyzer

  /** A text made of the given lines, each ended by a newline. */
  function Unlines(lines: seq<string>): string {
    if lines == [] then "" else Unlines(lines[..|lines| - 1]) + lines[|lines| - 1] + "\n"
  }

  lemma AppendLine(lines: seq<string>, x: string)
    ensures Unlines(lines + [x]) == Unlines(lines) + x + "\n"
  {
    assert (lines + [x])[..|lines|] == lines;
  }

  lemma UnlinesFour(a: string, b: string, c: string, d: string)
    ensures Unlines([a, b, c, d]) == a + "\n" + b + "\n" + c + "\n" + d + "\n"
  {
    AppendLine([a, b, c], d);
    AppendLine([a, b], c);
    AppendLine([a], b);
    AppendLine([], a);
    assert [a, b, c, d] == [a, b, c] + [d];
    assert [a, b, c] == [a, b] + [c];
    assert [a, b] == [a] + [b];
  }

  lemma {:induction false} UnlinesAppend(a: seq<string>, b: seq<string>)
    ensures Unlines(a + b) == Unlines(a) + Unlines(b)
    decreases |b|
  {
    if b == [] {
      assert a + b == a;
    } else {
      var front := b[..|b| - 1];
      assert a + b == (a + front) + [b[|b| - 1]];
      UnlinesAppend(a, front);
      AppendLine(a + front, b[|b| - 1]);
    }
  }

  /** The text of the lines is the lines joined with newlines, plus a final newline. */
  lemma {:induction false} UnlinesJoin(lines: seq<string>)
    ensures Unlines(lines) == Join(lines + [""], '\n')
  {
    if lines != [] {
      var front := lines[..|lines| - 1];
      var last := lines[|lines| - 1];
      UnlinesJoin(front);
      assert front + [last] == lines;
      if front == [] {
        assert Join([last, ""], '\n') == last + ['\n'] + Join([""], '\n');
      } else {
        JoinSnoc(front, last, '\n');
        JoinSnoc(front + [last], "", '\n');
        JoinSnoc(front, "", '\n');
        assert Join(front, '\n') + "\n" + last + "\n" == Join(front, '\n') + ['\n'] + last + ['\n'] + "";
      }
    }
  }

  // ---------------------------------------------------------------------------------------
  // The report, line by line

  function Boundaries(calls: seq<TrpcCall>): (r: seq<string>)
    ensures |r| == |calls| && forall i :: 0 <= i < |calls| ==> r[i] == calls[i].boundary
  {
    seq(|calls|, i requires 0 <= i < |calls| => calls[i].boundary)
  }

  function Files(calls: seq<TrpcCall>): (r: seq<string>)
    ensures |r| == |calls| && forall i :: 0 <= i < |calls| ==> r[i] == calls[i].file
  {
    seq(|calls|, i requires 0 <= i < |calls| => calls[i].file)
  }

  /** The comparator `(a, b) => b[1] - a[1]` as a sort key: more calls first. */
  function MoreCallsFirst(e: Entry): int {
    -(e.count as int)
  }

  /** `calls.reduce` by boundary, then `Object.entries`. */
  function SummaryEntries(calls: seq<TrpcCall>): seq<Entry> {
    Tally(Boundaries(calls))
  }

  /** `Object.entries(fileRanking).sort(...)`: the files by descending number of calls. */
  function RankedFiles(calls: seq<TrpcCall>): seq<Entry> {
    SortBy(Tally(Files(calls)), MoreCallsFirst)
  }

  /** A row `| key | count |` */
  function CountRow(e: Entry): string {
    "| " + e.key + " | " + NatToString(e.count) + " |"
  }

  function CountRows(entries: seq<Entry>): (rows: seq<string>)
    ensures |rows| == |entries| && forall i :: 0 <= i < |entries| ==> rows[i] == CountRow(entries[i])
  {
    if entries == [] then [] else CountRows(entries[..|entries| - 1]) + [CountRow(entries[|entries| - 1])]
  }

  /** A row of the detailed call list: procedure, method, boundary and `file:line`. */
  function DetailRow(c: TrpcCall): string {
    "| `" + c.procedurePath + "` | `" + c.methodName + "` | " + c.boundary + " | `" + c.file + ":" + NatToString(c.line) + "` |"
  }

  function DetailRows(calls: seq<TrpcCall>): (rows: seq<string>)
    ensures |rows| == |calls| && forall i :: 0 <= i < |calls| ==> rows[i] == DetailRow(calls[i])
  {
    if calls == [] then [] else DetailRows(calls[..|calls| - 1]) + [DetailRow(calls[|calls| - 1])]
  }

  function HeaderLines(result: AnalysisResult): seq<string> {
    ["# tRPC Boundary Report", "",
     "Analyzed **" + NatToString(result.fileCount) + "** files. Found **" + NatToString(|result.calls|) + "** network boundary crossings.", ""]
  }

  const SummaryHead: seq<string> := ["## Summary by Boundary", "", "| Boundary | Count |", "| --- | --- |"]
  const RankingHead: seq<string> := ["## Top Files by tRPC Calls", "", "| File | Call Count |", "| --- | --- |"]
  const DetailHead: seq<string> := ["## Detailed Call List", "", "| Procedure | Method | Boundary | File:Line |", "| --- | --- | --- | --- |"]

  /** The lines of the report. */
  function ReportLines(result: AnalysisResult): seq<string> {
    HeaderLines(result)
    + SummaryHead + CountRows(SummaryEntries(result.calls)) + [""]
    + RankingHead + CountRows(Take(RankedFiles(result.calls), 20)) + [""]
    + DetailHead + DetailRows(result.calls)
  }

  /** The report `generateMarkdownReport` returns. */
  function MarkdownReport(result: AnalysisResult): string {
    Unlines(ReportLines(result))
  }

  // ---------------------------------------------------------------------------------------
  // The generator

  lemma CountRowsStep(entries: seq<Entry>, i: nat)
    requires i < |entries|
    ensures Unlines(CountRows(entries[..i + 1])) == Unlines(CountRows(entries[..i])) + CountRow(entries[i]) + "\n"
  {
    assert entries[..i + 1][..i] == entries[..i];
    AppendLine(CountRows(entries[..i]), CountRow(entries[i]));
  }

  lemma DetailRowsStep(calls: seq<TrpcCall>, i: nat)
    requires i < |calls|
    ensures Unlines(DetailRows(calls[..i + 1])) == Unlines(DetailRows(calls[..i])) + DetailRow(calls[i]) + "\n"
  {
    assert calls[..i + 1][..i] == calls[..i];
    AppendLine(DetailRows(calls[..i]), DetailRow(calls[i]));
  }

  /** The `report += ...` loop over `Object.entries` of a count object. */
  method AppendCountRows(report: string, entries: seq<Entry>) returns (r: string)
    ensures r == report + Unlines(CountRows(entries))
  {
    var rows := "";
    var i := 0;
    while i < |entries|
      invariant 0 <= i <= |entries|
      invariant rows == Unlines(CountRows(entries[..i]))
    {
      CountRowsStep(entries, i);
      rows := rows + CountRow(entries[i]) + "\n";
      i := i + 1;
    }
    assert entries[..i] == entries;
    r := report + rows;
  }

  /** The `calls.forEach` that appends one row per call. */
  method AppendDetailRows(report: string, calls: seq<TrpcCall>) returns (r: string)
    ensures r == report + Unlines(DetailRows(calls))
  {
    var rows := "";
    var i := 0;
    while i < |calls|
      invariant 0 <= i <= |calls|
      invariant rows == Unlines(DetailRows(calls[..i]))
    {
      DetailRowsStep(calls, i);
      rows := rows + DetailRow(calls[i]) + "\n";
      i := i + 1;
    }
    assert calls[..i] == calls;
    r := report + rows;
  }

  /** Appending the text of further lines to the text of some lines. */
  lemma Appended(lines: seq<string>, report: string, more: seq<string>, text: string)
    requires report == Unlines(lines) && text == Unlines(more)
    ensures report + text == Unlines(lines + more)
  {
    UnlinesAppend(lines, more);
  }

  lemma Concat3(r: string, a: string, b: string, c: string)
    ensures r + a + b + c == r + (a + b + c)
  {
  }

  /** The literal headings as lines. */
  lemma TitleText()
    ensures Unlines(["# tRPC Boundary Report", ""]) == "# tRPC Boundary Report\n\n"
    ensures Unlines([""]) == "\n"
  {
    AppendLine(["# tRPC Boundary Report"], "");
    AppendLine([], "# tRPC Boundary Report");
    AppendLine([], "");
    assert ["# tRPC Boundary Report", ""] == ["# tRPC Boundary Report"] + [""];
  }

  lemma SummaryHeadText()
    ensures Unlines(SummaryHead) == "## Summary by Boundary\n\n" + "| Boundary | Count |\n" + "| --- | --- |\n"
  {
    UnlinesFour(SummaryHead[0], SummaryHead[1], SummaryHead[2], SummaryHead[3]);
  }

  lemma RankingHeadText()
    ensures Unlines(RankingHead) == "## Top Files by tRPC Calls\n\n" + "| File | Call Count |\n" + "| --- | --- |\n"
  {
    UnlinesFour(RankingHead[0], RankingHead[1], RankingHead[2], RankingHead[3]);
  }

  lemma DetailHeadText()
    ensures Unlines(DetailHead) == "## Detailed Call List\n\n" + "| Procedure | Method | Boundary | File:Line |\n" + "| --- | --- | --- | --- |\n"
  {
    UnlinesFour(DetailHead[0], DetailHead[1], DetailHead[2], DetailHead[3]);
  }

  /** The totals line. */
  lemma TotalsLine(files: string, calls: string)
    ensures Unlines(["Analyzed **" + files + "** files. Found **" + calls + "** network boundary crossings.", ""])
      == "Analyzed **" + files + "** files. Found **" + calls + "** network boundary crossings.\n\n"
  {
    var l := "Analyzed **" + files + "** files. Found **" + calls + "** network boundary crossings.";
    AppendLine([l], "");
    AppendLine([], l);
    assert [l, ""] == [l] + [""];
  }

  /** `generateMarkdownReport(result)` */
  method GenerateMarkdownReport(result: AnalysisResult) returns (report: string)
    ensures report == MarkdownReport(result)
  {
    TitleText();
    SummaryHeadText();
    RankingHeadText();
    DetailHeadText();
    var calls := result.calls;
    report := "# tRPC Boundary Report\n\n";
    ghost var lines: seq<string> := ["# tRPC Boundary Report", ""];
    var totals := "Analyzed **" + NatToString(result.fileCount) + "** files. Found **" + NatToString(|calls|) + "** network boundary crossings.\n\n";
    TotalsLine(NatToString(result.fileCount), NatToString(|calls|));
    Appended(lines, report, [HeaderLines(result)[2], ""], totals);
    report := report + totals;
    lines := lines + [HeaderLines(result)[2], ""];
    assert lines == HeaderLines(result);

    var summary := CountByKey(Boundaries(calls));
    Concat3(report, "## Summary by Boundary\n\n", "| Boundary | Count |\n", "| --- | --- |\n");
    Appended(lines, report, SummaryHead, Unlines(SummaryHead));
    report := report + "## Summary by Boundary\n\n";
    report := report + "| Boundary | Count |\n";
    report := report + "| --- | --- |\n";
    lines := lines + SummaryHead;
    Appended(lines, report, CountRows(summary), Unlines(CountRows(summary)));
    report := AppendCountRows(report, summary);
    lines := lines + CountRows(summary);
    Appended(lines, report, [""], "\n");
    report := report + "\n";
    lines := lines + [""];

    var fileRanking := CountByKey(Files(calls));
    var sortedFiles := SortBy(fileRanking, MoreCallsFirst);
    Concat3(report, "## Top Files by tRPC Calls\n\n", "| File | Call Count |\n", "| --- | --- |\n");
    Appended(lines, report, RankingHead, Unlines(RankingHead));
    report := report + "## Top Files by tRPC Calls\n\n";
    report := report + "| File | Call Count |\n";
    report := report + "| --- | --- |\n";
    lines := lines + RankingHead;
    var top := Take(sortedFiles, 20);
    Appended(lines, report, CountRows(top), Unlines(CountRows(top)));
    report := AppendCountRows(report, top);
    lines := lines + CountRows(top);
    Appended(lines, report, [""], "\n");
    report := report + "\n";
    lines := lines + [""];

    Concat3(report, "## Detailed Call List\n\n", "| Procedure | Method | Boundary | File:Line |\n", "| --- | --- | --- | --- |\n");
    Appended(lines, report, DetailHead, Unlines(DetailHead));
    report := report + "## Detailed Call List\n\n";
    report := report + "| Procedure | Method | Boundary | File:Line |\n";
    report := report + "| --- | --- | --- | --- |\n";
    lines := lines + DetailHead;
    Appended(lines, report, DetailRows(calls), Unlines(DetailRows(calls)));
    report := AppendDetailRows(report, calls);
    lines := lines + DetailRows(calls);
    assert lines == ReportLines(result);
  }

  // ---------------------------------------------------------------------------------------
  // What the report says

  /** Every line of the report is one line of the text when no field holds a line break. */
  predicate SingleLineFields(calls: seq<TrpcCall>) {
    forall i :: 0 <= i < |calls| ==>
      '\n' !in calls[i].procedurePath && '\n' !in calls[i].methodName && '\n' !in calls[i].boundary && '\n' !in calls[i].file
  }

  predicate NoBreaks(lines: seq<string>) {
    forall k :: 0 <= k < |lines| ==> '\n' !in lines[k]
  }

  lemma DigitsNoBreak(n: nat)
    ensures '\n' !in NatToString(n)
  {
  }

  lemma NoBreakConcat(a: string, b: string)
    requires '\n' !in a && '\n' !in b
    ensures '\n' !in a + b
  {
  }

  lemma CountRowNoBreak(e: Entry)
    requires '\n' !in e.key
    ensures '\n' !in CountRow(e)
  {
    assert '\n' !in "| " && '\n' !in " | " && '\n' !in " |";
    DigitsNoBreak(e.count);
    NoBreakConcat("| ", e.key);
    NoBreakConcat("| " + e.key, " | ");
    NoBreakConcat("| " + e.key + " | ", NatToString(e.count));
    NoBreakConcat("| " + e.key + " | " + NatToString(e.count), " |");
  }

  lemma CountRowsNoBreaks(entries: seq<Entry>)
    requires forall i :: 0 <= i < |entries| ==> '\n' !in entries[i].key
    ensures NoBreaks(CountRows(entries))
  {
    forall k | 0 <= k < |entries|
      ensures '\n' !in CountRows(entries)[k]
    {
      CountRowNoBreak(entries[k]);
    }
  }

  lemma DetailRowsNoBreaks(calls: seq<TrpcCall>)
    requires SingleLineFields(calls)
    ensures NoBreaks(DetailRows(calls))
  {
    forall k | 0 <= k < |calls|
      ensures '\n' !in DetailRow(calls[k])
    {
      DigitsNoBreak(calls[k].line);
    }
  }

  lemma HeaderNoBreaks(result: AnalysisResult)
    ensures NoBreaks(HeaderLines(result))
  {
    DigitsNoBreak(result.fileCount);
    DigitsNoBreak(|result.calls|);
  }

  lemma SummaryHeadNoBreaks()
    ensures NoBreaks(SummaryHead)
  {
    assert '\n' !in "## Summary by Boundary";
    assert '\n' !in "";
    assert '\n' !in "| Boundary | Count |";
    assert '\n' !in "| --- | --- |";
    assert SummaryHead == ["## Summary by Boundary", "", "| Boundary | Count |", "| --- | --- |"];
  }

  lemma RankingHeadNoBreaks()
    ensures NoBreaks(RankingHead)
  {
    assert '\n' !in "## Top Files by tRPC Calls";
    assert '\n' !in "";
    assert '\n' !in "| File | Call Count |";
    assert '\n' !in "| --- | --- |";
    assert RankingHead == ["## Top Files by tRPC Calls", "", "| File | Call Count |", "| --- | --- |"];
  }

  lemma DetailColumnsNoBreak()
    ensures '\n' !in "| Procedure | Method | Boundary | File:Line |"
  {
    assert '\n' !in "| Procedure | Method ";
    assert '\n' !in "| Boundary | File:Line |";
  }

  lemma DetailHeadNoBreaks()
    ensures NoBreaks(DetailHead)
  {
    assert '\n' !in "## Detailed Call List";
    assert '\n' !in "";
    DetailColumnsNoBreak();
    assert '\n' !in "| --- | --- | --- | --- |";
    assert DetailHead == ["## Detailed Call List", "", "| Procedure | Method | Boundary | File:Line |", "| --- | --- | --- | --- |"];
  }

  lemma NoBreaksAppend(a: seq<string>, b: seq<string>)
    requires NoBreaks(a) && NoBreaks(b)
    ensures NoBreaks(a + b)
  {
  }

  lemma ReportLinesNoBreaks(result: AnalysisResult)
    requires SingleLineFields(result.calls)
    ensures NoBreaks(ReportLines(result))
  {
    var calls := result.calls;
    HeaderNoBreaks(result);
    SummaryHeadNoBreaks();
    RankingHeadNoBreaks();
    DetailHeadNoBreaks();
    assert NoBreaks([""]);
    var s := SummaryEntries(calls);
    forall i | 0 <= i < |s|
      ensures '\n' !in s[i].key
    {
      TallyEntryCount(Boundaries(calls), i);
    }
    CountRowsNoBreaks(s);
    var k := Take(RankedFiles(calls), 20);
    forall i | 0 <= i < |k|
      ensures '\n' !in k[i].key
    {
      RankedFileCounts(calls, i);
    }
    CountRowsNoBreaks(k);
    DetailRowsNoBreaks(calls);
    var h := HeaderLines(result);
    NoBreaksAppend(h, SummaryHead);
    NoBreaksAppend(h + SummaryHead, CountRows(s));
    NoBreaksAppend(h + SummaryHead + CountRows(s), [""]);
    NoBreaksAppend(h + SummaryHead + CountRows(s) + [""], RankingHead);
    NoBreaksAppend(h + SummaryHead + CountRows(s) + [""] + RankingHead, CountRows(k));
    NoBreaksAppend(h + SummaryHead + CountRows(s) + [""] + RankingHead + CountRows(k), [""]);
    NoBreaksAppend(h + SummaryHead + CountRows(s) + [""] + RankingHead + CountRows(k) + [""], DetailHead);
    NoBreaksAppend(h + SummaryHead + CountRows(s) + [""] + RankingHead + CountRows(k) + [""] + DetailHead, DetailRows(calls));
  }

  /** Splitting the report at line breaks gives exactly its lines, then the empty text after the last break. */
  lemma ReportSplitsIntoLines(result: AnalysisResult)
    requires SingleLineFields(result.calls)
    ensures Split(MarkdownReport(result), '\n') == ReportLines(result) + [""]
  {
    var lines := ReportLines(result);
    ReportLinesNoBreaks(result);
    UnlinesJoin(lines);
    SplitJoin(lines + [""], '\n');
  }

  /** The header states the number of files and the number of calls. */
  lemma HeaderTotals(result: AnalysisResult)
    ensures ReportLines(result)[2] == "Analyzed **" + NatToString(result.fileCount) + "** files. Found **" + NatToString(|result.calls|) + "** network boundary crossings."
    ensures DigitsValue(NatToString(result.fileCount)) == result.fileCount
    ensures DigitsValue(NatToString(|result.calls|)) == |result.calls|
  {
    var h := HeaderLines(result);
    var afterSummary := h + SummaryHead + CountRows(SummaryEntries(result.calls)) + [""];
    assert afterSummary[2] == h[2];
    assert ReportLines(result)[2] == afterSummary[2];
    NatToStringValue(result.fileCount);
    NatToStringValue(|result.calls|);
  }

  /** A boundary has a summary row exactly when some call has it, and at most one. */
  lemma SummaryRowPerBoundary(calls: seq<TrpcCall>, b: string)
    ensures (exists i :: 0 <= i < |SummaryEntries(calls)| && SummaryEntries(calls)[i].key == b) <==> b in Boundaries(calls)
    ensures DistinctKeys(SummaryEntries(calls))
  {
    var keys := Boundaries(calls);
    var t := SummaryEntries(calls);
    TallyDistinct(keys);
    TallyCounts(keys, b);
    if exists i :: 0 <= i < |t| && t[i].key == b {
      var i :| 0 <= i < |t| && t[i].key == b;
      TallyEntryCount(keys, i);
    }
  }

  /** Each summary row counts the calls with its boundary, and the rows add up to the total. */
  lemma SummaryRowCounts(calls: seq<TrpcCall>, i: nat)
    requires i < |SummaryEntries(calls)|
    ensures SummaryEntries(calls)[i].count == Occurrences(Boundaries(calls), SummaryEntries(calls)[i].key) > 0
  {
    var keys := Boundaries(calls);
    TallyEntryCount(keys, i);
    OccurrencesPositive(keys, SummaryEntries(calls)[i].key);
  }

  /** The summary rows add up to the total number of calls. */
  lemma SummaryTotal(calls: seq<TrpcCall>)
    ensures SumCounts(SummaryEntries(calls)) == |calls|
  {
    TallySum(Boundaries(calls));
  }

  /** Summary rows come in the order in which their boundaries first appear among the calls. */
  lemma SummaryRowOrder(calls: seq<TrpcCall>)
    ensures forall i, j :: 0 <= i < j < |SummaryEntries(calls)| ==>
      FirstIndex(Boundaries(calls), SummaryEntries(calls)[i].key) < FirstIndex(Boundaries(calls), SummaryEntries(calls)[j].key)
  {
    TallyFirstOccurrenceOrder(Boundaries(calls));
  }

  /** Each ranked file is a file of the calls, counted correctly. */
  lemma RankedFileCounts(calls: seq<TrpcCall>, i: nat)
    requires i < |RankedFiles(calls)|
    ensures RankedFiles(calls)[i].key in Files(calls)
    ensures RankedFiles(calls)[i].count == Occurrences(Files(calls), RankedFiles(calls)[i].key)
  {
    var t := Tally(Files(calls));
    var r := RankedFiles(calls);
    SortByPermutes(t, MoreCallsFirst);
    assert r[i] in multiset(t);
    var j :| 0 <= j < |t| && t[j] == r[i];
    TallyEntryCount(Files(calls), j);
  }

  /** Every file with a call is ranked exactly once. */
  lemma RankedFilesComplete(calls: seq<TrpcCall>, f: string)
    requires f in Files(calls)
    ensures exists i :: 0 <= i < |RankedFiles(calls)| && RankedFiles(calls)[i].key == f
    ensures DistinctKeys(RankedFiles(calls))
  {
    var keys := Files(calls);
    var t := Tally(keys);
    TallyCounts(keys, f);
    TallyDistinct(keys);
    SortByPermutes(t, MoreCallsFirst);
    SortByDistinct(t, MoreCallsFirst, EntryKey);
    assert DistinctBy(RankedFiles(calls), EntryKey);
    var e := t[EntryIndex(t, f)];
    assert e in multiset(RankedFiles(calls));
  }

  /** Files are ranked by descending number of calls. */
  lemma RankedFilesDescending(calls: seq<TrpcCall>)
    ensures forall i, j :: 0 <= i < j < |RankedFiles(calls)| ==> RankedFiles(calls)[i].count >= RankedFiles(calls)[j].count
  {
    SortBySorted(Tally(Files(calls)), MoreCallsFirst);
  }

  /** Files with the same number of calls keep the order in which they first appear. */
  lemma RankedFilesStable(calls: seq<TrpcCall>, n: nat)
    ensures WithKey(RankedFiles(calls), MoreCallsFirst, -(n as int)) == WithKey(Tally(Files(calls)), MoreCallsFirst, -(n as int))
  {
    SortByStable(Tally(Files(calls)), MoreCallsFirst, -(n as int));
  }

  /** The table lists at most twenty files, and no file left out has more calls than one listed. */
  lemma TopFilesTable(calls: seq<TrpcCall>)
    ensures |Take(RankedFiles(calls), 20)| <= 20
    ensures |Take(RankedFiles(calls), 20)| == |RankedFiles(calls)| || |Take(RankedFiles(calls), 20)| == 20
    ensures forall i, j :: 0 <= i < |Take(RankedFiles(calls), 20)| <= j < |RankedFiles(calls)| ==>
      Take(RankedFiles(calls), 20)[i].count >= RankedFiles(calls)[j].count
  {
    RankedFilesDescending(calls);
  }
}
