/**
 * The command-line analyser (src/analyzer.ts): every call expression whose callee text starts
 * with `trpc.` or `api.` is recorded with its procedure path, its method (the last dotted
 * segment), its file, its line and the boundary label of its file.
 */
module Analyzer {
  import opened Wrappers
  import opened Text
  import opened Utils

  /** `TRPCCall`; the source's field `method` is `methodName` here (`method` is a keyword). */
  datatype TrpcCall = TrpcCall(procedurePath: string, methodName: string, file: string, line: nat, boundary: string)

  /** `AnalysisResult` */
  datatype AnalysisResult = AnalysisResult(calls: seq<TrpcCall>, fileCount: nat)

  /** A call expression as the parser reports it: the text of its callee and its start line. */
  datatype CallSite = CallSite(calleeText: string, line: nat)

  /** A source file: its absolute path, its full text and its call expressions in traversal order. */
  datatype SourceFile = SourceFile(path: string, text: string, sites: seq<CallSite>)

  /** The textual test of line 51. */
  predicate HasTrpcRoot(text: string) {
    StartsWith(text, "trpc.") || StartsWith(text, "api.")
  }

  /** The root the text starts with. */
  function Root(text: string): string {
    if StartsWith(text, "trpc.") then "trpc" else "api"
  }

  /**
   * The procedure path and method of a callee text: the text is split on `.`, the method is the
   * last segment and the procedure path the segments between the first and the last, joined
   * with `.`.
   */
  function ExtractCall(text: string): Option<(string, string)> {
    if HasTrpcRoot(text) then
      var parts := Split(text, '.');
      if |parts| >= 2 then Some((Join(parts[1..|parts| - 1], '.'), parts[|parts| - 1])) else None
    else None
  }

  /** The record of one call site, if its callee is textually an RPC call; `file` and `boundary` belong to its file. */
  function RecordOf(site: CallSite, file: string, boundary: string): Option<TrpcCall> {
    match ExtractCall(site.calleeText)
    case None => None
    case Some((path, name)) => Some(TrpcCall(path, name, file, site.line, boundary))
  }

  function AsSeq<T>(o: Option<T>): seq<T> {
    match o
    case None => []
    case Some(v) => [v]
  }

  /** The records of the first `n` call sites, in order. */
  function SiteCalls(sites: seq<CallSite>, n: nat, file: string, boundary: string): seq<TrpcCall>
    requires n <= |sites|
  {
    if n == 0 then [] else SiteCalls(sites, n - 1, file, boundary) + AsSeq(RecordOf(sites[n - 1], file, boundary))
  }

  /** The path recorded for a file: the first occurrence of the working directory replaced by `.`. */
  function RecordedPath(f: SourceFile, cwd: string): string {
    ReplaceFirst(f.path, cwd, ".")
  }

  /** The label every call of the file carries (computed once per file). */
  function FileBoundary(f: SourceFile, sep: char): string {
    GetBoundaryLabel(f.text, f.path, sep)
  }

  function FileCalls(f: SourceFile, cwd: string, sep: char): seq<TrpcCall> {
    SiteCalls(f.sites, |f.sites|, RecordedPath(f, cwd), FileBoundary(f, sep))
  }

  /** The records of all files, file by file. */
  function ProjectCalls(files: seq<SourceFile>, cwd: string, sep: char): seq<TrpcCall> {
    if files == [] then [] else ProjectCalls(files[..|files| - 1], cwd, sep) + FileCalls(files[|files| - 1], cwd, sep)
  }

  /** The inner `forEach` of `analyzeProject`: the records of one file's call sites, in order. */
  method CollectFileCalls(sites: seq<CallSite>, file: string, boundary: string) returns (found: seq<TrpcCall>)
    ensures found == SiteCalls(sites, |sites|, file, boundary)
  {
    found := [];
    var j := 0;
    while j < |sites|
      invariant 0 <= j <= |sites|
      invariant found == SiteCalls(sites, j, file, boundary)
    {
      var record := RecordOf(sites[j], file, boundary);
      if record.Some? {
        found := found + [record.value];
      }
      j := j + 1;
    }
  }

  /** `analyzeProject` over the files the project loader found; `cwd` is the process's working directory, `sep` the path separator. */
  method AnalyzeProject(files: seq<SourceFile>, cwd: string, sep: char) returns (result: AnalysisResult)
    ensures result.calls == ProjectCalls(files, cwd, sep)
    ensures result.fileCount == |files|
  {
    var calls: seq<TrpcCall> := [];
    var k := 0;
    while k < |files|
      invariant 0 <= k <= |files|
      invariant calls == ProjectCalls(files[..k], cwd, sep)
    {
      var f := files[k];
      var boundary := GetBoundaryLabel(f.text, f.path, sep);
      var file := ReplaceFirst(f.path, cwd, ".");
      var found := CollectFileCalls(f.sites, file, boundary);
      assert found == FileCalls(f, cwd, sep);
      ProjectCallsStep(files, k, cwd, sep);
      calls := calls + found;
      k := k + 1;
    }
    assert files[..k] == files;
    result := AnalysisResult(calls, |files|);
  }

  lemma ProjectCallsStep(files: seq<SourceFile>, k: nat, cwd: string, sep: char)
    requires k < |files|
    ensures ProjectCalls(files[..k + 1], cwd, sep) == ProjectCalls(files[..k], cwd, sep) + FileCalls(files[k], cwd, sep)
  {
    assert files[..k + 1][..k] == files[..k];
  }

  // ---------------------------------------------------------------------------------------
  // Properties

  /** The first segment of a split is everything before the first separator. */
  lemma SplitFirst(s: string, c: char)
    ensures Split(s, c)[0] == s[..IndexOfChar(s, c)]
  {
  }

  /** A root prefix guarantees two segments, so the length guard of line 53 never fails. */
  lemma RootedTextSplits(text: string)
    requires HasTrpcRoot(text)
    ensures |Split(text, '.')| >= 2
    ensures Split(text, '.')[0] == Root(text)
  {
    var r := Root(text);
    assert text[..|r| + 1] == r + ".";
    assert text[|r|] == '.';
    assert forall j :: 0 <= j < |r| ==> text[j] == r[j] != '.';
    assert IndexOfChar(text, '.') == |r|;
  }

  /** A call is recorded exactly when its callee text starts with `trpc.` or `api.`. */
  lemma ExtractCallExactlyRooted(text: string)
    ensures ExtractCall(text).Some? <==> HasTrpcRoot(text)
  {
    if HasTrpcRoot(text) {
      RootedTextSplits(text);
    }
  }

  /** Joining at least two parts: the first, the joined middle (when there is one) and the last. */
  lemma JoinEnds(parts: seq<string>, c: char)
    requires |parts| >= 2
    ensures |parts| == 2 ==> Join(parts, c) == parts[0] + [c] + parts[1]
    ensures |parts| > 2 ==> Join(parts, c) == parts[0] + [c] + Join(parts[1..|parts| - 1], c) + [c] + parts[|parts| - 1]
  {
    if |parts| > 2 {
      assert parts[1..] == parts[1..|parts| - 1] + [parts[|parts| - 1]];
      JoinSnoc(parts[1..|parts| - 1], parts[|parts| - 1], c);
    }
  }

  /**
   * The recorded method has no `.`, and the text is recovered from the root, the procedure path
   * and the method: `root.method` when there are two segments (the path is then empty) and
   * `root.path.method` otherwise.
   */
  lemma ExtractCallReassembles(text: string)
    requires HasTrpcRoot(text)
    ensures ExtractCall(text).Some?
    ensures var (path, name) := ExtractCall(text).value;
      && '.' !in name
      && (|Split(text, '.')| == 2 ==> path == "" && text == Root(text) + "." + name)
      && (|Split(text, '.')| > 2 ==> text == Root(text) + "." + path + "." + name)
  {
    RootedTextSplits(text);
    var parts := Split(text, '.');
    JoinSplit(text, '.');
    SplitPartsAvoid(text, '.');
    JoinEnds(parts, '.');
  }

  /** `c` is the record of one of the first `n` call sites. */
  ghost predicate FromSite(sites: seq<CallSite>, n: nat, file: string, boundary: string, c: TrpcCall) {
    exists j :: 0 <= j < n && j < |sites| && RecordOf(sites[j], file, boundary) == Some(c)
  }

  /** `c` is the record of a call site of one of `files`. */
  ghost predicate FromProject(files: seq<SourceFile>, cwd: string, sep: char, c: TrpcCall) {
    exists k :: 0 <= k < |files| && FromSite(files[k].sites, |files[k].sites|, RecordedPath(files[k], cwd), FileBoundary(files[k], sep), c)
  }

  /** Every record of the first `n` sites is the record of one of them. */
  lemma {:induction false} SiteCallsSound(sites: seq<CallSite>, n: nat, file: string, boundary: string)
    requires n <= |sites|
    ensures forall c :: c in SiteCalls(sites, n, file, boundary) ==> FromSite(sites, n, file, boundary, c)
  {
    if n > 0 {
      SiteCallsSound(sites, n - 1, file, boundary);
      forall c | c in SiteCalls(sites, n, file, boundary)
        ensures FromSite(sites, n, file, boundary, c)
      {
        if c in SiteCalls(sites, n - 1, file, boundary) {
          var j :| 0 <= j < n - 1 && j < |sites| && RecordOf(sites[j], file, boundary) == Some(c);
          assert 0 <= j < n;
        } else {
          assert RecordOf(sites[n - 1], file, boundary) == Some(c);
        }
      }
    }
  }

  /** Every one of the first `n` call sites whose callee is an RPC call has its record among them. */
  lemma {:induction false} SiteCallsComplete(sites: seq<CallSite>, n: nat, file: string, boundary: string)
    requires n <= |sites|
    ensures forall j :: 0 <= j < n && RecordOf(sites[j], file, boundary).Some? ==>
      RecordOf(sites[j], file, boundary).value in SiteCalls(sites, n, file, boundary)
  {
    if n > 0 {
      SiteCallsComplete(sites, n - 1, file, boundary);
      var front := SiteCalls(sites, n - 1, file, boundary);
      var tail := AsSeq(RecordOf(sites[n - 1], file, boundary));
      assert SiteCalls(sites, n, file, boundary) == front + tail;
      forall j | 0 <= j < n && RecordOf(sites[j], file, boundary).Some?
        ensures RecordOf(sites[j], file, boundary).value in front + tail
      {
        if j == n - 1 {
          assert tail == [RecordOf(sites[j], file, boundary).value];
        }
      }
    }
  }

  /**
   * Every record comes from a call site, with an RPC callee, of one of the files, and carries
   * that file's recorded path and boundary label.
   */
  lemma {:induction false} ProjectCallsSound(files: seq<SourceFile>, cwd: string, sep: char)
    ensures forall c :: c in ProjectCalls(files, cwd, sep) ==> FromProject(files, cwd, sep, c)
  {
    if files != [] {
      var front := files[..|files| - 1];
      var last := files[|files| - 1];
      ProjectCallsSound(front, cwd, sep);
      SiteCallsSound(last.sites, |last.sites|, RecordedPath(last, cwd), FileBoundary(last, sep));
      forall c | c in ProjectCalls(files, cwd, sep)
        ensures FromProject(files, cwd, sep, c)
      {
        if c in ProjectCalls(front, cwd, sep) {
          var k :| 0 <= k < |front| && FromSite(front[k].sites, |front[k].sites|, RecordedPath(front[k], cwd), FileBoundary(front[k], sep), c);
          assert files[k] == front[k];
        } else {
          assert c in FileCalls(last, cwd, sep);
          assert files[|files| - 1] == last;
        }
      }
    }
  }

  /** The records of each file all appear among the project's records. */
  lemma FileCallsIncluded(files: seq<SourceFile>, cwd: string, sep: char, k: nat, c: TrpcCall)
    requires k < |files| && c in FileCalls(files[k], cwd, sep)
    ensures c in ProjectCalls(files, cwd, sep)
  {
    ProjectCallsFlatten(files, cwd, sep);
    FlattenIncludes(files, FileCallsOf(cwd, sep), k, c);
  }

  /** `FileCalls` as a function value, so that the project's records are a flattening. */
  function FileCallsOf(cwd: string, sep: char): SourceFile -> seq<TrpcCall> {
    f => FileCalls(f, cwd, sep)
  }

  /** The concatenation of `f(x)` over `xs`, in order. */
  function Flatten<X, Y>(xs: seq<X>, f: X -> seq<Y>): seq<Y> {
    if xs == [] then [] else Flatten(xs[..|xs| - 1], f) + f(xs[|xs| - 1])
  }

  /** Every element of one `f(xs[k])` is in the flattening. */
  lemma {:induction false} FlattenIncludes<X, Y>(xs: seq<X>, f: X -> seq<Y>, k: nat, c: Y)
    requires k < |xs| && c in f(xs[k])
    ensures c in Flatten(xs, f)
  {
    var front := xs[..|xs| - 1];
    if k < |front| {
      assert front[k] == xs[k];
      FlattenIncludes(front, f, k, c);
    }
  }

  /** The project's records are the flattening of the files' records. */
  lemma {:induction false} ProjectCallsFlatten(files: seq<SourceFile>, cwd: string, sep: char)
    ensures ProjectCalls(files, cwd, sep) == Flatten(files, FileCallsOf(cwd, sep))
  {
    if files != [] {
      ProjectCallsFlatten(files[..|files| - 1], cwd, sep);
    }
  }

  /** Every call site, in every file, whose callee is an RPC call is recorded. */
  lemma ProjectCallsComplete(files: seq<SourceFile>, cwd: string, sep: char, k: nat, j: nat)
    requires k < |files| && j < |files[k].sites|
    requires RecordOf(files[k].sites[j], RecordedPath(files[k], cwd), FileBoundary(files[k], sep)).Some?
    ensures RecordOf(files[k].sites[j], RecordedPath(files[k], cwd), FileBoundary(files[k], sep)).value in ProjectCalls(files, cwd, sep)
  {
    var f := files[k];
    SiteCallsComplete(f.sites, |f.sites|, RecordedPath(f, cwd), FileBoundary(f, sep));
    FileCallsIncluded(files, cwd, sep, k, RecordOf(files[k].sites[j], RecordedPath(files[k], cwd), FileBoundary(files[k], sep)).value);
  }

  /** A record carries the line of its call site and the parts of its callee. */
  lemma RecordFields(site: CallSite, file: string, boundary: string)
    requires HasTrpcRoot(site.calleeText)
    ensures RecordOf(site, file, boundary).Some?
    ensures var r := RecordOf(site, file, boundary).value;
      && r.file == file && r.boundary == boundary && r.line == site.line
      && (r.procedurePath, r.methodName) == ExtractCall(site.calleeText).value
  {
    ExtractCallExactlyRooted(site.calleeText);
  }
}
