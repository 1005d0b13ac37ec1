/**
 * The runtime package: the client link that forwards the boundary record a compile-time
 * transform stamped on a call (as request headers and as a `?__b=` suffix of the procedure
 * path), and the server-side logger that reads it back from the headers or the request URL
 * and prints one line (or two) per procedure of the request.
 */
module Runtime {
  import opened Wrappers
  import opened Text
  import opened UriCodec

  const TypeHeader: string := "x-trpc-boundary-type"
  const PathHeader: string := "x-trpc-boundary-path"
  const FileHeader: string := "x-trpc-boundary-file"
  const LineHeader: string := "x-trpc-boundary-line"
  const SideHeader: string := "x-trpc-boundary-side"
  const SourceHeader: string := "x-trpc-source"

  /** The marker the link puts between a procedure path and its encoded boundary record. */
  const MetaMarker: string := "?__b="
  const MetaParam: string := "__b"
  const ApiPrefix: string := "/api/trpc/"

  // ---------------------------------------------------------------------------------------
  // The client link

  /** The `__boundary` record of an operation's context; `line` is the number the transform wrote. */
  datatype BoundaryMeta = BoundaryMeta(file: string, line: nat, side: string)

  /** A tRPC operation as the link sees it: `op.type`, `op.path`, the stamped record, `op.context.headers`. */
  class Operation {
    const opType: string
    var path: string
    const boundary: Option<BoundaryMeta>
    var headers: map<string, string>

    constructor (opType: string, path: string, boundary: Option<BoundaryMeta>, headers: map<string, string>)
      ensures this.opType == opType && this.path == path
      ensures this.boundary == boundary && this.headers == headers
    {
      this.opType := opType;
      this.path := path;
      this.boundary := boundary;
      this.headers := headers;
    }
  }

  /** The link forwards a record only when its file name is truthy (a missing record is `{}`). */
  predicate Annotated(boundary: Option<BoundaryMeta>) {
    boundary.Some? && boundary.value.file != ""
  }

  /** `${file}:${line}:${side}` */
  function MetaToken(m: BoundaryMeta): string {
    m.file + ":" + NatToString(m.line) + ":" + m.side
  }

  /** The path the link hands on. */
  function AnnotatedPath(path: string, boundary: Option<BoundaryMeta>): (r: string)
    ensures |r| >= |path| && r[..|path|] == path
    ensures r == path <==> !Annotated(boundary)
  {
    if Annotated(boundary) then path + MetaMarker + EncodeURIComponent(MetaToken(boundary.value)) else path
  }

  /** The headers the link adds; the path header is the path as it was before the suffix. */
  function LinkHeaders(opType: string, path: string, boundary: Option<BoundaryMeta>): (r: map<string, string>)
    ensures r.Keys <= BoundaryHeaders
    ensures TypeHeader in r && r[TypeHeader] == opType && PathHeader in r && r[PathHeader] == path
    ensures FileHeader in r <==> Annotated(boundary)
  {
    var base := map[TypeHeader := opType, PathHeader := path];
    if Annotated(boundary) then
      var m := boundary.value;
      base[FileHeader := m.file][LineHeader := NatToString(m.line)][SideHeader := m.side]
    else base
  }

  /** The five headers the link may write. */
  const BoundaryHeaders: set<string> := {TypeHeader, PathHeader, FileHeader, LineHeader, SideHeader}

  /**
   * `boundaryLink`: the operation's path gets the encoded record as a suffix when the record
   * names a file, and its headers are the old ones with the boundary headers laid over them.
   */
  method BoundaryLink(op: Operation)
    modifies op
    ensures op.path == AnnotatedPath(old(op.path), op.boundary)
    ensures op.headers == old(op.headers) + LinkHeaders(op.opType, old(op.path), op.boundary)
    ensures op.headers[TypeHeader] == op.opType && op.headers[PathHeader] == old(op.path)
    ensures forall k :: k in old(op.headers) && k !in BoundaryHeaders ==> k in op.headers && op.headers[k] == old(op.headers)[k]
    ensures forall k :: k in op.headers && k !in old(op.headers) ==> k in BoundaryHeaders
  {
    var meta := op.boundary;
    var headers := map[TypeHeader := op.opType, PathHeader := op.path];
    if meta.Some? && meta.value.file != "" {
      headers := headers[FileHeader := meta.value.file];
      headers := headers[LineHeader := NatToString(meta.value.line)];
      headers := headers[SideHeader := meta.value.side];
      var metaStr := meta.value.file + ":" + NatToString(meta.value.line) + ":" + meta.value.side;
      op.path := op.path + MetaMarker + EncodeURIComponent(metaStr);
    }
    op.headers := op.headers + headers;
  }

  /** The link's headers always carry the type and the original path, and the record exactly when there is a file. */
  lemma LinkHeadersCarry(opType: string, path: string, boundary: Option<BoundaryMeta>)
    ensures var h := LinkHeaders(opType, path, boundary);
      TypeHeader in h && h[TypeHeader] == opType && PathHeader in h && h[PathHeader] == path
      && (FileHeader in h <==> Annotated(boundary))
      && (LineHeader in h <==> Annotated(boundary))
      && (SideHeader in h <==> Annotated(boundary))
      && h.Keys <= BoundaryHeaders
      && (Annotated(boundary) ==>
            h[FileHeader] == boundary.value.file && h[LineHeader] == NatToString(boundary.value.line)
            && h[SideHeader] == boundary.value.side)
  {
  }

  /** The path keeps its text and gains the marker exactly when the record names a file. */
  lemma AnnotatedPathSuffix(path: string, boundary: Option<BoundaryMeta>)
    ensures StartsWith(AnnotatedPath(path, boundary), path)
    ensures AnnotatedPath(path, boundary) == path <==> !Annotated(boundary)
    ensures Annotated(boundary) ==> Contains(AnnotatedPath(path, boundary), MetaMarker)
  {
    var p := AnnotatedPath(path, boundary);
    assert p[..|path|] == path;
    if Annotated(boundary) {
      assert |p| > |path|;
      ContainsInfix(path, MetaMarker, EncodeURIComponent(MetaToken(boundary.value)));
    }
  }

  /** Laying the link's headers over earlier ones keeps every other header and lets the boundary ones win. */
  lemma MergeKeepsPrior(prior: map<string, string>, opType: string, path: string, boundary: Option<BoundaryMeta>)
    ensures var merged := prior + LinkHeaders(opType, path, boundary);
      (forall k :: k in prior && k !in BoundaryHeaders ==> k in merged && merged[k] == prior[k])
      && merged[TypeHeader] == opType && merged[PathHeader] == path
      && (Annotated(boundary) ==> merged[FileHeader] == boundary.value.file && merged[SideHeader] == boundary.value.side)
      && (!Annotated(boundary) ==> forall k :: k in prior && k != TypeHeader && k != PathHeader ==> merged[k] == prior[k])
  {
    LinkHeadersCarry(opType, path, boundary);
  }

  // ---------------------------------------------------------------------------------------
  // Reading headers

  /** A header value of a Node request: one string or several. */
  datatype HeaderValue = Single(text: string) | Multiple(values: seq<string>)

  /** A Fetch `Headers` object or a Node header record. */
  datatype HeaderSource =
    | FetchHeaders(fetch: map<string, string>)
    | NodeHeaders(node: map<string, HeaderValue>)

  /** `getHeader(name)`: an empty Fetch header reads as missing, a Node array gives its first value. */
  function GetHeader(h: HeaderSource, name: string): (r: Option<string>)
    ensures h.FetchHeaders? ==> (r.Some? <==> name in h.fetch && h.fetch[name] != "")
    ensures h.FetchHeaders? && r.Some? ==> r.value == h.fetch[name]
    ensures h.NodeHeaders? && name !in h.node ==> r.None?
    ensures h.NodeHeaders? && name in h.node && h.node[name].Multiple? ==> (r.Some? <==> h.node[name].values != [])
    ensures h.NodeHeaders? && name in h.node && h.node[name].Multiple? && r.Some? ==> r.value == h.node[name].values[0]
    ensures h.NodeHeaders? && name in h.node && h.node[name].Single? ==> r == Some(h.node[name].text)
  {
    match h
    case FetchHeaders(fetch) =>
      if name in fetch && fetch[name] != "" then Some(fetch[name]) else None
    case NodeHeaders(node) =>
      if name !in node then None
      else match node[name]
        case Single(text) => Some(text)
        case Multiple(values) => if values == [] then None else Some(values[0])
  }

  /** JavaScript truthiness of an optional string. */
  predicate Truthy(s: Option<string>) {
    s.Some? && s.value != ""
  }

  // ---------------------------------------------------------------------------------------
  // The procedure path of a request

  /** `req.url` and `req.method`; a missing request has neither. */
  datatype Request = Request(url: Option<string>, httpMethod: Option<string>)

  /** The longest prefix of `s` holding neither `?` nor `#` (the capture `[^?#]+` runs that far). */
  function SegmentRun(s: string): (r: string)
    ensures StartsWith(s, r)
    ensures '?' !in r && '#' !in r
    ensures |r| < |s| ==> s[|r|] == '?' || s[|r|] == '#'
  {
    if s == [] || s[0] == '?' || s[0] == '#' then [] else [s[0]] + SegmentRun(s[1..])
  }

  /** The regular expression `/\/api\/trpc\/([^?#]+)/` matches at position `i`. */
  predicate MatchAt(url: string, i: nat) {
    i + |ApiPrefix| <= |url| && url[i..i + |ApiPrefix|] == ApiPrefix && SegmentRun(url[i + |ApiPrefix|..]) != ""
  }

  /** The leftmost match at or after `i` and its capture. */
  function UrlSegmentFrom(url: string, i: nat): (r: Option<string>)
    requires i <= |url|
    ensures r.Some? ==> (exists k :: i <= k <= |url| && MatchAt(url, k) && r.value == SegmentRun(url[k + |ApiPrefix|..]) && (forall j :: i <= j < k ==> !MatchAt(url, j)))
    ensures r.None? ==> forall k :: i <= k <= |url| ==> !MatchAt(url, k)
    decreases |url| - i
  {
    if MatchAt(url, i) then Some(SegmentRun(url[i + |ApiPrefix|..]))
    else if i == |url| then None
    else UrlSegmentFrom(url, i + 1)
  }

  /** `req.url.match(/\/api\/trpc\/([^?#]+)/)?.[1]` */
  function UrlSegment(url: string): Option<string> {
    UrlSegmentFrom(url, 0)
  }

  /** `pathStr` after packages/runtime/index.ts lines 57-64: the URL is consulted only when the header is missing, empty or `NONE`. */
  function ResolvePath(h: HeaderSource, req: Request): (r: Option<string>)
    ensures Truthy(GetHeader(h, PathHeader)) && GetHeader(h, PathHeader).value != "NONE" ==> r == GetHeader(h, PathHeader)
    ensures r == GetHeader(h, PathHeader) || (req.url.Some? && r == UrlSegment(req.url.value) && Truthy(r))
  {
    var header := GetHeader(h, PathHeader);
    if (!Truthy(header) || header.value == "NONE") && Truthy(req.url) then
      match UrlSegment(req.url.value)
      case Some(segment) => if segment != "" then Some(segment) else header
      case None => header
    else header
  }

  /** The logger prints nothing for a missing, empty, `NONE` or `trpc` path. */
  predicate Suppressed(path: Option<string>) {
    !Truthy(path) || path.value == "NONE" || path.value == "trpc"
  }

  /** `parts.filter(Boolean)` */
  function NonEmptyParts(parts: seq<string>): (r: seq<string>)
    ensures forall x :: x in r <==> x in parts && x != ""
    ensures |r| <= |parts|
  {
    if parts == [] then []
    else (if parts[0] == "" then [] else [parts[0]]) + NonEmptyParts(parts[1..])
  }

  // ---------------------------------------------------------------------------------------
  // One record per procedure

  /** `type`: the type header if truthy, else `mutation` for a POST request and `query` otherwise. */
  function ResolveType(raw: Option<string>, verb: Option<string>): (r: string)
    ensures r != ""
    ensures Truthy(raw) ==> r == raw.value
    ensures !Truthy(raw) ==> (r == "mutation" <==> verb.Some? && ToUpperAscii(verb.value) == "POST")
    ensures !Truthy(raw) ==> r == "mutation" || r == "query"
  {
    if Truthy(raw) then raw.value
    else if verb.Some? && ToUpperAscii(verb.value) == "POST" then "mutation"
    else "query"
  }

  /** `runtime`, given `process.env.NEXT_RUNTIME` (`None` when unset or when there is no `process`). */
  function ResolveRuntime(nextRuntime: Option<string>): (r: string)
    ensures r == "edge" <==> nextRuntime == Some("edge")
    ensures r == "edge" || r == "node"
  {
    if nextRuntime == Some("edge") then "edge" else "node"
  }

  /** `side` before a part's own record is read: the side header, else the request source. */
  function DefaultSide(h: HeaderSource): (r: string)
    ensures r != ""
    ensures Truthy(GetHeader(h, SideHeader)) ==> r == GetHeader(h, SideHeader).value
    ensures !Truthy(GetHeader(h, SideHeader)) ==> (r == "client" <==> GetHeader(h, SourceHeader) == Some("nextjs-react"))
    ensures !Truthy(GetHeader(h, SideHeader)) ==> r == "client" || r == "server"
  {
    var side := GetHeader(h, SideHeader);
    if Truthy(side) then side.value
    else if GetHeader(h, SourceHeader) == Some("nextjs-react") then "client" else "server"
  }

  /** What every part shares: the header record, the type and the runtime. */
  datatype Context = Context(file: Option<string>, line: Option<string>, side: string, callType: string, runtime: string)

  function ContextOf(h: HeaderSource, req: Request, nextRuntime: Option<string>): Context {
    Context(GetHeader(h, FileHeader), GetHeader(h, LineHeader), DefaultSide(h),
            ResolveType(GetHeader(h, TypeHeader), req.httpMethod), ResolveRuntime(nextRuntime))
  }

  /** What one console record says. */
  datatype LogRecord = LogRecord(procedure: string, file: Option<string>, line: Option<string>, side: string, callType: string, runtime: string)

  /** `[f, l, s] = meta.split(':')`: each truthy field replaces the one read from the headers. */
  function ApplyMeta(r: LogRecord, fields: seq<string>): LogRecord {
    var f := if |fields| > 0 then fields[0] else "";
    var l := if |fields| > 1 then fields[1] else "";
    var s := if |fields| > 2 then fields[2] else "";
    r.(file := if f != "" then Some(f) else r.file,
       line := if l != "" then Some(l) else r.line,
       side := if s != "" then s else r.side)
  }

  /** The record printed for one part of the path (packages/runtime/index.ts lines 86-104). */
  function PartRecord(part: string, ctx: Context): (r: LogRecord)
    ensures r.procedure == if Contains(part, MetaMarker) then Split(part, '?')[0] else part
    ensures r.callType == ctx.callType && r.runtime == ctx.runtime
    ensures r.file == ctx.file || (r.file.Some? && r.file.value != "")
    ensures r.line == ctx.line || (r.line.Some? && r.line.value != "")
    ensures r.side == ctx.side || r.side != ""
  {
    var plain := LogRecord(part, ctx.file, ctx.line, ctx.side, ctx.callType, ctx.runtime);
    if Contains(part, MetaMarker) then
      var pieces := Split(part, '?');
      var query := if |pieces| > 1 then pieces[1] else "";
      var named := plain.(procedure := pieces[0]);
      var meta := SearchParamsGet(query, MetaParam);
      if meta.Some? && meta.value != "" then ApplyMeta(named, Split(meta.value, ':')) else named
    else plain
  }

  /** The records of the parts, in their order. */
  function PartRecords(parts: seq<string>, ctx: Context): (rs: seq<LogRecord>)
    ensures |rs| == |parts|
    ensures forall k :: 0 <= k < |parts| ==> rs[k] == PartRecord(parts[k], ctx)
  {
    if parts == [] then []
    else PartRecords(parts[..|parts| - 1], ctx) + [PartRecord(parts[|parts| - 1], ctx)]
  }

  /** What a call of the logger comes to: nothing, a thrown `URIError`, or records. */
  datatype LoggerOutcome = Skipped | UriError | Printed(records: seq<LogRecord>)

  /** `boundaryLogger(headers, req)` with `NEXT_RUNTIME` given as a parameter. */
  function Outcome(h: HeaderSource, req: Request, nextRuntime: Option<string>): (o: LoggerOutcome)
    ensures o == Skipped <==> Suppressed(ResolvePath(h, req))
    ensures o == UriError <==> !Suppressed(ResolvePath(h, req)) && DecodeURIComponent(ResolvePath(h, req).value).None?
  {
    var pathStr := ResolvePath(h, req);
    if Suppressed(pathStr) then Skipped
    else match DecodeURIComponent(pathStr.value)
      case None => UriError
      case Some(decoded) => Printed(PartRecords(NonEmptyParts(Split(decoded, ',')), ContextOf(h, req, nextRuntime)))
  }

  /**
   * The logger as its design intends it, total: a path that `decodeURIComponent` rejects is
   * split as it stands instead of making the logger throw; every other outcome is the logger's.
   */
  function SafeOutcome(h: HeaderSource, req: Request, nextRuntime: Option<string>): (o: LoggerOutcome)
    ensures !o.UriError?
    ensures !Outcome(h, req, nextRuntime).UriError? ==> o == Outcome(h, req, nextRuntime)
    ensures Outcome(h, req, nextRuntime).UriError? ==>
      o == Printed(PartRecords(NonEmptyParts(Split(ResolvePath(h, req).value, ',')), ContextOf(h, req, nextRuntime)))
  {
    var pathStr := ResolvePath(h, req);
    if Suppressed(pathStr) then Skipped
    else
      var decoded := DecodeURIComponent(pathStr.value).GetOr(pathStr.value);
      Printed(PartRecords(NonEmptyParts(Split(decoded, ',')), ContextOf(h, req, nextRuntime)))
  }

  // ---------------------------------------------------------------------------------------
  // Console lines

  /** `typeLabel(t)` without colour. */
  function TypeLabel(t: string): (r: string)
    ensures |r| >= 2 && r[0] == '[' && r[|r| - 1] == ']'
    ensures r[1..|r| - 1] == if t == "" then "call" else t
  {
    "[" + (if t == "" then "call" else t) + "]"
  }

  /** The console lines of one record: the procedure line, then `from file[:line]` when there is a file. */
  function RecordLines(r: LogRecord): (lines: seq<string>)
    ensures |lines| == if Truthy(r.file) then 2 else 1
  {
    var head := "tRPC " + "[" + r.runtime + "]" + "[" + r.side + "]" + " " + TypeLabel(r.callType) + " " + r.procedure;
    if Truthy(r.file) then
      [head, "  from " + r.file.value + (if Truthy(r.line) then ":" + r.line.value else "")]
    else [head]
  }

  function LogLines(records: seq<LogRecord>): seq<string> {
    if records == [] then []
    else LogLines(records[..|records| - 1]) + RecordLines(records[|records| - 1])
  }

  function OutputLines(o: LoggerOutcome): seq<string> {
    match o
    case Printed(records) => LogLines(records)
    case _ => []
  }

  lemma PartRecordsStep(parts: seq<string>, i: nat, ctx: Context)
    requires i < |parts|
    ensures PartRecords(parts[..i + 1], ctx) == PartRecords(parts[..i], ctx) + [PartRecord(parts[i], ctx)]
  {
    assert parts[..i + 1][..i] == parts[..i];
  }

  lemma LogLinesSnoc(records: seq<LogRecord>, r: LogRecord)
    ensures LogLines(records + [r]) == LogLines(records) + RecordLines(r)
  {
    assert (records + [r])[..|records|] == records;
  }

  /**
   * `boundaryLogger`: the console lines it writes, and whether `decodeURIComponent` threw
   * (before anything is written).
   */
  method BoundaryLogger(h: HeaderSource, req: Request, nextRuntime: Option<string>) returns (lines: seq<string>, threw: bool)
    ensures threw <==> Outcome(h, req, nextRuntime).UriError?
    ensures lines == OutputLines(Outcome(h, req, nextRuntime))
  {
    var pathStr := ReadPath(h, req);
    lines, threw := [], false;
    OutcomeByCase(h, req, nextRuntime);
    if !Truthy(pathStr) || pathStr.value == "NONE" || pathStr.value == "trpc" {
      return;
    }
    var decoded := DecodeURIComponent(pathStr.value);
    if decoded.None? {
      threw := true;
      return;
    }
    var parts := NonEmptyParts(Split(decoded.value, ','));
    lines := PrintParts(parts, ContextOf(h, req, nextRuntime));
  }

  /** The `let pathStr` of the logger with its fallback to the request URL. */
  method ReadPath(h: HeaderSource, req: Request) returns (pathStr: Option<string>)
    ensures pathStr == ResolvePath(h, req)
  {
    pathStr := GetHeader(h, PathHeader);
    if (!Truthy(pathStr) || pathStr.value == "NONE") && Truthy(req.url) {
      var found := UrlSegment(req.url.value);
      if found.Some? && found.value != "" {
        pathStr := found;
      }
    }
  }

  lemma OutcomeByCase(h: HeaderSource, req: Request, nextRuntime: Option<string>)
    ensures Suppressed(ResolvePath(h, req)) ==> Outcome(h, req, nextRuntime) == Skipped
    ensures !Suppressed(ResolvePath(h, req)) && DecodeURIComponent(ResolvePath(h, req).value).None? ==>
      Outcome(h, req, nextRuntime) == UriError
    ensures !Suppressed(ResolvePath(h, req)) && DecodeURIComponent(ResolvePath(h, req).value).Some? ==>
      Outcome(h, req, nextRuntime)
        == Printed(PartRecords(NonEmptyParts(Split(DecodeURIComponent(ResolvePath(h, req).value).value, ',')), ContextOf(h, req, nextRuntime)))
  {
  }

  /** The `forEach` over the parts: each part's lines, in order. */
  method PrintParts(parts: seq<string>, ctx: Context) returns (lines: seq<string>)
    ensures lines == LogLines(PartRecords(parts, ctx))
  {
    lines := [];
    var i := 0;
    while i < |parts|
      invariant i <= |parts|
      invariant lines == LogLines(PartRecords(parts[..i], ctx))
    {
      var rec := PartRecord(parts[i], ctx);
      PartRecordsStep(parts, i, ctx);
      LogLinesSnoc(PartRecords(parts[..i], ctx), rec);
      lines := lines + RecordLines(rec);
      i := i + 1;
    }
    assert parts[..i] == parts;
  }

  // ---------------------------------------------------------------------------------------
  // Properties of the logger

  /** The URL is read only when the path header is missing, empty or `NONE`, and then only its leftmost match counts. */
  lemma ResolvePathFallback(h: HeaderSource, req: Request)
    ensures var header := GetHeader(h, PathHeader);
      ResolvePath(h, req) != header ==>
        (!Truthy(header) || header.value == "NONE") && Truthy(req.url) && ResolvePath(h, req) == UrlSegment(req.url.value)
    ensures var header := GetHeader(h, PathHeader);
      (!Truthy(header) || header.value == "NONE") && Truthy(req.url) && UrlSegment(req.url.value).Some? ==>
        ResolvePath(h, req) == UrlSegment(req.url.value)
  {
    var header := GetHeader(h, PathHeader);
    if (!Truthy(header) || header.value == "NONE") && Truthy(req.url) {
      var found := UrlSegment(req.url.value);
      if found.Some? {
        assert found.value != "";
      }
    }
  }

  /** A lone `%` in the path header makes `decodeURIComponent` throw. */
  lemma MalformedPathThrows(req: Request, nextRuntime: Option<string>)
    ensures Outcome(FetchHeaders(map[PathHeader := "%"]), req, nextRuntime) == UriError
  {
    var h := FetchHeaders(map[PathHeader := "%"]);
    assert GetHeader(h, PathHeader) == Some("%");
    assert ResolvePath(h, req) == Some("%");
    assert EscapedByte("%").None?;
  }

  /** Where the logger throws on a lone `%`, the total logger prints one record for the path `%`. */
  lemma SafeOutcomeKeepsMalformedPath(req: Request, nextRuntime: Option<string>)
    ensures var h := FetchHeaders(map[PathHeader := "%"]);
      SafeOutcome(h, req, nextRuntime) == Printed(PartRecords(["%"], ContextOf(h, req, nextRuntime)))
  {
    var h := FetchHeaders(map[PathHeader := "%"]);
    MalformedPathThrows(req, nextRuntime);
    assert ResolvePath(h, req) == Some("%");
    assert IndexOfChar("%", ',') == 1;
    assert Split("%", ',') == ["%"];
    NonEmptyPartsSingle("%");
  }

  /** Filtering works part by part: the parts of a concatenation are the parts of each side, in order. */
  lemma {:induction false} NonEmptyPartsAppend(a: seq<string>, b: seq<string>)
    ensures NonEmptyParts(a + b) == NonEmptyParts(a) + NonEmptyParts(b)
  {
    if a != [] {
      assert (a + b)[1..] == a[1..] + b;
      NonEmptyPartsAppend(a[1..], b);
    } else {
      assert a + b == b;
    }
  }

  /** A single part is kept exactly when it is non-empty. */
  lemma NonEmptyPartsSingle(x: string)
    ensures NonEmptyParts([x]) == if x == "" then [] else [x]
  {
    assert [x][1..] == [];
  }

  /** Filtering keeps a list of non-empty parts as it is. */
  lemma {:induction false} NonEmptyPartsKeep(parts: seq<string>)
    requires forall k :: 0 <= k < |parts| ==> parts[k] != ""
    ensures NonEmptyParts(parts) == parts
  {
    if parts != [] {
      NonEmptyPartsKeep(parts[1..]);
      assert [parts[0]] + parts[1..] == parts;
    }
  }

  /** The parts of a path are non-empty and free of commas. */
  lemma PathPartsShape(decoded: string)
    ensures forall x :: x in NonEmptyParts(Split(decoded, ',')) ==> x != "" && ',' !in x
  {
    SplitPartsAvoid(decoded, ',');
  }

  /** A batch path `a,b,c` of non-empty names without commas gives one record per name, in order. */
  lemma BatchParts(names: seq<string>)
    requires names != []
    requires forall k :: 0 <= k < |names| ==> names[k] != "" && ',' !in names[k]
    ensures NonEmptyParts(Split(Join(names, ','), ',')) == names
  {
    SplitJoin(names, ',');
    NonEmptyPartsKeep(names);
  }

  /** A part without the marker is printed under its own name with the header record. */
  lemma PlainPart(part: string, ctx: Context)
    requires !Contains(part, MetaMarker)
    ensures PartRecord(part, ctx) == LogRecord(part, ctx.file, ctx.line, ctx.side, ctx.callType, ctx.runtime)
  {
  }

  /** The resolved type is never empty, so the `call` label is never printed for it. */
  lemma TypeLabelOfResolved(raw: Option<string>, verb: Option<string>)
    ensures TypeLabel(ResolveType(raw, verb)) == "[" + ResolveType(raw, verb) + "]"
    ensures ResolveType(raw, verb) != "call" || raw == Some("call")
  {
  }

  /** How many records carry a truthy file. */
  function WithFile(records: seq<LogRecord>): nat {
    if records == [] then 0
    else WithFile(records[..|records| - 1]) + (if Truthy(records[|records| - 1].file) then 1 else 0)
  }

  /** One procedure line per record and one `from` line per record with a file. */
  lemma {:induction false} LogLineCount(records: seq<LogRecord>)
    ensures |LogLines(records)| == |records| + WithFile(records)
  {
    if records != [] {
      LogLineCount(records[..|records| - 1]);
    }
  }

  /** The procedure line of every record starts with `tRPC [runtime][side]`; the `from` line names the file and line. */
  lemma RecordLinesShape(r: LogRecord)
    ensures StartsWith(RecordLines(r)[0], "tRPC [" + r.runtime + "][" + r.side + "] ")
    ensures |RecordLines(r)| == 2 <==> Truthy(r.file)
    ensures Truthy(r.file) && Truthy(r.line) ==> RecordLines(r)[1] == "  from " + r.file.value + ":" + r.line.value
    ensures Truthy(r.file) && !Truthy(r.line) ==> RecordLines(r)[1] == "  from " + r.file.value
  {
    var head := "tRPC " + "[" + r.runtime + "]" + "[" + r.side + "]" + " " + TypeLabel(r.callType) + " " + r.procedure;
    var p := "tRPC [" + r.runtime + "][" + r.side + "] ";
    assert head == p + (TypeLabel(r.callType) + " " + r.procedure);
    assert head[..|p|] == p;
  }

  // ---------------------------------------------------------------------------------------
  // Round trips from the link to the logger

  /** The encoding carries no `?`, `#`, `,` or `&` and is empty only for the empty string. */
  lemma EncodedAvoids(s: string)
    ensures var e := EncodeURIComponent(s);
      '?' !in e && '#' !in e && ',' !in e && '&' !in e && (e == [] <==> s == [])
  {
    EncodedAlphabet(s);
    var e := EncodeURIComponent(s);
    AlphabetAvoids(e, '?');
    AlphabetAvoids(e, '#');
    AlphabetAvoids(e, ',');
    AlphabetAvoids(e, '&');
    if s != [] {
      assert |EncodeChar(s[0])| >= 1;
    }
  }

  lemma AlphabetAvoids(e: string, c: char)
    requires forall k :: 0 <= k < |e| ==> Unreserved(e[k]) || e[k] == '%'
    requires !Unreserved(c) && c != '%'
    ensures c !in e
  {
  }

  /** `[a, b, c].join(':')` is the token the link writes. */
  lemma TokenFields(m: BoundaryMeta)
    requires ':' !in m.file && ':' !in m.side
    ensures Split(MetaToken(m), ':') == [m.file, NatToString(m.line), m.side]
  {
    var l := NatToString(m.line);
    assert ':' !in l;
    assert Join([m.side], ':') == m.side;
    assert Join([l, m.side], ':') == l + [':'] + m.side;
    assert Join([m.file, l, m.side], ':') == m.file + [':'] + (l + [':'] + m.side);
    assert MetaToken(m) == m.file + [':'] + (l + [':'] + m.side);
    SplitJoin([m.file, l, m.side], ':');
  }

  /**
   * A part the link annotated reads back the record it carries, whatever the headers say:
   * the name before the marker, the file, the line and the side of the token.
   */
  lemma PartMetaRoundTrip(path: string, m: BoundaryMeta, ctx: Context)
    requires '?' !in path
    requires m.file != "" && m.side != ""
    requires ':' !in m.file && ':' !in m.side
    ensures PartRecord(AnnotatedPath(path, Some(m)), ctx)
      == LogRecord(path, Some(m.file), Some(NatToString(m.line)), m.side, ctx.callType, ctx.runtime)
  {
    PartMetaFields(path, m, ctx);
    TokenFields(m);
  }

  /** An annotated part reads back the `:`-separated fields of the token the link encoded. */
  lemma PartMetaFields(path: string, m: BoundaryMeta, ctx: Context)
    requires '?' !in path && m.file != ""
    ensures PartRecord(AnnotatedPath(path, Some(m)), ctx)
      == ApplyMeta(LogRecord(path, ctx.file, ctx.line, ctx.side, ctx.callType, ctx.runtime), Split(MetaToken(m), ':'))
  {
    var token := MetaToken(m);
    var enc := EncodeURIComponent(token);
    var part := AnnotatedPath(path, Some(m));
    assert part == path + MetaMarker + enc;
    ContainsInfix(path, MetaMarker, enc);
    EncodedAvoids(token);
    MarkerSplit(path, enc);
    MetaParamOf(token);
    PartWithMeta(part, ctx, path, MetaParam + "=" + enc, token);
  }

  /**
   * `meta.split(':')` cuts a file name that holds a colon: a Windows path outside the working
   * directory, which the transform keeps absolute, is logged with its drive letter as the file
   * and the rest of the path as the line.
   */
  lemma DriveLetterFileSplits(path: string, m: BoundaryMeta, ctx: Context)
    requires path == "user.get" && m == BoundaryMeta("D:\\lib\\x.tsx", 12, "client")
    ensures var r := PartRecord(AnnotatedPath(path, Some(m)), ctx);
      r.file == Some("D") && r.line == Some("\\lib\\x.tsx") && r.side == "12"
  {
    assert NatToString(12) == "12";
    assert m.file == "D" + [':'] + "\\lib\\x.tsx";
    ColonFileRecord(path, "D", "\\lib\\x.tsx", m, ctx);
  }

  /** A file `drive:rest` is logged as the file `drive` at the line `rest`, the line standing as the side. */
  lemma ColonFileRecord(path: string, drive: string, rest: string, m: BoundaryMeta, ctx: Context)
    requires '?' !in path && drive != "" && rest != ""
    requires m.file == drive + [':'] + rest
    requires ':' !in drive && ':' !in rest && ':' !in m.side
    ensures var r := PartRecord(AnnotatedPath(path, Some(m)), ctx);
      r.file == Some(drive) && r.line == Some(rest) && r.side == NatToString(m.line)
  {
    PartMetaFields(path, m, ctx);
    ColonFileToken(drive, rest, m);
  }

  /** The token of a file `drive:rest` splits into four fields, the drive standing first. */
  lemma ColonFileToken(drive: string, rest: string, m: BoundaryMeta)
    requires m.file == drive + [':'] + rest
    requires ':' !in drive && ':' !in rest && ':' !in m.side
    ensures Split(MetaToken(m), ':') == [drive, rest, NatToString(m.line), m.side]
  {
    var l := NatToString(m.line);
    assert ':' !in l;
    assert Join([m.side], ':') == m.side;
    assert Join([l, m.side], ':') == l + [':'] + m.side;
    assert Join([rest, l, m.side], ':') == rest + [':'] + (l + [':'] + m.side);
    assert Join([drive, rest, l, m.side], ':') == drive + [':'] + (rest + [':'] + (l + [':'] + m.side));
    assert MetaToken(m) == drive + [':'] + (rest + [':'] + (l + [':'] + m.side));
    SplitJoin([drive, rest, l, m.side], ':');
  }

  /**
   * The fields of a `__b` token read from its right end: the side after the last colon, the
   * line before it, and the file as everything in front of them, colons included.
   */
  function MetaFields(meta: string): (fields: seq<string>)
    ensures 1 <= |fields| <= 3
    ensures |Split(meta, ':')| <= 3 ==> fields == Split(meta, ':')
  {
    var parts := Split(meta, ':');
    if |parts| <= 3 then parts
    else [Join(parts[..|parts| - 2], ':'), parts[|parts| - 2], parts[|parts| - 1]]
  }

  /** Read from the right, every token the link writes gives back its file, line and side. */
  lemma MetaFieldsRoundTrip(m: BoundaryMeta, r: LogRecord)
    requires ':' !in m.side
    ensures MetaFields(MetaToken(m)) == [m.file, NatToString(m.line), m.side]
    ensures m.file != "" && m.side != ""
      ==> ApplyMeta(r, MetaFields(MetaToken(m))) == r.(file := Some(m.file), line := Some(NatToString(m.line)), side := m.side)
  {
    var l := NatToString(m.line);
    assert ':' !in l;
    assert MetaToken(m) == m.file + [':'] + (l + [':'] + m.side);
    SplitAround(m.file, l + [':'] + m.side, ':');
    SplitAround(l, m.side, ':');
    SplitWithout(l, ':');
    SplitWithout(m.side, ':');
    var front := Split(m.file, ':');
    var parts := Split(MetaToken(m), ':');
    assert parts == front + [l, m.side];
    JoinSplit(m.file, ':');
    if |front| == 1 {
      assert front == [m.file];
    } else {
      assert parts[..|parts| - 2] == front;
    }
  }

  /** A part with the marker is named by its text before `?` and overridden by the fields of its `__b` value. */
  lemma PartWithMeta(part: string, ctx: Context, name: string, query: string, meta: string)
    requires Contains(part, MetaMarker)
    requires Split(part, '?') == [name, query]
    requires SearchParamsGet(query, MetaParam) == Some(meta) && meta != ""
    ensures PartRecord(part, ctx)
      == ApplyMeta(LogRecord(name, ctx.file, ctx.line, ctx.side, ctx.callType, ctx.runtime), Split(meta, ':'))
  {
  }

  /** Splitting an annotated part on `?` gives the name and the `__b=…` query. */
  lemma MarkerSplit(path: string, enc: string)
    requires '?' !in path && '?' !in enc
    ensures Split(path + MetaMarker + enc, '?') == [path, MetaParam + "=" + enc]
  {
    var query := MetaParam + "=" + enc;
    assert path + MetaMarker + enc == path + ['?'] + query;
    assert '?' !in query;
    assert Join([path, query], '?') == path + ['?'] + query by {
      assert Join([query], '?') == query;
    }
    SplitJoin([path, query], '?');
  }

  /** `URLSearchParams` reads the encoded token back from the `__b=…` query. */
  lemma MetaParamOf(token: string)
    ensures SearchParamsGet(MetaParam + "=" + EncodeURIComponent(token), MetaParam) == Some(token)
  {
    EncodedAvoids(token);
    SearchParamsGetPair(MetaParam, EncodeURIComponent(token));
    FormDecodeEncode(token);
  }

  /** The single record of a path that holds one annotated part. */
  lemma SinglePart(part: string, ctx: Context)
    requires part != "" && ',' !in part
    ensures PartRecords(NonEmptyParts(Split(part, ',')), ctx) == [PartRecord(part, ctx)]
  {
    assert IndexOfChar(part, ',') == |part|;
    assert Split(part, ',') == [part];
  }

  /**
   * The URL route: with no path header, a request to `/api/trpc/` followed by the encoded
   * annotated path (and an optional query or fragment) is reported under the bare procedure
   * name with the file, line and side the link encoded.
   */
  lemma UrlRouteRoundTrip(h: HeaderSource, path: string, m: BoundaryMeta, tail: string, verb: Option<string>, nextRuntime: Option<string>)
    requires GetHeader(h, PathHeader).None?
    requires '?' !in path && ',' !in path
    requires m.file != "" && m.side != ""
    requires ':' !in m.file && ':' !in m.side
    requires tail == [] || tail[0] == '?' || tail[0] == '#'
    ensures var url := ApiPrefix + EncodeURIComponent(AnnotatedPath(path, Some(m))) + tail;
      Outcome(h, Request(Some(url), verb), nextRuntime) == Printed([LogRecord(
        path, Some(m.file), Some(NatToString(m.line)), m.side,
        ResolveType(GetHeader(h, TypeHeader), verb), ResolveRuntime(nextRuntime))])
  {
    var part := AnnotatedPath(path, Some(m));
    var pathStr := EncodeURIComponent(part);
    var url := ApiPrefix + pathStr + tail;
    var req := Request(Some(url), verb);
    var ctx := ContextOf(h, req, nextRuntime);
    EncodedAvoids(part);
    EncodedAvoids(MetaToken(m));
    assert part == path + MetaMarker + EncodeURIComponent(MetaToken(m));
    assert |part| > |path| && part[|path|] == '?';
    UrlSegmentOfApiUrl(pathStr, tail);
    assert ResolvePath(h, req) == Some(pathStr);
    DecodeEncode(part);
    NotSuppressed(pathStr, part, path);
    assert ',' !in part;
    SinglePart(part, ctx);
    PartMetaRoundTrip(path, m, ctx);
  }

  /** An encoding whose decoding holds a `?` is none of the suppressed paths. */
  lemma NotSuppressed(pathStr: string, part: string, path: string)
    requires DecodeURIComponent(pathStr) == Some(part)
    requires |path| < |part| && part[|path|] == '?'
    ensures !Suppressed(Some(pathStr))
  {
    DecodePlainPrefix("NONE", "");
    DecodePlainPrefix("trpc", "");
    assert "NONE" + "" == "NONE" && "trpc" + "" == "trpc";
    assert '?' !in "NONE" && '?' !in "trpc";
  }

  /** The regular expression finds the segment that directly follows `/api/trpc/`. */
  lemma UrlSegmentOfApiUrl(segment: string, tail: string)
    requires segment != [] && '?' !in segment && '#' !in segment
    requires tail == [] || tail[0] == '?' || tail[0] == '#'
    ensures UrlSegment(ApiPrefix + segment + tail) == Some(segment)
  {
    var url := ApiPrefix + segment + tail;
    assert url[..|ApiPrefix|] == ApiPrefix;
    assert url[|ApiPrefix|..] == segment + tail;
    SegmentRunOf(segment, tail);
    assert MatchAt(url, 0);
  }

  lemma {:induction false} SegmentRunOf(segment: string, tail: string)
    requires '?' !in segment && '#' !in segment
    requires tail == [] || tail[0] == '?' || tail[0] == '#'
    ensures SegmentRun(segment + tail) == segment
  {
    if segment != [] {
      assert (segment + tail)[1..] == segment[1..] + tail;
      SegmentRunOf(segment[1..], tail);
      assert [segment[0]] + segment[1..] == segment;
    } else {
      assert segment + tail == tail;
    }
  }

  /**
   * The header route: the headers exactly as the link leaves them (over any earlier ones)
   * give one record under the original path with the header file, line and side.
   */
  lemma HeaderRouteRoundTrip(prior: map<string, string>, opType: string, path: string, m: BoundaryMeta, req: Request, nextRuntime: Option<string>)
    requires opType != "" && m.file != "" && m.side != ""
    requires path != "" && path != "NONE" && path != "trpc"
    requires '%' !in path && ',' !in path && !Contains(path, MetaMarker)
    ensures var h := FetchHeaders(prior + LinkHeaders(opType, path, Some(m)));
      Outcome(h, req, nextRuntime) == Printed([LogRecord(
        path, Some(m.file), Some(NatToString(m.line)), m.side, opType, ResolveRuntime(nextRuntime))])
  {
    var link := LinkHeaders(opType, path, Some(m));
    var h := FetchHeaders(prior + link);
    LinkHeadersCarry(opType, path, Some(m));
    assert GetHeader(h, PathHeader) == Some(path);
    assert GetHeader(h, TypeHeader) == Some(opType);
    assert GetHeader(h, FileHeader) == Some(m.file);
    assert GetHeader(h, LineHeader) == Some(NatToString(m.line));
    assert GetHeader(h, SideHeader) == Some(m.side);
    assert ResolvePath(h, req) == Some(path);
    DecodePlainPrefix(path, "");
    assert path + "" == path;
    SinglePart(path, ContextOf(h, req, nextRuntime));
  }
}
