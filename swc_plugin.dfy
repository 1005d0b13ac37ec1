/**
 * The SWC transform (packages/swc-plugin/src/lib.rs): the same stamping as the Babel
 * transform, but the terminal methods are split into query-like ones (options are the second
 * argument) and mutation-like ones (options are the first), and a shape it does not expect
 * makes it give up quietly instead of throwing.
 */
module SwcPlugin {
  import opened Wrappers
  import opened Text
  import opened Ast
  import BabelPlugin

  /** `TRPC_QUERY_METHODS`: options come second. */
  const QueryMethods: set<string> := {
    "query", "useQuery", "useSuspenseQuery", "useSuspenseInfiniteQuery", "useInfiniteQuery",
    "prefetch", "fetchQuery", "fetchInfiniteQuery", "prefetchQuery", "prefetchInfiniteQuery", "ensureQueryData"
  }

  /** `TRPC_MUTATION_METHODS`: options come first. */
  const MutationMethods: set<string> := {"mutation", "useMutation"}

  datatype MethodType = Query | Mutation

  /** Where a method of this type takes its options. */
  function OptionsIndex(mt: MethodType): nat {
    match mt
    case Query => 1
    case Mutation => 0
  }

  /** `get_method_type`: only a plain identifier property is looked up; the query set is consulted first. */
  function GetMethodType(prop: MemberProp): (r: Option<MethodType>)
    ensures r == Some(Query) <==> prop.Named? && prop.name in QueryMethods
    ensures r == Some(Mutation) <==> prop.Named? && prop.name in MutationMethods && prop.name !in QueryMethods
  {
    match prop
    case Named(n) =>
      if n in QueryMethods then Some(Query)
      else if n in MutationMethods then Some(Mutation)
      else None
    case _ => None
  }

  /** `get_trpc_method_type`: a member call named by a terminal method on a chain of at least two members. */
  function GetTrpcMethodType(callee: Expr): (r: Option<MethodType>)
    ensures r.Some? ==> callee.Member? && callee.obj.Member? && callee.prop.Named?
    ensures r.Some? <==> callee.Member? && callee.obj.Member? && GetMethodType(callee.prop).Some?
  {
    if callee.Member? && GetMethodType(callee.prop).Some? && callee.obj.Member? then GetMethodType(callee.prop)
    else None
  }

  /** The visitor's fixed data: the relative file name and whether the module is a client module. */
  datatype TransformVisitor = TransformVisitor(filename: string, isClient: bool)

  /** `create_boundary_object`: the object literal `{file, line, side}` with the visitor's file name and side. */
  function CreateBoundaryObject(v: TransformVisitor, line: nat): (r: Expr)
    ensures r.ObjLit? && |r.props| == 3
    ensures r.props[0] == KeyValue(IdentKey("file"), StrLit(v.filename))
    ensures r.props[1] == KeyValue(IdentKey("line"), NumLit(line))
    ensures r.props[2] == KeyValue(IdentKey("side"), StrLit("client")) <==> v.isClient
    ensures !v.isClient ==> r.props[2] == KeyValue(IdentKey("side"), StrLit("server"))
  {
    BabelPlugin.BoundaryObject(v.filename, line, if v.isClient then "client" else "server")
  }

  /** The arguments after the padding step of `inject_boundary`. */
  function PadArgs(args: seq<Arg>, mt: MethodType): (r: seq<Arg>)
    ensures OptionsIndex(mt) < |r|
  {
    match mt
    case Query =>
      var a := if |args| == 0 then [BabelPlugin.UndefinedArg] else args;
      if |a| == 1 then a + [BabelPlugin.EmptyObjectArg] else a
    case Mutation =>
      if |args| == 0 then [BabelPlugin.EmptyObjectArg] else args
  }

  /**
   * `inject_boundary` on values: pad, then, when the options argument is an object literal,
   * ensure `trpc` -> `context` and append `__boundary`; an existing `trpc` or `context` that is
   * not an object literal makes it return with the (padded) arguments as they are.
   */
  function InjectArgs(args: seq<Arg>, mt: MethodType, leaf: Property): seq<Arg> {
    var padded := PadArgs(args, mt);
    var i := OptionsIndex(mt);
    if padded[i].expr.ObjLit? then
      match EnsurePath(Swc, padded[i].expr.props, BabelPlugin.ContextPath, leaf)
      case Some(props') => padded[i := Arg(padded[i].spread, ObjLit(props'))]
      case None => padded
    else padded
  }

  /** `inject_boundary`, rewriting the call's arguments in place. */
  method InjectBoundary(v: TransformVisitor, call: CallExpr, line: nat, mt: MethodType)
    modifies call
    ensures call.callee == old(call.callee) && call.loc == old(call.loc)
    ensures call.args == InjectArgs(old(call.args), mt, BabelPlugin.BoundaryProperty(CreateBoundaryObject(v, line)))
  {
    var boundary := CreateBoundaryObject(v, line);
    var index: nat;
    match mt {
      case Query =>
        if |call.args| == 0 {
          call.args := call.args + [BabelPlugin.UndefinedArg];
        }
        if |call.args| == 1 {
          call.args := call.args + [BabelPlugin.EmptyObjectArg];
        }
        index := 1;
      case Mutation =>
        if |call.args| == 0 {
          call.args := call.args + [BabelPlugin.EmptyObjectArg];
        }
        index := 0;
    }
    var options := call.args[index];
    if options.expr.ObjLit? {
      var result := EnsurePath(Swc, options.expr.props, BabelPlugin.ContextPath, BabelPlugin.BoundaryProperty(boundary));
      if result.None? {
        return;
      }
      call.args := call.args[index := Arg(options.spread, ObjLit(result.value))];
    }
  }

  /** `visit_mut_call_expr` for one node; `line` is what the source map reports for the node's start. */
  method VisitMutCallExpr(v: TransformVisitor, call: CallExpr, line: nat)
    modifies call
    ensures call.callee == old(call.callee) && call.loc == old(call.loc)
    ensures call.args == match GetTrpcMethodType(old(call.callee))
      case Some(mt) => InjectArgs(old(call.args), mt, BabelPlugin.BoundaryProperty(CreateBoundaryObject(v, line)))
      case None => old(call.args)
  {
    var mt := GetTrpcMethodType(call.callee);
    if mt.Some? {
      InjectBoundary(v, call, line, mt.value);
    }
  }

  /** `has_use_client_directive`: any top-level expression statement that is the string `use client`. */
  predicate HasUseClientDirective(body: seq<Stmt>) {
    exists j :: 0 <= j < |body| && body[j] == ExprStmt(StrLit("use client"))
  }

  /** Scripts are never client modules. */
  predicate IsClient(p: Program) {
    p.isModule && HasUseClientDirective(p.body)
  }

  /**
   * The file name the visitor records: `unknown` when the host gives none, and, when the working
   * directory is non-empty and a prefix of it, `.` followed by the rest of the name.
   */
  function RelativeFilename(filename: Option<string>, cwd: Option<string>): string {
    var f := filename.GetOr("unknown");
    var c := cwd.GetOr("");
    if c != "" && StartsWith(f, c) then "." + f[|c|..] else f
  }

  /** `process_transform`'s set-up of the visitor. */
  function MakeVisitor(filename: Option<string>, cwd: Option<string>, program: Program): TransformVisitor {
    TransformVisitor(RelativeFilename(filename, cwd), IsClient(program))
  }

  // ---------------------------------------------------------------------------------------
  // Properties of the transform

  /** A name under the working directory becomes `./…`, and prefixing the directory back gives the original. */
  lemma RelativeFilenameUnderCwd(f: string, c: string)
    requires c != "" && StartsWith(f, c)
    ensures var r := RelativeFilename(Some(f), Some(c));
      |r| >= 1 && r[0] == '.' && c + r[1..] == f
  {
    var r := RelativeFilename(Some(f), Some(c));
    assert r[1..] == f[|c|..];
    assert f == f[..|c|] + f[|c|..];
  }

  /** Any other name is kept as it is, `unknown` standing in for a missing one. */
  lemma RelativeFilenameElsewhere(filename: Option<string>, cwd: Option<string>)
    requires cwd.GetOr("") == "" || !StartsWith(filename.GetOr("unknown"), cwd.GetOr(""))
    ensures RelativeFilename(filename, cwd) == filename.GetOr("unknown")
  {
  }

  /** The two terminal-method tables of the SWC transform split the Babel table into two disjoint parts. */
  lemma MethodTablesPartition()
    ensures QueryMethods + MutationMethods == BabelPlugin.TerminalMethods
    ensures QueryMethods * MutationMethods == {}
  {
  }

  /** Query-like calls: `f()` becomes `f(undefined, {…})` and `f(x)` becomes `f(x, {…})`. */
  lemma QueryPadding(args: seq<Arg>, leaf: Property)
    requires |args| <= 1
    ensures InjectArgs(args, Query, leaf)
      == (if args == [] then [BabelPlugin.UndefinedArg] else args) + [Arg(false, ObjLit(PathProps(BabelPlugin.ContextPath, leaf)))]
  {
    EnsurePathOnEmpty(Swc, BabelPlugin.ContextPath, leaf);
  }

  /** Mutation-like calls: `f()` becomes `f({…})`. */
  lemma MutationPadding(leaf: Property)
    ensures InjectArgs([], Mutation, leaf) == [Arg(false, ObjLit(PathProps(BabelPlugin.ContextPath, leaf)))]
  {
    EnsurePathOnEmpty(Swc, BabelPlugin.ContextPath, leaf);
  }

  /**
   * When the options position already holds something, the arguments keep their number and all
   * but the options argument; a non-object there leaves the arguments unchanged. For an object
   * literal, the transform gives up (arguments unchanged) exactly when an existing `trpc` or
   * `context` is not an object literal, and otherwise the context object ends with the
   * properties it had followed by one `__boundary`.
   */
  lemma ExistingOptions(args: seq<Arg>, mt: MethodType, leaf: Property)
    requires OptionsIndex(mt) < |args|
    ensures var i := OptionsIndex(mt);
      var args' := InjectArgs(args, mt, leaf);
      && |args'| == |args|
      && (forall j :: 0 <= j < |args| && j != i ==> args'[j] == args[j])
      && (!args[i].expr.ObjLit? ==> args' == args)
      && (args[i].expr.ObjLit? ==>
            && (args' == args <== Existing(Swc, args[i].expr.props, BabelPlugin.ContextPath).None?)
            && (Existing(Swc, args[i].expr.props, BabelPlugin.ContextPath).Some? ==>
                  && args'[i].spread == args[i].spread
                  && args'[i].expr.ObjLit?
                  && Lookup(Swc, args'[i].expr.props, BabelPlugin.ContextPath)
                     == Some(Existing(Swc, args[i].expr.props, BabelPlugin.ContextPath).value + [leaf])))
  {
    var i := OptionsIndex(mt);
    assert PadArgs(args, mt) == args;
    if args[i].expr.ObjLit? {
      EnsurePathSucceeds(Swc, args[i].expr.props, BabelPlugin.ContextPath, leaf);
      if Existing(Swc, args[i].expr.props, BabelPlugin.ContextPath).Some? {
        EnsurePathAppends(Swc, args[i].expr.props, BabelPlugin.ContextPath, leaf);
      }
    }
  }

  /** On callees whose last property is a plain name, the two transforms pick out the same calls. */
  lemma DetectionAgreesOnNamedProps(callee: Expr)
    requires callee.Member? ==> callee.prop.Named?
    ensures GetTrpcMethodType(callee).Some? <==> BabelPlugin.IsTrpcCall(callee)
  {
    MethodTablesPartition();
  }

  /** `a.b[useQuery](…)`: Babel treats the computed identifier as the method name, SWC does not. */
  lemma ComputedIdentifierDiverges()
    ensures var callee := Member(Member(Ident("a"), Named("b")), Computed(Ident("useQuery")));
      BabelPlugin.IsTrpcCall(callee) && GetTrpcMethodType(callee).None?
  {
  }

  /**
   * `q.useQuery(x, undefined)`: Babel replaces the `undefined` with a stamped object, SWC leaves
   * the call as it was, because only a missing argument is padded.
   */
  lemma UndefinedOptionsDiverge(x: Arg, leaf: Property)
    ensures InjectArgs([x, BabelPlugin.UndefinedArg], Query, leaf) == [x, BabelPlugin.UndefinedArg]
    ensures BabelPlugin.StampArgs([x, BabelPlugin.UndefinedArg], leaf)
      == BabelPlugin.Rewritten([x, Arg(false, ObjLit(PathProps(BabelPlugin.ContextPath, leaf)))])
  {
    BabelPlugin.MissingOptionsReplaced([x, BabelPlugin.UndefinedArg], leaf);
  }

  /** A `use client` directive in the Babel sense is also one in the SWC sense, for modules. */
  lemma DirectiveImpliesSwcClient(p: Program)
    requires p.isModule && BabelPlugin.IsClientProgram(p)
    ensures IsClient(p)
  {
    var ds := BabelPlugin.Directives(p.body);
    var j :| 0 <= j < |ds| && ds[j] == "use client";
    assert p.body[j] == ExprStmt(StrLit("use client"));
  }

  /** SWC also accepts a `use client` string statement after other code, which is not a directive. */
  lemma LateUseClientDiverges()
    ensures var p := Program(true, [OtherStmt, ExprStmt(StrLit("use client"))]);
      IsClient(p) && !BabelPlugin.IsClientProgram(p)
  {
    var p := Program(true, [OtherStmt, ExprStmt(StrLit("use client"))]);
    assert p.body[1] == ExprStmt(StrLit("use client"));
  }

  /** Under a non-empty working directory that prefixes the file name, both transforms record the same file. */
  lemma FileNamesAgree(f: string, c: string)
    requires f != "" && c != "" && StartsWith(f, c)
    ensures RelativeFilename(Some(f), Some(c)) == BabelPlugin.RecordFile(Some(f), c)
  {
    assert IndexOf(f, c) == Some(0);
  }

  /**
   * Where the file names agree and both transforms classify the module alike, the SWC record is
   * the one the Babel transform builds for the same call.
   */
  lemma SameRecordAsBabel(f: string, c: string, p: Program, line: nat)
    requires f != "" && c != "" && StartsWith(f, c)
    requires IsClient(p) <==> BabelPlugin.IsClientProgram(p)
    ensures CreateBoundaryObject(MakeVisitor(Some(f), Some(c), p), line)
      == BabelPlugin.BoundaryRecord(BabelPlugin.PluginState(Some(f), p), c, Some(line))
  {
    FileNamesAgree(f, c);
  }

  /** An empty file name is kept by SWC but becomes `unknown` in Babel (for an absolute working directory). */
  lemma EmptyFileNameDiverges(c: string)
    requires c != [] && c[0] == '/'
    ensures RelativeFilename(Some(""), Some(c)) == ""
    ensures BabelPlugin.RecordFile(Some(""), c) == "unknown"
  {
    assert forall j :: 0 <= j <= |"unknown"| ==> !StartsWith("unknown"[j..], c) by {
      forall j | 0 <= j <= |"unknown"|
        ensures !StartsWith("unknown"[j..], c)
      {
        if j < |"unknown"| {
          assert "unknown"[j..][0] != '/';
        }
      }
    }
  }
}
