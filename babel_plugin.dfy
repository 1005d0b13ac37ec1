/**
 * The Babel transform (packages/babel/src/index.ts): it recognises a typed-RPC call by the
 * name of the last member of its callee, then stamps it in place with
 * `{trpc: {context: {__boundary: {file, line, side}}}}` in its options argument (the second).
 */
module BabelPlugin {
  import opened Wrappers
  import opened Text
  import opened Ast

  /** `TRPC_TERMINAL_METHODS`: the thirteen terminal method names. */
  const TerminalMethods: set<string> := {
    "query", "mutation",
    "useQuery", "useMutation", "useSuspenseQuery", "useSuspenseInfiniteQuery", "useInfiniteQuery",
    "prefetch", "fetchQuery", "fetchInfiniteQuery", "prefetchQuery", "prefetchInfiniteQuery", "ensureQueryData"
  }

  /**
   * The name of a member's property when Babel sees an Identifier there. Babel keeps the
   * Identifier `b` of a computed access `a[b]` as the property too; a private name or any
   * other computed expression is not an Identifier.
   */
  function PropertyIdentifier(p: MemberProp): Option<string> {
    match p
    case Named(n) => Some(n)
    case Computed(Ident(n)) => Some(n)
    case _ => None
  }

  /** `isTrpcCall`: a member access, named by a terminal method, whose object is itself a member access. */
  predicate IsTrpcCall(callee: Expr) {
    && callee.Member?
    && PropertyIdentifier(callee.prop).Some?
    && PropertyIdentifier(callee.prop).value in TerminalMethods
    && callee.obj.Member?
  }

  /** The chain `root.n0.n1….nk` of plain member accesses. */
  function Chain(root: Expr, names: seq<string>): Expr
    decreases |names|
  {
    if names == [] then root else Member(Chain(root, names[..|names| - 1]), Named(names[|names| - 1]))
  }

  /**
   * On a dotted chain from an identifier, the detector accepts exactly the chains of two or
   * more names whose last name is a terminal method: `x.query()` has no procedure segment and
   * is rejected.
   */
  lemma {:induction false} IsTrpcCallOnChain(root: string, names: seq<string>)
    ensures IsTrpcCall(Chain(Ident(root), names)) <==> |names| >= 2 && names[|names| - 1] in TerminalMethods
  {
    if |names| >= 1 {
      var front := names[..|names| - 1];
      if |front| >= 1 {
        assert front[..|front| - 1] == names[..|names| - 2];
      }
    }
  }

  /** The state Babel hands the visitor: the file name (if any) and the parsed program. */
  datatype PluginState = PluginState(filename: Option<string>, program: Program)

  /** The directive prologue: the string-literal statements that open the program. */
  function Directives(body: seq<Stmt>): (ds: seq<string>)
    ensures |ds| <= |body|
    ensures forall j :: 0 <= j < |ds| ==> body[j] == ExprStmt(StrLit(ds[j]))
    ensures |ds| < |body| ==> !(body[|ds|].ExprStmt? && body[|ds|].expr.StrLit?)
  {
    if body != [] && body[0].ExprStmt? && body[0].expr.StrLit? then [body[0].expr.value] + Directives(body[1..])
    else []
  }

  /** `program.directives.some(d => d.value.value === 'use client')` */
  predicate IsClientProgram(p: Program) {
    "use client" in Directives(p.body)
  }

  /** The `file` of the record: the file name (`'unknown'` when absent or empty) with the first occurrence of the working directory replaced by `.`. */
  function RecordFile(filename: Option<string>, cwd: string): string {
    ReplaceFirst(if filename.None? || filename.value == "" then "unknown" else filename.value, cwd, ".")
  }

  /** `{file: …, line: …, side: …}` as both transforms build it. */
  function BoundaryObject(file: string, line: nat, side: string): Expr {
    ObjLit([
      KeyValue(IdentKey("file"), StrLit(file)),
      KeyValue(IdentKey("line"), NumLit(line)),
      KeyValue(IdentKey("side"), StrLit(side))
    ])
  }

  function BoundaryProperty(record: Expr): Property {
    KeyValue(IdentKey("__boundary"), record)
  }

  /** The record stamped on a call whose node starts at `loc` (line 0 when the parser gave none). */
  function BoundaryRecord(state: PluginState, cwd: string, loc: Option<nat>): Expr {
    BoundaryObject(RecordFile(state.filename, cwd), loc.GetOr(0), if IsClientProgram(state.program) then "client" else "server")
  }

  const UndefinedArg: Arg := Arg(false, Ident("undefined"))
  const EmptyObjectArg: Arg := Arg(false, ObjLit([]))
  const ContextPath: seq<string> := ["trpc", "context"]

  /**
   * What the visitor leaves behind: the (possibly rewritten) arguments, or a `TypeError`
   * thrown when an existing `trpc` or `context` value is not an object literal (its
   * `properties` is read without a check); the loader then returns the file's original source.
   */
  datatype Visit = Rewritten(args: seq<Arg>) | Threw

  /** The arguments with the options argument ensured: a missing or `undefined` second argument becomes `{}`. */
  function WithOptions(args: seq<Arg>): (r: seq<Arg>)
    ensures |r| >= 2 && |r| == if |args| < 2 then 2 else |args|
    ensures forall j :: 0 <= j < |args| && j != 1 ==> r[j] == args[j]
    ensures |args| >= 2 && args[1] != UndefinedArg ==> r == args
  {
    var padded := if |args| == 0 then [UndefinedArg] else args;
    if |padded| < 2 then padded + [EmptyObjectArg]
    else if padded[1] == UndefinedArg then padded[1 := EmptyObjectArg]
    else padded
  }

  /** The visitor body for a matched call, stamping `leaf` into the options argument. */
  function StampArgs(args: seq<Arg>, leaf: Property): (r: Visit)
    ensures r.Rewritten? ==> |r.args| == |WithOptions(args)|
    ensures r.Rewritten? ==> forall j :: 0 <= j < |r.args| && j != 1 ==> r.args[j] == WithOptions(args)[j]
    ensures r.Threw? ==> !WithOptions(args)[1].spread && WithOptions(args)[1].expr.ObjLit?
  {
    var withOptions := WithOptions(args);
    var options := withOptions[1];
    if !options.spread && options.expr.ObjLit? then
      match EnsurePath(Babel, options.expr.props, ContextPath, leaf)
      case Some(props') => Rewritten(withOptions[1 := Arg(false, ObjLit(props'))])
      case None => Threw
    else Rewritten(withOptions)
  }

  /** The `CallExpression` visitor on one call node. */
  function VisitSpec(callee: Expr, args: seq<Arg>, loc: Option<nat>, state: PluginState, cwd: string): (r: Visit)
    ensures r.Threw? ==> IsTrpcCall(callee)
    ensures r.Rewritten? ==> |r.args| >= |args|
    ensures r.Rewritten? ==> forall j :: 0 <= j < |args| && j != 1 ==> r.args[j] == args[j]
  {
    if IsTrpcCall(callee) then StampArgs(args, BoundaryProperty(BoundaryRecord(state, cwd, loc)))
    else Rewritten(args)
  }

  /** The `CallExpression` visitor, rewriting the node in place; `threw` reports the `TypeError`. */
  method VisitCallExpression(call: CallExpr, state: PluginState, cwd: string) returns (threw: bool)
    modifies call
    ensures call.callee == old(call.callee) && call.loc == old(call.loc)
    ensures threw ==> call.args == old(call.args)
    ensures VisitSpec(old(call.callee), old(call.args), call.loc, state, cwd) == if threw then Threw else Rewritten(call.args)
  {
    threw := false;
    if IsTrpcCall(call.callee) {
      var record := BoundaryRecord(state, cwd, call.loc);
      var original := call.args;
      if |call.args| == 0 {
        call.args := call.args + [UndefinedArg];
      }
      var options: Option<Arg> := if |call.args| > 1 then Some(call.args[1]) else None;
      if options.None? || options.value == UndefinedArg {
        options := Some(EmptyObjectArg);
        call.args := if |call.args| < 2 then call.args + [EmptyObjectArg] else call.args[1 := EmptyObjectArg];
      }
      assert call.args == WithOptions(original);
      if !options.value.spread && options.value.expr.ObjLit? {
        match EnsurePath(Babel, options.value.expr.props, ContextPath, BoundaryProperty(record))
        case Some(props') =>
          call.args := call.args[1 := Arg(false, ObjLit(props'))];
        case None =>
          threw := true;
          assert original == call.args by {
            EnsurePathOnEmpty(Babel, ContextPath, BoundaryProperty(record));
          }
      }
    }
  }

  // ---------------------------------------------------------------------------------------
  // Properties of the visitor

  /** An empty argument list becomes `[undefined, {trpc: {context: {__boundary: …}}}]`. */
  lemma EmptyArgumentsPadded(leaf: Property)
    ensures StampArgs([], leaf) == Rewritten([UndefinedArg, Arg(false, ObjLit(PathProps(ContextPath, leaf)))])
  {
    EnsurePathOnEmpty(Babel, ContextPath, leaf);
  }

  /**
   * A missing second argument, or the identifier `undefined` there, is replaced by a fresh
   * object holding just the stamped path; the other arguments stay.
   */
  lemma MissingOptionsReplaced(args: seq<Arg>, leaf: Property)
    requires |args| == 1 || (|args| >= 2 && args[1] == UndefinedArg)
    ensures StampArgs(args, leaf) == Rewritten(args[..1] + [Arg(false, ObjLit(PathProps(ContextPath, leaf)))] + (if |args| >= 2 then args[2..] else []))
  {
    EnsurePathOnEmpty(Babel, ContextPath, leaf);
  }

  /** A second argument that is neither `undefined` nor an object literal leaves the call as it was, without `__boundary`. */
  lemma NonObjectOptionsUntouched(args: seq<Arg>, leaf: Property)
    requires |args| >= 2 && args[1] != UndefinedArg
    requires args[1].spread || !args[1].expr.ObjLit?
    ensures StampArgs(args, leaf) == Rewritten(args)
  {
  }

  /**
   * An object literal options argument: the visitor throws exactly when an existing `trpc` or
   * `context` value is not an object literal; otherwise only the options argument changes, the
   * path `trpc` -> `context` exists afterwards, and the context object holds its former
   * properties, in order, followed by exactly one `__boundary`.
   */
  lemma ObjectOptionsStamped(args: seq<Arg>, leaf: Property)
    requires |args| >= 2 && !args[1].spread && args[1].expr.ObjLit?
    ensures var props := args[1].expr.props;
      && (StampArgs(args, leaf).Threw? <==> Existing(Babel, props, ContextPath).None?)
      && (StampArgs(args, leaf).Rewritten? ==>
            var args' := StampArgs(args, leaf).args;
            && |args'| == |args|
            && (forall j :: 0 <= j < |args| && j != 1 ==> args'[j] == args[j])
            && args'[1].expr.ObjLit?
            && Lookup(Babel, args'[1].expr.props, ContextPath) == Some(Existing(Babel, props, ContextPath).value + [leaf]))
  {
    EnsurePathSucceeds(Babel, args[1].expr.props, ContextPath, leaf);
    if StampArgs(args, leaf).Rewritten? {
      EnsurePathAppends(Babel, args[1].expr.props, ContextPath, leaf);
    }
  }

  /**
   * The properties of the options object and of an existing `trpc` object keep their places;
   * `trpc` (and `context` inside it) is appended only when it is absent.
   */
  lemma OptionsPropertiesKept(props: seq<Property>, leaf: Property)
    requires EnsurePath(Babel, props, ContextPath, leaf).Some?
    ensures var props' := EnsurePath(Babel, props, ContextPath, leaf).value;
      var k := FindProp(Babel, props, "trpc");
      && |props'| == (if k == |props| then |props| + 1 else |props|)
      && (forall j :: 0 <= j < |props| && j != k ==> props'[j] == props[j])
      && (k < |props| ==>
            var trpc := PropValue(props[k]).props;
            var trpc' := PropValue(props'[k]).props;
            var c := FindProp(Babel, trpc, "context");
            && props'[k].key == props[k].key
            && |trpc'| == (if c == |trpc| then |trpc| + 1 else |trpc|)
            && (forall j :: 0 <= j < |trpc| && j != c ==> trpc'[j] == trpc[j]))
  {
    EnsurePathFrame(Babel, props, ContextPath, leaf);
    var k := FindProp(Babel, props, "trpc");
    if k < |props| {
      EnsurePathFrame(Babel, PropValue(props[k]).props, ContextPath[1..], leaf);
    }
  }

  /**
   * Running the visitor twice on a call whose options are (or become) an object literal leaves
   * two `__boundary` properties in its context: there is no check for an existing one.
   */
  lemma StampTwice(args: seq<Arg>, leaf: Property)
    requires !WithOptions(args)[1].spread && WithOptions(args)[1].expr.ObjLit?
    requires StampArgs(args, leaf).Rewritten?
    ensures var once := StampArgs(args, leaf).args;
      && |once| >= 2 && once[1].expr.ObjLit?
      && StampArgs(once, leaf).Rewritten?
      && |StampArgs(once, leaf).args| >= 2 && StampArgs(once, leaf).args[1].expr.ObjLit?
      && Lookup(Babel, once[1].expr.props, ContextPath).Some?
      && Lookup(Babel, StampArgs(once, leaf).args[1].expr.props, ContextPath)
         == Some(Lookup(Babel, once[1].expr.props, ContextPath).value + [leaf])
  {
    var once := StampArgs(args, leaf).args;
    var w := WithOptions(args);
    EnsurePathAppends(Babel, w[1].expr.props, ContextPath, leaf);
    ExistingOfLookup(Babel, once[1].expr.props, ContextPath);
    assert WithOptions(once) == once;
    EnsurePathSucceeds(Babel, once[1].expr.props, ContextPath, leaf);
    EnsurePathAppends(Babel, once[1].expr.props, ContextPath, leaf);
  }

  /**
   * The stamped record: `file` is the file name with the working directory replaced, `line` the
   * start line (0 if unknown), and `side` is `client` exactly when a directive of the program
   * is `use client`.
   */
  lemma RecordFields(state: PluginState, cwd: string, loc: Option<nat>)
    ensures var r := BoundaryRecord(state, cwd, loc);
      && r.props[0] == KeyValue(IdentKey("file"), StrLit(RecordFile(state.filename, cwd)))
      && r.props[1] == KeyValue(IdentKey("line"), NumLit(if loc.Some? then loc.value else 0))
      && (r.props[2] == KeyValue(IdentKey("side"), StrLit("client")) <==> exists j :: 0 <= j < |state.program.body| && j < |Directives(state.program.body)| && Directives(state.program.body)[j] == "use client")
      && (r.props[2] != KeyValue(IdentKey("side"), StrLit("client")) ==> r.props[2] == KeyValue(IdentKey("side"), StrLit("server")))
  {
  }

  /** Non-matching calls are left alone. */
  lemma NonTrpcCallUntouched(callee: Expr, args: seq<Arg>, loc: Option<nat>, state: PluginState, cwd: string)
    requires !IsTrpcCall(callee)
    ensures VisitSpec(callee, args, loc, state, cwd) == Rewritten(args)
  {
  }

  /** The visitor throws only when nothing was changed yet: the options argument was already an object literal. */
  lemma ThrowLeavesArgs(args: seq<Arg>, leaf: Property)
    requires StampArgs(args, leaf).Threw?
    ensures WithOptions(args) == args && !args[1].spread && args[1].expr.ObjLit?
  {
    EnsurePathOnEmpty(Babel, ContextPath, leaf);
  }
}
