/**
 * A small abstract syntax tree standing for the parts of Babel's and SWC's trees the two
 * build-time transforms look at, the call node they rewrite in place, and the
 * "find or create the object at a key path, then append a property" operation both perform on
 * the options argument of a matched call (the `trpc` -> `context` -> `__boundary` path).
 */
module Ast {
  import opened Wrappers

  datatype Expr =
    | Ident(name: string)
    | Member(obj: Expr, prop: MemberProp)
    | ObjLit(props: seq<Property>)
    | StrLit(value: string)
    | NumLit(num: nat)
    | Other

  /** `a.b`, `a.#b` and `a[e]`. */
  datatype MemberProp = Named(name: string) | Private(name: string) | Computed(expr: Expr)

  /** `b: …`, `"b": …` and `[e]: …`. */
  datatype PropKey = IdentKey(name: string) | StrKey(value: string) | ComputedKey(expr: Expr)

  /** A key-value property, a shorthand `{ b }`, or anything else (spread, method, accessor). */
  datatype Property = KeyValue(key: PropKey, value: Expr) | Shorthand(name: string) | OtherProp

  /** A call argument; `spread` marks `...e`. */
  datatype Arg = Arg(spread: bool, expr: Expr)

  datatype Stmt = ExprStmt(expr: Expr) | OtherStmt

  /** A parsed file: an ES module or a script, and its top-level statements. */
  datatype Program = Program(isModule: bool, body: seq<Stmt>)

  /** A call expression node, which the transforms rewrite in place. */
  class CallExpr {
    var callee: Expr
    var args: seq<Arg>
    /** The start line the parser recorded for the node, if any. */
    var loc: Option<nat>

    constructor (callee: Expr, args: seq<Arg>, loc: Option<nat>)
      ensures this.callee == callee && this.args == args && this.loc == loc
    {
      this.callee := callee;
      this.args := args;
      this.loc := loc;
    }
  }

  /** Which transform is looking for a key: the two recognise different property shapes. */
  datatype Dialect = Babel | Swc

  /**
   * The name under which a property is found when a transform looks for `trpc` or `context`.
   * Babel (packages/babel/src/index.ts) takes any `ObjectProperty` whose key is an Identifier,
   * which includes shorthand `{ trpc }` and computed `{ [trpc]: … }`; SWC
   * (packages/swc-plugin/src/lib.rs) takes only a key-value property with a plain identifier key.
   */
  function KeyName(d: Dialect, p: Property): Option<string> {
    match p
    case KeyValue(IdentKey(n), _) => Some(n)
    case KeyValue(ComputedKey(Ident(n)), _) => if d == Babel then Some(n) else None
    case Shorthand(n) => if d == Babel then Some(n) else None
    case _ => None
  }

  /** The value of a property; a shorthand `{ b }` stands for `{ b: b }`. */
  function PropValue(p: Property): Expr {
    match p
    case KeyValue(_, v) => v
    case Shorthand(n) => Ident(n)
    case OtherProp => Other
  }

  function WithValue(p: Property, v: Expr): (q: Property)
    ensures p.KeyValue? ==> q == KeyValue(p.key, v)
  {
    if p.KeyValue? then KeyValue(p.key, v) else p
  }

  /** The index of the first property found under `name` (`find` / `position`), `|props|` if none. */
  function FindProp(d: Dialect, props: seq<Property>, name: string): (k: nat)
    ensures k <= |props|
    ensures k < |props| ==> KeyName(d, props[k]) == Some(name)
    ensures forall j :: 0 <= j < k ==> KeyName(d, props[j]) != Some(name)
  {
    if props == [] then 0
    else if KeyName(d, props[0]) == Some(name) then 0
    else 1 + FindProp(d, props[1..], name)
  }

  /** The nested literal created where no level of `path` exists: `{p0: {p1: … {leaf}}}`. */
  function PathProps(path: seq<string>, leaf: Property): seq<Property>
    decreases |path|
  {
    if path == [] then [leaf]
    else [KeyValue(IdentKey(path[0]), ObjLit(PathProps(path[1..], leaf)))]
  }

  /**
   * Find or create the object at `path` inside the object literal `props`, then append `leaf`
   * to it. A missing level is appended as a new empty literal; an existing level whose value
   * is not an object literal stops the operation (`None`).
   */
  function EnsurePath(d: Dialect, props: seq<Property>, path: seq<string>, leaf: Property): (r: Option<seq<Property>>)
    ensures r.Some? ==> |props| <= |r.value| <= |props| + 1
    ensures r.Some? ==> forall j :: 0 <= j < |props| && j != FindProp(d, props, if path == [] then "" else path[0]) ==> r.value[j] == props[j]
    decreases |path|
  {
    if path == [] then Some(props + [leaf])
    else
      var k := FindProp(d, props, path[0]);
      if k == |props| then
        Some(props + [KeyValue(IdentKey(path[0]), ObjLit(PathProps(path[1..], leaf)))])
      else
        match PropValue(props[k])
        case ObjLit(inner) =>
          (match EnsurePath(d, inner, path[1..], leaf)
           case Some(inner') => Some(props[k := WithValue(props[k], ObjLit(inner'))])
           case None => None)
        case _ => None
  }

  /**
   * The properties of the object at `path` before the operation: those of the existing object,
   * `[]` where some level is missing (it would be created empty), `None` where an existing
   * level is not an object literal.
   */
  function Existing(d: Dialect, props: seq<Property>, path: seq<string>): Option<seq<Property>>
    decreases |path|
  {
    if path == [] then Some(props)
    else
      var k := FindProp(d, props, path[0]);
      if k == |props| then Some([])
      else
        match PropValue(props[k])
        case ObjLit(inner) => Existing(d, inner, path[1..])
        case _ => None
  }

  /** The properties of the object at `path`, when every level exists and is an object literal. */
  function Lookup(d: Dialect, props: seq<Property>, path: seq<string>): Option<seq<Property>>
    decreases |path|
  {
    if path == [] then Some(props)
    else
      var k := FindProp(d, props, path[0]);
      if k == |props| then None
      else
        match PropValue(props[k])
        case ObjLit(inner) => Lookup(d, inner, path[1..])
        case _ => None
  }

  /** Another object whose first `k` properties are those of `props`, and whose `k`-th is found under `name`, finds it at `k`. */
  lemma FindPropAt(d: Dialect, props: seq<Property>, props': seq<Property>, name: string, k: nat)
    requires k == FindProp(d, props, name) && k < |props'|
    requires forall j :: 0 <= j < k ==> props'[j] == props[j]
    requires KeyName(d, props'[k]) == Some(name)
    ensures FindProp(d, props', name) == k
  {
    assert forall j :: 0 <= j < k ==> KeyName(d, props'[j]) != Some(name);
  }

  /** A freshly created path holds just the leaf at its end. */
  lemma {:induction false} LookupPathProps(d: Dialect, path: seq<string>, leaf: Property)
    ensures Lookup(d, PathProps(path, leaf), path) == Some([leaf])
    decreases |path|
  {
    if path != [] {
      LookupPathProps(d, path[1..], leaf);
    }
  }

  /** The operation succeeds exactly when no existing level of the path is a non-object. */
  lemma {:induction false} EnsurePathSucceeds(d: Dialect, props: seq<Property>, path: seq<string>, leaf: Property)
    ensures EnsurePath(d, props, path, leaf).Some? <==> Existing(d, props, path).Some?
    decreases |path|
  {
    if path != [] {
      var k := FindProp(d, props, path[0]);
      if k < |props| && PropValue(props[k]).ObjLit? {
        EnsurePathSucceeds(d, PropValue(props[k]).props, path[1..], leaf);
      }
    }
  }

  /**
   * After the operation the path exists, and the object at its end holds the properties it held
   * before (none if it was created), in order, followed by exactly one new `leaf`.
   */
  lemma {:induction false} EnsurePathAppends(d: Dialect, props: seq<Property>, path: seq<string>, leaf: Property)
    requires EnsurePath(d, props, path, leaf).Some?
    ensures Existing(d, props, path).Some?
    ensures Lookup(d, EnsurePath(d, props, path, leaf).value, path) == Some(Existing(d, props, path).value + [leaf])
    decreases |path|
  {
    if path != [] {
      var props' := EnsurePath(d, props, path, leaf).value;
      var k := FindProp(d, props, path[0]);
      FindPropAt(d, props, props', path[0], k);
      if k == |props| {
        LookupPathProps(d, path[1..], leaf);
        assert props'[k] == KeyValue(IdentKey(path[0]), ObjLit(PathProps(path[1..], leaf)));
        assert [] + [leaf] == [leaf];
      } else {
        var inner := PropValue(props[k]).props;
        EnsurePathAppends(d, inner, path[1..], leaf);
      }
    }
  }

  /**
   * Outside the path nothing changes: every property of the object keeps its place; the one
   * found under the first key keeps its key (only its object value grows), and a new property
   * is appended at the end only when no property was found.
   */
  lemma EnsurePathFrame(d: Dialect, props: seq<Property>, path: seq<string>, leaf: Property)
    requires path != [] && EnsurePath(d, props, path, leaf).Some?
    ensures var props' := EnsurePath(d, props, path, leaf).value;
      var k := FindProp(d, props, path[0]);
      && |props'| == (if k == |props| then |props| + 1 else |props|)
      && (forall j :: 0 <= j < |props| && j != k ==> props'[j] == props[j])
      && KeyName(d, props'[k]) == Some(path[0])
      && (k < |props| ==> props'[k].KeyValue? && props[k].KeyValue? && props'[k].key == props[k].key)
  {
  }

  /** The contents of an existing path are what `Existing` describes. */
  lemma {:induction false} ExistingOfLookup(d: Dialect, props: seq<Property>, path: seq<string>)
    requires Lookup(d, props, path).Some?
    ensures Existing(d, props, path) == Lookup(d, props, path)
    decreases |path|
  {
    if path != [] {
      var k := FindProp(d, props, path[0]);
      ExistingOfLookup(d, PropValue(props[k]).props, path[1..]);
    }
  }

  /** The operation has no existence check: applied twice it leaves two leaves at the end of the path. */
  lemma EnsurePathTwice(d: Dialect, props: seq<Property>, path: seq<string>, leaf: Property)
    requires EnsurePath(d, props, path, leaf).Some?
    ensures Existing(d, props, path).Some?
    ensures var once := EnsurePath(d, props, path, leaf).value;
      && EnsurePath(d, once, path, leaf).Some?
      && Lookup(d, EnsurePath(d, once, path, leaf).value, path) == Some(Existing(d, props, path).value + [leaf, leaf])
  {
    var once := EnsurePath(d, props, path, leaf).value;
    EnsurePathAppends(d, props, path, leaf);
    ExistingOfLookup(d, once, path);
    EnsurePathSucceeds(d, once, path, leaf);
    EnsurePathAppends(d, once, path, leaf);
    assert Existing(d, props, path).value + [leaf] + [leaf] == Existing(d, props, path).value + [leaf, leaf];
  }

  /** Inside a fresh empty literal the operation builds exactly the nested path literal. */
  lemma {:induction false} EnsurePathOnEmpty(d: Dialect, path: seq<string>, leaf: Property)
    ensures EnsurePath(d, [], path, leaf) == Some(PathProps(path, leaf))
  {
    if path != [] {
      assert FindProp(d, [], path[0]) == 0;
      assert PathProps(path, leaf) == [KeyValue(IdentKey(path[0]), ObjLit(PathProps(path[1..], leaf)))];
      assert [] + PathProps(path, leaf) == PathProps(path, leaf);
    } else {
      assert [] + [leaf] == [leaf];
    }
  }
}
