/**
 * The route table that the DSL builds, as values: the options a declaration
 * carries, the entries `push` records, the declaration tree that stands for the
 * JavaScript callbacks, and the effect of each DSL operation on one scope.
 * The class in RouterDsl is proved to compute exactly these functions.
 */
module RouteTable {
  import opened Wrappers
  import opened RouteNames

  /**
   * The options bag of `route`, `resource` and `createRoute`. `path` is None
   * when `options.path` is not a string; each flag is true exactly when the
   * JavaScript value is `=== true`, the only test the code applies to it.
   */
  datatype RouteOptions = RouteOptions(path: Option<string>, resetNamespace: bool, overrideNameAssertion: bool)

  /** The `{}` the code substitutes when no options are passed. */
  const NoOptions: RouteOptions := RouteOptions(None, false, false)

  /** The options of a DSL instance: only `enableLoadingSubstates` is read. */
  datatype DslOptions = DslOptions(enableLoadingSubstates: bool)

  /**
   * One `[url, name, callback]` triple of `matches`. The callback, when present,
   * is the nested scope's generated table.
   */
  datatype Entry = Entry(path: string, name: string, sub: Option<seq<Entry>>)

  /** A call the body of a map callback makes: `this.route(...)` or `this.resource(...)`. */
  datatype Call = RouteCall | ResourceCall
  datatype Decl = Decl(call: Call, name: string, options: RouteOptions, callback: Callback)

  /** The callback argument: absent, or a body that declares routes in order on the child scope. */
  datatype Callback = NoCallback | Body(decls: seq<Decl>)

  /** The one failure: the reserved-name assertion of `route`. */
  datatype RouteError = InvalidRouteName(name: string)
  datatype Result<+T> = Ok(value: T) | Err(error: RouteError)

  /** The state of one DSL instance. */
  datatype Scope = Scope(
    parent: Option<string>,
    options: Option<DslOptions>,
    enableLoadingSubstates: bool,
    matches: seq<Entry>,
    explicitIndex: bool)

  /** The DSL constructor: `enableLoadingSubstates` is `options && options.enableLoadingSubstates`. */
  function NewScope(name: Option<string>, options: Option<DslOptions>): (r: Scope)
    ensures r.parent == name && r.options == options
    ensures r.enableLoadingSubstates <==> options.Some? && options.value.enableLoadingSubstates
    ensures r.matches == [] && !r.explicitIndex
  {
    Scope(name, options, options.Some? && options.value.enableLoadingSubstates, [], false)
  }

  /** The path of an error substate, which no real URL reaches. */
  function DummyErrorPath(name: string): string
  {
    "/_unused_dummy_error_path_route_" + name + "/:error"
  }

  function ErrorOptions(name: string): RouteOptions
  {
    RouteOptions(Some(DummyErrorPath(name)), false, false)
  }

  const ReservedNames: seq<string> := ["array", "basic", "object", "application"]

  /** The reserved-name assertion of `route`. */
  predicate NameAllowed(name: string, options: RouteOptions): (b: bool)
    ensures options.overrideNameAssertion ==> b
    ensures !b ==> name == "array" || name == "basic" || name == "object" || name == "application"
  {
    options.overrideNameAssertion || name !in ReservedNames
  }

  /** The options `route` sees: `resource` first sets `resetNamespace` to true. */
  function EffectiveOptions(d: Decl): (o: RouteOptions)
    ensures o.path == d.options.path && o.overrideNameAssertion == d.options.overrideNameAssertion
    ensures o.resetNamespace <==> d.call == ResourceCall || d.options.resetNamespace
  {
    if d.call == ResourceCall then d.options.(resetNamespace := true) else d.options
  }

  /** Every name declared in the tree passes the reserved-name assertion. */
  predicate TreeAllowed(d: Decl)
  {
    && NameAllowed(d.name, EffectiveOptions(d))
    && (d.callback.Body? ==> forall c :: c in d.callback.decls ==> TreeAllowed(c))
  }

  predicate AllAllowed(decls: seq<Decl>)
  {
    forall d :: d in decls ==> TreeAllowed(d)
  }

  /** Termination measures for the route / callback / generate recursion. */
  function CallbackSize(cb: Callback): nat
  {
    match cb
    case NoCallback => 0
    case Body(decls) => 1 + DeclsSize(decls)
  }

  function DeclsSize(decls: seq<Decl>): nat
  {
    if decls == [] then 0 else 1 + CallbackSize(decls[0].callback) + DeclsSize(decls[1..])
  }

  lemma DeclsSizeBound(decls: seq<Decl>, i: nat)
    requires i < |decls|
    ensures CallbackSize(decls[i].callback) < DeclsSize(decls)
  {
    if i > 0 {
      DeclsSizeBound(decls[1..], i - 1);
    }
  }

  predicate Prefix(a: seq<Entry>, b: seq<Entry>)
  {
    |a| <= |b| && b[..|a|] == a
  }

  /** What every operation keeps: the scope's identity, the entries so far, a set index flag. */
  predicate Extends(s: Scope, t: Scope)
  {
    && t.parent == s.parent
    && t.options == s.options
    && t.enableLoadingSubstates == s.enableLoadingSubstates
    && Prefix(s.matches, t.matches)
    && (s.explicitIndex ==> t.explicitIndex)
  }

  lemma ExtendsTransitive(s: Scope, t: Scope, u: Scope)
    requires Extends(s, t) && Extends(t, u)
    ensures Extends(s, u)
  {
    assert u.matches[..|s.matches|] == u.matches[..|t.matches|][..|s.matches|];
  }

  /** `push`: append the triple; set `explicitIndex` for an index-like path or name. */
  function AfterPush(s: Scope, url: string, name: string, sub: Option<seq<Entry>>): (r: Scope)
    ensures Extends(s, r)
  {
    s.(matches := s.matches + [Entry(url, name, sub)],
       explicitIndex := s.explicitIndex || IsIndexLike(url, name))
  }

  /** The path `createRoute` pushes: the given string, else `/` + the local name. */
  function RoutePath(name: string, options: RouteOptions): (p: string)
    ensures options.path.Some? ==> p == options.path.value
    ensures options.path.None? ==> |p| == |name| + 1 && p[0] == '/' && p[1..] == name
  {
    if options.path.Some? then options.path.value else "/" + name
  }

  /** `createRoute`: push the qualified name at the route's path. */
  function AfterCreateRoute(s: Scope, name: string, options: RouteOptions, sub: Option<seq<Entry>>): (r: Scope)
    ensures Extends(s, r)
  {
    AfterPush(s, RoutePath(name, options), FullName(s.parent, name, options.resetNamespace), sub)
  }

  /** The `_loading` and `_error` siblings `route` creates first when substates are enabled. */
  function AfterSubstates(s: Scope, name: string, options: RouteOptions): (r: Scope)
    ensures Extends(s, r)
  {
    if s.enableLoadingSubstates then
      var loading := AfterCreateRoute(s, name + "_loading", RouteOptions(None, options.resetNamespace, false), None);
      var error := AfterCreateRoute(loading, name + "_error", ErrorOptions(name), None);
      ExtendsTransitive(s, loading, error);
      error
    else s
  }

  /** The child scope of a route with a callback, after its `loading` and `error` routes. */
  function ChildScope(s: Scope, d: Decl): Scope
  {
    var fullName := FullName(s.parent, d.name, EffectiveOptions(d).resetNamespace);
    var child := NewScope(Some(fullName), s.options);
    AfterCreateRoute(AfterCreateRoute(child, "loading", NoOptions, None), "error", ErrorOptions(d.name), None)
  }

  /**
   * `route` (and `resource`): fails exactly when some name of the tree is
   * reserved, and otherwise only appends to the scope.
   */
  function AfterRoute(s: Scope, d: Decl): (r: Result<Scope>)
    ensures r.Ok? <==> TreeAllowed(d)
    ensures r.Ok? ==> Extends(s, r.value)
    decreases CallbackSize(d.callback), 3
  {
    var options := EffectiveOptions(d);
    if !NameAllowed(d.name, options) then Err(InvalidRouteName(d.name))
    else
      var s1 := AfterSubstates(s, d.name, options);
      match d.callback
      case NoCallback =>
        var s2 := AfterCreateRoute(s1, d.name, options, None);
        ExtendsTransitive(s, s1, s2);
        Ok(s2)
      case Body(decls) =>
        match AfterCallback(ChildScope(s, d), decls)
        case Err(e) => Err(e)
        case Ok(child) =>
          var s2 := AfterCreateRoute(s1, d.name, options, Some(AfterGenerate(child).matches));
          ExtendsTransitive(s, s1, s2);
          Ok(s2)
  }

  /** Running a callback body: its declarations in order, stopping at the first failure. */
  function AfterCallback(s: Scope, decls: seq<Decl>): (r: Result<Scope>)
    ensures r.Ok? <==> AllAllowed(decls)
    ensures r.Ok? ==> Extends(s, r.value)
    decreases DeclsSize(decls), 5
  {
    if decls == [] then Ok(s)
    else
      assert AllAllowed(decls) <==> TreeAllowed(decls[0]) && AllAllowed(decls[1..]) by {
        assert forall d :: d in decls <==> d == decls[0] || d in decls[1..];
      }
      match AfterRoute(s, decls[0])
      case Err(e) => Err(e)
      case Ok(s1) =>
        var r := AfterCallback(s1, decls[1..]);
        if r.Ok? then ExtendsTransitive(s, s1, r.value); r else r
  }

  /** One step of a callback body: its first declaration, then the rest. */
  lemma CallbackUnfold(s: Scope, decls: seq<Decl>)
    requires decls != []
    ensures AfterCallback(s, decls)
      == match AfterRoute(s, decls[0])
         case Err(e) => Err(e)
         case Ok(s1) => AfterCallback(s1, decls[1..])
  {
  }

  /** The `route('index', {path: '/'})` that `generate` declares. */
  const IndexDecl: Decl := Decl(RouteCall, "index", RouteOptions(Some("/"), false, false), NoCallback)

  /** `generate`: declare the implicit index route unless an explicit one exists. */
  function AfterGenerate(s: Scope): (r: Scope)
    ensures Extends(s, r)
    decreases 0, 4
  {
    if s.explicitIndex then s else AfterRoute(s, IndexDecl).value
  }
}
