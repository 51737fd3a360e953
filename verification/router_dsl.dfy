/**
 * The route-map DSL object itself: one instance per namespace scope, whose
 * methods append to `matches` in place. Every method is proved, on success, to
 * compute the corresponding function of RouteTable on the instance's state,
 * and to keep `explicitIndex` exact (set exactly when some entry is
 * index-like).
 */
module RouterDsl {
  import opened Wrappers
  import opened RouteNames
  import opened RouteTable
  import opened RouteProperties

  /** What a `route` call reports: it returned, or the reserved-name assertion failed. */
  datatype Outcome = Pass | Fail(error: RouteError)

  /** The outcome and the new state agree with the value-level result. */
  predicate Reports(r: Outcome, expected: Result<Scope>, actual: Scope)
  {
    match expected
    case Ok(s) => r == Pass && actual == s
    case Err(e) => r == Fail(e)
  }

  /** One call the replay makes on the router: `match(path).to(name, callback)`. */
  datatype Registration = MatchTo(path: string, name: string, callback: Option<seq<Entry>>)

  class DSL {
    var parent: Option<string>
    var enableLoadingSubstates: bool
    var matches: seq<Entry>
    var explicitIndex: bool
    var options: Option<DslOptions>

    ghost function State(): Scope
      reads this
    {
      Scope(parent, options, enableLoadingSubstates, matches, explicitIndex)
    }

    ghost predicate Valid()
      reads this
    {
      IndexFlagExact(State())
    }

    /** `new DSL(name, options)`: an empty scope under `name`. */
    constructor (name: Option<string>, options: Option<DslOptions>)
      ensures Valid() && State() == NewScope(name, options)
      ensures matches == [] && !explicitIndex
    {
      parent := name;
      enableLoadingSubstates := options.Some? && options.value.enableLoadingSubstates;
      matches := [];
      explicitIndex := false;
      this.options := options;
    }

    /** `push`: append one entry; set `explicitIndex` for an index-like path or name. */
    method Push(url: string, name: string, callback: Option<seq<Entry>>)
      requires Valid()
      modifies this
      ensures Valid()
      ensures State() == AfterPush(old(State()), url, name, callback)
      ensures matches == old(matches) + [Entry(url, name, callback)]
      ensures explicitIndex == (old(explicitIndex) || IsIndexLike(url, name))
      ensures parent == old(parent) && options == old(options)
      ensures enableLoadingSubstates == old(enableLoadingSubstates)
    {
      var parts := Split(name);
      if url == "" || url == "/" || parts[|parts| - 1] == "index" {
        explicitIndex := true;
      }
      matches := matches + [Entry(url, name, callback)];
      PushKeepsIndexFlag(old(State()), url, name, callback);
    }

    /** `route(name, options, callback)`. */
    method Route(name: string, options: RouteOptions, callback: Callback) returns (r: Outcome)
      requires Valid()
      modifies this
      ensures Valid()
      ensures Reports(r, AfterRoute(old(State()), Decl(RouteCall, name, options, callback)), State())
      decreases CallbackSize(callback), 3
    {
      ghost var d := Decl(RouteCall, name, options, callback);
      var dummyErrorRoute := DummyErrorPath(name);
      if !NameAllowed(name, options) {
        return Fail(InvalidRouteName(name));
      }
      if enableLoadingSubstates {
        CreateRoute(this, name + "_loading", RouteOptions(None, options.resetNamespace, false), None);
        CreateRoute(this, name + "_error", RouteOptions(Some(dummyErrorRoute), false, false), None);
      }
      assert State() == AfterSubstates(old(State()), name, options);
      match callback {
        case NoCallback =>
          CreateRoute(this, name, options, None);
        case Body(decls) =>
          assert ChildScope(State(), d) == ChildScope(old(State()), d);
          var outcome, sub := RunChild(name, options, decls);
          if outcome.Fail? {
            return outcome;
          }
          CreateRoute(this, name, options, Some(sub));
      }
      r := Pass;
    }

    /**
     * The nested part of `route`: a new DSL under the qualified name, with its
     * `loading` and `error` routes, then the callback body, then `generate`.
     * Only the new instance changes.
     */
    method RunChild(name: string, options: RouteOptions, decls: seq<Decl>) returns (r: Outcome, sub: seq<Entry>)
      requires Valid()
      ensures match AfterCallback(ChildScope(State(), Decl(RouteCall, name, options, Body(decls))), decls)
        case Err(e) => r == Fail(e)
        case Ok(child) => r == Pass && sub == AfterGenerate(child).matches
      decreases CallbackSize(Body(decls)), 2
    {
      var fullName := FullName(parent, name, options.resetNamespace);
      var dsl := new DSL(Some(fullName), this.options);
      CreateRoute(dsl, "loading", NoOptions, None);
      CreateRoute(dsl, "error", RouteOptions(Some(DummyErrorPath(name)), false, false), None);
      assert dsl.State() == ChildScope(State(), Decl(RouteCall, name, options, Body(decls)));
      r := dsl.Run(decls);
      if r.Fail? {
        return r, [];
      }
      sub := dsl.Generate();
    }

    /** `resource(name, options, callback)`: `route` with `resetNamespace` forced to true. */
    method Resource(name: string, options: RouteOptions, callback: Callback) returns (r: Outcome)
      requires Valid()
      modifies this
      ensures Valid()
      ensures Reports(r, AfterRoute(old(State()), Decl(ResourceCall, name, options, callback)), State())
      decreases CallbackSize(callback), 4
    {
      r := Route(name, options.(resetNamespace := true), callback);
    }

    /** `callback.call(dsl)`: the body's declarations, in order, against this scope. */
    method Run(callback: seq<Decl>) returns (r: Outcome)
      requires Valid()
      modifies this
      ensures Valid()
      ensures Reports(r, AfterCallback(old(State()), callback), State())
      decreases DeclsSize(callback), 5
    {
      ghost var expected := AfterCallback(State(), callback);
      var i := 0;
      while i < |callback|
        invariant 0 <= i <= |callback|
        invariant Valid()
        invariant expected == AfterCallback(State(), callback[i..])
      {
        var d := callback[i];
        DeclsSizeBound(callback, i);
        assert callback[i..][1..] == callback[i + 1..];
        CallbackUnfold(State(), callback[i..]);
        var outcome := Declare(d);
        if outcome.Fail? {
          return outcome;
        }
        i := i + 1;
      }
      r := Pass;
    }

    /** One statement of a callback body: `this.route(...)` or `this.resource(...)`. */
    method Declare(d: Decl) returns (r: Outcome)
      requires Valid()
      modifies this
      ensures Valid()
      ensures Reports(r, AfterRoute(old(State()), d), State())
      decreases CallbackSize(d.callback), 5
    {
      assert d == Decl(d.call, d.name, d.options, d.callback);
      if d.call == ResourceCall {
        r := Resource(d.name, d.options, d.callback);
      } else {
        r := Route(d.name, d.options, d.callback);
      }
    }

    /**
     * `generate`: declare `route('index', {path: '/'})` unless an explicit index
     * exists, and hand back the table the replay closure walks.
     */
    method Generate() returns (replay: seq<Entry>)
      requires Valid()
      modifies this
      ensures Valid()
      ensures State() == AfterGenerate(old(State()))
      ensures replay == matches
      decreases 0, 4
    {
      if !explicitIndex {
        var _ := Route("index", RouteOptions(Some("/"), false, false), NoCallback);
      }
      replay := matches;
    }

    /** `DSL.map(callback)`: a root scope with no name and no options, filled by the callback. */
    static method Map(callback: seq<Decl>) returns (dsl: DSL, r: Outcome)
      ensures fresh(dsl) && dsl.Valid()
      ensures Reports(r, AfterCallback(NewScope(None, None), callback), dsl.State())
    {
      dsl := new DSL(None, None);
      r := dsl.Run(callback);
    }
  }

  /** `createRoute(dsl, name, options, callback)`: push the qualified name at the route's path. */
  method CreateRoute(dsl: DSL, name: string, options: RouteOptions, callback: Option<seq<Entry>>)
    requires dsl.Valid()
    modifies dsl
    ensures dsl.Valid()
    ensures dsl.State() == AfterCreateRoute(old(dsl.State()), name, options, callback)
    ensures dsl.matches == old(dsl.matches)
      + [Entry(RoutePath(name, options), FullName(old(dsl.parent), name, options.resetNamespace), callback)]
  {
    var fullName := FullName(dsl.parent, name, options.resetNamespace);
    var path := if options.path.Some? then options.path.value else "/" + name;
    dsl.Push(path, fullName, callback);
  }

  /** The function `generate` returns: one `match(path).to(name, callback)` per entry, in order. */
  method Replay(dslMatches: seq<Entry>) returns (calls: seq<Registration>)
    ensures |calls| == |dslMatches|
    ensures forall i :: 0 <= i < |dslMatches| ==>
      calls[i] == MatchTo(dslMatches[i].path, dslMatches[i].name, dslMatches[i].sub)
  {
    calls := [];
    for i := 0 to |dslMatches|
      invariant |calls| == i
      invariant forall j :: 0 <= j < i ==>
        calls[j] == MatchTo(dslMatches[j].path, dslMatches[j].name, dslMatches[j].sub)
    {
      var dslMatch := dslMatches[i];
      calls := calls + [MatchTo(dslMatch.path, dslMatch.name, dslMatch.sub)];
    }
  }
}
