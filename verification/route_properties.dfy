/**
 * What the DSL promises about the tables it builds: the index flag, the order
 * and naming of injected routes, nesting, `generate`, and unqualified names at
 * the root.
 */
module RouteProperties {
  import opened Wrappers
  import opened RouteNames
  import opened RouteTable

  // ---------------------------------------------------------------------------
  // The explicit-index flag

  predicate HasIndexEntry(m: seq<Entry>)
  {
    exists e :: e in m && IsIndexLike(e.path, e.name)
  }

  /** `explicitIndex` is set exactly when some entry of the scope is index-like. */
  predicate IndexFlagExact(s: Scope)
  {
    s.explicitIndex <==> HasIndexEntry(s.matches)
  }

  lemma NewScopeIndexFlag(name: Option<string>, options: Option<DslOptions>)
    ensures IndexFlagExact(NewScope(name, options))
    ensures !NewScope(name, options).explicitIndex
  {
  }

  lemma PushKeepsIndexFlag(s: Scope, url: string, name: string, sub: Option<seq<Entry>>)
    requires IndexFlagExact(s)
    ensures IndexFlagExact(AfterPush(s, url, name, sub))
  {
    var m := AfterPush(s, url, name, sub).matches;
    assert m[|m| - 1] == Entry(url, name, sub);
    assert forall e :: e in m <==> e in s.matches || e == Entry(url, name, sub);
  }

  lemma CreateRouteKeepsIndexFlag(s: Scope, name: string, options: RouteOptions, sub: Option<seq<Entry>>)
    requires IndexFlagExact(s)
    ensures IndexFlagExact(AfterCreateRoute(s, name, options, sub))
  {
    PushKeepsIndexFlag(s, RoutePath(name, options), FullName(s.parent, name, options.resetNamespace), sub);
  }

  /** `route` keeps the flag exact: it changes `matches` only through `push`. */
  lemma RouteKeepsIndexFlag(s: Scope, d: Decl)
    requires IndexFlagExact(s) && AfterRoute(s, d).Ok?
    ensures IndexFlagExact(AfterRoute(s, d).value)
  {
    var options := EffectiveOptions(d);
    var s1 := AfterSubstates(s, d.name, options);
    if s.enableLoadingSubstates {
      var loading := AfterCreateRoute(s, d.name + "_loading", RouteOptions(None, options.resetNamespace, false), None);
      CreateRouteKeepsIndexFlag(s, d.name + "_loading", RouteOptions(None, options.resetNamespace, false), None);
      CreateRouteKeepsIndexFlag(loading, d.name + "_error", ErrorOptions(d.name), None);
    }
    assert IndexFlagExact(s1);
    match d.callback
    case NoCallback =>
      CreateRouteKeepsIndexFlag(s1, d.name, options, None);
    case Body(decls) =>
      var child := AfterCallback(ChildScope(s, d), decls).value;
      CreateRouteKeepsIndexFlag(s1, d.name, options, Some(AfterGenerate(child).matches));
  }

  lemma {:induction false} CallbackKeepsIndexFlag(s: Scope, decls: seq<Decl>)
    requires IndexFlagExact(s) && AfterCallback(s, decls).Ok?
    ensures IndexFlagExact(AfterCallback(s, decls).value)
    decreases |decls|
  {
    if decls != [] {
      RouteKeepsIndexFlag(s, decls[0]);
      CallbackKeepsIndexFlag(AfterRoute(s, decls[0]).value, decls[1..]);
    }
  }

  lemma GenerateKeepsIndexFlag(s: Scope)
    requires IndexFlagExact(s)
    ensures IndexFlagExact(AfterGenerate(s))
  {
    if !s.explicitIndex {
      RouteKeepsIndexFlag(s, IndexDecl);
    }
  }

  // ---------------------------------------------------------------------------
  // The entries one `route` call appends

  /** The `_loading` and `_error` siblings, by their paths and qualified names. */
  function SubstateEntries(s: Scope, name: string, options: RouteOptions): seq<Entry>
  {
    if s.enableLoadingSubstates then
      [ Entry("/" + name + "_loading", FullName(s.parent, name + "_loading", options.resetNamespace), None),
        Entry(DummyErrorPath(name), FullName(s.parent, name + "_error", false), None) ]
    else []
  }

  lemma CreateRouteLayout(s: Scope, name: string, options: RouteOptions, sub: Option<seq<Entry>>)
    ensures var t := AfterCreateRoute(s, name, options, sub);
      && t.matches == s.matches + [Entry(RoutePath(name, options), FullName(s.parent, name, options.resetNamespace), sub)]
      && t.parent == s.parent && t.enableLoadingSubstates == s.enableLoadingSubstates
  {
  }

  lemma SubstatesLayout(s: Scope, name: string, options: RouteOptions)
    ensures AfterSubstates(s, name, options).matches == s.matches + SubstateEntries(s, name, options)
    ensures AfterSubstates(s, name, options).parent == s.parent
  {
    if s.enableLoadingSubstates {
      var lo := RouteOptions(None, options.resetNamespace, false);
      var loading := AfterCreateRoute(s, name + "_loading", lo, None);
      CreateRouteLayout(s, name + "_loading", lo, None);
      CreateRouteLayout(loading, name + "_error", ErrorOptions(name), None);
      assert RoutePath(name + "_loading", lo) == "/" + name + "_loading";
    }
  }

  /**
   * A route without a callback appends, in order, its `_loading` and `_error`
   * siblings (when substates are enabled) and then its own entry, at the given
   * path or `/` + its local name, under its qualified name.
   */
  lemma LeafRouteLayout(s: Scope, d: Decl)
    requires d.callback.NoCallback? && NameAllowed(d.name, EffectiveOptions(d))
    ensures AfterRoute(s, d).Ok?
    ensures var o := EffectiveOptions(d);
      AfterRoute(s, d).value.matches
        == s.matches + SubstateEntries(s, d.name, o)
           + [Entry(RoutePath(d.name, o), FullName(s.parent, d.name, o.resetNamespace), None)]
  {
    SubstatesLayout(s, d.name, EffectiveOptions(d));
  }

  /** The finished table of a nested route's child scope: the generator its entry carries. */
  function ChildTable(s: Scope, d: Decl): seq<Entry>
    requires d.callback.Body? && TreeAllowed(d)
  {
    AfterGenerate(AfterCallback(ChildScope(s, d), d.callback.decls).value).matches
  }

  /** The qualified name of a declaration in scope `s`. */
  function QualifiedName(s: Scope, d: Decl): string
  {
    FullName(s.parent, d.name, EffectiveOptions(d).resetNamespace)
  }

  /** The child scope is named by the route's qualified name and starts with `loading` and `error`. */
  lemma ChildScopeLayout(s: Scope, d: Decl)
    ensures ChildScope(s, d).parent == Some(QualifiedName(s, d))
    ensures ChildScope(s, d).options == s.options
    ensures ChildScope(s, d).matches
      == [ Entry("/loading", FullName(Some(QualifiedName(s, d)), "loading", false), None),
           Entry(DummyErrorPath(d.name), FullName(Some(QualifiedName(s, d)), "error", false), None) ]
  {
    var q := Some(QualifiedName(s, d));
    var child0 := NewScope(q, s.options);
    var child1 := AfterCreateRoute(child0, "loading", NoOptions, None);
    var loading := Entry("/loading", FullName(q, "loading", false), None);
    var error := Entry(DummyErrorPath(d.name), FullName(q, "error", false), None);
    assert RoutePath("loading", NoOptions) == "/loading";
    CreateRouteLayout(child0, "loading", NoOptions, None);
    assert child1.matches == [loading];
    CreateRouteLayout(child1, "error", ErrorOptions(d.name), None);
    assert ChildScope(s, d).matches == [loading] + [error];
  }

  /**
   * A route with a callback: the callback's entries and the child's `generate`
   * additions follow the child's `loading` and `error`; the parent then gains,
   * after any substates, exactly one entry carrying the child's finished table.
   */
  lemma NestedRouteLayout(s: Scope, d: Decl)
    requires d.callback.Body? && TreeAllowed(d)
    ensures AfterCallback(ChildScope(s, d), d.callback.decls).Ok?
    ensures Prefix(ChildScope(s, d).matches, AfterCallback(ChildScope(s, d), d.callback.decls).value.matches)
    ensures Prefix(AfterCallback(ChildScope(s, d), d.callback.decls).value.matches, ChildTable(s, d))
    ensures AfterRoute(s, d).value.matches
      == s.matches + SubstateEntries(s, d.name, EffectiveOptions(d))
         + [Entry(RoutePath(d.name, EffectiveOptions(d)), QualifiedName(s, d), Some(ChildTable(s, d)))]
  {
    var o := EffectiveOptions(d);
    var s1 := AfterSubstates(s, d.name, o);
    SubstatesLayout(s, d.name, o);
    CreateRouteLayout(s1, d.name, o, Some(ChildTable(s, d)));
  }
  /** The generator a route's entry carries: the child's finished table, if it has a callback. */
  function RouteSub(s: Scope, d: Decl): Option<seq<Entry>>
    requires TreeAllowed(d)
  {
    if d.callback.Body? then Some(ChildTable(s, d)) else None
  }

  /** Either way, a route appends its substates and then exactly one entry for itself. */
  lemma RouteLayout(s: Scope, d: Decl)
    requires TreeAllowed(d)
    ensures AfterRoute(s, d).Ok?
    ensures AfterRoute(s, d).value.matches
      == s.matches + SubstateEntries(s, d.name, EffectiveOptions(d))
         + [Entry(RoutePath(d.name, EffectiveOptions(d)), QualifiedName(s, d), RouteSub(s, d))]
  {
    if d.callback.Body? {
      NestedRouteLayout(s, d);
    } else {
      LeafRouteLayout(s, d);
    }
  }


  /**
   * `resource` ignores the enclosing namespace for the route and its `_loading`
   * sibling; the `_error` sibling is still qualified.
   */
  lemma ResourceResetsNamespace(s: Scope, d: Decl)
    requires d.call == ResourceCall && TreeAllowed(d)
    ensures var m := AfterRoute(s, d).value.matches;
      && |m| == |s.matches| + (if s.enableLoadingSubstates then 3 else 1)
      && m[|m| - 1].name == d.name
      && (s.enableLoadingSubstates ==>
            && m[|s.matches|].name == d.name + "_loading"
            && m[|s.matches| + 1].name == FullName(s.parent, d.name + "_error", false))
  {
    var o := EffectiveOptions(d);
    assert o.resetNamespace;
    RouteLayout(s, d);
    var se := SubstateEntries(s, d.name, o);
    var last := Entry(RoutePath(d.name, o), QualifiedName(s, d), RouteSub(s, d));
    var m := AfterRoute(s, d).value.matches;
    assert m == s.matches + se + [last];
    assert m[|m| - 1] == last;
    if s.enableLoadingSubstates {
      assert m[|s.matches|] == se[0] && m[|s.matches| + 1] == se[1];
    }
  }



  /**
   * The reserved-name assertion: a reserved name without the override fails
   * with that name whether or not the route has a callback, since the check
   * runs before the callback; for a route without a callback it is the only
   * way to fail.
   */
  lemma ReservedNameRule(s: Scope, d: Decl)
    ensures d.name in ["array", "basic", "object", "application"] && !d.options.overrideNameAssertion ==>
      AfterRoute(s, d) == Err(InvalidRouteName(d.name))
    ensures d.callback.NoCallback? ==>
      (AfterRoute(s, d).Err? <==>
         d.name in ["array", "basic", "object", "application"] && !d.options.overrideNameAssertion)
  {
  }

  // ---------------------------------------------------------------------------
  // generate

  /**
   * `generate` adds `index` (with its substates) at `/` exactly when the flag
   * is unset, and always leaves the flag set.
   */
  lemma GenerateLayout(s: Scope)
    ensures s.explicitIndex ==> AfterGenerate(s) == s
    ensures !s.explicitIndex ==>
      AfterGenerate(s).matches
        == s.matches + SubstateEntries(s, "index", IndexDecl.options)
           + [Entry("/", FullName(s.parent, "index", false), None)]
    ensures AfterGenerate(s).explicitIndex
  {
    if !s.explicitIndex {
      LeafRouteLayout(s, IndexDecl);
    }
  }

  /** A second `generate` adds nothing. */
  lemma GenerateIdempotent(s: Scope)
    ensures AfterGenerate(AfterGenerate(s)) == AfterGenerate(s)
  {
    GenerateLayout(s);
  }

  /** On a scope whose flag is exact, the implicit index is added exactly when no entry is index-like. */
  lemma ImplicitIndexIff(s: Scope)
    requires IndexFlagExact(s)
    ensures |AfterGenerate(s).matches| > |s.matches| <==> !HasIndexEntry(s.matches)
    ensures HasIndexEntry(AfterGenerate(s).matches)
  {
    GenerateLayout(s);
    GenerateKeepsIndexFlag(s);
  }

  // ---------------------------------------------------------------------------
  // Names at the root

  /** `name` is the local name of `d` or of one of its substate siblings. */
  predicate LocalNameOf(name: string, d: Decl)
  {
    name == d.name || name == d.name + "_loading" || name == d.name + "_error"
  }

  predicate DeclaredLocally(name: string, decls: seq<Decl>)
  {
    exists d :: d in decls && LocalNameOf(name, d)
  }

  /** Every entry of `m` from index `lo` on carries a declared local name. */
  predicate NamesDeclaredFrom(m: seq<Entry>, lo: nat, decls: seq<Decl>)
  {
    forall k :: lo <= k < |m| ==> DeclaredLocally(m[k].name, decls)
  }

  /** In a scope that does not nest, the entries one `route` adds carry its unqualified local names. */
  lemma RouteNamesUnqualified(s: Scope, d: Decl)
    requires !CanNest(s.parent) && TreeAllowed(d)
    ensures var m := AfterRoute(s, d).value.matches;
      forall k :: |s.matches| <= k < |m| ==> LocalNameOf(m[k].name, d)
  {
    SubstatesLayout(s, d.name, EffectiveOptions(d));
    if d.callback.Body? {
      NestedRouteLayout(s, d);
    } else {
      LeafRouteLayout(s, d);
    }
  }

  /** In a scope that does not nest, every entry a callback adds carries an unqualified declared name. */
  lemma {:induction false} RootNamesUnqualified(s: Scope, decls: seq<Decl>)
    requires !CanNest(s.parent) && AllAllowed(decls)
    ensures NamesDeclaredFrom(AfterCallback(s, decls).value.matches, |s.matches|, decls)
    decreases |decls|
  {
    if decls != [] {
      CallbackStep(s, decls);
      var s1 := AfterRoute(s, decls[0]).value;
      RouteNamesUnqualified(s, decls[0]);
      RootNamesUnqualified(s1, decls[1..]);
      NamesDeclaredCompose(s1.matches, AfterCallback(s1, decls[1..]).value.matches, |s.matches|, decls);
    }
  }

  /** One step of a callback body: the first declaration, then the rest. */
  lemma CallbackStep(s: Scope, decls: seq<Decl>)
    requires decls != [] && AllAllowed(decls)
    ensures TreeAllowed(decls[0]) && AllAllowed(decls[1..])
    ensures AfterCallback(s, decls) == AfterCallback(AfterRoute(s, decls[0]).value, decls[1..])
  {
    assert decls[0] in decls;
    assert forall e :: e in decls[1..] ==> e in decls;
  }

  lemma NamesDeclaredCompose(m1: seq<Entry>, m: seq<Entry>, lo: nat, decls: seq<Decl>)
    requires decls != [] && lo <= |m1|
    requires Prefix(m1, m)
    requires forall k :: lo <= k < |m1| ==> LocalNameOf(m1[k].name, decls[0])
    requires NamesDeclaredFrom(m, |m1|, decls[1..])
    ensures NamesDeclaredFrom(m, lo, decls)
  {
    assert decls[0] in decls;
    forall k | lo <= k < |m|
      ensures DeclaredLocally(m[k].name, decls)
    {
      if k < |m1| {
        assert m[k] == m1[k];
      } else {
        assert DeclaredLocally(m[k].name, decls[1..]);
        var e :| e in decls[1..] && LocalNameOf(m[k].name, e);
        assert e in decls;
      }
    }
  }

  /**
   * `DSL.map` followed by `generate`: every entry of the root table has an
   * unqualified name, declared in the callback or the implicit index.
   */
  lemma MapTableUnqualified(options: Option<DslOptions>, decls: seq<Decl>)
    requires AllAllowed(decls)
    ensures var root := AfterCallback(NewScope(None, options), decls).value;
      var table := AfterGenerate(root).matches;
      forall k :: 0 <= k < |table| ==> DeclaredLocally(table[k].name, decls + [IndexDecl])
  {
    var root := AfterCallback(NewScope(None, options), decls).value;
    RootNamesUnqualified(NewScope(None, options), decls);
    GenerateLayout(root);
    var table := AfterGenerate(root).matches;
    forall k | 0 <= k < |table|
      ensures DeclaredLocally(table[k].name, decls + [IndexDecl])
    {
      if k < |root.matches| {
        assert table[k] == root.matches[k];
        assert NamesDeclaredFrom(root.matches, 0, decls);
        assert DeclaredLocally(root.matches[k].name, decls);
        var e :| e in decls && LocalNameOf(table[k].name, e);
        assert e in decls + [IndexDecl];
      } else {
        assert IndexDecl in decls + [IndexDecl];
        assert LocalNameOf(table[k].name, IndexDecl);
      }
    }
  }
}
