/** Concrete route maps and the tables the DSL builds for them. */
module RouteScenarios {
  import opened Wrappers
  import opened RouteNames
  import opened RouteTable
  import opened RouteProperties
  import opened RouterDsl

  const NewPost: Decl := Decl(RouteCall, "new", NoOptions, NoCallback)
  const Posts: Decl := Decl(RouteCall, "posts", NoOptions, Body([NewPost]))

  const PostsLoading: Entry := Entry("/loading", "posts.loading", None)
  const PostsError: Entry := Entry(DummyErrorPath("posts"), "posts.error", None)
  const PostsNew: Entry := Entry("/new", "posts.new", None)
  const PostsIndex: Entry := Entry("/", "posts.index", None)

  lemma NotIndexLike(url: string, name: string)
    requires url != "" && url != "/" && name != "index"
    requires |name| < 6 || name[|name| - 6..] != ".index"
    ensures !IsIndexLike(url, name)
  {
    IndexNameIff(name);
  }

  /** The qualified names inside `posts`. */
  lemma PostsNames()
    ensures FullName(Some("posts"), "loading", false) == "posts.loading"
    ensures FullName(Some("posts"), "error", false) == "posts.error"
    ensures FullName(Some("posts"), "new", false) == "posts.new"
    ensures FullName(Some("posts"), "index", false) == "posts.index"
  {
  }

  /** The default paths of the routes in the map. */
  lemma PostsPaths()
    ensures RoutePath("posts", NoOptions) == "/posts"
    ensures RoutePath("loading", NoOptions) == "/loading"
    ensures RoutePath("new", NoOptions) == "/new"
  {
  }

  /** The scope `posts`'s callback runs in, before the callback. */
  lemma PostsChildScope()
    ensures ChildScope(NewScope(None, None), Posts) == Scope(Some("posts"), None, false, [PostsLoading, PostsError], false)
  {
    var root := NewScope(None, None);
    assert QualifiedName(root, Posts) == "posts";
    PostsNames();
    var child0 := NewScope(Some("posts"), None);
    PostsPaths();
    NotIndexLike("/loading", "posts.loading");
    var child1 := AfterCreateRoute(child0, "loading", NoOptions, None);
    assert child1 == Scope(Some("posts"), None, false, [PostsLoading], false);
    NotIndexLike(DummyErrorPath("posts"), "posts.error");
    var child2 := AfterCreateRoute(child1, "error", ErrorOptions("posts"), None);
    assert child2 == Scope(Some("posts"), None, false, [PostsLoading, PostsError], false);
  }

  /** The scope after `this.route('new')`. */
  lemma PostsCallback()
    ensures AfterCallback(Scope(Some("posts"), None, false, [PostsLoading, PostsError], false), [NewPost])
      == Ok(Scope(Some("posts"), None, false, [PostsLoading, PostsError, PostsNew], false))
  {
    var child := Scope(Some("posts"), None, false, [PostsLoading, PostsError], false);
    assert forall d :: d in [NewPost] ==> d == NewPost;
    CallbackStep(child, [NewPost]);
    assert [NewPost][1..] == [];
    PostsNames();
    PostsPaths();
    assert AfterRoute(child, NewPost) == Ok(AfterPush(child, "/new", "posts.new", None));
    NotIndexLike("/new", "posts.new");
    var after := AfterPush(child, "/new", "posts.new", None);
    assert after.matches == [PostsLoading, PostsError, PostsNew];
    assert !after.explicitIndex;
    assert AfterCallback(child, [NewPost]) == AfterCallback(after, []);
  }

  /** The child's `generate` adds `posts.index`. */
  lemma PostsGenerate()
    ensures AfterGenerate(Scope(Some("posts"), None, false, [PostsLoading, PostsError, PostsNew], false)).matches
      == [PostsLoading, PostsError, PostsNew, PostsIndex]
  {
    GenerateLayout(Scope(Some("posts"), None, false, [PostsLoading, PostsError, PostsNew], false));
    PostsNames();
  }

  /** The table `posts`'s entry carries. */
  lemma PostsChildTable()
    ensures TreeAllowed(Posts)
    ensures ChildTable(NewScope(None, None), Posts) == [PostsLoading, PostsError, PostsNew, PostsIndex]
  {
    assert forall d :: d in [NewPost] ==> d == NewPost;
    PostsChildScope();
    PostsCallback();
    PostsGenerate();
  }

  /** `this.route('posts', ...)` on the root: one push carrying the nested table. */
  lemma PostsRoute()
    ensures AfterRoute(NewScope(None, None), Posts)
      == Ok(AfterCreateRoute(NewScope(None, None), "posts", NoOptions,
                             Some([PostsLoading, PostsError, PostsNew, PostsIndex])))
  {
    var root := NewScope(None, None);
    PostsChildTable();
    assert AfterSubstates(root, "posts", NoOptions) == root;
  }

  /** The root scope after `posts`'s callback: one entry carrying the nested table. */
  lemma PostsRoot()
    ensures AfterCallback(NewScope(None, None), [Posts])
      == Ok(Scope(None, None, false,
                  [Entry("/posts", "posts", Some([PostsLoading, PostsError, PostsNew, PostsIndex]))], false))
  {
    var root := NewScope(None, None);
    var sub := [PostsLoading, PostsError, PostsNew, PostsIndex];
    PostsChildTable();
    assert AllAllowed([Posts]);
    CallbackStep(root, [Posts]);
    assert [Posts][1..] == [];
    PostsRoute();
    PostsPaths();
    assert FullName(None, "posts", false) == "posts";
    NotIndexLike("/posts", "posts");
    assert AfterCreateRoute(root, "posts", NoOptions, Some(sub))
      == Scope(None, None, false, [Entry("/posts", "posts", Some(sub))], false);
  }



  /**
   * `map(function () { this.route('posts', function () { this.route('new'); }); })`
   * then `generate()`, without substates: the nested table is `loading`,
   * `error`, `new`, the implicit `index`; the root has `posts` and its own `index`.
   */
  lemma PostsTable()
    ensures AfterCallback(NewScope(None, None), [Posts]).Ok?
    ensures AfterGenerate(AfterCallback(NewScope(None, None), [Posts]).value).matches
      == [ Entry("/posts", "posts", Some([PostsLoading, PostsError, PostsNew, PostsIndex])),
           Entry("/", "index", None) ]
  {
    PostsRoot();
    GenerateLayout(AfterCallback(NewScope(None, None), [Posts]).value);
  }

  /** The same map built through the DSL object, and what its replay hands the router. */
  method PostsThroughDsl() returns (calls: seq<Registration>)
    ensures calls == [ MatchTo("/posts", "posts", Some([PostsLoading, PostsError, PostsNew, PostsIndex])),
                       MatchTo("/", "index", None) ]
  {
    var dsl, r := DSL.Map([Posts]);
    PostsTable();
    var table := dsl.Generate();
    calls := Replay(table);
  }
}
