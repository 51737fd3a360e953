/**
 * Name handling of the route-map DSL: how a route's local name is qualified by
 * the enclosing namespace (`canNest`, `getFullName`), and how `push` splits a
 * qualified name on '.' to recognise an index route.
 */
module RouteNames {
  import opened Wrappers

  /** Joins dot-free segments with '.'; the inverse of Split. */
  function Join(parts: seq<string>): string
    requires |parts| >= 1
  {
    if |parts| == 1 then parts[0] else Join(parts[..|parts| - 1]) + "." + parts[|parts| - 1]
  }

  /** JavaScript's `s.split('.')`: the segments between the dots, always at least one. */
  function Split(s: string): (parts: seq<string>)
    ensures |parts| >= 1
  {
    if s == [] then [[]]
    else
      var init := Split(s[..|s| - 1]);
      var c := s[|s| - 1];
      if c == '.' then init + [[]]
      else init[..|init| - 1] + [init[|init| - 1] + [c]]
  }

  /** Split's segments hold no '.', and joining them with '.' gives back the string. */
  lemma {:induction false} SplitJoin(s: string)
    ensures forall i :: 0 <= i < |Split(s)| ==> '.' !in Split(s)[i]
    ensures Join(Split(s)) == s
  {
    if s != [] {
      var pre := s[..|s| - 1];
      var c := s[|s| - 1];
      assert s == pre + [c];
      SplitJoin(pre);
      var init := Split(pre);
      var n := |init|;
      if c == '.' {
        assert (init + [[]])[..n] == init;
      } else {
        var parts := init[..n - 1] + [init[n - 1] + [c]];
        assert parts == Split(s);
        assert parts[..n - 1] == init[..n - 1];
        assert forall i :: 0 <= i < n - 1 ==> parts[i] == init[i];
        if n > 1 {
          assert Join(init) == Join(init[..n - 1]) + "." + init[n - 1];
        }
      }
    }
  }

  /** The segment after the last '.' (the whole name when it has none), as `parts[parts.length - 1]`. */
  function LastSegment(name: string): string
  {
    var parts := Split(name);
    parts[|parts| - 1]
  }

  /**
   * `canNest`: JavaScript's `dsl.parent && dsl.parent !== 'application'`.
   * An absent parent and the empty string are both falsy, so neither nests.
   */
  predicate CanNest(parent: Option<string>): (b: bool)
    ensures b ==> parent.Some? && |parent.value| > 0
    ensures parent == Some("application") ==> !b
  {
    parent.Some? && parent.value != "" && parent.value != "application"
  }

  /**
   * `getFullName`: the local name, prefixed with the parent namespace when the
   * scope nests and `resetNamespace` is not `true`.
   */
  function FullName(parent: Option<string>, name: string, resetNamespace: bool): (r: string)
    ensures r == name <==> !(CanNest(parent) && !resetNamespace)
    ensures r != name ==> r == parent.value + "." + name
  {
    if CanNest(parent) && !resetNamespace then parent.value + "." + name else name
  }

  /** The condition under which `push` sets `explicitIndex`. */
  predicate IsIndexLike(url: string, name: string)
  {
    url == "" || url == "/" || LastSegment(name) == "index"
  }

  /** The last segment of a split is a dot-free suffix, preceded by '.' unless it is the whole name. */
  lemma {:induction false} LastSegmentIsSuffix(name: string)
    ensures var p := LastSegment(name);
      && '.' !in p
      && |p| <= |name| && name[|name| - |p|..] == p
      && (|p| < |name| ==> name[|name| - |p| - 1] == '.')
  {
    var parts := Split(name);
    var n := |parts|;
    var p := parts[n - 1];
    SplitJoin(name);
    if n > 1 {
      var pre := Join(parts[..n - 1]);
      assert name == pre + "." + p;
      assert name[|name| - |p|..] == p;
      assert name[|name| - |p| - 1] == '.';
    }
  }

  /**
   * An independent reading of the index test on names: the last segment is
   * `index` exactly when the name is `index` or ends in `.index`.
   */
  lemma IndexNameIff(name: string)
    ensures LastSegment(name) == "index" <==>
      name == "index" || (|name| >= 6 && name[|name| - 6..] == ".index")
  {
    var p := LastSegment(name);
    LastSegmentIsSuffix(name);
    if |name| >= 6 && name[|name| - 6..] == ".index" {
      assert name[|name| - 6] == '.';
      assert |p| == 5;
      assert p == name[|name| - 5..];
    }
    if p == "index" && name != "index" {
      assert |p| < |name|;
      assert name[|name| - 6..] == [name[|name| - 6]] + name[|name| - 5..];
    }
  }
}
