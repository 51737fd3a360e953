# Ember's route-map DSL, modelled in Dafny

This project models the route-map DSL of `ember-routing`
(`packages/ember-routing/lib/system/dsl.js`). The DSL turns nested route
declarations into an ordered table of `[path, qualifiedName, childGenerator]`
entries. Each `DSL` instance stands for one namespace scope. `route` qualifies
a route's local name with the enclosing namespace, defaults its path to
`/` + the local name, and injects `<name>_loading` / `<name>_error` siblings
when loading substates are enabled. A route with a callback gets a child scope
that starts with `loading` and `error` routes. `generate` adds an implicit
`index` route when no explicit one exists, then returns a replay function that
walks the table in insertion order.

Files:

- `wrappers.dfy`: `Option`.
- `route_names.dfy` (module `RouteNames`): `canNest`, `getFullName`, and the
  `name.split('.')` test that `push` uses to spot index routes.
- `route_table.dfy` (module `RouteTable`): the values. These are the options
  bag, `Entry`, and the declaration tree (`Decl`, `Callback`) that replaces the
  JavaScript callbacks. A `Scope` value holds a DSL instance's state. There is
  one function per operation (`AfterPush`, `AfterCreateRoute`, `AfterRoute`,
  `AfterCallback`, `AfterGenerate`) giving the state the operation produces.
- `route_properties.dfy` (module `RouteProperties`): lemmas about those
  functions.
- `router_dsl.dfy` (module `RouterDsl`): the `DSL` class. Its fields are
  `parent`, `enableLoadingSubstates`, `matches`, `explicitIndex` and
  `options`, and its methods update them in place: `Push`, `Route`,
  `Resource`, `Generate`, the static `Map`, and `Run` (the body of a
  callback). It also has `CreateRoute` (a module-level method, like the
  JavaScript helper) and `Replay` (the loop of the closure `generate`
  returns). Each method is proved, on success, to compute its `RouteTable`
  function on the instance's state. Each also keeps the class invariant `Valid()`:
  `explicitIndex` is set exactly when some entry is index-like.
- `route_scenarios.dfy` (module `RouteScenarios`): a worked example. It takes
  the map `posts { new }` through the functions and through the class.

Modelling choices:

- A JavaScript callback becomes `Body(decls)`, the list of `route`/`resource`
  calls it makes on the child scope. The replay closure becomes the
  `seq<Entry>` it walks. A nested entry's generator is the child's finished
  table.
- `resetNamespace` and `overrideNameAssertion` are `bool`. `true` means the
  JavaScript value is `=== true`, which is the only test the code applies.
  `path` is `None` when `options.path` is not a string.
- `canNest` is `dsl.parent && dsl.parent !== 'application'`. So an empty
  parent string does not nest either, and the model keeps that.
- The reserved-name `assert` becomes an error result:
  `Fail(InvalidRouteName(name))`. On an error, nothing is pushed for that
  declaration, and the error propagates out of every enclosing callback.
- A child scope always starts with a `loading` and an `error` route, before
  any route its callback declares (`ChildScopeLayout`, `PostsTable`).
- A second `generate` adds nothing. The first one pushes `index` at path `/`,
  which sets `explicitIndex` (`GenerateIdempotent`).

## Model

| member | source | states |
|---|---|---|
| RouteNames.SplitJoin | packages/ember-routing/lib/system/dsl.js:69 | the segments of `name.split('.')` hold no '.', and joining them with '.' gives back the name |
| RouteNames.LastSegmentIsSuffix | packages/ember-routing/lib/system/dsl.js:69-70 | `parts[parts.length - 1]` is a dot-free suffix of the name, preceded by '.' unless it is the whole name |
| RouteNames.IndexNameIff | packages/ember-routing/lib/system/dsl.js:70 | the last segment is `index` exactly when the name is `index` or ends in `.index` |
| RouteNames.Split | packages/ember-routing/lib/system/dsl.js:69 | `name.split('.')` yields at least one segment (with `SplitJoin`, exactly the dot-free segments between the dots) |
| RouteNames.CanNest | packages/ember-routing/lib/system/dsl.js:106-108 | a scope nests only when it has a non-empty parent name, and never under `application` |
| RouteNames.FullName | packages/ember-routing/lib/system/dsl.js:106-116 | the result differs from the local name exactly when the parent nests (present, non-empty, not `application`) and `resetNamespace` is not true; then it is `parent.name` |
| RouteTable.NewScope | packages/ember-routing/lib/system/dsl.js:9-13 | a new scope has the given parent and options, substates on exactly when the options enable them, no entries and the index flag unset |
| RouteTable.NameAllowed | packages/ember-routing/lib/system/dsl.js:35-42 | the assertion passes whenever `overrideNameAssertion` is true, and fails only for `array`, `basic`, `object` or `application` |
| RouteTable.EffectiveOptions | packages/ember-routing/lib/system/dsl.js:85 | the options route sees keep the caller's path and override flag; `resetNamespace` is true for a resource and otherwise the caller's |
| RouteTable.RoutePath | packages/ember-routing/lib/system/dsl.js:123-125 | the pushed path is the given path string, or else `/` followed by the local name |
| RouteTable.ChildScope | packages/ember-routing/lib/system/dsl.js:54-58 | the child scope's parent is the route's qualified name, it shares the parent's options, and it holds two entries (`loading`, `error`; laid out in `ChildScopeLayout`) |
| RouteTable.AfterPush | packages/ember-routing/lib/system/dsl.js:68-73 | push keeps the scope's parent and options, keeps earlier entries as a prefix, and never clears the index flag |
| RouteTable.AfterCreateRoute | packages/ember-routing/lib/system/dsl.js:118-128 | createRoute only extends the scope |
| RouteTable.AfterSubstates | packages/ember-routing/lib/system/dsl.js:44-47 | injecting substates only extends the scope |
| RouteTable.AfterRoute | packages/ember-routing/lib/system/dsl.js:24-66 | route fails exactly when some name in the declaration tree is reserved without `overrideNameAssertion`; on success it only extends the scope |
| RouteTable.AfterCallback | packages/ember-routing/lib/system/dsl.js:60 | running a callback body fails exactly when one of its trees has a reserved name, and otherwise only extends the scope |
| RouteTable.AfterGenerate | packages/ember-routing/lib/system/dsl.js:90-95 | generate only extends the scope |
| RouteProperties.NewScopeIndexFlag | packages/ember-routing/lib/system/dsl.js:12-13 | a new scope has no entries and its index flag is unset and exact |
| RouteProperties.PushKeepsIndexFlag | packages/ember-routing/lib/system/dsl.js:68-73 | after push, `explicitIndex` is still set exactly when some entry has path `''` or `/` or a last segment `index` |
| RouteProperties.CreateRouteKeepsIndexFlag | packages/ember-routing/lib/system/dsl.js:118-128 | createRoute keeps the index flag exact |
| RouteProperties.RouteKeepsIndexFlag | packages/ember-routing/lib/system/dsl.js:24-66 | route keeps the index flag exact |
| RouteProperties.CallbackKeepsIndexFlag | packages/ember-routing/lib/system/dsl.js:60 | a callback body keeps the index flag exact |
| RouteProperties.GenerateKeepsIndexFlag | packages/ember-routing/lib/system/dsl.js:90-95 | generate keeps the index flag exact |
| RouteProperties.CreateRouteLayout | packages/ember-routing/lib/system/dsl.js:118-128 | createRoute appends exactly one entry: the given path, or `/` + the local name when no path string is given, under the qualified name |
| RouteProperties.SubstatesLayout | packages/ember-routing/lib/system/dsl.js:44-47 | with substates on, `<name>_loading` (at `/<name>_loading`, with the caller's resetNamespace) then `<name>_error` (at the dummy error path, always qualified) are appended; with them off, nothing is |
| RouteProperties.ChildScopeLayout | packages/ember-routing/lib/system/dsl.js:54-58 | the child scope's parent is the route's qualified name, it shares the options, and its entries are `loading` at `/loading` then `error` at the dummy path, both qualified by the child's namespace |
| RouteProperties.LeafRouteLayout | packages/ember-routing/lib/system/dsl.js:44-65 | a route without a callback appends its substates (if enabled) then exactly one entry for itself, in that order |
| RouteProperties.NestedRouteLayout | packages/ember-routing/lib/system/dsl.js:53-62 | with a callback: the child's table begins with `loading`/`error`, continues with the callback's entries, then its generate additions; the parent gains its substates and then exactly one entry carrying that table |
| RouteProperties.RouteLayout | packages/ember-routing/lib/system/dsl.js:44-65 | with or without a callback, a route appends its substates (if enabled) then exactly one entry for itself, at its path and under its qualified name |
| RouteProperties.ResourceResetsNamespace | packages/ember-routing/lib/system/dsl.js:85-87 | resource's entry and its `_loading` sibling are unqualified; its `_error` sibling is still qualified |
| RouteProperties.ReservedNameRule | packages/ember-routing/lib/system/dsl.js:35-42 | a route whose name is `array`, `basic`, `object` or `application`, without `overrideNameAssertion`, fails with that name in the error, with or without a callback; a route without a callback fails exactly then |
| RouteProperties.GenerateLayout | packages/ember-routing/lib/system/dsl.js:93-95 | generate leaves a scope with an explicit index unchanged; otherwise it appends `index_loading`/`index_error` (if enabled) and `index` at `/`; the flag is set afterwards |
| RouteProperties.GenerateIdempotent | packages/ember-routing/lib/system/dsl.js:70 | a second generate adds nothing |
| RouteProperties.ImplicitIndexIff | packages/ember-routing/lib/system/dsl.js:93-95 | on a consistent scope, generate adds entries exactly when no entry is index-like, and afterwards one is |
| RouteProperties.RouteNamesUnqualified | packages/ember-routing/lib/system/dsl.js:106-116 | in a scope that does not nest, every entry a route adds carries its local name or a substate sibling's name |
| RouteProperties.RootNamesUnqualified | packages/ember-routing/lib/system/dsl.js:130-134 | in a scope that does not nest, every entry a callback body adds carries an unqualified declared name |
| RouteProperties.MapTableUnqualified | packages/ember-routing/lib/system/dsl.js:130-134 | the root table of `DSL.map` plus `generate` holds only unqualified names, declared in the callback or by the implicit index |
| RouterDsl.DSL.constructor | packages/ember-routing/lib/system/dsl.js:9-19 | a new instance has the given parent and options, substates enabled exactly when the options say so, no entries and the flag unset |
| RouterDsl.DSL.Push | packages/ember-routing/lib/system/dsl.js:68-73 | appends exactly `[url, name, callback]`, keeps the earlier entries in order, sets `explicitIndex` when the entry is index-like and never clears it |
| RouterDsl.CreateRoute | packages/ember-routing/lib/system/dsl.js:118-128 | pushes the qualified name at the given path or `/` + local name |
| RouterDsl.DSL.Route | packages/ember-routing/lib/system/dsl.js:24-66 | reports the reserved-name failure, or leaves the instance in exactly the state `AfterRoute` gives |
| RouterDsl.DSL.RunChild | packages/ember-routing/lib/system/dsl.js:53-61 | builds the child instance under the qualified name, with `loading` and `error`, runs the callback body on it and returns its `generate` table; the result is the child table `AfterRoute` uses, or the body's failure |
| RouterDsl.DSL.Declare | packages/ember-routing/lib/system/dsl.js:60 | one `this.route(...)` or `this.resource(...)` statement of a callback body leaves the instance in the state `AfterRoute` gives for that declaration |
| RouterDsl.DSL.Resource | packages/ember-routing/lib/system/dsl.js:75-88 | behaves as route with `resetNamespace` forced to true |
| RouterDsl.DSL.Run | packages/ember-routing/lib/system/dsl.js:60 | runs a callback body's declarations in order on this scope, stopping at the first failure |
| RouterDsl.DSL.Generate | packages/ember-routing/lib/system/dsl.js:90-103 | leaves the instance in the state `AfterGenerate` gives and returns the table the replay walks |
| RouterDsl.DSL.Map | packages/ember-routing/lib/system/dsl.js:130-134 | a fresh root instance with no name and no options, filled by the callback |
| RouterDsl.Replay | packages/ember-routing/lib/system/dsl.js:97-102 | calls `match(path).to(name, callback)` once per entry, in insertion order |
| RouteScenarios.PostsTable | packages/ember-routing/lib/system/dsl.js:53-103 | the map `posts { new }` yields `posts` (whose table is `posts.loading`, `posts.error`, `posts.new`, `posts.index`) then `index` at `/` |
| RouteScenarios.PostsThroughDsl | packages/ember-routing/lib/system/dsl.js:130-134 | the same map built with the class, and the router calls its replay makes |

## Left out

- The `ember-route-serializers` feature flag, the `router` field and the write to `router._serializeMethods[name]` (lines 16-18, 49-51) are left out. They change an external router object that this file does not define.
- The `deprecate` call in `resource` only logs a message, so it is left out. `assert` is modelled as an error result.
- JavaScript argument overloading (`arguments.length`, `typeof options === 'function'`) is left out. Every declaration names its options and callback explicitly, and a missing options bag is `NoOptions`.
- The receiver binding of `callback.call(dsl)` is replaced by the declaration tree. The router's `match(...).to(...)` API is replaced by the `Registration` record `Replay` returns.
- `createRoute` writes `options.path` back into the caller's options object, and `resource` writes `options.resetNamespace` into it. This aliasing is not modelled: every declaration carries its own options value. A map that passes one options object to two routes would see the first route's path reused; the model does not capture that.
- The closure `generate` returns reads the live `matches` array. Entries pushed after `generate` would appear in its replay. The model returns the table as it stands when `generate` finishes.
- RouterDsl.DSL.Route: after a failed reserved-name assertion, the contract gives the error but not the partially filled state. In the source the exception unwinds the whole map.
- RouterDsl.DSL.Resource: as for `Route`, the state after a failure is not stated.
- RouterDsl.DSL.Run: as for `Route`, the state after a failure is not stated.
- RouterDsl.DSL.Declare: as for `Route`, the state after a failure is not stated.
- RouterDsl.DSL.Map: as for `Route`, the state after a failure is not stated.
- Route names and paths are plain strings, and `enableLoadingSubstates` is a boolean. Non-string names and the truthiness of non-boolean option values are not modelled.
