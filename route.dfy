/** Route-spec generation: the five standard CRUD routes of a schema,
    filtered by `only`/`except`, and the wrapper for custom routes
    (packages/loompi/src/route.ts). */
module Route {
  import opened Values
  import opened Types
  import Schema

  /** The path every standard route hangs off: the prefix whenever one is
      given (even the empty one), otherwise `/` and the plural name. */
  function BasePath(prefix: Option<string>, pluralName: string): (p: string)
    ensures prefix.Some? ==> p == prefix.value
    ensures prefix.None? ==> p == "/" + pluralName
  {
    prefix.GetOr("/" + pluralName)
  }

  /** `xs.filter(r => listed.includes(r))`. */
  function KeepListed(xs: seq<CoreAction>, listed: seq<CoreAction>): (r: seq<CoreAction>)
    ensures forall a :: a in r <==> a in xs && a in listed
  {
    if |xs| == 0 then []
    else (if xs[0] in listed then [xs[0]] else []) + KeepListed(xs[1..], listed)
  }

  /** `xs.filter(r => !listed.includes(r))`. */
  function DropListed(xs: seq<CoreAction>, listed: seq<CoreAction>): (r: seq<CoreAction>)
    ensures forall a :: a in r <==> a in xs && a !in listed
  {
    if |xs| == 0 then []
    else (if xs[0] !in listed then [xs[0]] else []) + DropListed(xs[1..], listed)
  }

  /** The actions that get a route: all five, narrowed by `only`, then by `except`. */
  function Included(options: CoreRouterOptions): seq<CoreAction> {
    var afterOnly := if options.only.Some? then KeepListed(CoreActions, options.only.value) else CoreActions;
    if options.except.Some? then DropListed(afterOnly, options.except.value) else afterOnly
  }

  /** The route config of one action: `options.config?.[action]`. */
  function ConfigFor(options: CoreRouterOptions, a: CoreAction): Option<RouteConfig> {
    if a in options.config then Some(options.config[a]) else None
  }

  /** The spec of one standard action: its method, its path under the base
      path and its `"<schema>.<action>"` handler. */
  function SpecFor(schemaName: string, basePath: string, options: CoreRouterOptions, a: CoreAction): RouteSpec {
    var config := ConfigFor(options, a);
    var handler := schemaName + "." + ActionName(a);
    match a
    case Find => RouteSpec(GET, basePath, handler, config)
    case FindOne => RouteSpec(GET, basePath + "/:id", handler, config)
    case Create => RouteSpec(POST, basePath, handler, config)
    case Update => RouteSpec(PUT, basePath + "/:id", handler, config)
    case Delete => RouteSpec(DELETE, basePath + "/:id", handler, config)
  }

  /** The specification of `createCoreRoutes`: one spec per included action, in order. */
  function CoreRoutes(schemaName: string, pluralName: string, options: CoreRouterOptions): RouteDefinition {
    var base := BasePath(options.prefix, pluralName);
    var actions := Included(options);
    RouteDefinition(seq(|actions|, k requires 0 <= k < |actions| => SpecFor(schemaName, base, options, actions[k])))
  }

  /** The `only`/`except` filtering step of `createCoreRoutes`. */
  method RoutesToInclude(options: CoreRouterOptions) returns (routesToInclude: seq<CoreAction>)
    ensures routesToInclude == Included(options)
  {
    routesToInclude := CoreActions;
    if options.only.Some? {
      routesToInclude := KeepListed(routesToInclude, options.only.value);
    }
    if options.except.Some? {
      routesToInclude := DropListed(routesToInclude, options.except.value);
    }
  }

  /** The loop body of `createCoreRoutes`: the spec it pushes for one action. */
  method RouteFor(schemaName: string, basePath: string, options: CoreRouterOptions, routeName: CoreAction)
    returns (spec: RouteSpec)
    ensures spec == SpecFor(schemaName, basePath, options, routeName)
  {
    var config := if routeName in options.config then Some(options.config[routeName]) else None;
    match routeName {
      case Find =>
        spec := RouteSpec(GET, basePath, schemaName + ".find", config);
        DottedName(schemaName, ".find", Find);
      case FindOne =>
        spec := RouteSpec(GET, basePath + "/:id", schemaName + ".findOne", config);
        DottedName(schemaName, ".findOne", FindOne);
      case Create =>
        spec := RouteSpec(POST, basePath, schemaName + ".create", config);
        DottedName(schemaName, ".create", Create);
      case Update =>
        spec := RouteSpec(PUT, basePath + "/:id", schemaName + ".update", config);
        DottedName(schemaName, ".update", Update);
      case Delete =>
        spec := RouteSpec(DELETE, basePath + "/:id", schemaName + ".delete", config);
        DottedName(schemaName, ".delete", Delete);
    }
  }

  /** `createCoreRoutes(context, schemaName, options)`. The schema name is a
      key of the schema registry, as its type `keyof S` demands. */
  method CreateCoreRoutes(schemas: map<string, Schema.SchemaDefinition>, schemaName: string, options: CoreRouterOptions)
    returns (d: RouteDefinition)
    requires schemaName in schemas
    ensures d == CoreRoutes(schemaName, schemas[schemaName].info.pluralName, options)
  {
    var schema := schemas[schemaName];
    var defaultPath := "/" + schema.info.pluralName;
    var basePath := if options.prefix.Some? then options.prefix.value else defaultPath;

    var routesToInclude := RoutesToInclude(options);
    ghost var base := BasePath(options.prefix, schema.info.pluralName);
    assert basePath == base;

    var routes: seq<RouteSpec> := [];
    for i := 0 to |routesToInclude|
      invariant |routes| == i
      invariant forall k :: 0 <= k < i ==> routes[k] == SpecFor(schemaName, base, options, routesToInclude[k])
    {
      var routeName := routesToInclude[i];
      var spec := RouteFor(schemaName, basePath, options, routeName);
      routes := routes + [spec];
    }
    d := RouteDefinition(routes);
  }

  /** The handler text the route generator writes for an action. */
  lemma DottedName(schemaName: string, suffix: string, a: CoreAction)
    requires suffix == "." + ActionName(a)
    ensures schemaName + suffix == schemaName + "." + ActionName(a)
  {
  }

  /** `createCustomRoutes(routes)`: the routes, wrapped unchanged. */
  function CreateCustomRoutes(routes: seq<RouteSpec>): (d: RouteDefinition)
    ensures d.routes == routes
  {
    RouteDefinition(routes)
  }

  /** An action gets a route exactly when `only` (if given) lists it and
      `except` (if given) does not; so `except` wins over `only`. */
  lemma IncludedMembership(options: CoreRouterOptions, a: CoreAction)
    ensures a in Included(options) <==>
      (options.only.None? || a in options.only.value) && (options.except.None? || a !in options.except.value)
  {
    assert a in CoreActions by { assert CoreActions[Rank(a)] == a; }
  }

  /** Strictly increasing in the canonical order. */
  predicate Ascending(xs: seq<CoreAction>) {
    forall i, j :: 0 <= i < j < |xs| ==> Rank(xs[i]) < Rank(xs[j])
  }

  lemma AscendingCons(x: CoreAction, tail: seq<CoreAction>)
    requires Ascending(tail)
    requires forall a :: a in tail ==> Rank(x) < Rank(a)
    ensures Ascending([x] + tail)
  {
    var s := [x] + tail;
    forall i, j | 0 <= i < j < |s| ensures Rank(s[i]) < Rank(s[j]) {
      assert s[j] == tail[j - 1];
      if i > 0 { assert s[i] == tail[i - 1]; } else { assert tail[j - 1] in tail; }
    }
  }

  lemma {:induction false} KeepListedOrdered(xs: seq<CoreAction>, listed: seq<CoreAction>)
    requires Ascending(xs)
    ensures Ascending(KeepListed(xs, listed))
  {
    if |xs| > 0 {
      assert Ascending(xs[1..]);
      KeepListedOrdered(xs[1..], listed);
      var tail := KeepListed(xs[1..], listed);
      forall a | a in tail ensures Rank(xs[0]) < Rank(a) {
        var k :| 0 <= k < |xs[1..]| && xs[1..][k] == a;
        assert xs[k + 1] == a;
      }
      if xs[0] in listed { AscendingCons(xs[0], tail); } else { assert KeepListed(xs, listed) == tail; }
    }
  }

  lemma {:induction false} DropListedOrdered(xs: seq<CoreAction>, listed: seq<CoreAction>)
    requires Ascending(xs)
    ensures Ascending(DropListed(xs, listed))
  {
    if |xs| > 0 {
      assert Ascending(xs[1..]);
      DropListedOrdered(xs[1..], listed);
      var tail := DropListed(xs[1..], listed);
      forall a | a in tail ensures Rank(xs[0]) < Rank(a) {
        var k :| 0 <= k < |xs[1..]| && xs[1..][k] == a;
        assert xs[k + 1] == a;
      }
      if xs[0] !in listed { AscendingCons(xs[0], tail); } else { assert DropListed(xs, listed) == tail; }
    }
  }

  /** The routes come out in the canonical order find, findOne, create,
      update, delete, whatever order `only` is written in. */
  lemma IncludedCanonicalOrder(options: CoreRouterOptions)
    ensures Ascending(Included(options))
  {
    assert Ascending(CoreActions);
    var afterOnly := if options.only.Some? then KeepListed(CoreActions, options.only.value) else CoreActions;
    if options.only.Some? { KeepListedOrdered(CoreActions, options.only.value); }
    if options.except.Some? { DropListedOrdered(afterOnly, options.except.value); }
  }

  lemma {:induction false} KeepListedByMembers(xs: seq<CoreAction>, l1: seq<CoreAction>, l2: seq<CoreAction>)
    requires forall a :: a in l1 <==> a in l2
    ensures KeepListed(xs, l1) == KeepListed(xs, l2)
  {
    if |xs| > 0 { KeepListedByMembers(xs[1..], l1, l2); }
  }

  lemma {:induction false} DropListedByMembers(xs: seq<CoreAction>, l1: seq<CoreAction>, l2: seq<CoreAction>)
    requires forall a :: a in l1 <==> a in l2
    ensures DropListed(xs, l1) == DropListed(xs, l2)
  {
    if |xs| > 0 { DropListedByMembers(xs[1..], l1, l2); }
  }

  /** Only the members of `only` and `except` matter, not their order or
      repetitions: two option sets listing the same actions produce the same routes. */
  lemma OnlyExceptOrderIrrelevant(schemaName: string, pluralName: string, o1: CoreRouterOptions, o2: CoreRouterOptions)
    requires o1.prefix == o2.prefix && o1.config == o2.config
    requires o1.only.Some? == o2.only.Some? && o1.except.Some? == o2.except.Some?
    requires o1.only.Some? ==> forall a :: a in o1.only.value <==> a in o2.only.value
    requires o1.except.Some? ==> forall a :: a in o1.except.value <==> a in o2.except.value
    ensures CoreRoutes(schemaName, pluralName, o1) == CoreRoutes(schemaName, pluralName, o2)
  {
    var after1 := if o1.only.Some? then KeepListed(CoreActions, o1.only.value) else CoreActions;
    var after2 := if o2.only.Some? then KeepListed(CoreActions, o2.only.value) else CoreActions;
    if o1.only.Some? { KeepListedByMembers(CoreActions, o1.only.value, o2.only.value); }
    assert after1 == after2;
    if o1.except.Some? { DropListedByMembers(after1, o1.except.value, o2.except.value); }
    var acts := Included(o1);
    assert acts == Included(o2);
    var base := BasePath(o1.prefix, pluralName);
    var r1 := CoreRoutes(schemaName, pluralName, o1).routes;
    var r2 := CoreRoutes(schemaName, pluralName, o2).routes;
    assert |r1| == |r2|;
    forall k | 0 <= k < |r1| ensures r1[k] == r2[k] {
      assert ConfigFor(o1, acts[k]) == ConfigFor(o2, acts[k]);
      assert r1[k] == SpecFor(schemaName, base, o1, acts[k]);
      assert r2[k] == SpecFor(schemaName, base, o2, acts[k]);
    }
  }

  /** Without `only` and `except` all five routes are produced, in the
      canonical order, with this method/path table:
      find GET base, findOne GET base/:id, create POST base,
      update PUT base/:id, delete DELETE base/:id. */
  lemma DefaultFiveRoutes(schemaName: string, pluralName: string, options: CoreRouterOptions)
    requires options.only.None? && options.except.None?
    ensures var rs := CoreRoutes(schemaName, pluralName, options).routes;
      var base := BasePath(options.prefix, pluralName);
      && |rs| == 5
      && rs[0].verb == GET && rs[0].path == base
      && rs[1].verb == GET && rs[1].path == base + "/:id"
      && rs[2].verb == POST && rs[2].path == base
      && rs[3].verb == PUT && rs[3].path == base + "/:id"
      && rs[4].verb == DELETE && rs[4].path == base + "/:id"
      && forall k :: 0 <= k < 5 ==>
           rs[k].handler == schemaName + "." + ActionName(CoreActions[k]) && rs[k].config == ConfigFor(options, CoreActions[k])
  {
  }

  /** Every generated spec carries the handler `"<schema>.<action>"` and the
      action's own route config. */
  lemma SpecHandlerAndConfig(schemaName: string, pluralName: string, options: CoreRouterOptions, k: nat)
    requires k < |CoreRoutes(schemaName, pluralName, options).routes|
    ensures var a := Included(options)[k]; var spec := CoreRoutes(schemaName, pluralName, options).routes[k];
      spec.handler == schemaName + "." + ActionName(a) && spec.config == ConfigFor(options, a)
  {
  }

  /** No two generated routes share a method and a path, so a framework can
      register all of them side by side. */
  lemma CoreRoutesDistinct(schemaName: string, pluralName: string, options: CoreRouterOptions)
    ensures var rs := CoreRoutes(schemaName, pluralName, options).routes;
      forall i, j :: 0 <= i < j < |rs| ==> (rs[i].verb, rs[i].path) != (rs[j].verb, rs[j].path)
  {
    var base := BasePath(options.prefix, pluralName);
    var acts := Included(options);
    var rs := CoreRoutes(schemaName, pluralName, options).routes;
    IncludedCanonicalOrder(options);
    assert |base + "/:id"| != |base|;
    forall i, j | 0 <= i < j < |rs| ensures (rs[i].verb, rs[i].path) != (rs[j].verb, rs[j].path) {
      assert Rank(acts[i]) < Rank(acts[j]);
    }
  }
}
