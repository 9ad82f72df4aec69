/** How the pieces fit: the handlers the standard route generator writes
    (packages/loompi/src/route.ts) are resolved by the route-mapping engine
    (packages/loompi/src/router.ts) back to the schema's own controller as
    the CRUD controller builds it (packages/unstrap/src/controller.ts). */
module Resolution {
  import opened Values
  import opened Text
  import opened Types
  import opened Route
  import opened Router
  import opened CrudController

  /** No standard action name contains a dot. */
  lemma ActionNameUndotted(a: CoreAction)
    ensures '.' !in ActionName(a)
  {
    match a
    case Find => assert ActionName(a) == "find";
    case FindOne => assert ActionName(a) == "findOne";
    case Create => assert ActionName(a) == "create";
    case Update => assert ActionName(a) == "update";
    case Delete => assert ActionName(a) == "delete";
  }

  /** A key with two or more dots gives a handler of four or more parts,
      which the split rule rejects. */
  lemma OverDottedKeyRejected(key: string, action: string)
    requires Count(key, '.') >= 2 && '.' !in action
    ensures SplitHandler(key + "." + action) == None
  {
    var handler := key + "." + action;
    assert handler == key + ("." + action);
    CountAppend(key, "." + action, '.');
    CountAppend(".", action, '.');
    CountZero(action, '.');
    assert Count(".", '.') == 1;
    SplitHandlerSound(handler);
  }

  /** A generated handler splits back into the schema name and the action
      exactly when the schema name holds at most one dot; with two or more
      the split rule finds too many parts and the route is dropped. */
  lemma CoreHandlerResolves(schemaName: string, pluralName: string, options: CoreRouterOptions, k: nat)
    requires k < |CoreRoutes(schemaName, pluralName, options).routes|
    ensures var spec := CoreRoutes(schemaName, pluralName, options).routes[k];
      Count(schemaName, '.') <= 1 ==> SplitHandler(spec.handler) == Some((schemaName, ActionName(Included(options)[k])))
    ensures var spec := CoreRoutes(schemaName, pluralName, options).routes[k];
      Count(schemaName, '.') >= 2 ==> SplitHandler(spec.handler) == None
  {
    var action := ActionName(Included(options)[k]);
    SpecHandlerAndConfig(schemaName, pluralName, options, k);
    ActionNameUndotted(Included(options)[k]);
    if Count(schemaName, '.') <= 1 {
      ResolvesBack(schemaName, action);
    } else {
      OverDottedKeyRejected(schemaName, action);
    }
  }

  /** Keep the present results of `f` over `xs`, in order: the shape of the
      route-mapping specification with the per-route step left abstract. */
  function FilterMap<A, B>(f: A -> Option<B>, xs: seq<A>): seq<B>
    decreases |xs|
  {
    if |xs| == 0 then [] else FilterMap(f, xs[..|xs| - 1]) + OptionToSeq(f(xs[|xs| - 1]))
  }

  lemma {:induction false} MapRoutesAsFilterMap(routes: seq<RouteSpec>, controllers: ControllerRegistry,
                                                registered: map<string, Callable>)
    ensures MapRoutes(routes, controllers, registered)
      == FilterMap((route: RouteSpec) => MapRoute(route, controllers, registered), routes)
    decreases |routes|
  {
    if |routes| > 0 {
      MapRoutesAsFilterMap(routes[..|routes| - 1], controllers, registered);
    }
  }

  /** Where every step yields a result, nothing is dropped. */
  lemma {:induction false} FilterMapAllPresent<A, B>(f: A -> Option<B>, xs: seq<A>, ys: seq<B>)
    requires |ys| == |xs|
    requires forall i :: 0 <= i < |xs| ==> f(xs[i]) == Some(ys[i])
    ensures FilterMap(f, xs) == ys
    decreases |xs|
  {
    if |xs| > 0 {
      var n := |xs| - 1;
      FilterMapAllPresent(f, xs[..n], ys[..n]);
      assert ys[..n] + [ys[n]] == ys;
    }
  }

  /** When every route resolves, the mappings are the routes' own, one per
      route and in order. */
  lemma MapRoutesAllResolve(routes: seq<RouteSpec>, controllers: ControllerRegistry,
                            registered: map<string, Callable>, ms: seq<RouteMapping>)
    requires |ms| == |routes|
    requires forall i :: 0 <= i < |routes| ==> MapRoute(routes[i], controllers, registered) == Some(ms[i])
    ensures MapRoutes(routes, controllers, registered) == ms
  {
    MapRoutesAsFilterMap(routes, controllers, registered);
    FilterMapAllPresent((route: RouteSpec) => MapRoute(route, controllers, registered), routes, ms);
  }

  /** End to end: with the schema's CRUD controller registered under the
      schema name, every generated route maps, in order, to the controller's
      action of the same name; an action the extensions leave alone is the
      built-in one. */
  lemma CoreRoutesReachController(schemaName: string, pluralName: string, options: CoreRouterOptions,
                                  extensions: Option<Controller>, registered: map<string, Callable>)
    requires Count(schemaName, '.') <= 1
    ensures var routes := CoreRoutes(schemaName, pluralName, options).routes;
      var controller := CreateCoreController(schemaName, extensions);
      var ms := MapRoutes(routes, map[schemaName := controller], registered);
      && |ms| == |routes|
      && forall k :: 0 <= k < |routes| ==>
           && ms[k].handler == controller[ActionName(Included(options)[k])]
           && ms[k].path == routes[k].path
           && ms[k].middlewares == Chain(routes[k].config, registered)
           && (extensions.None? || ActionName(Included(options)[k]) !in extensions.value ==>
                 ms[k].handler == BuiltIn(schemaName, Included(options)[k]))
  {
    var routes := CoreRoutes(schemaName, pluralName, options).routes;
    var controller := CreateCoreController(schemaName, extensions);
    var controllers := map[schemaName := controller];
    forall i | 0 <= i < |routes|
      ensures MapRoute(routes[i], controllers, registered).Some?
      ensures MapRoute(routes[i], controllers, registered).value.handler == controller[ActionName(Included(options)[i])]
    {
      CoreHandlerResolves(schemaName, pluralName, options, i);
      assert ActionName(Included(options)[i]) in controller;
    }
    var ms := seq(|routes|, i requires 0 <= i < |routes| => MapRoute(routes[i], controllers, registered).value);
    MapRoutesAllResolve(routes, controllers, registered, ms);
  }
}
