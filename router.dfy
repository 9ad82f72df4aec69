/** The route-mapping engine: the named middleware and policy registries
    and `createRouterMappings`, which resolves each route spec's middleware
    chain and handler against them (packages/loompi/src/router.ts). */
module Router {
  import opened Values
  import opened Text
  import opened Types

  /** Auth runs unless the route's config says `auth: false` exactly. */
  predicate AuthEnabled(config: Option<RouteConfig>) {
    !(config.Some? && config.value.auth == Some(false))
  }

  /** What one `config.middlewares` entry adds to the chain: a registered
      name its middleware (an unknown name nothing), an inline function
      itself, the object form nothing. */
  function EntryChain(entry: MiddlewareConfig, registered: map<string, Callable>): seq<Callable> {
    match entry
    case Named(name) => if name in registered then [registered[name]] else []
    case Inline(handler) => [handler]
    case NamedWithConfig(_, _) => []
  }

  /** The chain contributed by the configured middleware entries, in order. */
  function ConfiguredChain(entries: seq<MiddlewareConfig>, registered: map<string, Callable>): seq<Callable>
    decreases |entries|
  {
    if |entries| == 0 then []
    else ConfiguredChain(entries[..|entries| - 1], registered) + EntryChain(entries[|entries| - 1], registered)
  }

  function Configured(config: Option<RouteConfig>, registered: map<string, Callable>): seq<Callable> {
    if config.Some? then ConfiguredChain(config.value.middlewares, registered) else []
  }

  /** The whole middleware chain of a route: auth first, then the configured entries. */
  function Chain(config: Option<RouteConfig>, registered: map<string, Callable>): seq<Callable> {
    var auth := if AuthEnabled(config) && "auth" in registered then [registered["auth"]] else [];
    auth + Configured(config, registered)
  }

  /** The split rule for handler strings: three dot-separated parts give the
      key `p0.p1` and the action `p2`; two parts give `p0` and `p1`; any other
      count is unresolvable. */
  function SplitHandler(handler: string): Option<(string, string)> {
    var parts := Split(handler, '.');
    if |parts| == 3 then Some((parts[0] + "." + parts[1], parts[2]))
    else if |parts| == 2 then Some((parts[0], parts[1]))
    else None
  }

  /** The mapping one route spec yields, or `None` when it is dropped. */
  function MapRoute(route: RouteSpec, controllers: ControllerRegistry, registered: map<string, Callable>): Option<RouteMapping> {
    match SplitHandler(route.handler)
    case None => None
    case Some((key, action)) =>
      if key !in controllers || action !in controllers[key] then None
      else Some(RouteMapping(AsciiLower(MethodText(route.verb)), route.path,
                             controllers[key][action], Chain(route.config, registered)))
  }

  /** The specification of `createRouterMappings` over the flattened routes. */
  function MapRoutes(routes: seq<RouteSpec>, controllers: ControllerRegistry, registered: map<string, Callable>): seq<RouteMapping>
    decreases |routes|
  {
    if |routes| == 0 then []
    else MapRoutes(routes[..|routes| - 1], controllers, registered)
         + OptionToSeq(MapRoute(routes[|routes| - 1], controllers, registered))
  }

  /** All route specs of all definitions, in order. */
  function Flatten(defs: seq<RouteDefinition>): seq<RouteSpec>
    decreases |defs|
  {
    if |defs| == 0 then [] else Flatten(defs[..|defs| - 1]) + defs[|defs| - 1].routes
  }

  /** The process-wide named registries the mapping consults. */
  class NamedRegistry {
    var policies: map<string, Callable>
    var middlewares: map<string, Callable>

    constructor ()
      ensures policies == map[] && middlewares == map[]
    {
      policies := map[];
      middlewares := map[];
    }

    /** `registerPolicy(name, handler)`: stores the handler; a later
        registration of the same name replaces it. */
    method RegisterPolicy(name: string, handler: Callable)
      modifies this
      ensures policies == old(policies)[name := handler]
      ensures middlewares == old(middlewares)
    {
      policies := policies[name := handler];
    }

    /** `registerMiddleware(name, handler)`, likewise for middlewares. */
    method RegisterMiddleware(name: string, handler: Callable)
      modifies this
      ensures middlewares == old(middlewares)[name := handler]
      ensures policies == old(policies)
    {
      middlewares := middlewares[name := handler];
    }

    /** `createRouterMappings(routeDefinition, controllers)`. It has no
        `modifies` clause: mapping reads the registries and never writes them. */
    method CreateRouterMappings(routeDefinition: seq<RouteDefinition>, controllers: ControllerRegistry)
      returns (mappings: seq<RouteMapping>)
      ensures mappings == MapRoutes(Flatten(routeDefinition), controllers, middlewares)
      ensures |mappings| <= |Flatten(routeDefinition)|
    {
      mappings := [];
      for i := 0 to |routeDefinition|
        invariant mappings == MapRoutes(Flatten(routeDefinition[..i]), controllers, middlewares)
      {
        ghost var done := Flatten(routeDefinition[..i]);
        mappings := PushRoutes(mappings, routeDefinition[i].routes, controllers);
        MapRoutesAppend(done, routeDefinition[i].routes, controllers, middlewares);
        FlattenStep(routeDefinition, i);
      }
      assert routeDefinition[..|routeDefinition|] == routeDefinition;
      MapRoutesBound(Flatten(routeDefinition), controllers, middlewares);
    }

    /** The inner loop of `createRouterMappings` over one definition's
        routes: each resolved route is pushed, an unresolved one skipped. */
    method PushRoutes(mappings0: seq<RouteMapping>, routes: seq<RouteSpec>, controllers: ControllerRegistry)
      returns (mappings: seq<RouteMapping>)
      ensures mappings == mappings0 + MapRoutes(routes, controllers, middlewares)
    {
      mappings := mappings0;
      for j := 0 to |routes|
        invariant mappings == mappings0 + MapRoutes(routes[..j], controllers, middlewares)
      {
        var m := MapOneRoute(routes[j], controllers);
        MapRoutesStep(routes, j, controllers, middlewares);
        if m.Some? {
          mappings := mappings + [m.value];
        } else {
          assert MapRoutes(routes[..j], controllers, middlewares) + [] == MapRoutes(routes[..j], controllers, middlewares);
        }
      }
      assert routes[..|routes|] == routes;
    }

    /** The body of the inner loop for one route: its chain, its handler
        split and the controller lookup; `None` where the loop moves on. */
    method MapOneRoute(route: RouteSpec, controllers: ControllerRegistry) returns (m: Option<RouteMapping>)
      ensures m == MapRoute(route, controllers, middlewares)
    {
      var middlewareStack := MiddlewareStack(route.config);

      var parts := Split(route.handler, '.');
      var controllerKey: string;
      var actionName: string;
      if |parts| == 3 {
        controllerKey := parts[0] + "." + parts[1];
        actionName := parts[2];
      } else if |parts| == 2 {
        controllerKey := parts[0];
        actionName := parts[1];
      } else {
        return None;
      }

      if controllerKey !in controllers {
        return None;
      }
      var controller := controllers[controllerKey];
      if actionName !in controller {
        return None;
      }
      var handler := controller[actionName];
      return Some(RouteMapping(AsciiLower(MethodText(route.verb)), route.path, handler, middlewareStack));
    }

    /** The middleware stack of one route: auth first when enabled and
        registered, then each configured entry in order. */
    method MiddlewareStack(config: Option<RouteConfig>) returns (middlewareStack: seq<Callable>)
      ensures middlewareStack == Chain(config, middlewares)
    {
      middlewareStack := [];
      var authEnabled := !(config.Some? && config.value.auth == Some(false));
      if authEnabled {
        if "auth" in middlewares {
          middlewareStack := middlewareStack + [middlewares["auth"]];
        }
      }
      ghost var authPart := middlewareStack;
      assert authPart == if AuthEnabled(config) && "auth" in middlewares then [middlewares["auth"]] else [];

      if config.Some? && |config.value.middlewares| > 0 {
        middlewareStack := PushConfigured(middlewareStack, config.value.middlewares);
      } else {
        assert Configured(config, middlewares) == [];
        assert middlewareStack == authPart + [];
      }
    }

    /** The loop of the stack builder over `config.middlewares`: each entry
        pushes what it contributes onto the stack built so far. */
    method PushConfigured(stack: seq<Callable>, entries: seq<MiddlewareConfig>) returns (middlewareStack: seq<Callable>)
      ensures middlewareStack == stack + ConfiguredChain(entries, middlewares)
    {
      middlewareStack := stack;
      for k := 0 to |entries|
        invariant middlewareStack == stack + ConfiguredChain(entries[..k], middlewares)
      {
        ConfiguredChainStep(entries, k, middlewares);
        ghost var before := middlewareStack;
        match entries[k] {
          case Named(name) =>
            if name in middlewares {
              middlewareStack := middlewareStack + [middlewares[name]];
            }
          case Inline(handler) =>
            middlewareStack := middlewareStack + [handler];
          case NamedWithConfig(_, _) =>
        }
        assert middlewareStack == before + EntryChain(entries[k], middlewares);
      }
      assert entries[..|entries|] == entries;
    }
  }

  /** One more configured entry: the chain takes one step. */
  lemma ConfiguredChainStep(entries: seq<MiddlewareConfig>, k: nat, registered: map<string, Callable>)
    requires k < |entries|
    ensures ConfiguredChain(entries[..k + 1], registered) == ConfiguredChain(entries[..k], registered) + EntryChain(entries[k], registered)
  {
    assert entries[..k + 1][..k] == entries[..k];
  }

  lemma {:induction false} ConfiguredChainAppend(a: seq<MiddlewareConfig>, b: seq<MiddlewareConfig>, registered: map<string, Callable>)
    ensures ConfiguredChain(a + b, registered) == ConfiguredChain(a, registered) + ConfiguredChain(b, registered)
    decreases |b|
  {
    if |b| > 0 {
      var b' := b[..|b| - 1];
      assert (a + b)[..|a + b| - 1] == a + b';
      ConfiguredChainAppend(a, b', registered);
    } else {
      assert a + b == a;
    }
  }

  /** Configured entries contribute in listed order: named ones resolved
      against the registry (unknown names skipped), inline ones as they are,
      object-form ones not at all. */
  lemma {:induction false} ConfiguredChainOrder(e: MiddlewareConfig, rest: seq<MiddlewareConfig>, registered: map<string, Callable>)
    ensures ConfiguredChain([e] + rest, registered) == EntryChain(e, registered) + ConfiguredChain(rest, registered)
    ensures e.Named? && e.name in registered ==> EntryChain(e, registered) == [registered[e.name]]
    ensures e.Named? && e.name !in registered ==> EntryChain(e, registered) == []
    ensures e.Inline? ==> EntryChain(e, registered) == [e.handler]
    ensures e.NamedWithConfig? ==> EntryChain(e, registered) == []
  {
    ConfiguredChainAppend([e], rest, registered);
    assert ConfiguredChain([e], registered) == ConfiguredChain([], registered) + EntryChain(e, registered);
  }

  /** The registered `auth` middleware heads the chain exactly when auth is
      enabled and one is registered; otherwise the chain is the configured
      part alone. Policies never enter the chain. */
  lemma AuthHeadsChain(config: Option<RouteConfig>, registered: map<string, Callable>)
    ensures AuthEnabled(config) && "auth" in registered ==>
      Chain(config, registered) == [registered["auth"]] + Configured(config, registered)
    ensures !AuthEnabled(config) || "auth" !in registered ==>
      Chain(config, registered) == Configured(config, registered)
    ensures config.Some? && config.value.auth == Some(false) ==> Chain(config, registered) == Configured(config, registered)
    ensures config.Some? ==>
      Chain(config, registered) == Chain(Some(config.value.(policies := [])), registered)
  {
  }

  /** The split rule, read back: a resolved handler is its key and action
      joined by `.`, the action holds no `.`, and the key at most one. */
  lemma SplitHandlerSound(handler: string)
    ensures SplitHandler(handler).Some? <==> Count(handler, '.') == 1 || Count(handler, '.') == 2
    ensures SplitHandler(handler).Some? ==>
      var (key, action) := SplitHandler(handler).value;
      key + "." + action == handler && '.' !in action && Count(key, '.') <= 1
  {
    var parts := Split(handler, '.');
    SplitShape(handler, '.');
    JoinSplit(handler, '.');
    if |parts| == 3 {
      assert '.' !in parts[0] && '.' !in parts[1] && '.' !in parts[2];
      ThreeParts(parts);
    } else if |parts| == 2 {
      assert Join(parts, '.') == parts[0] + "." + parts[1];
      CountZero(parts[0], '.');
    }
  }

  /** Three undotted parts: the key holds exactly one dot, and key, dot and
      action rebuild the joined text: the three-part case of
      `SplitHandlerSound`. */
  lemma ThreeParts(parts: seq<string>)
    requires |parts| == 3 && '.' !in parts[0] && '.' !in parts[1]
    ensures Count(parts[0] + "." + parts[1], '.') == 1
    ensures parts[0] + "." + parts[1] + "." + parts[2] == Join(parts, '.')
  {
    var p0, p1, p2 := parts[0], parts[1], parts[2];
    assert parts[1..][1..] == [p2];
    assert Join(parts[1..], '.') == p1 + "." + p2;
    CountAppend(p0 + ".", p1, '.');
    CountAppend(p0, ".", '.');
    assert Count(".", '.') == 1;
    CountZero(p0, '.');
    CountZero(p1, '.');
  }

  /** The split rule, forward: a key with at most one `.` joined to an action
      without one resolves back to that key and action. */
  lemma ResolvesBack(key: string, action: string)
    requires Count(key, '.') <= 1 && '.' !in action
    ensures SplitHandler(key + "." + action) == Some((key, action))
  {
    SplitAround(key, action, '.');
    SplitNone(action, '.');
    assert key + "." + action == key + ['.'] + action;
    var kparts := Split(key, '.');
    SplitShape(key, '.');
    JoinSplit(key, '.');
    if |kparts| == 2 {
      assert Join(kparts, '.') == kparts[0] + "." + kparts[1];
    }
  }

  /** A namespaced key `ns.name` (neither part holding a dot) followed by an
      action resolves back to that key and action. */
  lemma NamespacedHandler(ns: string, name: string, action: string)
    requires '.' !in ns && '.' !in name && '.' !in action
    ensures SplitHandler(ns + "." + name + "." + action) == Some((ns + "." + name, action))
  {
    var key := ns + "." + name;
    CountAppend(ns + ".", name, '.');
    CountAppend(ns, ".", '.');
    assert Count(".", '.') == 1;
    CountZero(ns, '.');
    CountZero(name, '.');
    ResolvesBack(key, action);
  }

  /** A handler without a dot does not resolve. */
  lemma UndottedHandler(handler: string)
    requires '.' !in handler
    ensures SplitHandler(handler) == None
  {
    SplitNone(handler, '.');
  }

  /** Examples: a namespaced handler and a handler without a separator. */
  lemma SplitHandlerExamples()
    ensures SplitHandler("api::user.user.findOne") == Some(("api::user.user", "findOne"))
    ensures SplitHandler("broken") == None
  {
    NamespacedHandler("api::user", "user", "findOne");
    assert "api::user" + "." + "user" + "." + "findOne" == "api::user.user.findOne";
    assert "api::user" + "." + "user" == "api::user.user";
    UndottedHandler("broken");
  }

  /** A route is dropped exactly when its handler does not split, its key
      names no controller or its action names nothing on that controller;
      an emitted mapping has the lower-cased method, the same path, the
      controller's action and the built chain. */
  lemma MapRouteCases(route: RouteSpec, controllers: ControllerRegistry, registered: map<string, Callable>)
    ensures MapRoute(route, controllers, registered).None? <==>
      var s := SplitHandler(route.handler);
      s.None? || s.value.0 !in controllers || s.value.1 !in controllers[s.value.0]
    ensures MapRoute(route, controllers, registered).Some? ==>
      var m := MapRoute(route, controllers, registered).value;
      var (key, action) := SplitHandler(route.handler).value;
      && m.verb == AsciiLower(MethodText(route.verb))
      && m.path == route.path
      && m.handler == controllers[key][action]
      && m.middlewares == Chain(route.config, registered)
  {
  }

  /** The lower-cased methods. */
  lemma LowerCasedMethods()
    ensures AsciiLower(MethodText(GET)) == "get"
    ensures AsciiLower(MethodText(POST)) == "post"
    ensures AsciiLower(MethodText(PUT)) == "put"
    ensures AsciiLower(MethodText(DELETE)) == "delete"
    ensures AsciiLower(MethodText(PATCH)) == "patch"
  {
    LowerIs("GET", "get");
    LowerIs("POST", "post");
    LowerIs("PUT", "put");
    LowerIs("DELETE", "delete");
    LowerIs("PATCH", "patch");
  }

  /** Lower-casing `s` gives `t` when it does character by character; used by
      `LowerCasedMethods`. */
  lemma LowerIs(s: string, t: string)
    requires |s| == |t| && forall i :: 0 <= i < |s| ==> AsciiLowerChar(s[i]) == t[i]
    ensures AsciiLower(s) == t
  {
  }

  /** Mapping distributes over concatenation: the output for `a + b` is the
      output for `a` followed by the output for `b`, so input order is kept. */
  lemma {:induction false} MapRoutesAppend(a: seq<RouteSpec>, b: seq<RouteSpec>, controllers: ControllerRegistry, registered: map<string, Callable>)
    ensures MapRoutes(a + b, controllers, registered) == MapRoutes(a, controllers, registered) + MapRoutes(b, controllers, registered)
    decreases |b|
  {
    if |b| > 0 {
      var b' := b[..|b| - 1];
      assert (a + b)[..|a + b| - 1] == a + b';
      MapRoutesAppend(a, b', controllers, registered);
    } else {
      assert a + b == a;
    }
  }

  /** One more route: the specification takes one step. */
  lemma MapRoutesStep(routes: seq<RouteSpec>, j: nat, controllers: ControllerRegistry, registered: map<string, Callable>)
    requires j < |routes|
    ensures MapRoutes(routes[..j + 1], controllers, registered)
      == MapRoutes(routes[..j], controllers, registered) + OptionToSeq(MapRoute(routes[j], controllers, registered))
  {
    assert routes[..j + 1][..j] == routes[..j];
  }

  /** One more definition: its routes follow those flattened before. */
  lemma FlattenStep(defs: seq<RouteDefinition>, i: nat)
    requires i < |defs|
    ensures Flatten(defs[..i + 1]) == Flatten(defs[..i]) + defs[i].routes
  {
    assert defs[..i + 1][..i] == defs[..i];
  }

  /** At most one mapping per route spec. */
  lemma {:induction false} MapRoutesBound(routes: seq<RouteSpec>, controllers: ControllerRegistry, registered: map<string, Callable>)
    ensures |MapRoutes(routes, controllers, registered)| <= |routes|
    decreases |routes|
  {
    if |routes| > 0 {
      MapRoutesBound(routes[..|routes| - 1], controllers, registered);
    }
  }

  /** The output is an order-preserving subsequence of the resolvable input
      routes: mapping `i` comes from route `idx[i]`, and the indices increase. */
  lemma {:induction false} MapRoutesSubsequence(routes: seq<RouteSpec>, controllers: ControllerRegistry, registered: map<string, Callable>)
    returns (idx: seq<nat>)
    ensures var out := MapRoutes(routes, controllers, registered);
      && |idx| == |out|
      && (forall i :: 0 <= i < |idx| ==> idx[i] < |routes| && MapRoute(routes[idx[i]], controllers, registered) == Some(out[i]))
      && (forall i, j :: 0 <= i < j < |idx| ==> idx[i] < idx[j])
    decreases |routes|
  {
    if |routes| == 0 {
      idx := [];
    } else {
      var n := |routes| - 1;
      var prefix := routes[..n];
      idx := MapRoutesSubsequence(prefix, controllers, registered);
      forall i | 0 <= i < |idx| ensures routes[idx[i]] == prefix[idx[i]] { }
      if MapRoute(routes[n], controllers, registered).Some? {
        idx := idx + [n];
      }
    }
  }

  lemma {:induction false} FlattenAppend(a: seq<RouteDefinition>, b: seq<RouteDefinition>)
    ensures Flatten(a + b) == Flatten(a) + Flatten(b)
    decreases |b|
  {
    if |b| > 0 {
      var b' := b[..|b| - 1];
      assert (a + b)[..|a + b| - 1] == a + b';
      FlattenAppend(a, b');
    } else {
      assert a + b == a;
    }
  }

  /** The two scenario routes resolve to the `find` action of the user
      controller, each with the chain its config gives. */
  lemma ScenarioRoute(route: RouteSpec, controller: Controller, registered: map<string, Callable>)
    requires route.handler == "api::user.user.find" && "find" in controller
    ensures MapRoute(route, map["api::user.user" := controller], registered)
      == Some(RouteMapping(AsciiLower(MethodText(route.verb)), route.path, controller["find"], Chain(route.config, registered)))
  {
    NamespacedHandler("api::user", "user", "find");
    assert "api::user" + "." + "user" + "." + "find" == "api::user.user.find";
    assert "api::user" + "." + "user" == "api::user.user";
  }

  /** One definition of two resolvable routes maps to their two mappings. */
  lemma OneDefinitionTwoRoutes(r1: RouteSpec, r2: RouteSpec, controllers: ControllerRegistry, registered: map<string, Callable>)
    requires MapRoute(r1, controllers, registered).Some? && MapRoute(r2, controllers, registered).Some?
    ensures MapRoutes(Flatten([RouteDefinition([r1, r2])]), controllers, registered)
      == [MapRoute(r1, controllers, registered).value, MapRoute(r2, controllers, registered).value]
  {
    assert [RouteDefinition([r1, r2])][..0] == [];
    assert Flatten([RouteDefinition([r1, r2])]) == [r1, r2];
    assert [r1, r2][..1] == [r1];
    assert [r1][..0] == [];
    assert MapRoutes([r1], controllers, registered) == [MapRoute(r1, controllers, registered).value];
  }

  /** Scenario: with `auth` registered, a route whose config omits `auth`
      gets the auth middleware first; the same route with `auth: false`
      gets none. */
  method AuthScenario(authMw: Callable, controller: Controller, handler: string) returns (withAuth: seq<Callable>, withoutAuth: seq<Callable>)
    requires handler == "api::user.user.find" && "find" in controller
    ensures withAuth == [authMw]
    ensures withoutAuth == []
  {
    var registry := new NamedRegistry();
    registry.RegisterMiddleware("auth", authMw);
    var controllers := map["api::user.user" := controller];
    var on := RouteSpec(GET, "/users", handler, None);
    var off := RouteSpec(GET, "/users", handler, Some(RouteConfig(Some(false), [], [])));
    var ms := registry.CreateRouterMappings([RouteDefinition([on, off])], controllers);
    var reg := registry.middlewares;
    ScenarioRoute(on, controller, reg);
    ScenarioRoute(off, controller, reg);
    OneDefinitionTwoRoutes(on, off, controllers, reg);
    withAuth := ms[0].middlewares;
    withoutAuth := ms[1].middlewares;
  }
}
