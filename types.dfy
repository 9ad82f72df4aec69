/** The declarative route and controller vocabulary shared by the route
    generator, the resource composer and the route-mapping engine
    (packages/loompi/src/types.ts). */
module Types {
  import opened Values

  /** A function value the core passes around without calling it: a built-in
      CRUD action of some schema's controller, or a function supplied by the
      application (middleware, policy, custom controller action). */
  datatype Callable = BuiltIn(schema: string, action: CoreAction) | UserFn(id: nat)

  /** The five standard actions, in their canonical order. */
  datatype CoreAction = Find | FindOne | Create | Update | Delete

  const CoreActions: seq<CoreAction> := [Find, FindOne, Create, Update, Delete]

  /** The property name of each standard action on a controller. */
  function ActionName(a: CoreAction): string {
    match a
    case Find => "find"
    case FindOne => "findOne"
    case Create => "create"
    case Update => "update"
    case Delete => "delete"
  }

  /** Position of an action in the canonical order. */
  function Rank(a: CoreAction): (k: nat)
    ensures k < 5 && CoreActions[k] == a
  {
    match a
    case Find => 0
    case FindOne => 1
    case Create => 2
    case Update => 3
    case Delete => 4
  }

  datatype HttpMethod = GET | POST | PUT | DELETE | PATCH

  /** The method as written in a route spec. */
  function MethodText(m: HttpMethod): string {
    match m
    case GET => "GET"
    case POST => "POST"
    case PUT => "PUT"
    case DELETE => "DELETE"
    case PATCH => "PATCH"
  }

  /** An entry of `config.middlewares` (or `config.policies`): a registered
      name, an object naming one with options, or an inline function. */
  datatype MiddlewareConfig = Named(name: string) | NamedWithConfig(name: string, config: Value) | Inline(handler: Callable)

  datatype RouteConfig = RouteConfig(
    auth: Option<bool>,
    policies: seq<MiddlewareConfig>,
    middlewares: seq<MiddlewareConfig>)

  datatype RouteSpec = RouteSpec(
    verb: HttpMethod,
    path: string,
    handler: string,
    config: Option<RouteConfig>)

  datatype RouteDefinition = RouteDefinition(routes: seq<RouteSpec>)

  /** The resolved form handed to a framework adapter. */
  datatype RouteMapping = RouteMapping(
    verb: string,
    path: string,
    handler: Callable,
    middlewares: seq<Callable>)

  /** A controller: action name to action. */
  type Controller = map<string, Callable>

  /** Controllers by schema name. */
  type ControllerRegistry = map<string, Controller>

  /** Options of the standard route generator. An absent `config` is the
      empty map; an action missing from it has no route config. */
  datatype CoreRouterOptions = CoreRouterOptions(
    prefix: Option<string>,
    only: Option<seq<CoreAction>>,
    except: Option<seq<CoreAction>>,
    config: map<CoreAction, RouteConfig>)

  const NoRouterOptions := CoreRouterOptions(None, None, None, map[])
}
