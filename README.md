# loompi / unstrap core in Dafny

This project models the framework-neutral core of the loompi / unstrap
repository and proves properties of that model. The core turns declarative
resource schemas into CRUD route specs and controllers that an HTTP
framework adapter can mount. It has five parts.

- **Route-mapping engine** (`Router`, from `packages/loompi/src/router.ts`).
  - A `NamedRegistry` object holds the named policies and middlewares.
  - `CreateRouterMappings` flattens the route definitions. For each route it
    builds the middleware chain: auth first when enabled, then the configured
    named or inline middlewares.
  - It splits the handler `"<key>.<action>"` on `.` by the 3-part or 2-part
    rule, then looks up the controller and the action.
  - A route that cannot be resolved is dropped silently.
- **Route-spec generation** (`Route`, from `packages/loompi/src/route.ts`)
  and **resource composition** (`ResourceRegistry`, from
  `packages/loompi/src/registry.ts`).
  - Generation gives up to five method/path/handler specs, filtered by
    `only` and `except`.
  - Composition puts custom routes before core routes and collects
    controllers by schema name.
- **Schema validation** (`Schema`, from `packages/loompi/src/schema.ts`).
  It checks the required fields in a fixed order. It writes the default
  display name into the `info` object in place and returns a validated
  copy.
- **CRUD controller engine and error taxonomy.**
  - `CrudController`, from `packages/unstrap/src/controller.ts`: five actions
    that talk to a repository object.
  - `ControllerHelper`, from `packages/unstrap/src/controller-helper.ts`:
    body-shape validation, a fixed-precedence classifier of database
    errors, and extraction of the offending field.
  - `RequestParser` and `Pagination`, from `request-parser.ts` and
    `utils.ts`: the query parsing and pagination arithmetic of `find`.
- **Query compiler** (`QueryBuilder`, from
  `packages/unstrap-drizzle/src/query-builder.ts`).
  - It compiles a filter object with `$and`/`$or` and operator leaves into a
    `Cond` tree. The constructors of `Cond` and `Order` stand for drizzle's
    combinators.
  - It also compiles a sort list into `Order` terms.

Supporting modules:
- `Values`: JavaScript values, thrown errors and the `Outcome` of a call
  that may throw.
- `Text`: string splitting and joining, ASCII case mapping, decimal text.
- `Types`: the shared record types from the two `types.ts` files.
- `Resolution`: cross-file results, mainly that
  generated handlers resolve back to the schema's own controller.

How the source's forms carry over:
- Code that mutates state is modelled imperatively:
  - the registries and the repository are classes;
  - `createRouterMappings`, `createCoreRoutes`, `createResource`,
    `createResourceRegistry`, `defineSchema`, the controller actions and
    `buildWhereClause` are methods with loops;
  - each method is proved equal to a specification function, and the
    lemmas are stated about that function.
- Pure code becomes functions.

Where the code and the prose description of the system differ, the model
follows the code. The clearest case is the `create` action. It checks its
body with the `'update'` wording of `validateRequestData`
(`packages/unstrap/src/controller.ts:68`). An empty `data` object is
therefore reported as "Update data cannot be empty".
`CrudController.CreateReportsUpdateWording` states this.

## Model

| member | source | states |
|---|---|---|
| Router.NamedRegistry.constructor | packages/loompi/src/router.ts:3-4 | both registries start empty |
| Router.NamedRegistry.RegisterPolicy | packages/loompi/src/router.ts:6-8 | the name now maps to the new handler, replacing an earlier one (last write wins); the middleware registry is untouched |
| Router.NamedRegistry.RegisterMiddleware | packages/loompi/src/router.ts:10-12 | the name now maps to the new handler, replacing an earlier one; the policy registry is untouched |
| Router.NamedRegistry.CreateRouterMappings | packages/loompi/src/router.ts:15-106 | the result is the per-route mapping of the flattened definitions, in order, with unresolvable routes dropped; it is never longer than the flattened input; it reads the registries and modifies nothing |
| Router.NamedRegistry.PushRoutes | packages/loompi/src/router.ts:23-101 | the inner loop over one definition's routes appends exactly that definition's mappings |
| Router.NamedRegistry.MapOneRoute | packages/loompi/src/router.ts:24-98 | one route's pass through the loop body yields the route's mapping, or nothing where the source returns early |
| Router.NamedRegistry.MiddlewareStack | packages/loompi/src/router.ts:24-56 | the stack built is the route's chain: auth part, then the configured part |
| Router.NamedRegistry.PushConfigured | packages/loompi/src/router.ts:41-55 | the configured entries are appended in listed order, each resolved by the entry rule |
| Router.ConfiguredChainStep | packages/loompi/src/router.ts:42-55 | one more entry extends the chain by exactly that entry's contribution |
| Router.ConfiguredChainAppend | packages/loompi/src/router.ts:42-55 | the chain of concatenated entry lists is the concatenation of their chains, so listed order is kept |
| Router.ConfiguredChainOrder | packages/loompi/src/router.ts:43-54 | a registered name gives its middleware, an unknown name gives nothing, an inline function is kept as-is, and an object-form entry is ignored |
| Router.AuthHeadsChain | packages/loompi/src/router.ts:26-36 | the auth middleware heads the chain exactly when auth is not switched off and one is registered; `auth: false` removes it; policies never affect the chain; `Router.AuthEnabled` is the test `config?.auth !== false` |
| Router.SplitHandlerSound | packages/loompi/src/router.ts:58-72 | a handler splits exactly when it has one or two dots; the key and action joined by `.` give the handler back, the action is undotted, and the key has at most one dot; `Router.SplitHandler` is that split rule: three parts give `(p0.p1, p2)`, two parts give `(p0, p1)`, and any other count gives nothing |
| Router.ResolvesBack | packages/loompi/src/router.ts:58-72 | a key with at most one dot followed by an undotted action splits back into that key and action |
| Router.NamespacedHandler | packages/loompi/src/router.ts:63-65 | three parts give the key `p0.p1` and the action `p2` |
| Router.UndottedHandler | packages/loompi/src/router.ts:69-72 | a handler without a dot is rejected |
| Router.SplitHandlerExamples | packages/loompi/src/router.ts:62-72 | `"api::user.user.findOne"` splits into `("api::user.user", "findOne")`, and `"broken"` is rejected |
| Router.MapRouteCases | packages/loompi/src/router.ts:58-98 | a route is dropped exactly when its handler does not split, or names a missing controller, or names an action that controller lacks; a mapping carries the lower-cased method, the unchanged path, `controllers[key][action]` and the built chain |
| Router.LowerCasedMethods | packages/loompi/src/router.ts:94 | `Types.MethodText` gives each method as written in a route spec, and those five lower-case to `get`, `post`, `put`, `delete`, `patch` |
| Router.MapRoutesAppend | packages/loompi/src/router.ts:21-23 | mapping concatenated route lists concatenates their mappings |
| Router.MapRoutesStep | packages/loompi/src/router.ts:23 | mapping one more route appends at most that route's own mapping |
| Router.FlattenStep | packages/loompi/src/router.ts:22 | one more definition appends exactly its routes to the flattened list |
| Router.FlattenAppend | packages/loompi/src/router.ts:22 | flattening concatenated definition lists concatenates their routes |
| Router.MapRoutesBound | packages/loompi/src/router.ts:21-98 | there are never more mappings than routes |
| Router.MapRoutesSubsequence | packages/loompi/src/router.ts:21-98 | the output is an order-preserving subsequence of the input routes: each mapping comes from a route at a strictly increasing index |
| Router.ScenarioRoute | packages/loompi/src/router.ts:62-84 | a route to `api::user.user.find` reaches the `find` action of the controller registered as `api::user.user` |
| Router.OneDefinitionTwoRoutes | packages/loompi/src/router.ts:22-23 | two resolvable routes of one definition give two mappings, in their order |
| Router.AuthScenario | packages/loompi/src/router.ts:26-36 | with `auth` registered, a route gets only the auth middleware; with `auth: false` it gets none |
| Route.BasePath | packages/loompi/src/route.ts:15-16 | a present prefix (even an empty one) is the base path; otherwise it is `"/" + pluralName` |
| Route.KeepListed | packages/loompi/src/route.ts:25-27 | an action survives exactly when it is listed in `only` |
| Route.DropListed | packages/loompi/src/route.ts:28-30 | an action survives exactly when it is not listed in `except` |
| Route.RoutesToInclude | packages/loompi/src/route.ts:24-30 | the actions computed are the canonical five filtered by `only`, then by `except` |
| Route.RouteFor | packages/loompi/src/route.ts:35-77 | one pass of the `switch` gives the action's spec: the method/path table entry, the handler `schemaName + "." + action` and the action's config |
| Route.CreateCoreRoutes | packages/loompi/src/route.ts:9-85 | the definition built is the list of specs of the included actions, in order; the base path uses the schema's plural name |
| Route.DottedName | packages/loompi/src/route.ts:42-74 | each handler literal is the schema name, a dot and the action's name |
| Route.CreateCustomRoutes | packages/loompi/src/route.ts:88-90 | the routes are wrapped unchanged |
| Route.IncludedMembership | packages/loompi/src/route.ts:24-30 | an action is included exactly when it is in `only` (if given) and not in `except` (if given), so an action in both lists is excluded |
| Route.AscendingCons | packages/loompi/src/route.ts:18 | an action ranked below every element of an ascending list keeps the list ascending when put in front |
| Route.KeepListedOrdered | packages/loompi/src/route.ts:25-27 | filtering by `only` keeps canonical order |
| Route.DropListedOrdered | packages/loompi/src/route.ts:28-30 | filtering by `except` keeps canonical order |
| Route.IncludedCanonicalOrder | packages/loompi/src/route.ts:18-34 | the included actions are in canonical order whatever order `only` is written in |
| Route.KeepListedByMembers | packages/loompi/src/route.ts:26 | two `only` lists with the same members keep the same actions |
| Route.DropListedByMembers | packages/loompi/src/route.ts:29 | two `except` lists with the same members remove the same actions |
| Route.OnlyExceptOrderIrrelevant | packages/loompi/src/route.ts:24-34 | the generated routes depend only on the sets of actions in `only` and `except`, not on their order or repetitions |
| Route.DefaultFiveRoutes | packages/loompi/src/route.ts:18-77 | with no `only`/`except` there are exactly five specs: find `GET base`, findOne `GET base/:id`, create `POST base`, update `PUT base/:id`, delete `DELETE base/:id`, each with handler `schemaName.action` and its own config |
| Route.SpecHandlerAndConfig | packages/loompi/src/route.ts:35-77 | every generated spec has the handler `schemaName + "." + action` and the config `options.config[action]`; `Types.ActionName` gives each action's property name (`find`, `findOne`, `create`, `update`, `delete`) |
| Route.CoreRoutesDistinct | packages/loompi/src/route.ts:37-77 | no two generated routes share both method and path |
| ResourceRegistry.CreateResource | packages/loompi/src/registry.ts:66-104 | the controller registry has exactly one key, the schema name; the definitions are `[custom, core]` with custom routes passed through unchanged, or `[core]` without them |
| ResourceRegistry.CreateResourceRegistry | packages/loompi/src/registry.ts:181-208 | the controllers are the resources' controllers by schema name, each later one replacing an earlier one; the routes are every resource's definitions concatenated in input order |
| ResourceRegistry.PrefixStep | packages/loompi/src/registry.ts:193-202 | one more resource adds its controller under its name and appends its definitions |
| ResourceRegistry.RegistryKeys | packages/loompi/src/registry.ts:200 | the controller map's keys are exactly the listed schema names |
| ResourceRegistry.RegistryLastWins | packages/loompi/src/registry.ts:200 | a name's controller comes from its last listing |
| ResourceRegistry.RegistryRoutesAppend | packages/loompi/src/registry.ts:201 | the routes of concatenated resource lists are the concatenation of their routes |
| ResourceRegistry.SameNameTwice | packages/loompi/src/registry.ts:200-201 | with two resources of one name, the later controller replaces the earlier, but the routes of both are kept |
| ResourceRegistry.EmptyRegistry | packages/loompi/src/registry.ts:190-207 | an empty resource list gives an empty controller map and no routes |
| Schema.InfoObject.constructor | packages/loompi/src/types.ts:169-174 | the info object holds the given names, display name and description |
| Schema.SchemaFailure | packages/loompi/src/schema.ts:13-21 | there is no failure exactly when all four required fields are present; otherwise the first missing field in check order is reported |
| Schema.DisplayName | packages/loompi/src/schema.ts:23-26 | a non-empty display name is kept; an empty one becomes the singular name with its first character upper-cased and the rest unchanged |
| Schema.SchemaErrorValue | packages/loompi/src/schema.ts:12-21 | the thrown value is a plain `Error` carrying the message |
| Schema.DefineSchema | packages/loompi/src/schema.ts:9-32 | it throws exactly when a required field is missing, with the first missing field's message and `info` untouched; otherwise it writes the default display name into `info` in place and returns all input fields plus `_validated = true` |
| Schema.FirstMissingFieldReported | packages/loompi/src/schema.ts:13-21 | when several fields are missing, the collection name is reported first, then the table |
| Schema.DisplayNameIdempotent | packages/loompi/src/schema.ts:23-26 | defaulting a second time changes nothing |
| Schema.DisplayNameExample | packages/loompi/src/schema.ts:23-26 | the singular name `user` gives the display name `User` |
| CrudController.CoreController | packages/unstrap/src/controller.ts:16-155 | the core controller has exactly the five action names, each bound to the schema's own built-in action |
| CrudController.CreateCoreController | packages/unstrap/src/controller.ts:157-165 | without extensions the core controller is returned; with them the keys are the core keys plus the extension keys, extension values win, and non-overridden core actions are kept |
| CrudController.ExtendTwice | packages/unstrap/src/controller.ts:159-162 | merging the same extensions again changes nothing |
| CrudController.Repository.constructor | packages/unstrap/src/types.ts:27-33 | a fresh repository has an empty call log |
| CrudController.Repository.Find | packages/unstrap/src/types.ts:28 | the call is logged and its answer is the repository's answer to that call in its current state |
| CrudController.Repository.Row | packages/unstrap/src/types.ts:29-32 | a single-row call is logged and answered from the repository's current state |
| CrudController.Repository.FindOne | packages/unstrap/src/types.ts:29 | the call is logged and answered from the repository's current state |
| CrudController.Repository.Create | packages/unstrap/src/types.ts:30 | the call is logged and answered from the repository's current state |
| CrudController.Repository.Update | packages/unstrap/src/types.ts:31 | the call is logged and answered from the repository's current state |
| CrudController.Repository.Delete | packages/unstrap/src/types.ts:32 | the call is logged and answered from the repository's current state |
| CrudController.FindParamsOf | packages/unstrap/src/controller.ts:20-30 | `find` asks the repository with empty filters and the parsed pagination and sort |
| CrudController.Listed | packages/unstrap/src/controller.ts:32-44 | a listing answers 200 with the data and pagination meta for the parsed page and page size and the repository's total; a thrown error goes to the error handler |
| CrudController.Fetched | packages/unstrap/src/controller.ts:51-153 | a falsy row answers 404 `{error: 'Not found'}`, a truthy one 200 `{data}`, and a thrown error goes to the error handler; falsiness is `Values.Truthy`, JavaScript's `!!v` (undefined, null, false, 0 and the empty string are falsy) |
| CrudController.Created | packages/unstrap/src/controller.ts:91-98 | a created row answers 201 `{data: result}`; a thrown error goes to the error handler |
| CrudController.Updated | packages/unstrap/src/controller.ts:125-135 | a falsy row gives the not-found reply for the id, a truthy one 200 `{data: result}`, and a thrown error goes to the error handler |
| CrudController.AdmitBody | packages/unstrap/src/controller.ts:66-121 | a body is admitted exactly when it was read, passes the shape check and passes the validator if one is set; the data passed on is the body's own `data`; a bad shape or a failed validator answers 400 |
| CrudController.FindAction | packages/unstrap/src/controller.ts:17-45 | exactly one repository call, `find` with the parsed parameters, and the reply is the listing of its answer |
| CrudController.FindOneAction | packages/unstrap/src/controller.ts:46-62 | exactly one `findOne` call with the route id, and the reply follows the row it returns |
| CrudController.CreateAction | packages/unstrap/src/controller.ts:64-99 | a rejected body answers early with no repository call; an admitted one makes exactly one `create` call with the original `data` and answers 201 with its result |
| CrudController.UpdateAction | packages/unstrap/src/controller.ts:100-136 | a rejected body answers early with no repository call; an admitted one makes exactly one `update` call with the id and the original `data`, and a falsy result answers 404 |
| CrudController.DeleteAction | packages/unstrap/src/controller.ts:137-154 | the body is read first, so a read failure goes to the error handler with no repository call; otherwise exactly one `delete` call, and the reply follows the row it returns |
| CrudController.EarlyReplyStatus | packages/unstrap/src/controller.ts:66-121 | an early reply has status 400, 409 or 500; one about the body's shape or the validator is a 400 |
| CrudController.CreateReportsUpdateWording | packages/unstrap/src/controller.ts:68-71 | `create` rejects an empty `data` object with "Update data cannot be empty" |
| CrudController.ValidatorOutputUnused | packages/unstrap/src/controller.ts:73-91 | what a passing validator outputs does not change what is handed to the repository |
| CrudController.FindDefaultPaging | packages/unstrap/src/controller.ts:22-38 | with no pagination keys, `find` reports page 1 and page size 25, and the page count covers the total exactly |
| ControllerHelper.ValidateRequestData | packages/unstrap/src/controller-helper.ts:12-35 | a null or undefined body throws; a falsy `data` gives "Invalid request format" with the operation's example; an empty object or array gives "Validation failed" with the operation's wording; any other `data` passes; the example is `ControllerHelper.ExampleBody` (a name and an email for create, a name for update), the empty-data wording is `ControllerHelper.EmptyDataDetails` ("Request" for create, "Update" for update), and an empty container (`ControllerHelper.EmptyContainer`) is an object without keys or an array without elements |
| ControllerHelper.ExamplesDiffer | packages/unstrap/src/controller-helper.ts:18-20 | the create and update examples differ |
| ControllerHelper.HandleNotFoundError | packages/unstrap/src/controller-helper.ts:44-52 | the reply is 404 "Not found"; a truthy id gives id-specific details, otherwise generic details |
| ControllerHelper.IndexFrom | packages/unstrap/src/controller-helper.ts:163-166 | the index is the first occurrence of the character at or after the start, or the end of the string |
| ControllerHelper.MatchAt | packages/unstrap/src/controller-helper.ts:163-166 | a match found at a position is the lead text there, then a non-empty run without the closing character, then the closing character, and the run is what is returned |
| ControllerHelper.MatchAtComplete | packages/unstrap/src/controller-helper.ts:163-166 | conversely, the lead text at a position, then a non-empty run without the closing character, then the closing character, is a match whose capture is that run |
| ControllerHelper.SearchFromLeftmost | packages/unstrap/src/controller-helper.ts:163-166 | a found match is the leftmost one: it matches at its position and nowhere earlier |
| ControllerHelper.SearchFromNone | packages/unstrap/src/controller-helper.ts:163-166 | when nothing is found, no position matches |
| ControllerHelper.GetErrorInfo | packages/unstrap/src/controller-helper.ts:187-209 | each constraint kind gives its message and its code: `duplicate_entry`, `invalid_reference` or `required_field` |
| ControllerHelper.ExtractConstraintField | packages/unstrap/src/controller-helper.ts:158-182 | without a message there is no field list; a field found by the patterns gives a one-element list with that field and the kind's message and code; no field gives none; the field is `ControllerHelper.ConstraintFieldName`, which takes the capture of the first of the patterns `column "…"`, `field '…'`, `` `…` `` and `key '…'` that matches anywhere in the message |
| ControllerHelper.ConstraintFieldShape | packages/unstrap/src/controller-helper.ts:163-168 | an extracted field name is non-empty, and it is the capture of one of the four patterns without that pattern's closing character |
| ControllerHelper.SearchShape | packages/unstrap/src/controller-helper.ts:163-166 | a pattern's captured text is non-empty and free of its closing character |
| ControllerHelper.KeyPatternDecides | packages/unstrap/src/controller-helper.ts:163-166 | when the first three patterns cannot match, the `key '...'` pattern decides |
| ControllerHelper.ClosingQuoteAbsent | packages/unstrap/src/controller-helper.ts:163-166 | a message without the closing character matches nothing |
| ControllerHelper.Classify | packages/unstrap/src/controller-helper.ts:61-153 | fixed precedence: SyntaxError, then unique, then foreign key, then not-null, then internal; each class holds exactly when the earlier ones do not; unique is `ControllerHelper.IsUniqueConstraintError` (code 23505 or SQLITE_CONSTRAINT, errno 1062, or a message containing "unique constraint"/"UNIQUE constraint"), foreign key is `ControllerHelper.IsForeignKeyError` (code 23503, errno 1452, or "foreign key constraint"/"FOREIGN KEY constraint"), and not-null is `ControllerHelper.IsNotNullError` (code 23502, errno 1048, or "NOT NULL constraint") |
| ControllerHelper.HandleControllerError | packages/unstrap/src/controller-helper.ts:61-117 | every reply is an error body with status 400, 409 or 500; each class gets its message, details and extracted fields |
| ControllerHelper.StatusByClass | packages/unstrap/src/controller-helper.ts:63-116 | status 409 exactly for duplicates, 500 exactly for internal errors, and 400 exactly for invalid JSON, invalid references and missing fields |
| ControllerHelper.SqliteConstraintIsDuplicate | packages/unstrap/src/controller-helper.ts:73-130 | any `SQLITE_CONSTRAINT` error that is not a SyntaxError is reported as a 409 duplicate entry, whatever constraint failed |
| ControllerHelper.InternalDetailsOnlyInDevMode | packages/unstrap/src/controller-helper.ts:109-116 | an internal error's message is shown as details only in development mode; that message is `ControllerHelper.ErrorMessage`, the error's own message for an `Error` and its string conversion otherwise |
| RequestParser.ParseFilters | packages/unstrap/src/request-parser.ts:7-13 | the result is an empty object for every query |
| RequestParser.LeadingDigits | packages/unstrap/src/request-parser.ts:17-18 | the leading run of decimal digits is found exactly |
| RequestParser.ParseInt | packages/unstrap/src/request-parser.ts:17-18 | `parseInt` of an optional sign and a run of decimal digits gives the run's exact value as an unbounded integer, negated after a `-`, and NaN when no digit follows the sign |
| RequestParser.ParsePagination | packages/unstrap/src/request-parser.ts:15-20 | an absent or empty page value gives page 1 and an absent or empty page-size value gives 25; any other value is parsed; the fallback is `RequestParser.OrDefault`, the `query[key] || fallback` of the source |
| RequestParser.ParseSortItem | packages/unstrap/src/request-parser.ts:27-28 | a leading `-` gives `desc` with exactly one `-` stripped; anything else gives `asc` with the field unchanged |
| RequestParser.ParseSort | packages/unstrap/src/request-parser.ts:22-31 | an absent or empty `sort` gives no entries; otherwise one entry per comma-separated piece, in order |
| RequestParser.SortItemRoundTrip | packages/unstrap/src/request-parser.ts:27-28 | re-encoding a parsed piece gives the piece back |
| RequestParser.SortEntryRoundTrip | packages/unstrap/src/request-parser.ts:27-28 | parsing an encoded entry gives it back exactly when it is descending or its field does not start with `-` |
| RequestParser.ParseSortRoundTrip | packages/unstrap/src/request-parser.ts:26-30 | re-encoding every entry and joining with `,` reproduces any non-empty sort string |
| RequestParser.PaginationReadsTwoKeys | packages/unstrap/src/request-parser.ts:15-20 | pagination depends only on the `pagination[page]` and `pagination[pageSize]` keys |
| RequestParser.ParseIntOfDecimal | packages/unstrap/src/request-parser.ts:17-18 | `parseInt` reads back the decimal text of any natural number |
| RequestParser.AllDigits | packages/unstrap/src/request-parser.ts:17-18 | decimal text consists of digits only |
| RequestParser.LeadingDigitsAll | packages/unstrap/src/request-parser.ts:17-18 | an all-digit string is one digit run |
| RequestParser.DigitsValueOfDecimal | packages/unstrap/src/request-parser.ts:17-18 | the digit value of decimal text is the number written |
| Pagination.FloorDiv | packages/unstrap/src/utils.ts:6 | the quotient rounded towards negative infinity |
| Pagination.CeilDiv | packages/unstrap/src/utils.ts:6 | the quotient rounded towards positive infinity, as `Math.ceil` is on an exact quotient |
| Pagination.CreatePaginationResponse | packages/unstrap/src/utils.ts:2-9 | page, page size and total are echoed unchanged; a positive integer page size gives an integer page count |
| Pagination.PageCountBounds | packages/unstrap/src/utils.ts:6 | for total ≥ 0 and page size > 0, the pages cover the total, and when the total is positive one page fewer would not; `Pagination.PageCount` is `Math.ceil(total / pageSize)`: integer ceiling division for a non-zero integer page size, 0 for an infinite one, and ±Infinity or NaN for a zero one |
| Pagination.PageCountZero | packages/unstrap/src/utils.ts:6 | a total of 0 gives 0 pages |
| Pagination.PageCountMonotone | packages/unstrap/src/utils.ts:6 | the page count never decreases as the total grows |
| Pagination.PaginationExample | packages/unstrap/src/utils.ts:2-9 | page 2, page size 10 and total 25 give page count 3 |
| QueryBuilder.BuildWhereClause | packages/unstrap-drizzle/src/query-builder.ts:5-54 | the clause built by the loop is the compiled filter: the specification `Where` |
| QueryBuilder.EntryClauses | packages/unstrap-drizzle/src/query-builder.ts:12-50 | the conditions one filter entry pushes are that entry's conditions, or the same throw |
| QueryBuilder.ChildClauses | packages/unstrap-drizzle/src/query-builder.ts:14-26 | the `$and`/`$or` children compile in order, and undefined ones are dropped |
| QueryBuilder.ChildClause | packages/unstrap-drizzle/src/query-builder.ts:15-25 | one child compiles recursively, and a null or undefined child throws |
| QueryBuilder.Where | packages/unstrap-drizzle/src/query-builder.ts:9-53 | an empty filter compiles to nothing; any result is `and(...)` of a non-empty list of conditions |
| QueryBuilder.ItemTexts | packages/unstrap-drizzle/src/query-builder.ts:75-83 | each array item is rendered in place: `null` and `undefined` become empty text, and any other item becomes its string conversion; `QueryBuilder.Stringify` is the template conversion `${value}`: an array joins these texts with commas, and an object gives `[object Object]` |
| QueryBuilder.ApplyOperator | packages/unstrap-drizzle/src/query-builder.ts:56-96 | an unknown operator, `$in`/`$notIn` without an array, or `$between` without exactly two items gives nothing; `$eq`, `$ne`, `$gt`, `$gte`, `$lt` and `$lte` give their own comparison; `$in`, `$notIn` and `$between` give their combinators; the pattern operators give `%v%`, `v%` and `%v`; `$null`/`$notNull` test for exactly `true`; `QueryBuilder.NullTest` picks `isNull` or `isNotNull` for those two |
| QueryBuilder.NullMirror | packages/unstrap-drizzle/src/query-builder.ts:84-87 | `$null` gives `isNull` exactly when the value is `true`, and `$notNull` is its mirror image |
| QueryBuilder.OperatorConditions | packages/unstrap-drizzle/src/query-builder.ts:41-46 | an operator object gives at most one condition per operator |
| QueryBuilder.PrependNothing | packages/unstrap-drizzle/src/query-builder.ts:9 | putting no conditions in front changes nothing |
| QueryBuilder.PrependTwice | packages/unstrap-drizzle/src/query-builder.ts:9 | putting two lists in front is putting their concatenation in front |
| QueryBuilder.ConditionsStep | packages/unstrap-drizzle/src/query-builder.ts:11 | the conditions from entry `i` on are entry `i`'s conditions followed by the rest |
| QueryBuilder.ChildWheresStep | packages/unstrap-drizzle/src/query-builder.ts:14-16 | the children from `k` on compile to child `k`'s result followed by the rest |
| QueryBuilder.UnknownFieldsOnly | packages/unstrap-drizzle/src/query-builder.ts:34-53 | a filter of unknown fields only compiles to nothing |
| QueryBuilder.ConditionsAppend | packages/unstrap-drizzle/src/query-builder.ts:11 | conditions are collected in entry order: concatenated entries give concatenated conditions, and a throw stops the rest |
| QueryBuilder.UnknownFieldIgnored | packages/unstrap-drizzle/src/query-builder.ts:34-38 | removing an unknown field changes nothing |
| QueryBuilder.PlainValueIsEquality | packages/unstrap-drizzle/src/query-builder.ts:47-50 | a known field with a non-object value compiles to `and(eq(column, value))` |
| QueryBuilder.LogicalWithoutSurvivors | packages/unstrap-drizzle/src/query-builder.ts:13-31 | `$and`/`$or` whose children all compile to nothing adds no condition |
| QueryBuilder.OperatorConditionsAllKnown | packages/unstrap-drizzle/src/query-builder.ts:41-46 | when every operator is recognised, there is one condition per operator, in order |
| QueryBuilder.OperatorConditionsAppend | packages/unstrap-drizzle/src/query-builder.ts:41-46 | operator conditions keep the operators' order across concatenation |
| QueryBuilder.UnknownOperatorIgnored | packages/unstrap-drizzle/src/query-builder.ts:92-94 | removing an unknown operator changes nothing |
| QueryBuilder.UnknownOperatorAlone | packages/unstrap-drizzle/src/query-builder.ts:92-94 | an object with only an unknown operator gives no condition |
| QueryBuilder.ChildWheresBound | packages/unstrap-drizzle/src/query-builder.ts:14-16 | there are never more surviving children than children |
| QueryBuilder.NullChildThrows | packages/unstrap-drizzle/src/query-builder.ts:11-25 | a null child of `$and`/`$or` makes compilation throw |
| QueryBuilder.ChildWheresThrow | packages/unstrap-drizzle/src/query-builder.ts:14-16 | the first null child throws, whatever follows it |
| QueryBuilder.BuildOrderBy | packages/unstrap-drizzle/src/query-builder.ts:98-112 | the result is never longer than the input and mentions known columns only |
| QueryBuilder.OrderBySubsequence | packages/unstrap-drizzle/src/query-builder.ts:102-111 | each order term comes from a sort entry at a strictly increasing index, so relative order is kept |
| QueryBuilder.OrderByAppend | packages/unstrap-drizzle/src/query-builder.ts:102-111 | order terms of concatenated sorts are concatenated |
| QueryBuilder.OrderByAllKnown | packages/unstrap-drizzle/src/query-builder.ts:103-109 | when every field is known, each entry gives its term: `asc` for `'asc'`, `desc` otherwise; `QueryBuilder.OrderOf` is that per-entry choice |
| QueryBuilder.WhereExample | packages/unstrap-drizzle/src/query-builder.ts:11-53 | a `$startsWith` filter on a known field, plus an unknown field, compiles to a single `like` with pattern `jo%` |
| Resolution.ActionNameUndotted | packages/loompi/src/route.ts:42-74 | no standard action name contains a dot |
| Resolution.OverDottedKeyRejected | packages/loompi/src/router.ts:58-72 | a handler whose key has two or more dots is rejected by the split rule |
| Resolution.CoreHandlerResolves | packages/loompi/src/route.ts:42-74 | a generated handler for a schema name with at most one dot splits back into that schema name and its action; with two or more dots the route would be dropped |
| Resolution.MapRoutesAsFilterMap | packages/loompi/src/router.ts:21-98 | route mapping keeps the present per-route results in order |
| Resolution.FilterMapAllPresent | packages/loompi/src/router.ts:21-98 | when every route yields a mapping, none is dropped |
| Resolution.MapRoutesAllResolve | packages/loompi/src/router.ts:21-98 | when every route resolves, the mappings are the routes' own, one per route, in order |
| Resolution.CoreRoutesReachController | packages/loompi/src/router.ts:58-98 | with the schema's CRUD controller registered under the schema name, every generated route maps, in order, to that controller's action of the same name, with the route's path and chain; an action the extensions leave alone maps to the built-in one |
| Values.Lookup | packages/unstrap/src/controller-helper.ts:13 | a property read finds the first entry with that key, and an absent key reads `undefined` |
| Values.GetProp | packages/unstrap/src/controller-helper.ts:13 | a property read throws exactly on null or undefined; on an object it finds the key, and on other values it reads `undefined` |
| Text.SplitShape | packages/loompi/src/router.ts:58 | `split('.')` gives one more part than the number of dots, and no part contains a dot |
| Text.JoinSplit | packages/loompi/src/router.ts:58 | joining the parts with the separator gives the string back |
| Text.SplitAround | packages/loompi/src/router.ts:58 | splitting around a separator concatenates the splits of the two sides |
| Text.SplitNone | packages/unstrap/src/request-parser.ts:26 | a string without the separator splits into itself |
| Text.CountAppend | packages/loompi/src/router.ts:58 | dots in a concatenation are the sum of the dots in each part |
| Text.CountZero | packages/loompi/src/router.ts:58 | no dots exactly when the character is absent |
| Text.AsciiLower | packages/loompi/src/router.ts:94 | lower-casing maps every character and keeps the length |
| Text.Capitalize | packages/loompi/src/schema.ts:24-25 | the first character is upper-cased and the rest is kept |
| Types.Rank | packages/loompi/src/route.ts:18 | each action has its place in the canonical order |

## Left out

- Framework adapters (Express, Fastify, Hono) and the running of middleware chains are not part of this model. They are I/O plumbing inside the frameworks.
- The drizzle repository and the factory wrappers are not part of this model.
  - `repository(schemaName)` is passed to each action as a `Repository` object. Its answers are functions of its call log, so they stand for whatever state the database holds.
  - `createFactory` is not modelled. In `ResourceRegistry`, the core-controller factory is a parameter, and `CrudController.CreateCoreController` is an instance of it.
- Zod validators become abstract functions that pass or fail. Only the pass/fail verdict is used.
- `createErrorResponse` and `createValidationErrorResponse` are not in the shown `utils.ts`. They are modelled as record builders that carry message, status code, details, fields and example.
- The controller lifecycle hooks are carried on the schema record but never called, as in the source.
- Policies are stored by `RegisterPolicy` but ignored by mapping, as in the source. The policy step there is an unwritten to-do.
- `console.warn`, `console.log` and `console.error` are left out. They do not affect results.
- `process.env.NODE_ENV === 'development'` becomes the boolean parameter `devMode`.
- The async/await ordering of the actions is not modelled. A rejected promise becomes a `Thrown` outcome at the same step.
- Numbers are integers, plus NaN and ±Infinity (the `Num` datatype). Floating-point fractions and `-0` are left out. `CeilDiv` is exact integer ceiling division.
- RequestParser.ParseInt: digit runs are read as exact unbounded integers. The source's doubles are not modelled: values above 2^53 are not rounded (`"9007199254740993"` stays exact), and a digit run beyond about 1.8e308 gives a huge integer rather than `Infinity`. A page size that would be `Infinity` therefore gives a positive page count instead of 0. For the same reason, `QueryBuilder.Stringify` writes every integer in full decimal, never in exponent form such as `1e+21`.
- `RequestParser.ParseInt` reads an optional sign and decimal digits only. Leading whitespace and radix prefixes such as `0x` are not modelled.
- Case mapping (`toUpperCase`, `toLowerCase`, the `i` regex flag) is ASCII only.
- The four regular expressions of `extractConstraintField` become explicit leftmost scans.
- `instanceof SyntaxError` and `instanceof Error` become an error-kind tag. A thrown value is always an error record with optional `code`, `errno` and `message`.
- Query values are strings. The filter bracket-path decoding that a real `parseFilters` would do does not exist in the source, where it is a stub.
- A table is its set of column names. Prototype properties and other table members are not modelled.
- Router.MapRoute: the controller registry and each controller are own-key maps whose values are all truthy. The source's `controllers[controllerKey]` and `controller[actionName]` are plain property reads, so an inherited name such as `toString` resolves there and the route is pushed with that function as its handler; the model drops such a route. An extension entry whose value is `undefined` is dropped by the source's truthiness test; such an entry cannot be written in the model.
- QueryBuilder.ChildWhere: a `$and`/`$or` child that is neither an object nor null/undefined compiles to nothing. That is exact unless a column is named by a decimal index, since `Object.entries` of a string or array yields index keys.
- drizzle's `and()`/`or()` of a single condition is kept as a one-element `And`/`Or`, not simplified to that condition.
- Schema.DefineSchema: the in-place write of the display name into `info` is modelled through the `Schema.InfoObject` class, but the returned definition holds a value snapshot of `info`. In the source, `{...config}` returns the same `info` object, so later writes through `config.info` also show in the result; the model does not capture that aliasing. The other schema fields are copied as values.
