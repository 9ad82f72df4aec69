/** The standard CRUD controller of a schema (packages/unstrap/src/controller.ts):
    the merge of the five core actions with application extensions, and the
    five actions themselves as step-by-step procedures over a repository
    whose answers are left open. */
module CrudController {
  import opened Values
  import opened Types
  import opened Pagination
  import opened RequestParser
  import opened ControllerHelper

  // ----- the controller object -----

  /** The five core actions of `schemaName`'s controller, under their names. */
  function CoreController(schemaName: string): (c: Controller)
    ensures forall a: CoreAction :: ActionName(a) in c && c[ActionName(a)] == BuiltIn(schemaName, a)
    ensures forall k :: k in c ==> exists a: CoreAction :: ActionName(a) == k
  {
    map[ActionName(Find) := BuiltIn(schemaName, Find),
        ActionName(FindOne) := BuiltIn(schemaName, FindOne),
        ActionName(Create) := BuiltIn(schemaName, Create),
        ActionName(Update) := BuiltIn(schemaName, Update),
        ActionName(Delete) := BuiltIn(schemaName, Delete)]
  }

  /** `createCoreController(context, schemaName, extensions)`: the core
      actions, overridden and extended by what the extensions function
      returns (`extensions` is that result, `None` when no function is given). */
  function CreateCoreController(schemaName: string, extensions: Option<Controller>): (c: Controller)
    ensures extensions.None? ==> c == CoreController(schemaName)
    ensures extensions.Some? ==> c.Keys == CoreController(schemaName).Keys + extensions.value.Keys
    ensures extensions.Some? ==> forall k :: k in extensions.value ==> k in c && c[k] == extensions.value[k]
    ensures forall a: CoreAction :: (extensions.None? || ActionName(a) !in extensions.value) ==>
      ActionName(a) in c && c[ActionName(a)] == BuiltIn(schemaName, a)
  {
    match extensions
    case None => CoreController(schemaName)
    case Some(ext) => CoreController(schemaName) + ext
  }

  /** Merging is idempotent: extending twice with the same actions changes
      nothing more. */
  lemma ExtendTwice(schemaName: string, ext: Controller)
    ensures CreateCoreController(schemaName, Some(ext)) + ext == CreateCoreController(schemaName, Some(ext))
  {
  }

  // ----- the repository -----

  /** What `find` hands the repository. */
  datatype FindParams = FindParams(filters: Value, pagination: PaginationParams, sort: seq<SortEntry>)

  /** What the repository's `find` resolves to: `{ data, total }`. */
  datatype Page = Page(data: seq<Value>, total: int)

  /** One call made on the repository, with its arguments. */
  datatype RepoCall =
    | FindCall(params: FindParams)
    | FindOneCall(id: Option<string>)
    | CreateCall(data: Value)
    | UpdateCall(id: Option<string>, data: Value)
    | DeleteCall(id: Option<string>)

  /** The repository `repository(schemaName)` returns. The database behind it
      is left open: each answer is an arbitrary function of the calls made
      before and of the call itself, and may be a rejection. The call log is
      the state the actions change. */
  class Repository {
    var calls: seq<RepoCall>
    const pageAnswer: (seq<RepoCall>, FindParams) -> Outcome<Page>
    const rowAnswer: (seq<RepoCall>, RepoCall) -> Outcome<Value>

    constructor (pageAnswer: (seq<RepoCall>, FindParams) -> Outcome<Page>, rowAnswer: (seq<RepoCall>, RepoCall) -> Outcome<Value>)
      ensures calls == [] && this.pageAnswer == pageAnswer && this.rowAnswer == rowAnswer
    {
      calls := [];
      this.pageAnswer := pageAnswer;
      this.rowAnswer := rowAnswer;
    }

    method Find(params: FindParams) returns (r: Outcome<Page>)
      modifies this
      ensures calls == old(calls) + [FindCall(params)]
      ensures r == pageAnswer(old(calls), params)
    {
      r := pageAnswer(calls, params);
      calls := calls + [FindCall(params)];
    }

    /** The four single-row operations share their bookkeeping. */
    method Row(call: RepoCall) returns (r: Outcome<Value>)
      modifies this
      ensures calls == old(calls) + [call]
      ensures r == rowAnswer(old(calls), call)
    {
      r := rowAnswer(calls, call);
      calls := calls + [call];
    }

    method FindOne(id: Option<string>) returns (r: Outcome<Value>)
      modifies this
      ensures calls == old(calls) + [FindOneCall(id)]
      ensures r == rowAnswer(old(calls), FindOneCall(id))
    {
      r := Row(FindOneCall(id));
    }

    method Create(data: Value) returns (r: Outcome<Value>)
      modifies this
      ensures calls == old(calls) + [CreateCall(data)]
      ensures r == rowAnswer(old(calls), CreateCall(data))
    {
      r := Row(CreateCall(data));
    }

    method Update(id: Option<string>, data: Value) returns (r: Outcome<Value>)
      modifies this
      ensures calls == old(calls) + [UpdateCall(id, data)]
      ensures r == rowAnswer(old(calls), UpdateCall(id, data))
    {
      r := Row(UpdateCall(id, data));
    }

    method Delete(id: Option<string>) returns (r: Outcome<Value>)
      modifies this
      ensures calls == old(calls) + [DeleteCall(id)]
      ensures r == rowAnswer(old(calls), DeleteCall(id))
    {
      r := Row(DeleteCall(id));
    }
  }

  // ----- requests and validators -----

  /** The parts of the request context the actions read: the query, the
      `id` route parameter and what `ctx.req.json()` settles to. */
  datatype Request = Request(query: Query, id: Option<string>, body: Outcome<Value>)

  /** The outcome of a validator's `safeParse`. */
  datatype ValidationResult = Passed(output: Value) | Failed(error: Value)

  type Validator = Value -> ValidationResult

  /** The schema's optional `validation.insert` and `validation.update`. */
  datatype Validation = Validation(insert: Option<Validator>, update: Option<Validator>)

  // ----- the specification of the actions -----

  /** The arguments `find` passes to the repository. */
  function FindParamsOf(query: Query): (p: FindParams)
    ensures p.filters == Obj([])
    ensures p.pagination == ParsePagination(query) && p.sort == ParseSort(query)
  {
    FindParams(ParseFilters(query), ParsePagination(query), ParseSort(query))
  }

  /** The reply of `find` once the repository has answered. */
  function Listed(answer: Outcome<Page>, pagination: PaginationParams, devMode: bool): (r: Response)
    ensures answer.Thrown? ==> r == HandleControllerError(answer.err, devMode)
    ensures r.status == 200 <==> answer.Normal?
    ensures answer.Normal? ==>
      && r.body.PageBody?
      && r.body.data == Arr(answer.value.data)
      && r.body.pagination.page == pagination.page
      && r.body.pagination.pageSize == pagination.pageSize
      && r.body.pagination.total == answer.value.total
  {
    match answer
    case Thrown(e) => HandleControllerError(e, devMode)
    case Normal(page) =>
      Response(200, PageBody(Arr(page.data), CreatePaginationResponse(pagination.page, pagination.pageSize, page.total)))
  }

  /** The reply of `findOne` and `delete` once the repository has answered:
      a falsy row is not found; any other row is sent with the default status. */
  function Fetched(answer: Outcome<Value>, devMode: bool): (r: Response)
    ensures answer.Thrown? ==> r == HandleControllerError(answer.err, devMode)
    ensures r.status == 404 <==> answer.Normal? && !Truthy(answer.value)
    ensures r.status == 404 ==> r.body == NotFoundBody
    ensures r.status == 200 <==> answer.Normal? && Truthy(answer.value)
    ensures r.status == 200 ==> r.body == DataBody(answer.value)
  {
    match answer
    case Thrown(e) => HandleControllerError(e, devMode)
    case Normal(row) => if !Truthy(row) then Response(404, NotFoundBody) else Response(200, DataBody(row))
  }

  /** The reply of `create` once the repository has answered. */
  function Created(answer: Outcome<Value>, devMode: bool): (r: Response)
    ensures answer.Thrown? ==> r == HandleControllerError(answer.err, devMode)
    ensures r.status == 201 <==> answer.Normal?
    ensures answer.Normal? ==> r.body == DataBody(answer.value)
  {
    match answer
    case Thrown(e) => HandleControllerError(e, devMode)
    case Normal(row) => Response(201, DataBody(row))
  }

  /** The reply of `update` once the repository has answered: a falsy row
      goes to the not-found helper with the request's id. */
  function Updated(answer: Outcome<Value>, id: Option<string>, devMode: bool): (r: Response)
    ensures answer.Thrown? ==> r == HandleControllerError(answer.err, devMode)
    ensures answer.Normal? && !Truthy(answer.value) ==> r == HandleNotFoundError(id)
    ensures r.status == 404 <==> answer.Normal? && !Truthy(answer.value)
    ensures r.status == 200 <==> answer.Normal? && Truthy(answer.value)
    ensures r.status == 200 ==> r.body == DataBody(answer.value)
  {
    match answer
    case Thrown(e) => HandleControllerError(e, devMode)
    case Normal(row) => if !Truthy(row) then HandleNotFoundError(id) else Response(200, DataBody(row))
  }

  /** How `create` and `update` treat the body before touching the repository:
      either they reply straight away, or they go on with the data. */
  datatype Admission = EarlyReply(response: Response) | Admitted(data: Value)

  /** Reading, shape-checking (always as an update) and validating the body. */
  function AdmitBody(body: Outcome<Value>, validator: Option<Validator>, devMode: bool): (a: Admission)
    ensures body.Thrown? ==> a == EarlyReply(HandleControllerError(body.err, devMode))
    ensures body.Normal? && ValidateRequestData(body.value, UpdateOp).Thrown? ==>
      a == EarlyReply(HandleControllerError(ValidateRequestData(body.value, UpdateOp).err, devMode))
    ensures body.Normal? && ValidateRequestData(body.value, UpdateOp).Normal? && ValidateRequestData(body.value, UpdateOp).value.Some? ==>
      a == EarlyReply(Response(400, ErrorBody(ValidateRequestData(body.value, UpdateOp).value.value)))
    ensures a.Admitted? <==>
      && body.Normal?
      && ValidateRequestData(body.value, UpdateOp) == Normal(None)
      && (validator.None? || validator.value(GetProp(body.value, "data").value).Passed?)
    ensures a.Admitted? ==> a.data == GetProp(body.value, "data").value
    ensures (&& body.Normal? && ValidateRequestData(body.value, UpdateOp) == Normal(None)
             && validator.Some? && validator.value(GetProp(body.value, "data").value).Failed?) ==>
      a == EarlyReply(Response(400, ValidationErrorBody(validator.value(GetProp(body.value, "data").value).error)))
  {
    match body
    case Thrown(e) => EarlyReply(HandleControllerError(e, devMode))
    case Normal(b) =>
      match ValidateRequestData(b, UpdateOp)
      case Thrown(e) => EarlyReply(HandleControllerError(e, devMode))
      case Normal(Some(info)) => EarlyReply(Response(400, ErrorBody(info)))
      case Normal(None) =>
        var data := GetProp(b, "data").value;
        if validator.Some? && validator.value(data).Failed? then
          EarlyReply(Response(400, ValidationErrorBody(validator.value(data).error)))
        else Admitted(data)
  }

  // ----- the actions -----

  /** `find`: one repository call with the parsed query, then the page of
      data with its pagination metadata. */
  method FindAction(req: Request, repo: Repository, devMode: bool) returns (res: Response)
    modifies repo
    ensures repo.calls == old(repo.calls) + [FindCall(FindParamsOf(req.query))]
    ensures res == Listed(repo.pageAnswer(old(repo.calls), FindParamsOf(req.query)), ParsePagination(req.query), devMode)
  {
    var query := req.query;
    var filters := ParseFilters(query);
    var pagination := ParsePagination(query);
    var sort := ParseSort(query);
    var answer := repo.Find(FindParams(filters, pagination, sort));
    if answer.Thrown? {
      res := HandleControllerError(answer.err, devMode);
      return;
    }
    var page := answer.value;
    res := Response(200, PageBody(Arr(page.data), CreatePaginationResponse(pagination.page, pagination.pageSize, page.total)));
  }

  /** `findOne`: one repository call with the id. */
  method FindOneAction(req: Request, repo: Repository, devMode: bool) returns (res: Response)
    modifies repo
    ensures repo.calls == old(repo.calls) + [FindOneCall(req.id)]
    ensures res == Fetched(repo.rowAnswer(old(repo.calls), FindOneCall(req.id)), devMode)
  {
    var data := repo.FindOne(req.id);
    if data.Thrown? {
      res := HandleControllerError(data.err, devMode);
      return;
    }
    if !Truthy(data.value) {
      res := Response(404, NotFoundBody);
      return;
    }
    res := Response(200, DataBody(data.value));
  }

  /** `create`: the body is admitted first; only then is the repository
      called, with the body's own `data`. */
  method CreateAction(req: Request, validation: Validation, repo: Repository, devMode: bool) returns (res: Response)
    modifies repo
    ensures var a := AdmitBody(req.body, validation.insert, devMode);
      && (a.EarlyReply? ==> res == a.response && repo.calls == old(repo.calls))
      && (a.Admitted? ==>
            && repo.calls == old(repo.calls) + [CreateCall(a.data)]
            && res == Created(repo.rowAnswer(old(repo.calls), CreateCall(a.data)), devMode))
  {
    if req.body.Thrown? {
      res := HandleControllerError(req.body.err, devMode);
      return;
    }
    var body := req.body.value;
    var validatedBody := ValidateRequestData(body, UpdateOp);
    if validatedBody.Thrown? {
      res := HandleControllerError(validatedBody.err, devMode);
      return;
    }
    if validatedBody.value.Some? {
      res := Response(400, ErrorBody(validatedBody.value.value));
      return;
    }
    var data := GetProp(body, "data").value;
    if validation.insert.Some? {
      var result := validation.insert.value(data);
      if result.Failed? {
        res := Response(400, ValidationErrorBody(result.error));
        return;
      }
    }
    var result := repo.Create(data);
    if result.Thrown? {
      res := HandleControllerError(result.err, devMode);
      return;
    }
    res := Response(201, DataBody(result.value));
  }

  /** `update`: the body is admitted first; only then is the repository
      called, with the id and the body's own `data`. */
  method UpdateAction(req: Request, validation: Validation, repo: Repository, devMode: bool) returns (res: Response)
    modifies repo
    ensures var a := AdmitBody(req.body, validation.update, devMode);
      && (a.EarlyReply? ==> res == a.response && repo.calls == old(repo.calls))
      && (a.Admitted? ==>
            && repo.calls == old(repo.calls) + [UpdateCall(req.id, a.data)]
            && res == Updated(repo.rowAnswer(old(repo.calls), UpdateCall(req.id, a.data)), req.id, devMode))
  {
    var id := req.id;
    if req.body.Thrown? {
      res := HandleControllerError(req.body.err, devMode);
      return;
    }
    var body := req.body.value;
    var validatedBody := ValidateRequestData(body, UpdateOp);
    if validatedBody.Thrown? {
      res := HandleControllerError(validatedBody.err, devMode);
      return;
    }
    if validatedBody.value.Some? {
      res := Response(400, ErrorBody(validatedBody.value.value));
      return;
    }
    var data := GetProp(body, "data").value;
    if validation.update.Some? {
      var result := validation.update.value(data);
      if result.Failed? {
        res := Response(400, ValidationErrorBody(result.error));
        return;
      }
    }
    var result := repo.Update(id, data);
    if result.Thrown? {
      res := HandleControllerError(result.err, devMode);
      return;
    }
    if !Truthy(result.value) {
      res := HandleNotFoundError(id);
      return;
    }
    res := Response(200, DataBody(result.value));
  }

  /** `delete`: the body is read (and ignored) before the repository call,
      so a body that cannot be read stops the action with no call made. */
  method DeleteAction(req: Request, repo: Repository, devMode: bool) returns (res: Response)
    modifies repo
    ensures req.body.Thrown? ==> res == HandleControllerError(req.body.err, devMode) && repo.calls == old(repo.calls)
    ensures req.body.Normal? ==>
      && repo.calls == old(repo.calls) + [DeleteCall(req.id)]
      && res == Fetched(repo.rowAnswer(old(repo.calls), DeleteCall(req.id)), devMode)
  {
    var id := req.id;
    if req.body.Thrown? {
      res := HandleControllerError(req.body.err, devMode);
      return;
    }
    var data := repo.Delete(id);
    if data.Thrown? {
      res := HandleControllerError(data.err, devMode);
      return;
    }
    if !Truthy(data.value) {
      res := Response(404, NotFoundBody);
      return;
    }
    res := Response(200, DataBody(data.value));
  }

  // ----- properties of the actions -----

  /** An early reply is a client error, a conflict or an internal error; a
      reply about the body's shape or a failed validator is a 400. */
  lemma EarlyReplyStatus(body: Outcome<Value>, validator: Option<Validator>, devMode: bool)
    ensures var a := AdmitBody(body, validator, devMode);
      a.EarlyReply? ==> a.response.status == 400 || a.response.status == 409 || a.response.status == 500
    ensures var a := AdmitBody(body, validator, devMode);
      body.Normal? && ValidateRequestData(body.value, UpdateOp).Normal? && a.EarlyReply? ==> a.response.status == 400
  {
  }

  /** `create` checks the body as an update: a body whose `data` is an empty
      object is rejected with the update wording. */
  lemma CreateReportsUpdateWording(body: Value, validator: Option<Validator>, devMode: bool)
    requires body.Obj? && Lookup(body.entries, "data") == Obj([])
    ensures AdmitBody(Normal(body), validator, devMode) ==
      EarlyReply(Response(400, ErrorBody(ErrorInfo("Validation failed", None, Some("Update data cannot be empty"), None, None))))
  {
  }

  /** The data handed on does not depend on what a passing validator outputs. */
  lemma ValidatorOutputUnused(body: Value, v1: Validator, v2: Validator, devMode: bool)
    requires body.Obj?
    requires v1(Lookup(body.entries, "data")).Passed? && v2(Lookup(body.entries, "data")).Passed?
    ensures AdmitBody(Normal(body), Some(v1), devMode) == AdmitBody(Normal(body), Some(v2), devMode)
  {
  }

  /** Without pagination keys, `find` reports page 1 of 25 and as many pages
      as hold the total. */
  lemma FindDefaultPaging(query: Query, data: seq<Value>, total: int, devMode: bool)
    requires PageKey !in query && PageSizeKey !in query && total >= 0
    ensures var r := Listed(Normal(Page(data, total)), ParsePagination(query), devMode);
      && r.status == 200
      && r.body.pagination.page == Int(1) && r.body.pagination.pageSize == Int(25)
      && r.body.pagination.pageCount.Int?
      && r.body.pagination.pageCount.n * 25 >= total
      && (total > 0 ==> (r.body.pagination.pageCount.n - 1) * 25 < total)
  {
    PageCountBounds(total, 25);
  }
}
