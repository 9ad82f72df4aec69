/** The controller's helpers (packages/unstrap/src/controller-helper.ts):
    body-shape validation, the not-found response, and the classifier that
    turns a thrown error into a 400/409/500 response, with best-effort
    extraction of the offending field from the database's message. */
module ControllerHelper {
  import opened Values
  import opened Text
  import opened Pagination

  datatype Operation = CreateOp | UpdateOp

  /** One entry of an error response's `fields` list. */
  datatype FieldError = FieldError(field: string, message: string, code: string)

  /** The record `createErrorResponse(message, options)` builds; a member the
      options leave out is `None`. */
  datatype ErrorInfo = ErrorInfo(
    message: string,
    statusCode: Option<int>,
    details: Option<string>,
    fields: Option<seq<FieldError>>,
    example: Option<Value>)

  /** A response body as the controller writes it. */
  datatype Body =
    | DataBody(data: Value)                                // { data }
    | PageBody(data: Value, pagination: PaginationMeta)   // { data, meta: { pagination } }
    | NotFoundBody                                         // { error: 'Not found' }
    | ErrorBody(info: ErrorInfo)                           // createErrorResponse(...)
    | ValidationErrorBody(error: Value)                    // createValidationErrorResponse(error)

  /** `ctx.res.json(body, status)`; the status defaults to 200. */
  datatype Response = Response(status: int, body: Body)

  // ----- validateRequestData -----

  const InvalidFormatDetails := "Request body must contain a \"data\" field"

  /** The example body attached to a missing-data error. */
  function ExampleBody(op: Operation): Value {
    var data := if op == CreateOp
      then Obj([("name", Str("John Doe")), ("email", Str("john@example.com"))])
      else Obj([("name", Str("Updated Name"))]);
    Obj([("data", data)])
  }

  /** The details of the empty-data error, worded by operation. */
  function EmptyDataDetails(op: Operation): string {
    if op == CreateOp then "Request data cannot be empty" else "Update data cannot be empty"
  }

  /** An object without own keys or an array without elements. */
  predicate EmptyContainer(v: Value) {
    (v.Obj? && |v.entries| == 0) || (v.Arr? && |v.items| == 0)
  }

  /** `validateRequestData(body, operation)`: the error to report, or `None`.
      Reading `body.data` throws when the body is `null` or `undefined`. */
  function ValidateRequestData(body: Value, op: Operation): (r: Outcome<Option<ErrorInfo>>)
    ensures r.Thrown? <==> body == Null || body == Undefined
    ensures r.Normal? ==> var data := GetProp(body, "data").value;
      && (r.value.None? <==> Truthy(data) && !EmptyContainer(data))
      && (!Truthy(data) ==> r.value == Some(ErrorInfo("Invalid request format", None, Some(InvalidFormatDetails), None, Some(ExampleBody(op)))))
      && (Truthy(data) && EmptyContainer(data) ==>
            r.value == Some(ErrorInfo("Validation failed", None,
              Some(EmptyDataDetails(op)), None, None)))
  {
    match GetProp(body, "data")
    case Thrown(e) => Thrown(e)
    case Normal(data) =>
      if !Truthy(data) then
        Normal(Some(ErrorInfo("Invalid request format", None, Some(InvalidFormatDetails), None, Some(ExampleBody(op)))))
      else if EmptyContainer(data) then
        Normal(Some(ErrorInfo("Validation failed", None,
          Some(EmptyDataDetails(op)), None, None)))
      else Normal(None)
  }

  /** The two operations attach different examples. */
  lemma ExamplesDiffer()
    ensures ExampleBody(CreateOp) != ExampleBody(UpdateOp)
  {
    var c := ExampleBody(CreateOp).entries[0].1;
    var u := ExampleBody(UpdateOp).entries[0].1;
    assert |c.entries| != |u.entries|;
  }

  // ----- handleNotFoundError -----

  /** `handleNotFoundError(ctx, id)`: 404, naming the id when it is truthy. */
  function HandleNotFoundError(id: Option<string>): (r: Response)
    ensures r.status == 404 && r.body.ErrorBody?
    ensures r.body.info.message == "Not found" && r.body.info.statusCode == Some(404)
    ensures id.Some? && id.value != "" ==> r.body.info.details == Some("Resource with id \"" + id.value + "\" not found")
    ensures !(id.Some? && id.value != "") ==> r.body.info.details == Some("Resource not found")
  {
    var details := if id.Some? && id.value != "" then "Resource with id \"" + id.value + "\" not found" else "Resource not found";
    Response(404, ErrorBody(ErrorInfo("Not found", Some(404), Some(details), None, None)))
  }

  // ----- the error predicates -----

  /** `error.message?.includes(text)`. */
  predicate MessageIncludes(e: JsError, text: string) {
    e.message.Some? && Includes(e.message.value, text)
  }

  predicate IsUniqueConstraintError(e: JsError) {
    || e.code == Some("23505")
    || e.code == Some("SQLITE_CONSTRAINT")
    || e.errno == Some(1062)
    || MessageIncludes(e, "unique constraint")
    || MessageIncludes(e, "UNIQUE constraint")
  }

  predicate IsForeignKeyError(e: JsError) {
    || e.code == Some("23503")
    || e.errno == Some(1452)
    || MessageIncludes(e, "foreign key constraint")
    || MessageIncludes(e, "FOREIGN KEY constraint")
  }

  predicate IsNotNullError(e: JsError) {
    || e.code == Some("23502")
    || e.errno == Some(1048)
    || MessageIncludes(e, "NOT NULL constraint")
  }

  // ----- extractConstraintField -----

  /** A capture pattern `<lead>([^<close>]+)<close>`, matched with ASCII case
      folding when `caseInsensitive`. */
  datatype Pattern = Pattern(lead: string, caseInsensitive: bool, close: char)

  const ColumnPattern := Pattern("column \"", true, '"')
  const FieldPattern := Pattern("field '", true, '\'')
  const BacktickPattern := Pattern("`", false, '`')
  const KeyPattern := Pattern("key '", true, '\'')

  predicate CharMatches(c: char, p: char, caseInsensitive: bool) {
    if caseInsensitive then AsciiLowerChar(c) == AsciiLowerChar(p) else c == p
  }

  /** `lead` occurs in `s` at position `i`. */
  predicate LeadAt(s: string, i: nat, lead: string, caseInsensitive: bool) {
    && i + |lead| <= |s|
    && forall k :: 0 <= k < |lead| ==> CharMatches(s[i + k], lead[k], caseInsensitive)
  }

  /** The first position at or after `i` holding `c`, or `|s|`. */
  function IndexFrom(s: string, i: nat, c: char): (j: nat)
    requires i <= |s|
    ensures i <= j <= |s|
    ensures j < |s| ==> s[j] == c
    ensures forall k :: i <= k < j ==> s[k] != c
    decreases |s| - i
  {
    if i == |s| || s[i] == c then i else IndexFrom(s, i + 1, c)
  }

  /** The capture of a match of `p` that starts at position `i`, if one does. */
  function MatchAt(s: string, i: nat, p: Pattern): (r: Option<string>)
    requires i <= |s|
    ensures r.Some? ==>
      var start := i + |p.lead|;
      && LeadAt(s, i, p.lead, p.caseInsensitive)
      && |r.value| > 0 && p.close !in r.value
      && start + |r.value| < |s|
      && s[start..start + |r.value|] == r.value
      && s[start + |r.value|] == p.close
  {
    if !LeadAt(s, i, p.lead, p.caseInsensitive) then None
    else
      var start := i + |p.lead|;
      var end := IndexFrom(s, start, p.close);
      if start < end < |s| then Some(s[start..end]) else None
  }

  /** The converse of `MatchAt`'s contract: the lead at `i`, a non-empty run
      of characters other than the closing one, then the closing character,
      is a match whose capture is that run. */
  lemma MatchAtComplete(s: string, i: nat, p: Pattern, n: nat)
    requires LeadAt(s, i, p.lead, p.caseInsensitive)
    requires 0 < n && i + |p.lead| + n < |s|
    requires p.close !in s[i + |p.lead|..i + |p.lead| + n]
    requires s[i + |p.lead| + n] == p.close
    ensures MatchAt(s, i, p) == Some(s[i + |p.lead|..i + |p.lead| + n])
  {
    var start := i + |p.lead|;
    var end := IndexFrom(s, start, p.close);
    assert end == start + n;
  }

  /** The leftmost match of `p` at or after position `i`. */
  function SearchFrom(s: string, i: nat, p: Pattern): Option<string>
    requires i <= |s|
    decreases |s| - i
  {
    match MatchAt(s, i, p)
    case Some(f) => Some(f)
    case None => if i == |s| then None else SearchFrom(s, i + 1, p)
  }

  /** `s.match(regex)`, reduced to its capture: the capture of the leftmost
      match, or `None` when there is none. */
  function Search(s: string, p: Pattern): Option<string> {
    SearchFrom(s, 0, p)
  }

  /** No position from `i` up to `j` (exclusive) starts a match. */
  predicate NoMatchBetween(s: string, i: nat, j: nat, p: Pattern)
    requires j <= |s|
  {
    forall k :: i <= k < j ==> MatchAt(s, k, p).None?
  }

  /** The search finds the leftmost match: its capture is that of the match
      at position `j`, and no earlier position matches. */
  lemma {:induction false} SearchFromLeftmost(s: string, i: nat, p: Pattern) returns (j: nat)
    requires i <= |s| && SearchFrom(s, i, p).Some?
    ensures i <= j <= |s| && MatchAt(s, j, p) == SearchFrom(s, i, p) && NoMatchBetween(s, i, j, p)
    decreases |s| - i
  {
    if MatchAt(s, i, p).Some? {
      j := i;
    } else {
      j := SearchFromLeftmost(s, i + 1, p);
    }
  }

  /** No result means that no position matches. */
  lemma {:induction false} SearchFromNone(s: string, i: nat, p: Pattern)
    requires i <= |s| && SearchFrom(s, i, p).None?
    ensures forall k :: i <= k <= |s| ==> MatchAt(s, k, p).None?
    decreases |s| - i
  {
    if i < |s| {
      SearchFromNone(s, i + 1, p);
    }
  }

  datatype ConstraintKind = Unique | ForeignKey | NotNull

  /** `getErrorInfo(errorType, field)`: the message and code for a field. */
  function GetErrorInfo(kind: ConstraintKind, field: string): (info: (string, string))
    ensures kind == Unique ==> info == ("Value for \"" + field + "\" already exists", "duplicate_entry")
    ensures kind == ForeignKey ==> info == ("Referenced " + field + " does not exist", "invalid_reference")
    ensures kind == NotNull ==> info == ("Field \"" + field + "\" is required", "required_field")
  {
    match kind
    case Unique => ("Value for \"" + field + "\" already exists", "duplicate_entry")
    case ForeignKey => ("Referenced " + field + " does not exist", "invalid_reference")
    case NotNull => ("Field \"" + field + "\" is required", "required_field")
  }

  /** The field named by a message: the first of the four patterns that
      matches anywhere decides, whatever the positions of the others. */
  function ConstraintFieldName(message: string): Option<string> {
    var column := Search(message, ColumnPattern);
    if column.Some? then column
    else
      var field := Search(message, FieldPattern);
      if field.Some? then field
      else
        var backtick := Search(message, BacktickPattern);
        if backtick.Some? then backtick
        else Search(message, KeyPattern)
  }

  /** `extractConstraintField(error, errorType)`. */
  function ExtractConstraintField(e: JsError, kind: ConstraintKind): (r: Option<seq<FieldError>>)
    ensures e.message.None? ==> r.None?
    ensures r.Some? ==>
      && e.message.Some?
      && ConstraintFieldName(e.message.value).Some?
      && var f := ConstraintFieldName(e.message.value).value;
         r.value == [FieldError(f, GetErrorInfo(kind, f).0, GetErrorInfo(kind, f).1)]
    ensures e.message.Some? && ConstraintFieldName(e.message.value).Some? ==> r.Some?
  {
    if e.message.None? then None
    else
      match ConstraintFieldName(e.message.value)
      case None => None
      case Some(f) =>
        var info := GetErrorInfo(kind, f);
        Some([FieldError(f, info.0, info.1)])
  }

  /** An extracted field is never empty; it is the capture of one of the four
      patterns and never holds that pattern's closing quote. */
  lemma ConstraintFieldShape(message: string)
    ensures ConstraintFieldName(message).Some? ==>
      var f := ConstraintFieldName(message).value;
      && |f| > 0
      && (|| (Search(message, ColumnPattern) == Some(f) && '"' !in f)
          || (Search(message, FieldPattern) == Some(f) && '\'' !in f)
          || (Search(message, BacktickPattern) == Some(f) && '`' !in f)
          || (Search(message, KeyPattern) == Some(f) && '\'' !in f))
  {
    SearchShape(message, ColumnPattern);
    SearchShape(message, FieldPattern);
    SearchShape(message, BacktickPattern);
    SearchShape(message, KeyPattern);
  }

  lemma SearchShape(s: string, p: Pattern)
    ensures Search(s, p).Some? ==> |Search(s, p).value| > 0 && p.close !in Search(s, p).value
  {
    if Search(s, p).Some? {
      var j := SearchFromLeftmost(s, 0, p);
    }
  }

  /** A message holding no double quote, no backtick and no `field '`
      names the field its `key '...'` part holds, if any. */
  lemma KeyPatternDecides(message: string)
    requires '"' !in message && '`' !in message
    requires forall i :: 0 <= i <= |message| ==> !LeadAt(message, i, FieldPattern.lead, true)
    ensures ConstraintFieldName(message) == Search(message, KeyPattern)
  {
    ClosingQuoteAbsent(message, ColumnPattern);
    ClosingQuoteAbsent(message, BacktickPattern);
    if Search(message, FieldPattern).Some? {
      var j := SearchFromLeftmost(message, 0, FieldPattern);
    }
  }

  /** A pattern whose closing quote occurs nowhere in `s` matches nowhere. */
  lemma ClosingQuoteAbsent(s: string, p: Pattern)
    requires p.close !in s
    ensures Search(s, p).None?
  {
    if Search(s, p).Some? {
      var j := SearchFromLeftmost(s, 0, p);
    }
  }

  // ----- handleControllerError -----

  /** The class an error falls in, decided in this order. */
  datatype ErrorClass = InvalidJson | Duplicate | InvalidReference | MissingField | Internal

  function Classify(e: JsError): (c: ErrorClass)
    ensures c == InvalidJson <==> e.kind == SyntaxError
    ensures c == Duplicate <==> e.kind != SyntaxError && IsUniqueConstraintError(e)
    ensures c == InvalidReference <==> e.kind != SyntaxError && !IsUniqueConstraintError(e) && IsForeignKeyError(e)
    ensures c == MissingField <==>
      e.kind != SyntaxError && !IsUniqueConstraintError(e) && !IsForeignKeyError(e) && IsNotNullError(e)
  {
    if e.kind == SyntaxError then InvalidJson
    else if IsUniqueConstraintError(e) then Duplicate
    else if IsForeignKeyError(e) then InvalidReference
    else if IsNotNullError(e) then MissingField
    else Internal
  }

  /** `error instanceof Error ? error.message : String(error)`. */
  function ErrorMessage(e: JsError): string {
    if e.kind == NotAnError then e.asString else e.message.GetOr("")
  }

  /** `handleControllerError(ctx, error)`; `devMode` stands for
      `process.env.NODE_ENV === 'development'`. */
  function HandleControllerError(e: JsError, devMode: bool): (r: Response)
    ensures r.body.ErrorBody?
    ensures r.status == 400 || r.status == 409 || r.status == 500
    ensures Classify(e) == InvalidJson ==>
      r == Response(400, ErrorBody(ErrorInfo("Invalid JSON", None, Some("Request body must be valid JSON"), None, None)))
    ensures Classify(e) == Duplicate ==>
      r == Response(409, ErrorBody(ErrorInfo("Duplicate entry", Some(409), Some("A record with this value already exists"),
                                             ExtractConstraintField(e, Unique), None)))
    ensures Classify(e) == InvalidReference ==>
      r == Response(400, ErrorBody(ErrorInfo("Invalid reference", Some(400), Some("Referenced record does not exist"),
                                             ExtractConstraintField(e, ForeignKey), None)))
    ensures Classify(e) == MissingField ==>
      r == Response(400, ErrorBody(ErrorInfo("Missing required field", Some(400), Some("A required field is missing"),
                                             ExtractConstraintField(e, NotNull), None)))
    ensures Classify(e) == Internal ==>
      r == Response(500, ErrorBody(ErrorInfo("Internal server error", Some(500),
                                             if devMode then Some(ErrorMessage(e)) else None, None, None)))
  {
    match Classify(e)
    case InvalidJson =>
      Response(400, ErrorBody(ErrorInfo("Invalid JSON", None, Some("Request body must be valid JSON"), None, None)))
    case Duplicate =>
      Response(409, ErrorBody(ErrorInfo("Duplicate entry", Some(409), Some("A record with this value already exists"),
                                        ExtractConstraintField(e, Unique), None)))
    case InvalidReference =>
      Response(400, ErrorBody(ErrorInfo("Invalid reference", Some(400), Some("Referenced record does not exist"),
                                        ExtractConstraintField(e, ForeignKey), None)))
    case MissingField =>
      Response(400, ErrorBody(ErrorInfo("Missing required field", Some(400), Some("A required field is missing"),
                                        ExtractConstraintField(e, NotNull), None)))
    case Internal =>
      Response(500, ErrorBody(ErrorInfo("Internal server error", Some(500),
                                        if devMode then Some(ErrorMessage(e)) else None, None, None)))
  }

  /** Status by class: 409 exactly for duplicates, 500 exactly for errors no
      test recognises, 400 for the rest. */
  lemma StatusByClass(e: JsError, devMode: bool)
    ensures HandleControllerError(e, devMode).status == 409 <==> Classify(e) == Duplicate
    ensures HandleControllerError(e, devMode).status == 500 <==> Classify(e) == Internal
    ensures HandleControllerError(e, devMode).status == 400 <==>
      Classify(e) in {InvalidJson, InvalidReference, MissingField}
  {
  }

  /** Any SQLite `SQLITE_CONSTRAINT` error other than a syntax error is
      reported as a duplicate, whatever constraint its message names. */
  lemma SqliteConstraintIsDuplicate(e: JsError, devMode: bool)
    requires e.kind != SyntaxError && e.code == Some("SQLITE_CONSTRAINT")
    ensures HandleControllerError(e, devMode).status == 409
    ensures HandleControllerError(e, devMode).body.info.message == "Duplicate entry"
  {
  }

  /** The generic response reveals the error message only in development mode. */
  lemma InternalDetailsOnlyInDevMode(e: JsError)
    requires Classify(e) == Internal
    ensures HandleControllerError(e, true).body.info.details == Some(ErrorMessage(e))
    ensures HandleControllerError(e, false).body.info.details == None
  {
  }
}
