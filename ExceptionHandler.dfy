/** The backend's exception renderer (backend/app/Exceptions/Handler.php):
    which requests get a JSON envelope, and which status code, message and
    data an exception turns into. */
module ExceptionHandler {
  import opened Common
  import opened Responses

  /** The exception classes the handler distinguishes. A model-not-found
      exception carries the model's fully qualified class name; a
      NotFoundHttpException may wrap a previous exception. */
  datatype Throwable =
    | AuthenticationException(message: string)
    | AccessDeniedHttpException(message: string)
    | ModelNotFoundException(model: string, message: string)
    | NotFoundHttpException(message: string, previous: Option<Throwable>)
    | ValidationException(message: string, errors: Errors)
    | HttpException(code: int, message: string)
    | OtherException(message: string)

  /** What `render` learns from the request. `None` stands for a call that throws. */
  datatype Request = Request(hasRoute: bool, isApiPath: Option<bool>, expectsJson: Option<bool>,
                             parentRenderSucceeds: bool)

  datatype Rendered = ApiJson(response: Response<Errors>) | FrameworkPage

  /** class_basename: the class name without its namespace. */
  function ClassBasename(name: string): (base: string)
    ensures '\\' !in base
    ensures '\\' !in name ==> base == name
  {
    var parts := Split(name, '\\');
    if '\\' !in name then
      assert Join(parts, '\\') == name by { JoinSplit(name, '\\'); }
      SplitWithoutSep(name, '\\');
      parts[0]
    else parts[|parts| - 1]
  }

  /** The base name is the text after the last namespace separator. */
  lemma ClassBasenameLast(prefix: string, base: string)
    requires '\\' !in base
    ensures ClassBasename(prefix + ['\\'] + base) == base
  {
    SplitConcat(prefix, base, '\\');
    SplitWithoutSep(base, '\\');
    assert '\\' in prefix + ['\\'] + base by { assert (prefix + ['\\'] + base)[|prefix|] == '\\'; }
  }

  /** First match wins, in the order of the `match (true)` arms. */
  function StatusCodeOf(e: Throwable): int
  {
    match e
    case AuthenticationException(_) => 401
    case AccessDeniedHttpException(_) => 403
    case ModelNotFoundException(_, _) => 404
    case NotFoundHttpException(_, _) => 404
    case ValidationException(_, _) => 422
    case HttpException(code, _) => code
    case OtherException(_) => 500
  }

  function DefaultMessage(statusCode: int): (m: string)
    ensures m != ""
  {
    match statusCode
    case 401 => "Unauthenticated"
    case 403 => "Access denied"
    case 404 => "Not found"
    case 422 => "The given data was invalid"
    case 500 => "Internal server error"
    case _ => "An error occurred"
  }

  function MessageOf(e: Throwable): string
  {
    match e
    case AuthenticationException(m) => m
    case AccessDeniedHttpException(m) => m
    case ModelNotFoundException(_, m) => m
    case NotFoundHttpException(m, _) => m
    case ValidationException(m, _) => m
    case HttpException(_, m) => m
    case OtherException(m) => m
  }

  predicate WrapsModelNotFound(e: Throwable)
  {
    e.NotFoundHttpException? && e.previous.Some? && e.previous.value.ModelNotFoundException?
  }

  function RenderApiException(e: Throwable): (r: Response<Errors>)
    ensures WellFormed(r) && r.JsonResponse? && Status(r) == StatusCodeOf(e)
    ensures r.body.meta == map[]
    ensures r.body.data.Some? <==> e.ValidationException?
    ensures e.ValidationException? ==> r.body.data == Some(e.errors)
    ensures r.body.message != ""
  {
    var code := StatusCodeOf(e);
    var message :=
      if WrapsModelNotFound(e) then ClassBasename(e.previous.value.model) + " not found"
      else if e.ModelNotFoundException? then ClassBasename(e.model) + " not found"
      else if PhpTruthy(Some(MessageOf(e))) then MessageOf(e)
      else DefaultMessage(code);
    var data := if e.ValidationException? then Some(e.errors) else None;
    JsonResponse(code, Envelope(code, message, data, map[]))
  }

  /** True when the request takes the JSON path before the framework renderer is tried. */
  predicate JsonRequested(req: Request)
  {
    var isApi := !req.hasRoute || req.isApiPath != Some(false);
    isApi || req.expectsJson == Some(true)
  }

  function Render(req: Request, e: Throwable): (r: Rendered)
    ensures r.ApiJson? ==> r.response == RenderApiException(e)
  {
    if JsonRequested(req) then ApiJson(RenderApiException(e))
    else if req.parentRenderSucceeds then FrameworkPage
    else ApiJson(RenderApiException(e))
  }

  // ---------------------------------------------------------------------
  // Properties

  /** The JSON envelope is chosen exactly when there is no route, the path is
      under api/, `is()` throws, the client expects JSON, or the framework
      renderer throws. */
  lemma JsonPathChoice(req: Request, e: Throwable)
    ensures Render(req, e).ApiJson? <==>
      (!req.hasRoute || req.isApiPath == Some(true) || req.isApiPath.None?
       || req.expectsJson == Some(true) || !req.parentRenderSucceeds)
  {
    match req.isApiPath
    case None =>
    case Some(b) =>
  }

  /** The status mapping: the fixed codes for the dedicated classes, the
      exception's own code for any other HttpException, 500 otherwise. */
  lemma StatusCodeTable(e: Throwable)
    ensures StatusCodeOf(e) == 401 <== e.AuthenticationException?
    ensures StatusCodeOf(e) == 403 <== e.AccessDeniedHttpException?
    ensures StatusCodeOf(e) == 404 <== e.ModelNotFoundException? || e.NotFoundHttpException?
    ensures StatusCodeOf(e) == 422 <== e.ValidationException?
    ensures e.HttpException? ==> StatusCodeOf(e) == e.code
    ensures e.OtherException? ==> StatusCodeOf(e) == 500
  {
  }

  /** An exception with a falsy message ("" or "0") gets the default text for
      its status code, unless it is (or wraps) a model-not-found exception. */
  lemma {:induction false} EmptyMessageGetsDefault(e: Throwable)
    requires (MessageOf(e) == "" || MessageOf(e) == "0") && !e.ModelNotFoundException? && !WrapsModelNotFound(e)
    ensures RenderApiException(e).body.message == DefaultMessage(StatusCodeOf(e))
  {
  }

  /** A truthy message of an ordinary exception is passed through unchanged. */
  lemma OwnMessageKept(e: Throwable)
    requires MessageOf(e) != "" && MessageOf(e) != "0" && !e.ModelNotFoundException? && !WrapsModelNotFound(e)
    ensures RenderApiException(e).body.message == MessageOf(e)
  {
  }

  /** A missing model, thrown directly or converted to a 404 HTTP exception,
      reads "<Model> not found" with the namespace stripped. */
  lemma ModelNotFoundMessage(model: string, m1: string, m2: string)
    ensures RenderApiException(ModelNotFoundException(model, m1)).body.message
         == ClassBasename(model) + " not found"
    ensures RenderApiException(NotFoundHttpException(m2, Some(ModelNotFoundException(model, m1)))).body.message
         == ClassBasename(model) + " not found"
    ensures Status(RenderApiException(NotFoundHttpException(m2, Some(ModelNotFoundException(model, m1))))) == 404
  {
  }

  /** The default table: the five known codes, and one fallback text for the rest. */
  lemma DefaultMessageFallback(code: int)
    requires code !in {401, 403, 404, 422, 500}
    ensures DefaultMessage(code) == "An error occurred"
  {
  }
}
