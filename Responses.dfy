/** The JSON envelope every backend controller answers with
    (backend/app/Http/Controllers/Controller.php): an object with exactly the
    keys statusCode, message, data and meta, or an empty 204 reply. */
module Responses {
  import opened Common

  /** A JSON value, for the free-form `meta` object. */
  datatype Value =
    | Null
    | Int(i: int)
    | Str(s: string)
    | Bool(b: bool)
    | List(items: seq<Value>)
    | Object(fields: map<string, Value>)

  type Meta = map<string, Value>

  /** The four keys of the body; `data == None` is JSON null. */
  datatype Envelope<D> = Envelope(statusCode: int, message: string, data: Option<D>, meta: Meta)

  datatype Response<D> =
    | JsonResponse(httpStatus: int, body: Envelope<D>)
    | EmptyResponse   // 204 No Content, empty body

  function Status<D>(r: Response<D>): int
  {
    if r.JsonResponse? then r.httpStatus else 204
  }

  /** The envelope invariant: the statusCode in the body is the HTTP status. */
  predicate WellFormed<D>(r: Response<D>)
  {
    r.JsonResponse? ==> r.body.statusCode == r.httpStatus
  }

  /** PHP truthiness of an optional string: null, "" and "0" are false. */
  predicate PhpTruthy(s: Option<string>)
  {
    s.Some? && s.value != "" && s.value != "0"
  }

  function Success<D>(data: Option<D>, message: string := "Success", statusCode: int := 200,
                      meta: Meta := map[]): (r: Response<D>)
    ensures WellFormed(r) && r.JsonResponse? && Status(r) == statusCode
    ensures r.body.message == message && r.body.data == data && r.body.meta == meta
  {
    JsonResponse(statusCode, Envelope(statusCode, message, data, meta))
  }

  function Created<D>(data: Option<D>, message: string := "Success", meta: Meta := map[]): (r: Response<D>)
    ensures WellFormed(r) && Status(r) == 201
    ensures r.body.message == message && r.body.data == data && r.body.meta == meta
  {
    JsonResponse(201, Envelope(201, message, data, meta))
  }

  /** The message argument is accepted and ignored. */
  function NoContent<D>(message: Option<string> := None): (r: Response<D>)
    ensures WellFormed(r) && Status(r) == 204 && r.EmptyResponse?
  {
    EmptyResponse
  }

  function Error<D>(message: string, statusCode: int := 400, data: Option<D> := None,
                    meta: Meta := map[]): (r: Response<D>)
    ensures WellFormed(r) && r.JsonResponse? && Status(r) == statusCode
    ensures r.body.message == message && r.body.data == data && r.body.meta == meta
  {
    JsonResponse(statusCode, Envelope(statusCode, message, data, meta))
  }

  function Unauthorized<D>(message: string := "Unauthorized"): (r: Response<D>)
    ensures WellFormed(r) && r.JsonResponse? && Status(r) == 401
    ensures r.body.message == message && r.body.data == None && r.body.meta == map[]
  {
    JsonResponse(401, Envelope(401, message, None, map[]))
  }

  function Forbidden<D>(message: string := "Forbidden"): (r: Response<D>)
    ensures WellFormed(r) && r.JsonResponse? && Status(r) == 403
    ensures r.body.message == message && r.body.data == None && r.body.meta == map[]
  {
    JsonResponse(403, Envelope(403, message, None, map[]))
  }

  /** An explicit message wins; otherwise "<resource> not found" for a truthy
      resource name; otherwise "Not found". */
  function NotFound<D>(message: Option<string> := None, resource: Option<string> := None): (r: Response<D>)
    ensures WellFormed(r) && r.JsonResponse? && Status(r) == 404
    ensures r.body.data == None && r.body.meta == map[]
    ensures message.Some? ==> r.body.message == message.value
    ensures message.None? && PhpTruthy(resource) ==> r.body.message == resource.value + " not found"
    ensures message.None? && !PhpTruthy(resource) ==> r.body.message == "Not found"
  {
    var text :=
      if message.Some? then message.value
      else if PhpTruthy(resource) then resource.value + " not found"
      else "Not found";
    JsonResponse(404, Envelope(404, text, None, map[]))
  }

  type Errors = map<string, seq<string>>

  function ValidationError(errors: Errors, message: string := "Validation error"): (r: Response<Errors>)
    ensures WellFormed(r) && r.JsonResponse? && Status(r) == 422
    ensures r.body.message == message && r.body.data == Some(errors) && r.body.meta == map[]
  {
    JsonResponse(422, Envelope(422, message, Some(errors), map[]))
  }

  /** A page of results. `total` and `lastPage` are None for a simple paginator,
      which has no total() or lastPage() method. */
  datatype Paginator<T> = Paginator(items: seq<T>, currentPage: int, perPage: int,
                                    total: Option<int>, lastPage: Option<int>)

  function PaginationMeta<T>(p: Paginator<T>): Meta
  {
    map[
      "current_page" := Int(p.currentPage),
      "per_page" := Int(p.perPage),
      "total" := Int(if p.total.Some? then p.total.value else |p.items|),
      "last_page" := Int(if p.lastPage.Some? then p.lastPage.value else 1)
    ]
  }

  /** The page's items with the pagination meta; `meta` is merged in last
      (array_merge), so a caller key replaces the same-named pagination key. */
  function Paginate<T>(p: Paginator<T>, message: string := "Success", meta: Meta := map[]): (r: Response<seq<T>>)
    ensures WellFormed(r) && r.JsonResponse? && Status(r) == 200
    ensures r.body.message == message && r.body.data == Some(p.items)
    ensures forall k :: k in {"current_page", "per_page", "total", "last_page"} ==> k in r.body.meta
    ensures forall k :: k in meta ==> k in r.body.meta && r.body.meta[k] == meta[k]
    ensures r.body.meta.Keys == meta.Keys + {"current_page", "per_page", "total", "last_page"}
    ensures "total" !in meta ==> r.body.meta["total"] == Int(if p.total.Some? then p.total.value else |p.items|)
    ensures "last_page" !in meta ==> r.body.meta["last_page"] == Int(if p.lastPage.Some? then p.lastPage.value else 1)
    ensures "current_page" !in meta ==> r.body.meta["current_page"] == Int(p.currentPage)
    ensures "per_page" !in meta ==> r.body.meta["per_page"] == Int(p.perPage)
  {
    JsonResponse(200, Envelope(200, message, Some(p.items), PaginationMeta(p) + meta))
  }

  /** `success` called with only the data: status 200, message "Success", empty meta. */
  lemma SuccessDefaults<D>(data: Option<D>)
    ensures Success(data) == JsonResponse(200, Envelope(200, "Success", data, map[]))
  {
  }

  /** Whatever message is passed, `noContent` gives the same empty 204 reply. */
  lemma NoContentIgnoresMessage<D>(m1: Option<string>, m2: Option<string>)
    ensures NoContent<D>(m1) == NoContent<D>(m2) && Status(NoContent<D>(m1)) == 204
  {
  }

  /** A simple paginator (no total, no last page) reports its item count and page 1. */
  lemma SimplePaginatorMeta<T>(items: seq<T>, page: int, perPage: int)
    ensures var r := Paginate(Paginator(items, page, perPage, None, None));
            r.body.meta["total"] == Int(|items|) && r.body.meta["last_page"] == Int(1)
  {
  }
}
