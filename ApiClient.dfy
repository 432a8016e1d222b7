/** The dashboard's axios client (frontend/src/api/rest/client.ts): the base
    URL, the request interceptor that attaches the bearer token, the response
    interceptor that signs out on 401, and the multipart form of a new
    violation. */
module ApiClient {
  import opened Common
  import opened FormEncoding
  import AuthStore
  import RestApi
  import FormRequests
  import BackendApi

  const DefaultBaseUrl := "http://localhost:8000"
  const LoginPath := "/login"

  /** `(VITE_BASE_API_URL || default) + "/api"`: an unset or empty variable
      takes the default. */
  function BaseUrl(env: Option<string>): (url: string)
    ensures env.Some? && env.value != "" ==> url == env.value + "/api"
    ensures env.None? || env == Some("") ==> url == DefaultBaseUrl + "/api"
  {
    (if env.Some? && env.value != "" then env.value else DefaultBaseUrl) + "/api"
  }

  const DefaultHeaders: map<string, string> :=
    map["Content-Type" := "application/json", "Accept" := "application/json"]

  /** The request interceptor: a truthy token becomes the Authorization
      header; otherwise the request goes out as it was. */
  function AuthorizeRequest(headers: map<string, string>, token: Option<string>): (h: map<string, string>)
    ensures Truthy(token) ==> "Authorization" in h && h["Authorization"] == "Bearer " + token.value
    ensures Truthy(token) ==> forall k :: k in headers && k != "Authorization" ==> k in h && h[k] == headers[k]
    ensures Truthy(token) ==> h.Keys == headers.Keys + {"Authorization"}
    ensures !Truthy(token) ==> h == headers
  {
    if Truthy(token) then headers["Authorization" := "Bearer " + token.value] else headers
  }

  /** On the client's own headers the Authorization header is present exactly
      when the token is truthy, and then it carries that token. */
  lemma AuthorizationIffToken(token: Option<string>)
    ensures "Authorization" in AuthorizeRequest(DefaultHeaders, token) <==> Truthy(token)
  {
    assert "Authorization" !in DefaultHeaders by {
      assert "Authorization"[0] != "Content-Type"[0] && "Authorization"[0] != "Accept"[1];
      assert |"Authorization"| != |"Accept"|;
    }
  }

  /** The browser's current location. */
  class Location {
    var pathname: string
    constructor (path: string)
      ensures pathname == path
    {
      pathname := path;
    }
  }

  /** The response interceptor's error path: a 401 away from the login page
      signs out and goes to the login page; the error is always rejected to
      the caller, unchanged. */
  method RejectResponseError(store: AuthStore.Store, location: Location, error: RestApi.ApiError)
    returns (rejected: RestApi.ApiError)
    modifies store, location
    ensures rejected == error
    ensures error.status == Some(401) && old(location.pathname) != LoginPath ==>
      store.token.None? && !store.isAuthenticated && store.user.None? && location.pathname == LoginPath
    ensures !(error.status == Some(401) && old(location.pathname) != LoginPath) ==>
      store.token == old(store.token) && store.isAuthenticated == old(store.isAuthenticated)
      && store.user == old(store.user) && location.pathname == old(location.pathname)
  {
    if error.status == Some(401) && location.pathname != LoginPath {
      store.Logout();
      location.pathname := LoginPath;
    }
    return error;
  }

  // ---------------------------------------------------------------------
  // violationsApi.create

  /** The uploaded image as the backend's validator sees it. */
  datatype ImageFile = ImageFile(isImage: bool, extension: string, kilobytes: int)

  /** One element of `ViolationStoreRequest.violation_details`. */
  datatype DetailRequest = DetailRequest(violationCode: string, confidenceScore: Option<Decimal>, additionalInfo: Option<string>)

  datatype StoreRequest = StoreRequest(image: ImageFile, cameraCode: string, notes: Option<string>,
                                       details: seq<DetailRequest>)

  /** A FormData entry value: a file, or a field value (numbers travel as text). */
  datatype Part = FilePart(file: ImageFile) | FieldPart(value: BackendApi.FieldValue)

  /** FormData: its entries in append order. */
  type Form = seq<(string, Part)>

  /** The input one form entry becomes: an uploaded file, or the text of a field. */
  function PartInput(p: Part): (v: FormRequests.Input)
    ensures p.FilePart? <==> v.Upload?
    ensures p.FieldPart? ==> v == FormRequests.Text(BackendApi.WireText(p.value))
  {
    match p
    case FilePart(f) => FormRequests.Upload(f.isImage, f.extension, f.kilobytes)
    case FieldPart(v) => FormRequests.Text(BackendApi.WireText(v))
  }

  /** What the backend's request parser makes of the plain (unbracketed)
      entries of a form: one input per name, a later entry replacing an
      earlier one of the same name, so the last entry of each name wins. */
  function ReceivedInput(form: Form): (input: map<string, FormRequests.Input>)
    ensures forall name :: name in input <==> exists k :: 0 <= k < |form| && form[k].0 == name
    ensures form != [] && form[|form| - 1].1.FieldPart? ==>
      input[form[|form| - 1].0] == FormRequests.Text(BackendApi.WireText(form[|form| - 1].1.value))
  {
    if form == [] then map[]
    else
      var init := form[..|form| - 1];
      var last := form[|form| - 1];
      assert forall k :: 0 <= k < |init| ==> init[k] == form[k];
      ReceivedInput(init)[last.0 := PartInput(last.1)]
  }

  /** For every name, the input holds what the last entry of that name carried. */
  lemma {:induction false} LastEntryWins(form: Form, k: nat)
    requires k < |form| && forall j :: k < j < |form| ==> form[j].0 != form[k].0
    ensures form[k].0 in ReceivedInput(form) && ReceivedInput(form)[form[k].0] == PartInput(form[k].1)
  {
    if k < |form| - 1 {
      var init := form[..|form| - 1];
      assert init[k] == form[k];
      LastEntryWins(init, k);
    }
  }

  /** The first entries of a create form: the image, the camera code, then
      the notes only when they are truthy. */
  function HeadParts(data: StoreRequest): (form: Form)
    ensures |form| >= 2 && form[0] == ("image", FilePart(data.image))
    ensures form[1] == ("camera_code", FieldPart(BackendApi.TextValue(data.cameraCode)))
    ensures |form| == 3 <==> Truthy(data.notes)
    ensures |form| == 2 || |form| == 3
    ensures Truthy(data.notes) ==> form[2] == ("notes", FieldPart(BackendApi.TextValue(data.notes.value)))
  {
    [("image", FilePart(data.image)), ("camera_code", FieldPart(BackendApi.TextValue(data.cameraCode)))]
    + (if Truthy(data.notes) then [("notes", FieldPart(BackendApi.TextValue(data.notes.value)))] else [])
  }

  /** The form as `violationsApi.create` builds it: the details leave as one
      entry holding their JSON text (`json` stands for `JSON.stringify` of
      them, which the model does not compute). */
  function CreateFormAsWritten(data: StoreRequest, json: string): (form: Form)
    ensures |form| == |HeadParts(data)| + 1
    ensures form[..|form| - 1] == HeadParts(data)
    ensures form[|form| - 1] == (BackendApi.DetailsList, FieldPart(BackendApi.TextValue(json)))
  {
    HeadParts(data) + [(BackendApi.DetailsList, FieldPart(BackendApi.TextValue(json)))]
  }

  /** The backend receives the details of that form as text, not as an array,
      so the store request is refused for every payload. */
  lemma AsWrittenRejected(data: StoreRequest, json: string, cameraCodes: set<string>, typeCodes: set<string>)
    ensures !FormRequests.Passes(FormRequests.ViolationStoreRules(cameraCodes, typeCodes),
                                 ReceivedInput(CreateFormAsWritten(data, json)))
  {
    var input := ReceivedInput(CreateFormAsWritten(data, json));
    assert input[BackendApi.DetailsList] == FormRequests.Text(json);
    FormRequests.DetailsAsTextRejected(input, cameraCodes, typeCodes);
  }

  /** One detail as the ordered fields of a dictionary, absent optional
      fields as None. */
  function DetailOf(d: DetailRequest): (e: BackendApi.Detail)
    ensures BackendApi.UniqueKeys(e)
    ensures |e| == 3 && e[0] == ("violation_code", Some(BackendApi.TextValue(d.violationCode)))
  {
    [("violation_code", Some(BackendApi.TextValue(d.violationCode))),
     ("confidence_score", if d.confidenceScore.Some? then Some(BackendApi.NumberValue(d.confidenceScore.value)) else None),
     ("additional_info", if d.additionalInfo.Some? then Some(BackendApi.TextValue(d.additionalInfo.value)) else None)]
  }

  function DetailsOf(details: seq<DetailRequest>): (ds: seq<BackendApi.Detail>)
    ensures |ds| == |details|
    ensures forall i :: 0 <= i < |details| ==> ds[i] == DetailOf(details[i])
  {
    seq(|details|, i requires 0 <= i < |details| => DetailOf(details[i]))
  }

  /** The entries one detail contributes in bracket notation, present fields only. */
  function EntryParts(index: nat, d: BackendApi.Detail): (form: Form)
    ensures forall k :: 0 <= k < |form| ==> '[' in form[k].0 && form[k].1.FieldPart?
  {
    if d == [] then []
    else
      var last := d[|d| - 1];
      var key := BracketKey(BackendApi.DetailsList, index, last.0);
      assert key[|BackendApi.DetailsList|] == '[';
      EntryParts(index, d[..|d| - 1])
      + (if last.1.Some? then [(key, FieldPart(last.1.value))] else [])
  }

  function DetailParts(details: seq<BackendApi.Detail>): (form: Form)
    ensures forall k :: 0 <= k < |form| ==> '[' in form[k].0 && form[k].1.FieldPart?
  {
    if details == [] then []
    else DetailParts(details[..|details| - 1]) + EntryParts(|details| - 1, details[|details| - 1])
  }

  /** The field entries of a form as a map, a later entry replacing an
      earlier one of the same name. */
  function FieldMap(form: Form): (m: map<string, BackendApi.FieldValue>)
  {
    if form == [] then map[]
    else
      var last := form[|form| - 1];
      var m0 := FieldMap(form[..|form| - 1]);
      if last.1.FieldPart? then m0[last.0 := last.1.value] else m0 - {last.0}
  }

  lemma {:induction false} FieldMapConcat(a: Form, b: Form)
    requires forall k :: 0 <= k < |b| ==> b[k].1.FieldPart?
    ensures FieldMap(a + b) == FieldMap(a) + FieldMap(b)
    decreases |b|
  {
    if b != [] {
      var init := b[..|b| - 1];
      var last := b[|b| - 1];
      assert (a + b)[..|a + b| - 1] == a + init;
      assert (a + b)[|a + b| - 1] == last;
      FieldMapConcat(a, init);
      assert FieldMap(a + b) == (FieldMap(a) + FieldMap(init))[last.0 := last.1.value];
      assert FieldMap(b) == FieldMap(init)[last.0 := last.1.value];
    } else {
      assert a + b == a;
    }
  }

  lemma {:induction false} EntryPartsFields(index: nat, d: BackendApi.Detail)
    ensures FieldMap(EntryParts(index, d)) == BackendApi.EntryFields(index, d)
  {
    if d != [] {
      var init := d[..|d| - 1];
      var last := d[|d| - 1];
      EntryPartsFields(index, init);
      var tail: Form := if last.1.Some? then [(BracketKey(BackendApi.DetailsList, index, last.0), FieldPart(last.1.value))] else [];
      FieldMapConcat(EntryParts(index, init), tail);
      if last.1.Some? {
        assert tail[..0] == [];
      }
    }
  }

  /** The bracket entries carry, name for name and value for value, the
      fields the detection service's client sends for the same details. */
  lemma {:induction false} DetailPartsFields(details: seq<BackendApi.Detail>)
    ensures FieldMap(DetailParts(details)) == BackendApi.DetailFields(details)
  {
    if details != [] {
      var n := |details| - 1;
      DetailPartsFields(details[..n]);
      EntryPartsFields(n, details[n]);
      FieldMapConcat(DetailParts(details[..n]), EntryParts(n, details[n]));
    }
  }

  lemma CorrectedTail(head: Form, tail: Form)
    requires forall k :: 0 <= k < |tail| ==> '[' in tail[k].0 && tail[k].1.FieldPart?
    ensures (head + tail)[..|head|] == head && (head + tail)[|head|..] == tail
    ensures forall k :: |head| <= k < |head + tail| ==>
      (head + tail)[k].0 != BackendApi.DetailsList && (head + tail)[k].1.FieldPart?
  {
    assert '[' !in BackendApi.DetailsList;
    forall k | |head| <= k < |head + tail|
      ensures (head + tail)[k].0 != BackendApi.DetailsList && (head + tail)[k].1.FieldPart?
    {
      assert (head + tail)[k] == tail[k - |head|];
    }
  }

  /** The corrected form: the details travel as an array in bracket
      notation (`violation_details[i][field]`), the form the backend's
      validator reads as a list of records and the one the detection
      service's client already sends. No entry is a plain
      `violation_details` text, and the bracket entries match that client's
      fields exactly. */
  function CreateFormCorrected(data: StoreRequest): (form: Form)
    ensures |form| >= |HeadParts(data)|
    ensures form[..|HeadParts(data)|] == HeadParts(data)
    ensures forall k :: |HeadParts(data)| <= k < |form| ==> form[k].0 != BackendApi.DetailsList && form[k].1.FieldPart?
    ensures FieldMap(form[|HeadParts(data)|..]) == BackendApi.DetailFields(DetailsOf(data.details))
  {
    var head := HeadParts(data);
    var ds := DetailsOf(data.details);
    var tail := DetailParts(ds);
    DetailPartsFields(ds);
    CorrectedTail(head, tail);
    var form := head + tail;
    assert FieldMap(form[|head|..]) == BackendApi.DetailFields(ds);
    form
  }

  /** In the corrected form every detail's violation code is sent under its
      own bracketed name. */
  lemma CorrectedCarriesCodes(data: StoreRequest, i: nat)
    requires i < |data.details|
    ensures var rest := CreateFormCorrected(data)[|HeadParts(data)|..];
      var key := BracketKey(BackendApi.DetailsList, i, "violation_code");
      key in FieldMap(rest) && FieldMap(rest)[key] == BackendApi.TextValue(data.details[i].violationCode)
  {
    var ds := DetailsOf(data.details);
    forall k | 0 <= k < |ds| ensures BackendApi.UniqueKeys(ds[k]) { }
    BackendApi.DetailFieldCarried(ds, i, 0);
  }
}
