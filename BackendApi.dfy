/** The detection service's client for the backend
    (yolo-service/modules/backend_client.py): configuration fallbacks, request
    headers, the multipart form of a violation upload, and the health probe. */
module BackendApi {
  import opened Common
  import opened FormEncoding

  /** BACKEND_API_URL, BACKEND_API_KEY and CAMERA_CODE in yolo-service/config.py. */
  const ConfigApiUrl := "http://localhost:8000"
  const ConfigApiKey := "test-api-key"
  const ConfigCameraCode := "CAM001"

  /** Python's `value or default` on an optional string: None and "" take the default. */
  function OrDefault(value: Option<string>, default: string): (r: string)
    ensures value.Some? && value.value != "" ==> r == value.value
    ensures value.None? || value == Some("") ==> r == default
  {
    if value.Some? && value.value != "" then value.value else default
  }

  /** A form value: the detail values the service sends are text or numbers. */
  datatype FieldValue = TextValue(s: string) | NumberValue(d: Decimal)

  /** A form value as it travels in a request body: a number as its printed text. */
  function WireText(v: FieldValue): string
  {
    match v
    case TextValue(s) => s
    case NumberValue(d) => DecimalText(d)
  }

  /** One violation detail, as the ordered items of a Python dict. */
  type Detail = seq<(string, Option<FieldValue>)>

  predicate UniqueKeys(d: Detail)
  {
    forall j, k :: 0 <= j < k < |d| ==> d[j].0 != d[k].0
  }

  const DetailsList := "violation_details"

  /** The fields one detail contributes: `violation_details[index][key]` for
      each key whose value is not None. */
  function EntryFields(index: nat, d: Detail): (m: map<string, FieldValue>)
    ensures m.Keys == set j | 0 <= j < |d| && d[j].1.Some? :: BracketKey(DetailsList, index, d[j].0)
    ensures UniqueKeys(d) ==> forall j :: 0 <= j < |d| && d[j].1.Some? ==>
      m[BracketKey(DetailsList, index, d[j].0)] == d[j].1.value
  {
    if d == [] then map[]
    else
      var init := d[..|d| - 1];
      var last := d[|d| - 1];
      var m0 := EntryFields(index, init);
      assert UniqueKeys(d) ==> UniqueKeys(init);
      var m := if last.1.Some? then m0[BracketKey(DetailsList, index, last.0) := last.1.value] else m0;
      assert UniqueKeys(d) ==> forall j :: 0 <= j < |d| && d[j].1.Some? ==>
          m[BracketKey(DetailsList, index, d[j].0)] == d[j].1.value by {
        if UniqueKeys(d) {
          forall j | 0 <= j < |d| - 1 && d[j].1.Some?
            ensures m[BracketKey(DetailsList, index, d[j].0)] == d[j].1.value
          {
            assert init[j] == d[j];
            if last.1.Some? && BracketKey(DetailsList, index, last.0) == BracketKey(DetailsList, index, d[j].0) {
              BracketKeyInjective(DetailsList, index, last.0, index, d[j].0);
            }
          }
        }
      }
      assert m.Keys == set j | 0 <= j < |d| && d[j].1.Some? :: BracketKey(DetailsList, index, d[j].0) by {
        assert forall j :: 0 <= j < |init| ==> init[j] == d[j];
      }
      m
  }

  /** The loop over `enumerate(violation_details)`: every non-None value under its
      bracketed name; None values are left out. */
  function DetailFields(details: seq<Detail>): (m: map<string, FieldValue>)
    decreases |details|
  {
    if details == [] then map[]
    else
      var n := |details| - 1;
      DetailFields(details[..n]) + EntryFields(n, details[n])
  }

  /** Every form field of the details names one present value of one detail. */
  lemma {:induction false} DetailFieldOrigin(details: seq<Detail>, key: string) returns (i: nat, j: nat)
    requires key in DetailFields(details)
    ensures i < |details| && j < |details[i]| && details[i][j].1.Some?
    ensures key == BracketKey(DetailsList, i, details[i][j].0)
  {
    var n := |details| - 1;
    var e := EntryFields(n, details[n]);
    if key in e {
      i := n;
      j :| 0 <= j < |details[n]| && details[n][j].1.Some? && key == BracketKey(DetailsList, n, details[n][j].0);
    } else {
      var init := details[..n];
      i, j := DetailFieldOrigin(init, key);
      assert init[i] == details[i];
    }
  }

  /** Every present value of every detail is sent under its bracketed name. */
  lemma {:induction false} DetailFieldCarried(details: seq<Detail>, i: nat, j: nat)
    requires forall k :: 0 <= k < |details| ==> UniqueKeys(details[k])
    requires i < |details| && j < |details[i]| && details[i][j].1.Some?
    ensures BracketKey(DetailsList, i, details[i][j].0) in DetailFields(details)
    ensures DetailFields(details)[BracketKey(DetailsList, i, details[i][j].0)] == details[i][j].1.value
  {
    var n := |details| - 1;
    var init := details[..n];
    var e := EntryFields(n, details[n]);
    var key := BracketKey(DetailsList, i, details[i][j].0);
    if i == n {
      assert key in e;
    } else {
      assert init[i] == details[i];
      DetailFieldCarried(init, i, j);
      if key in e {
        var k :| 0 <= k < |details[n]| && details[n][k].1.Some? && BracketKey(DetailsList, n, details[n][k].0) == key;
        BracketKeyInjective(DetailsList, n, details[n][k].0, i, details[i][j].0);
      }
    }
  }

  /** No detail field is a plain, unbracketed name such as camera_code or notes. */
  lemma DetailFieldsArePlainFree(details: seq<Detail>, plain: string)
    requires '[' !in plain
    ensures plain !in DetailFields(details)
  {
    if plain in DetailFields(details) {
      var i, j := DetailFieldOrigin(details, plain);
      BracketKeyNotPlain(DetailsList, i, details[i][j].0, plain);
    }
  }

  /** The form data of `submit_violation`: camera_code always, notes when not
      None, then the flattened details, none of which clashes with the first two. */
  function FormData(cameraCode: string, notes: Option<string>, details: seq<Detail>): (data: map<string, FieldValue>)
    ensures "camera_code" in data && data["camera_code"] == TextValue(cameraCode)
    ensures "notes" in data <==> notes.Some?
    ensures notes.Some? ==> data["notes"] == TextValue(notes.value)
    ensures forall key :: key in data <==> key == "camera_code" || (key == "notes" && notes.Some?) || key in DetailFields(details)
    ensures forall key :: key in DetailFields(details) ==> data[key] == DetailFields(details)[key]
  {
    var base := map["camera_code" := TextValue(cameraCode)];
    var withNotes := if notes.Some? then base["notes" := TextValue(notes.value)] else base;
    var fields := DetailFields(details);
    DetailFieldsArePlainFree(details, "camera_code");
    DetailFieldsArePlainFree(details, "notes");
    withNotes + fields
  }

  /** `image_path.split("/")[-1]`: the text after the last '/'. */
  function UploadName(imagePath: string): (name: string)
    ensures '/' !in name
    ensures '/' !in imagePath ==> name == imagePath
  {
    LastPart(imagePath, '/')
  }

  /** The `data` member of a JSON object body: absent, an object, or any other value. */
  datatype DataMember = NoData | ObjectData | OtherData

  /** A reply body as `response.json()` reads it: not JSON, a JSON value that
      is not an object (a list, a string, a number, null), or an object. */
  datatype Body = NotJson | JsonNonObject | JsonObject(data: DataMember)

  /** What a call to the backend produced: an HTTP reply with its body, or a
      transport failure. */
  datatype Reply = HttpReply(status: int, body: Body) | TransportError

  /** Whether the success log's `result.get('data', {}).get('id')` can be
      evaluated: the body is an object, and its `data`, when present, is an
      object too. */
  predicate IdReadable(body: Body)
  {
    body.JsonObject? && !body.data.OtherData?
  }

  /** The POST /api/violations request the client sends. */
  datatype Upload = Upload(path: string, fileName: string, contentType: string,
                           data: map<string, FieldValue>)

  /** The exception `submit_violation` re-raises. BodyNotJson is the decoding
      error of `response.json()`; BodyNotObject is the AttributeError of calling
      `.get` on a body, or on its `data`, that is not an object. */
  datatype SubmitError = FileNotFound | HttpStatusError(status: int) | RequestFailed | BodyNotJson | BodyNotObject

  datatype SubmitOutcome = Submitted(upload: Upload, status: int) | Raised(error: SubmitError)

  class BackendClient {
    const apiUrl: string
    const apiKey: string
    const cameraCode: string
    /** File handles the client holds open. */
    var openFiles: nat

    constructor (apiUrlArg: Option<string>, apiKeyArg: Option<string>, cameraCodeArg: Option<string>)
      ensures apiUrl == OrDefault(apiUrlArg, ConfigApiUrl)
      ensures apiKey == OrDefault(apiKeyArg, ConfigApiKey)
      ensures cameraCode == OrDefault(cameraCodeArg, ConfigCameraCode)
      ensures openFiles == 0
    {
      apiUrl := OrDefault(apiUrlArg, ConfigApiUrl);
      apiKey := OrDefault(apiKeyArg, ConfigApiKey);
      cameraCode := OrDefault(cameraCodeArg, ConfigCameraCode);
      openFiles := 0;
    }

    /** `_get_headers`: JSON accepted always; the API key only when non-empty. */
    function Headers(): (h: map<string, string>)
      reads this
      ensures "Accept" in h && h["Accept"] == "application/json"
      ensures "X-API-Key" in h <==> apiKey != ""
      ensures "X-API-Key" in h ==> h["X-API-Key"] == apiKey
      ensures h.Keys <= {"Accept", "X-API-Key"}
    {
      var h := map["Accept" := "application/json"];
      if apiKey != "" then h["X-API-Key" := apiKey] else h
    }

    /** `submit_violation`: the image is opened, the form is posted, and a
        non-2xx reply, a body that is not JSON, a body or `data` member
        that is not an object, or a failure is raised; the file is closed on
        every path. */
    method SubmitViolation(imagePath: string, details: seq<Detail>, notes: Option<string>,
                           fileExists: bool, reply: Reply) returns (r: SubmitOutcome)
      modifies this
      ensures openFiles == old(openFiles)
      ensures !fileExists ==> r == Raised(FileNotFound)
      ensures fileExists && reply.TransportError? ==> r == Raised(RequestFailed)
      ensures fileExists && reply.HttpReply? && !(200 <= reply.status < 300) ==>
        r == Raised(HttpStatusError(reply.status))
      ensures fileExists && reply.HttpReply? && 200 <= reply.status < 300 && reply.body.NotJson? ==>
        r == Raised(BodyNotJson)
      ensures fileExists && reply.HttpReply? && 200 <= reply.status < 300 && !reply.body.NotJson? && !IdReadable(reply.body) ==>
        r == Raised(BodyNotObject)
      ensures fileExists && reply.HttpReply? && 200 <= reply.status < 300 && IdReadable(reply.body) ==>
        r == Submitted(Upload("/api/violations", UploadName(imagePath), "image/jpeg",
                              FormData(cameraCode, notes, details)), reply.status)
    {
      if !fileExists {
        return Raised(FileNotFound);
      }
      openFiles := openFiles + 1;
      var upload := Upload("/api/violations", UploadName(imagePath), "image/jpeg",
                           FormData(cameraCode, notes, details));
      match reply {
        case TransportError =>
          r := Raised(RequestFailed);
        case HttpReply(status, body) =>
          if 200 <= status < 300 {
            r := if body.NotJson? then Raised(BodyNotJson)
                 else if !IdReadable(body) then Raised(BodyNotObject)
                 else Submitted(upload, status);
          } else {
            r := Raised(HttpStatusError(status));
          }
      }
      openFiles := openFiles - 1;
    }
  }

  /** `health_check`: healthy only on exactly 200; any failure counts as unhealthy. */
  function HealthCheck(reply: Reply): (healthy: bool)
    ensures healthy <==> reply.HttpReply? && reply.status == 200
  {
    match reply
    case HttpReply(status, _) => status == 200
    case TransportError => false
  }

  /** A file under a directory uploads under its own name. */
  lemma UploadNameOfPath(dir: string, name: string)
    requires '/' !in name
    ensures UploadName(dir + "/" + name) == name
  {
    LastPartAfter(dir, name, '/');
  }
}
