/** The violation endpoints (backend/app/Http/Controllers/ViolationController.php):
    the listing filter and its defaults, creation of a violation with one
    detail per submitted entry, the status update, and deletion. */
module Violations {
  import opened Common
  import opened Responses
  import ExceptionHandler
  import opened PhpNumeric

  datatype ViolationStatus = Pending | Reviewed | Resolved

  datatype DetailStatus = Unverified | Confirmed | Dismissed

  function ViolationStatusName(s: ViolationStatus): string
  {
    match s
    case Pending => "pending"
    case Reviewed => "reviewed"
    case Resolved => "resolved"
  }

  /** The `in_array($status, ['pending', 'reviewed', 'resolved'])` whitelist. */
  function ParseViolationStatus(name: string): (s: Option<ViolationStatus>)
    ensures s.Some? <==> name in {"pending", "reviewed", "resolved"}
    ensures s.Some? ==> ViolationStatusName(s.value) == name
  {
    if name == "pending" then Some(Pending)
    else if name == "reviewed" then Some(Reviewed)
    else if name == "resolved" then Some(Resolved)
    else None
  }

  datatype Violation = Violation(id: nat, cameraId: int, imagePath: string,
                                 status: ViolationStatus, notes: Option<string>)

  datatype Detail = Detail(id: nat, violationId: nat, violationTypeId: int, confidenceScore: Option<real>,
                           additionalInfo: Option<string>, status: DetailStatus)

  /** One validated entry of `violation_details`. */
  datatype DetailInput = DetailInput(violationCode: string, confidenceScore: Option<real>,
                                     additionalInfo: Option<string>)

  // ---------------------------------------------------------------------
  // Listing

  datatype ListQuery = ListQuery(perPage: int, status: Option<ViolationStatus>, sortBy: string, sortOrder: string)

  /** The listing parameters read from the query string. */
  function ListQueryOf(params: map<string, string>): (q: ListQuery)
    ensures "per_page" !in params ==> q.perPage == 12
    ensures "per_page" in params ==> q.perPage == Intval(params["per_page"])
    ensures q.sortBy == (if "sort_by" in params then params["sort_by"] else "created_at")
    ensures q.sortOrder == (if "sort_order" in params then params["sort_order"] else "desc")
    ensures q.status.Some? <==> "status" in params && params["status"] in {"pending", "reviewed", "resolved"}
    ensures q.status.Some? ==> ViolationStatusName(q.status.value) == params["status"]
  {
    ListQuery(
      if "per_page" in params then Intval(params["per_page"]) else 12,
      if "status" in params then ParseViolationStatus(params["status"]) else None,
      if "sort_by" in params then params["sort_by"] else "created_at",
      if "sort_order" in params then params["sort_order"] else "desc")
  }

  /** Whether a violation is in the filtered listing. */
  predicate Listed(v: Violation, q: ListQuery)
  {
    q.status.None? || v.status == q.status.value
  }

  /** A status outside the whitelist, or none, filters nothing out; a
      whitelisted one keeps exactly the violations with that status. */
  lemma StatusFilter(params: map<string, string>, v: Violation)
    ensures !("status" in params && params["status"] in {"pending", "reviewed", "resolved"}) ==>
              Listed(v, ListQueryOf(params))
    ensures "status" in params && params["status"] in {"pending", "reviewed", "resolved"} ==>
              (Listed(v, ListQueryOf(params)) <==> ViolationStatusName(v.status) == params["status"])
  {
  }

  // ---------------------------------------------------------------------
  // Creation

  predicate AllKnown(entries: seq<DetailInput>, typeIds: map<string, int>)
  {
    forall k :: 0 <= k < |entries| ==> entries[k].violationCode in typeIds
  }

  lemma AllKnownSnoc(entries: seq<DetailInput>, i: nat, typeIds: map<string, int>)
    requires i < |entries| && AllKnown(entries[..i], typeIds) && entries[i].violationCode in typeIds
    ensures AllKnown(entries[..i + 1], typeIds)
  {
    assert entries[..i + 1] == entries[..i] + [entries[i]];
  }

  /** The detail rows `store` inserts: one per entry, in order, each
      `unverified`, until the first entry whose violation type does not exist
      (firstOrFail throws there, and the rows already inserted stay). */
  function NewDetails(violationId: nat, firstId: nat, entries: seq<DetailInput>, typeIds: map<string, int>)
    : (ds: seq<Detail>)
    decreases |entries|
    ensures |ds| <= |entries|
    ensures |ds| == |entries| <==> AllKnown(entries, typeIds)
    ensures |ds| < |entries| ==> entries[|ds|].violationCode !in typeIds
    ensures forall k :: 0 <= k < |ds| ==>
      var e := entries[k];
      && e.violationCode in typeIds
      && ds[k] == Detail(firstId + k, violationId, typeIds[e.violationCode], e.confidenceScore,
                         e.additionalInfo, Unverified)
  {
    if entries == [] then []
    else if entries[0].violationCode !in typeIds then []
    else
      var e := entries[0];
      [Detail(firstId, violationId, typeIds[e.violationCode], e.confidenceScore, e.additionalInfo, Unverified)]
        + NewDetails(violationId, firstId + 1, entries[1..], typeIds)
  }

  /** Inserting the details of a known prefix and then one more known entry. */
  lemma {:induction false} NewDetailsSnoc(violationId: nat, firstId: nat, entries: seq<DetailInput>, i: nat,
                                         typeIds: map<string, int>)
    requires i < |entries| && AllKnown(entries[..i + 1], typeIds)
    ensures NewDetails(violationId, firstId, entries[..i + 1], typeIds)
         == NewDetails(violationId, firstId, entries[..i], typeIds)
            + [Detail(firstId + i, violationId, typeIds[entries[i].violationCode], entries[i].confidenceScore,
                      entries[i].additionalInfo, Unverified)]
  {
    var a := NewDetails(violationId, firstId, entries[..i + 1], typeIds);
    var b := NewDetails(violationId, firstId, entries[..i], typeIds);
    AllKnownPrefix(entries, i, typeIds);
    assert |a| == i + 1 && |b| == i;
    forall k | 0 <= k < i ensures a[k] == b[k] {
      assert entries[..i + 1][k] == entries[..i][k];
    }
    assert entries[..i + 1][i] == entries[i];
    SnocOfPointwise(a, b);
  }

  lemma AllKnownPrefix(entries: seq<DetailInput>, i: nat, typeIds: map<string, int>)
    requires i < |entries| && AllKnown(entries[..i + 1], typeIds)
    ensures AllKnown(entries[..i], typeIds)
  {
    forall k | 0 <= k < i ensures entries[..i][k].violationCode in typeIds {
      assert entries[..i][k] == entries[..i + 1][k];
    }
  }

  /** A sequence one longer than another and agreeing with it on its indices extends it. */
  lemma SnocOfPointwise(a: seq<Detail>, b: seq<Detail>)
    requires |a| == |b| + 1 && forall k :: 0 <= k < |b| ==> a[k] == b[k]
    ensures a == b + [a[|b|]]
  {
  }

  /** When entry i is the first unknown one, the inserted rows are those of the prefix before it. */
  lemma {:induction false} NewDetailsStop(violationId: nat, firstId: nat, entries: seq<DetailInput>, i: nat,
                                         typeIds: map<string, int>)
    requires i < |entries| && AllKnown(entries[..i], typeIds) && entries[i].violationCode !in typeIds
    ensures NewDetails(violationId, firstId, entries, typeIds) == NewDetails(violationId, firstId, entries[..i], typeIds)
  {
    var a := NewDetails(violationId, firstId, entries, typeIds);
    var b := NewDetails(violationId, firstId, entries[..i], typeIds);
    assert |b| == i;
    forall k | 0 <= k < i ensures a[k] == b[k] {
      assert entries[..i][k] == entries[k];
    }
  }

  function ViolationId(x: Violation): nat { x.id }

  /** The `notes` key of a validated status update. */
  datatype NotesPatch = NotesAbsent | NotesNull | NotesText(text: string)

  /** `update($request->validated())`: the status always, notes only when the key is present. */
  function AfterStatusUpdate(v: Violation, status: ViolationStatus, notes: NotesPatch): (v': Violation)
    ensures v'.status == status
    ensures notes.NotesAbsent? ==> v'.notes == v.notes
    ensures notes.NotesNull? ==> v'.notes == None
    ensures notes.NotesText? ==> v'.notes == Some(notes.text)
    ensures v'.(status := v.status, notes := v.notes) == v
  {
    v.(status := status,
       notes := match notes
                case NotesAbsent => v.notes
                case NotesNull => None
                case NotesText(t) => Some(t))
  }

  /** The detail rows left after their violation is deleted (the foreign key cascades). */
  function DetailsWithout(ds: seq<Detail>, violationId: nat): (rest: seq<Detail>)
    ensures |rest| <= |ds|
    ensures forall d :: d in rest <==> d in ds && d.violationId != violationId
  {
    if ds == [] then []
    else if ds[0].violationId == violationId then DetailsWithout(ds[1..], violationId)
    else [ds[0]] + DetailsWithout(ds[1..], violationId)
  }

  /** What a controller action produces: a response, or an exception for the handler. */
  datatype Outcome<T> = Done(response: Response<T>) | Thrown(error: ExceptionHandler.Throwable)

  const ModelNamespace := "App\\Models"
  const CameraModel := ModelNamespace + ['\\'] + "Camera"
  const ViolationTypeModel := ModelNamespace + ['\\'] + "ViolationType"
  const ViolationModel := ModelNamespace + ['\\'] + "Violation"

  /** The violations and violation_details tables, the public disk, and the
      read-only camera and violation type code columns. */
  class ViolationTables {
    var violations: seq<Violation>
    var details: seq<Detail>
    var files: set<string>
    var nextViolationId: nat
    var nextDetailId: nat
    const cameraIds: map<string, int>
    const typeIds: map<string, int>

    /** Fresh ids are above every stored id. */
    predicate Valid()
      reads this
    {
      && (forall k :: 0 <= k < |violations| ==> violations[k].id < nextViolationId)
      && (forall k :: 0 <= k < |details| ==> details[k].id < nextDetailId)
    }

    constructor (cameras: map<string, int>, types: map<string, int>)
      ensures Valid() && violations == [] && details == [] && files == {}
      ensures cameraIds == cameras && typeIds == types
    {
      violations, details, files := [], [], {};
      nextViolationId, nextDetailId := 1, 1;
      cameraIds, typeIds := cameras, types;
    }

    /** POST /violations after validation: the image is stored first; an
        unknown camera aborts before any row is written; otherwise a pending
        violation is inserted and then its details, one per entry, until an
        unknown violation type aborts (no transaction: what was inserted stays). */
    method Store(cameraCode: string, imagePath: string, notes: Option<string>, entries: seq<DetailInput>)
      returns (r: Outcome<Violation>)
      requires Valid()
      modifies this
      ensures Valid()
      ensures files == old(files) + {imagePath}
      ensures cameraCode !in cameraIds ==>
        && violations == old(violations) && details == old(details)
        && r == Thrown(ExceptionHandler.ModelNotFoundException(CameraModel, ""))
      ensures cameraCode in cameraIds ==>
        var v := Violation(old(nextViolationId), cameraIds[cameraCode], imagePath, Pending, notes);
        && violations == old(violations) + [v]
        && details == old(details) + NewDetails(v.id, old(nextDetailId), entries, typeIds)
        && (AllKnown(entries, typeIds) ==> r == Done(Created(Some(v), "Success")))
        && (!AllKnown(entries, typeIds) ==> r == Thrown(ExceptionHandler.ModelNotFoundException(ViolationTypeModel, "")))
    {
      files := files + {imagePath};
      if cameraCode !in cameraIds {
        return Thrown(ExceptionHandler.ModelNotFoundException(CameraModel, ""));
      }
      var v := Violation(nextViolationId, cameraIds[cameraCode], imagePath, Pending, notes);
      violations := violations + [v];
      nextViolationId := nextViolationId + 1;
      var allKnown := InsertDetails(v.id, entries);
      if !allKnown {
        return Thrown(ExceptionHandler.ModelNotFoundException(ViolationTypeModel, ""));
      }
      r := Done(Created(Some(v), "Success"));
    }

    /** The detail loop of `store`: one row per entry until an entry names an
        unknown type; false exactly when one does. */
    method InsertDetails(violationId: nat, entries: seq<DetailInput>) returns (allKnown: bool)
      requires Valid()
      modifies this`details, this`nextDetailId
      ensures Valid()
      ensures allKnown <==> AllKnown(entries, typeIds)
      ensures details == old(details) + NewDetails(violationId, old(nextDetailId), entries, typeIds)
    {
      ghost var before := details;
      ghost var firstId := nextDetailId;
      var i := 0;
      while i < |entries|
        invariant 0 <= i <= |entries|
        invariant AllKnown(entries[..i], typeIds)
        invariant details == before + NewDetails(violationId, firstId, entries[..i], typeIds)
        invariant nextDetailId == firstId + i
        invariant Valid()
      {
        var e := entries[i];
        if e.violationCode !in typeIds {
          NewDetailsStop(violationId, firstId, entries, i, typeIds);
          return false;
        }
        var d := Detail(nextDetailId, violationId, typeIds[e.violationCode], e.confidenceScore, e.additionalInfo, Unverified);
        AllKnownSnoc(entries, i, typeIds);
        NewDetailsSnoc(violationId, firstId, entries, i, typeIds);
        ghost var done := NewDetails(violationId, firstId, entries[..i], typeIds);
        ghost var next := NewDetails(violationId, firstId, entries[..i + 1], typeIds);
        assert next == done + [d];
        assert details + [d] == before + next;
        details := details + [d];
        nextDetailId := nextDetailId + 1;
        i := i + 1;
      }
      assert entries[..i] == entries;
      return true;
    }

    /** PATCH status: any status may follow any other; only status and notes change. */
    method UpdateStatus(id: nat, status: ViolationStatus, notes: NotesPatch) returns (r: Outcome<Violation>)
      requires Valid()
      modifies this`violations
      ensures Valid()
      ensures IndexOfId(old(violations), ViolationId, id).None? ==>
        violations == old(violations) && r == Thrown(ExceptionHandler.ModelNotFoundException(ViolationModel, ""))
      ensures IndexOfId(old(violations), ViolationId, id).Some? ==>
        var i := IndexOfId(old(violations), ViolationId, id).value;
        && violations == old(violations)[i := AfterStatusUpdate(old(violations)[i], status, notes)]
        && r == Done(Success(Some(violations[i]), "Success"))
    {
      var found := IndexOfId(violations, ViolationId, id);
      if found.None? {
        return Thrown(ExceptionHandler.ModelNotFoundException(ViolationModel, ""));
      }
      var i := found.value;
      violations := violations[i := AfterStatusUpdate(violations[i], status, notes)];
      assert forall k :: 0 <= k < |violations| ==> violations[k].id == old(violations)[k].id;
      r := Done(Success(Some(violations[i]), "Success"));
    }

    /** DELETE: the image is removed when the path is truthy and the disk does
        not throw; the row and its details are deleted either way. */
    method Destroy(id: nat, diskThrows: bool) returns (r: Outcome<Violation>)
      requires Valid()
      modifies this`violations, this`details, this`files
      ensures Valid()
      ensures IndexOfId(old(violations), ViolationId, id).None? ==>
        && violations == old(violations) && details == old(details) && files == old(files)
        && r == Thrown(ExceptionHandler.ModelNotFoundException(ViolationModel, ""))
      ensures IndexOfId(old(violations), ViolationId, id).Some? ==>
        var i := IndexOfId(old(violations), ViolationId, id).value;
        var path := old(violations)[i].imagePath;
        && violations == old(violations)[..i] + old(violations)[i + 1..]
        && details == DetailsWithout(old(details), id)
        && files == (if PhpTruthy(Some(path)) && !diskThrows then old(files) - {path} else old(files))
        && r == Done(NoContent())
    {
      var found := IndexOfId(violations, ViolationId, id);
      if found.None? {
        return Thrown(ExceptionHandler.ModelNotFoundException(ViolationModel, ""));
      }
      var i := found.value;
      var path := violations[i].imagePath;
      if PhpTruthy(Some(path)) && !diskThrows {
        files := files - {path};
      }
      violations := violations[..i] + violations[i + 1..];
      details := DetailsWithout(details, id);
      assert forall d :: d in details ==> d in old(details);
      r := Done(NoContent());
    }
  }

  /** A model of the App\\Models namespace renders its not-found error as
      "<class> not found". */
  lemma NotFoundMessageOf(base: string)
    requires '\\' !in base
    ensures ExceptionHandler.RenderApiException(
              ExceptionHandler.ModelNotFoundException(ModelNamespace + ['\\'] + base, "")).body.message
         == base + " not found"
  {
    ExceptionHandler.ClassBasenameLast(ModelNamespace, base);
    ExceptionHandler.ModelNotFoundMessage(ModelNamespace + ['\\'] + base, "", "");
  }

  /** A store naming an unknown camera renders as "Camera not found". */
  lemma UnknownCameraMessage()
    ensures ExceptionHandler.RenderApiException(ExceptionHandler.ModelNotFoundException(CameraModel, "")).body.message
         == "Camera not found"
  {
    NotFoundMessageOf("Camera");
    assert "Camera" + " not found" == "Camera not found";
  }

  /** A store naming an unknown violation type renders as "ViolationType not found". */
  lemma UnknownTypeMessage()
    ensures ExceptionHandler.RenderApiException(ExceptionHandler.ModelNotFoundException(ViolationTypeModel, "")).body.message
         == "ViolationType not found"
  {
    NotFoundMessageOf("ViolationType");
    assert "ViolationType" + " not found" == "ViolationType not found";
  }
}
