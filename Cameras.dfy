/** The two writers of a camera's connectivity fields: the heartbeat endpoint
    (backend/app/Http/Controllers/CameraHeartbeatController.php) and the
    periodic `camera:health-check` reconciler, whose observable behaviour is
    fixed by backend/tests/Feature/CameraHealthIntegrationTest.php. */
module Cameras {
  import opened Common
  import opened Responses

  datatype CameraStatus = Active | Inactive | Maintenance

  function StatusName(s: CameraStatus): string
  {
    match s
    case Active => "active"
    case Inactive => "inactive"
    case Maintenance => "maintenance"
  }

  /** The `in:active,inactive,maintenance` rule: the names, and nothing else,
      denote a status. */
  function ParseStatus(name: string): (s: Option<CameraStatus>)
    ensures s.Some? <==> name in {"active", "inactive", "maintenance"}
    ensures s.Some? ==> StatusName(s.value) == name
  {
    if name == "active" then Some(Active)
    else if name == "inactive" then Some(Inactive)
    else if name == "maintenance" then Some(Maintenance)
    else None
  }

  /** A row of the cameras table (the fillable fields of App\Models\Camera).
      Timestamps are abstract instants. */
  datatype Camera = Camera(
    code: string,
    name: string,
    description: Option<string>,
    location: Option<string>,
    status: CameraStatus,
    connectedAt: Option<int>,
    disconnectedAt: Option<int>,
    lastMaintenanceAt: Option<int>,
    yoloDetectionStatus: bool,
    yoloServiceUrl: Option<string>)

  /** The attribute array handed to Eloquent's `update`: a field is `None`
      when its key is absent, `Some(None)` when it is set to null. */
  datatype CameraUpdate = CameraUpdate(
    status: Option<CameraStatus>,
    connectedAt: Option<Option<int>>,
    disconnectedAt: Option<Option<int>>,
    yoloDetectionStatus: Option<bool>)

  function Merge<T>(o: Option<T>, current: T): T
  {
    if o.Some? then o.value else current
  }

  /** `update`: the keys present replace their fields; every other field keeps its value. */
  function ApplyUpdate(c: Camera, u: CameraUpdate): (c': Camera)
    ensures c'.status == Merge(u.status, c.status)
    ensures c'.connectedAt == Merge(u.connectedAt, c.connectedAt)
    ensures c'.disconnectedAt == Merge(u.disconnectedAt, c.disconnectedAt)
    ensures c'.yoloDetectionStatus == Merge(u.yoloDetectionStatus, c.yoloDetectionStatus)
    ensures c'.(status := c.status, connectedAt := c.connectedAt, disconnectedAt := c.disconnectedAt,
                yoloDetectionStatus := c.yoloDetectionStatus) == c
  {
    c.(status := Merge(u.status, c.status),
       connectedAt := Merge(u.connectedAt, c.connectedAt),
       disconnectedAt := Merge(u.disconnectedAt, c.disconnectedAt),
       yoloDetectionStatus := Merge(u.yoloDetectionStatus, c.yoloDetectionStatus))
  }

  /** The connectivity invariant of an active camera: connected, not disconnected. */
  predicate ActiveConsistent(c: Camera)
  {
    c.status == Active ==> c.connectedAt.Some? && c.disconnectedAt.None?
  }

  // ---------------------------------------------------------------------
  // Heartbeat

  /** The update a heartbeat writes: connected_at always; the status only when
      one is given; disconnected_at cleared only on an inactive-to-active change. */
  function HeartbeatUpdate(current: CameraStatus, status: Option<CameraStatus>, now: int): CameraUpdate
  {
    CameraUpdate(
      status,
      Some(Some(now)),
      if current == Inactive && status == Some(Active) then Some(None) else None,
      None)
  }

  function AfterHeartbeat(c: Camera, status: Option<CameraStatus>, now: int): Camera
  {
    ApplyUpdate(c, HeartbeatUpdate(c.status, status, now))
  }

  lemma HeartbeatFields(c: Camera, status: Option<CameraStatus>, now: int)
    ensures AfterHeartbeat(c, status, now).connectedAt == Some(now)
    ensures status.Some? ==> AfterHeartbeat(c, status, now).status == status.value
    ensures status.None? ==> AfterHeartbeat(c, status, now).status == c.status
    ensures AfterHeartbeat(c, status, now).yoloDetectionStatus == c.yoloDetectionStatus
    ensures AfterHeartbeat(c, status, now).lastMaintenanceAt == c.lastMaintenanceAt
    ensures AfterHeartbeat(c, status, now).code == c.code
  {
  }

  /** disconnected_at changes exactly when an inactive camera that had a
      disconnection time reports itself active. */
  lemma HeartbeatClearsDisconnect(c: Camera, status: Option<CameraStatus>, now: int)
    ensures AfterHeartbeat(c, status, now).disconnectedAt != c.disconnectedAt <==>
            c.status == Inactive && status == Some(Active) && c.disconnectedAt.Some?
    ensures AfterHeartbeat(c, status, now).disconnectedAt.Some? ==>
            AfterHeartbeat(c, status, now).disconnectedAt == c.disconnectedAt
  {
  }

  /** A camera in maintenance that reports itself active keeps its old
      disconnection time, so the heartbeat alone does not keep an active camera
      consistent. */
  lemma HeartbeatFromMaintenance(c: Camera, now: int)
    requires c.status == Maintenance && c.disconnectedAt.Some?
    ensures AfterHeartbeat(c, Some(Active), now).status == Active
    ensures !ActiveConsistent(AfterHeartbeat(c, Some(Active), now))
  {
  }

  /** From an inactive or active consistent camera, a heartbeat leaves it consistent. */
  lemma HeartbeatKeepsConsistency(c: Camera, status: Option<CameraStatus>, now: int)
    requires ActiveConsistent(c) && c.status != Maintenance
    ensures ActiveConsistent(AfterHeartbeat(c, status, now))
  {
  }

  // ---------------------------------------------------------------------
  // Health check

  /** What the HTTP client reports for GET {yolo_service_url}/health. */
  datatype Reply = HttpStatus(code: int) | ConnectionError

  datatype HealthOutcome = Healthy | Unhealthy(code: int) | Unreachable

  /** Any 2xx is healthy; another status is unhealthy; a thrown connection
      error, or a camera with no service URL, is unreachable. */
  function Classify(url: Option<string>, reply: Reply): (o: HealthOutcome)
    ensures o.Healthy? <==> url.Some? && reply.HttpStatus? && 200 <= reply.code < 300
    ensures o.Unhealthy? ==> url.Some? && reply == HttpStatus(o.code)
  {
    if url.None? then Unreachable
    else match reply
      case ConnectionError => Unreachable
      case HttpStatus(code) => if 200 <= code < 300 then Healthy else Unhealthy(code)
  }

  /** The target fields for an outcome: one tuple per outcome, never "keep". */
  function Resolve(o: HealthOutcome, now: int): (u: CameraUpdate)
    ensures u.status.Some? && u.connectedAt.Some? && u.disconnectedAt.Some? && u.yoloDetectionStatus.Some?
    ensures u.status.value == Active <==> o.Healthy?
    ensures u.status.value != Maintenance
    ensures u.yoloDetectionStatus.value <==> u.status.value == Active
    ensures u.status.value == Active ==> u.connectedAt.value == Some(now) && u.disconnectedAt.value == None
    ensures u.status.value == Inactive ==> u.connectedAt.value == None && u.disconnectedAt.value == Some(now)
  {
    if o.Healthy? then CameraUpdate(Some(Active), Some(Some(now)), Some(None), Some(true))
    else CameraUpdate(Some(Inactive), Some(None), Some(Some(now)), Some(false))
  }

  /** The event dispatched on a status change. */
  datatype StatusEvent = CameraStatusUpdated(
    cameraCode: string, status: CameraStatus, connectedAt: Option<int>, disconnectedAt: Option<int>)

  /** A camera takes part in reconciliation unless an operator put it in maintenance. */
  predicate Eligible(c: Camera)
  {
    c.status != Maintenance
  }

  /** The row after one reconciliation: written only when eligible and the
      resolved status differs from the stored one. */
  function Reconciled(c: Camera, o: HealthOutcome, now: int): Camera
  {
    var u := Resolve(o, now);
    if Eligible(c) && u.status.value != c.status then ApplyUpdate(c, u) else c
  }

  /** The event of one reconciliation, present exactly when the row was written. */
  function ReconcileEvent(c: Camera, o: HealthOutcome, now: int): Option<StatusEvent>
  {
    var u := Resolve(o, now);
    if Eligible(c) && u.status.value != c.status then
      var c' := ApplyUpdate(c, u);
      Some(CameraStatusUpdated(c.code, c'.status, c'.connectedAt, c'.disconnectedAt))
    else None
  }

  /** The effect of one reconciliation on a camera: a healthy camera becomes
      active and connected now; any other outcome makes it inactive and
      disconnected now; the event repeats the new values; a maintenance camera
      and an unchanged status are left alone with no event. */
  lemma ReconcileEffect(c: Camera, o: HealthOutcome, now: int)
    ensures var c' := Reconciled(c, o, now);
      && (ReconcileEvent(c, o, now).Some? <==> Eligible(c) && c.status != (if o.Healthy? then Active else Inactive))
      && (ReconcileEvent(c, o, now).None? ==> c' == c)
      && (ReconcileEvent(c, o, now).Some? ==>
            var e := ReconcileEvent(c, o, now).value;
            && e == CameraStatusUpdated(c.code, c'.status, c'.connectedAt, c'.disconnectedAt)
            && (o.Healthy? ==> c'.status == Active && c'.yoloDetectionStatus && c'.connectedAt == Some(now) && c'.disconnectedAt == None)
            && (!o.Healthy? ==> c'.status == Inactive && !c'.yoloDetectionStatus && c'.connectedAt == None && c'.disconnectedAt == Some(now))
            && c'.(status := c.status, connectedAt := c.connectedAt, disconnectedAt := c.disconnectedAt,
                   yoloDetectionStatus := c.yoloDetectionStatus) == c)
  {
  }

  /** A second pass with the same outcome writes nothing and dispatches nothing. */
  lemma ReconcileIdempotent(c: Camera, o: HealthOutcome, now1: int, now2: int)
    ensures Reconciled(Reconciled(c, o, now1), o, now2) == Reconciled(c, o, now1)
    ensures ReconcileEvent(Reconciled(c, o, now1), o, now2).None?
  {
  }

  /** A connection error is treated exactly like a non-2xx reply. */
  lemma ConnectionErrorIsUnhealthy(c: Camera, code: int, now: int)
    requires c.yoloServiceUrl.Some? && !(200 <= code < 300)
    ensures Reconciled(c, Classify(c.yoloServiceUrl, ConnectionError), now)
         == Reconciled(c, Classify(c.yoloServiceUrl, HttpStatus(code)), now)
    ensures ReconcileEvent(c, Classify(c.yoloServiceUrl, ConnectionError), now)
         == ReconcileEvent(c, Classify(c.yoloServiceUrl, HttpStatus(code)), now)
  {
  }

  /** Reconciliation keeps an active camera consistent. */
  lemma ReconcileKeepsConsistency(c: Camera, o: HealthOutcome, now: int)
    requires ActiveConsistent(c)
    ensures ActiveConsistent(Reconciled(c, o, now))
  {
  }

  /** The events of one pass, in row order. */
  function PassEvents(rows: seq<Camera>, replies: seq<Reply>, now: int): (es: seq<StatusEvent>)
    requires |replies| == |rows|
    ensures |es| <= |rows|
  {
    if rows == [] then []
    else
      var n := |rows| - 1;
      var e := ReconcileEvent(rows[n], Classify(rows[n].yoloServiceUrl, replies[n]), now);
      PassEvents(rows[..n], replies[..n], now) + (if e.Some? then [e.value] else [])
  }

  /** One step of the pass: the events of the first i + 1 rows are those of
      the first i followed by that of row i. */
  lemma PassEventsStep(rows: seq<Camera>, replies: seq<Reply>, i: nat, now: int)
    requires |replies| == |rows| && i < |rows|
    ensures var e := ReconcileEvent(rows[i], Classify(rows[i].yoloServiceUrl, replies[i]), now);
      PassEvents(rows[..i + 1], replies[..i + 1], now)
      == PassEvents(rows[..i], replies[..i], now) + (if e.Some? then [e.value] else [])
  {
    assert rows[..i + 1][..i] == rows[..i] && replies[..i + 1][..i] == replies[..i];
  }

  /** The rows after the pass has reconciled the first i of them. */
  function ReconciledUpTo(rows: seq<Camera>, replies: seq<Reply>, i: nat, now: int): (r: seq<Camera>)
    requires |replies| == |rows|
    ensures |r| == |rows|
    ensures forall k :: 0 <= k < |rows| ==>
              r[k] == if k < i then Reconciled(rows[k], Classify(rows[k].yoloServiceUrl, replies[k]), now) else rows[k]
  {
    seq(|rows|, k requires 0 <= k < |rows| =>
      if k < i then Reconciled(rows[k], Classify(rows[k].yoloServiceUrl, replies[k]), now) else rows[k])
  }

  lemma ReconciledUpToStep(rows: seq<Camera>, replies: seq<Reply>, i: nat, now: int)
    requires |replies| == |rows| && i < |rows|
    ensures var cur := ReconciledUpTo(rows, replies, i, now);
      cur[i := Reconciled(cur[i], Classify(cur[i].yoloServiceUrl, replies[i]), now)]
      == ReconciledUpTo(rows, replies, i + 1, now)
  {
  }

  /** Codes are unique among the rows (the `code` column is unique). */
  predicate UniqueCodes(rows: seq<Camera>)
  {
    forall i, j :: 0 <= i < j < |rows| ==> rows[i].code != rows[j].code
  }

  /** Rewriting a row with one of the same code keeps the codes unique. */
  lemma UniqueCodesKept(rows: seq<Camera>, i: nat, c: Camera)
    requires UniqueCodes(rows) && i < |rows| && c.code == rows[i].code
    ensures UniqueCodes(rows[i := c])
  {
  }

  function CodeOf(camera: Camera): string
  {
    camera.code
  }

  /** The first row with the given code (`where('code', …)->first()`). */
  function FindByCode(rows: seq<Camera>, code: string): Option<nat>
  {
    IndexOfId(rows, CodeOf, code)
  }

  /** The cameras table and the events dispatched so far. */
  class CameraRegistry {
    var rows: seq<Camera>
    var events: seq<StatusEvent>

    predicate Valid()
      reads this
    {
      UniqueCodes(rows)
    }

    constructor (initial: seq<Camera>)
      requires UniqueCodes(initial)
      ensures Valid() && rows == initial && events == []
    {
      rows := initial;
      events := [];
    }

    /** POST heartbeat: an unknown code is a 404 that changes nothing; a known
        one gets the heartbeat update and a 200 carrying the updated row. */
    method Heartbeat(code: string, status: Option<CameraStatus>, now: int) returns (r: Response<Camera>)
      requires Valid()
      modifies this
      ensures Valid() && events == old(events) && |rows| == |old(rows)|
      ensures FindByCode(old(rows), code).None? ==>
                rows == old(rows) && r == NotFound(Some("Camera not found"), Some("Camera"))
      ensures FindByCode(old(rows), code).Some? ==>
                var i := FindByCode(old(rows), code).value;
                && rows == old(rows)[i := AfterHeartbeat(old(rows)[i], status, now)]
                && r == Success(Some(rows[i]), "Heartbeat received")
    {
      var found := FindByCode(rows, code);
      if found.None? {
        return NotFound(Some("Camera not found"), Some("Camera"));
      }
      var i := found.value;
      var camera := rows[i];
      var update := CameraUpdate(None, Some(Some(now)), None, None);
      if status.Some? {
        update := update.(status := status);
        if camera.status == Inactive && status.value == Active {
          update := update.(disconnectedAt := Some(None));
        }
      }
      rows := rows[i := ApplyUpdate(camera, update)];
      r := Success(Some(rows[i]), "Heartbeat received");
    }

    /** The body of the health-check loop for row i: the row is reconciled
        with its reply, and its event, if any, is dispatched. */
    method ReconcileRow(i: nat, reply: Reply, now: int)
      requires Valid() && i < |rows|
      modifies this
      ensures Valid()
      ensures rows == old(rows)[i := Reconciled(old(rows)[i], Classify(old(rows)[i].yoloServiceUrl, reply), now)]
      ensures var e := ReconcileEvent(old(rows)[i], Classify(old(rows)[i].yoloServiceUrl, reply), now);
        events == old(events) + (if e.Some? then [e.value] else [])
    {
      var camera := rows[i];
      var target := Resolve(Classify(camera.yoloServiceUrl, reply), now);
      if Eligible(camera) && target.status.value != camera.status {
        var updated := ApplyUpdate(camera, target);
        UniqueCodesKept(rows, i, updated);
        rows := rows[i := updated];
        events := events + [CameraStatusUpdated(camera.code, updated.status, updated.connectedAt,
                                                updated.disconnectedAt)];
      }
    }

    /** `camera:health-check`: one reconciliation per row, in row order, with
        the reply the health endpoint gave for that row; always exits with 0. */
    method HealthCheck(replies: seq<Reply>, now: int) returns (exitCode: int)
      requires Valid() && |replies| == |rows|
      modifies this
      ensures Valid() && exitCode == 0
      ensures |rows| == |old(rows)|
      ensures forall i :: 0 <= i < |rows| ==>
                rows[i] == Reconciled(old(rows)[i], Classify(old(rows)[i].yoloServiceUrl, replies[i]), now)
      ensures events == old(events) + PassEvents(old(rows), replies, now)
    {
      ghost var rows0 := rows;
      var i := 0;
      while i < |rows|
        invariant 0 <= i <= |rows| == |rows0|
        invariant rows == ReconciledUpTo(rows0, replies, i, now)
        invariant events == old(events) + PassEvents(rows0[..i], replies[..i], now)
        invariant Valid()
      {
        PassEventsStep(rows0, replies, i, now);
        ReconciledUpToStep(rows0, replies, i, now);
        ReconcileRow(i, replies[i], now);
        assert events == old(events) + PassEvents(rows0[..i + 1], replies[..i + 1], now);
        i := i + 1;
      }
      assert rows0[..i] == rows0 && replies[..i] == replies;
      exitCode := 0;
    }
  }
}
