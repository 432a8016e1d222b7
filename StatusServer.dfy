/** The detection service's HTTP side (yolo-service/modules/http_server.py):
    the health tracker behind /health, the stream-client count, and the
    one-slot frame queue between the capture loop and the /stream clients. */
module StatusServer {
  import opened Common

  /** OUTPUT_MODE and STREAM_SOURCE_TYPE in yolo-service/config.py. */
  const OutputMode := "sse"
  const StreamSourceType := "file"

  /** The dictionary `get_status_dict` returns. Times are whole seconds. */
  datatype StatusReport = StatusReport(status: string, mode: string, activeClients: int,
                                       cameraStatus: bool, yoloStatus: bool, streamerStatus: bool,
                                       sourceType: string, uptimeSeconds: int)

  class SystemStatus {
    var yoloStatus: bool
    var cameraStatus: bool
    var streamerStatus: bool
    const startTime: int
    var activeClients: int

    constructor (now: int)
      ensures !yoloStatus && !cameraStatus && !streamerStatus
      ensures activeClients == 0 && startTime == now
    {
      yoloStatus := false;
      cameraStatus := false;
      streamerStatus := false;
      startTime := now;
      activeClients := 0;
    }

    method SetYoloStatus(status: bool)
      modifies this
      ensures yoloStatus == status
      ensures cameraStatus == old(cameraStatus) && streamerStatus == old(streamerStatus)
      ensures activeClients == old(activeClients)
    {
      yoloStatus := status;
    }

    method SetCameraStatus(status: bool)
      modifies this
      ensures cameraStatus == status
      ensures yoloStatus == old(yoloStatus) && streamerStatus == old(streamerStatus)
      ensures activeClients == old(activeClients)
    {
      cameraStatus := status;
    }

    method SetStreamerStatus(status: bool)
      modifies this
      ensures streamerStatus == status
      ensures yoloStatus == old(yoloStatus) && cameraStatus == old(cameraStatus)
      ensures activeClients == old(activeClients)
    {
      streamerStatus := status;
    }

    /** `update_client_count`: adds delta as given, with no clamping at zero. */
    method UpdateClientCount(delta: int)
      modifies this
      ensures activeClients == old(activeClients) + delta
      ensures yoloStatus == old(yoloStatus) && cameraStatus == old(cameraStatus)
      ensures streamerStatus == old(streamerStatus)
    {
      activeClients := activeClients + delta;
    }

    /** `get_status_dict`: always "ok", with the current flags and count. */
    function StatusDict(now: int): (r: StatusReport)
      reads this
      ensures r.status == "ok" && r.mode == OutputMode && r.sourceType == StreamSourceType
      ensures r.activeClients == activeClients
      ensures r.cameraStatus == cameraStatus && r.yoloStatus == yoloStatus && r.streamerStatus == streamerStatus
      ensures r.uptimeSeconds == now - startTime
    {
      StatusReport("ok", OutputMode, activeClients, cameraStatus, yoloStatus, streamerStatus,
                   StreamSourceType, now - startTime)
    }
  }

  datatype StreamReply = StreamError(error: string) | FrameStream(mediaType: string)

  /** SSE_CONTENT_TYPE in yolo-service/config.py. */
  const StreamContentType := "multipart/x-mixed-replace; boundary=frame"

  /** The start of `/stream`: outside SSE mode an error body and no count;
      otherwise the client is counted and the frame stream starts. */
  method ConnectStreamClient(status: SystemStatus, mode: string) returns (r: StreamReply)
    modifies status
    ensures mode != "sse" ==> r == StreamError("SSE mode not enabled") && status.activeClients == old(status.activeClients)
    ensures mode == "sse" ==> r == FrameStream(StreamContentType) && status.activeClients == old(status.activeClients) + 1
    ensures status.yoloStatus == old(status.yoloStatus) && status.cameraStatus == old(status.cameraStatus)
    ensures status.streamerStatus == old(status.streamerStatus)
  {
    if mode != "sse" {
      return StreamError("SSE mode not enabled");
    }
    status.UpdateClientCount(1);
    r := FrameStream(StreamContentType);
  }

  /** The frame queue adapter together with the module globals it consults:
      the event loop and the one-slot `asyncio.Queue(maxsize=1)`. */
  class FrameQueue {
    var ready: bool
    var hasLoop: bool
    var hasQueue: bool
    /** The content of the one-slot queue. */
    var slot: Option<seq<byte>>

    constructor ()
      ensures !ready && !hasLoop && !hasQueue && slot.None?
    {
      ready := false;
      hasLoop := false;
      hasQueue := false;
      slot := None;
    }

    /** The start-up half of `lifespan`: loop and queue are created, then the
        adapter is marked ready. */
    method Startup()
      modifies this
      ensures ready && hasLoop && hasQueue && slot.None?
    {
      hasLoop := true;
      hasQueue := true;
      slot := None;
      ready := true;
    }

    /** `put`: refused before start-up; otherwise `put_nowait`, which drops the
        frame when the slot is taken. */
    method Put(frame: seq<byte>) returns (ok: bool)
      modifies this
      ensures ok <==> ready && hasLoop && hasQueue && old(slot).None?
      ensures ok ==> slot == Some(frame)
      ensures !ok ==> slot == old(slot)
      ensures ready == old(ready) && hasLoop == old(hasLoop) && hasQueue == old(hasQueue)
    {
      if !ready || !hasLoop || !hasQueue {
        return false;
      }
      if slot.Some? {
        return false;
      }
      slot := Some(frame);
      return true;
    }

    /** `get` of the adapter: it never returns a frame. */
    function Get(): (r: Option<seq<byte>>)
      ensures r.None?
    {
      None
    }

    /** The stream generator's `current_frame.get()`: takes the waiting frame. */
    method Take() returns (frame: Option<seq<byte>>)
      modifies this
      ensures frame == old(slot) && slot.None?
      ensures ready == old(ready) && hasLoop == old(hasLoop) && hasQueue == old(hasQueue)
    {
      frame := slot;
      slot := None;
    }
  }

  /** The frames of a sequence of polls, in order; a poll that timed out gives none. */
  function Values(polls: seq<Option<seq<byte>>>): (r: seq<seq<byte>>)
    ensures |r| <= |polls|
    ensures forall x :: x in r <==> Some(x) in polls
  {
    if polls == [] then []
    else
      var last := polls[|polls| - 1];
      assert forall x :: Some(x) in polls <==> Some(x) in polls[..|polls| - 1] || last == Some(x);
      Values(polls[..|polls| - 1]) + (if last.Some? then [last.value] else [])
  }

  /** What each poll of the stream generator finds in the slot: the frame the
      capture loop put there since the last poll, except that a frame already
      waiting when the client connects keeps the slot and the first arrival is dropped. */
  function Found(waiting: Option<seq<byte>>, arrivals: seq<Option<seq<byte>>>): (found: seq<Option<seq<byte>>>)
    ensures |found| == |arrivals|
    ensures forall i :: 0 < i < |arrivals| ==> found[i] == arrivals[i]
    ensures arrivals != [] ==> found[0] == if waiting.Some? then waiting else arrivals[0]
  {
    if arrivals == [] then [] else [if waiting.Some? then waiting else arrivals[0]] + arrivals[1..]
  }

  /** One stream client from connect to the generator's `finally`. Each poll
      the capture loop may first put a frame (`arrivals[i]`, None when nothing
      came within the second); the generator then takes what the slot holds.
      The client receives the frames found, in order, and however the stream
      ends, the count comes back to where it was. */
  method StreamSession(status: SystemStatus, q: FrameQueue, mode: string, arrivals: seq<Option<seq<byte>>>)
    returns (frames: seq<seq<byte>>)
    requires q.ready && q.hasLoop && q.hasQueue
    modifies status, q
    ensures status.activeClients == old(status.activeClients)
    ensures mode != "sse" ==> frames == [] && q.slot == old(q.slot)
    ensures mode == "sse" ==> frames == Values(Found(old(q.slot), arrivals))
    ensures mode == "sse" && arrivals != [] ==> q.slot.None?
    ensures q.ready && q.hasLoop && q.hasQueue
  {
    var reply := ConnectStreamClient(status, mode);
    if reply.StreamError? {
      return [];
    }
    ghost var found := Found(q.slot, arrivals);
    frames := [];
    var i := 0;
    while i < |arrivals|
      invariant 0 <= i <= |arrivals|
      invariant frames == Values(found[..i])
      invariant i == 0 ==> q.slot == old(q.slot)
      invariant i > 0 ==> q.slot.None?
      invariant q.ready && q.hasLoop && q.hasQueue
      invariant status.activeClients == old(status.activeClients) + 1
    {
      if arrivals[i].Some? {
        var _ := q.Put(arrivals[i].value);
      }
      var frame := q.Take();
      assert frame == found[i];
      assert found[..i + 1][..i] == found[..i];
      if frame.Some? {
        frames := frames + [frame.value];
      }
      i := i + 1;
    }
    assert found[..|arrivals|] == found;
    status.UpdateClientCount(-1);
  }

  /** With no frame waiting at connect time, the client receives every frame
      that arrived, in order. */
  lemma NothingWaitingDeliversAll(arrivals: seq<Option<seq<byte>>>)
    ensures Values(Found(None, arrivals)) == Values(arrivals)
  {
    assert Found(None, arrivals) == arrivals;
  }

  /** Two frames put back to back without a reader: the second is dropped
      and the first stays. */
  method SecondPutDropped(q: FrameQueue, a: seq<byte>, b: seq<byte>) returns (first: bool, second: bool)
    requires q.ready && q.hasLoop && q.hasQueue && q.slot.None?
    modifies q
    ensures first && !second && q.slot == Some(a)
  {
    first := q.Put(a);
    second := q.Put(b);
  }
}
