/** The dashboard's home page (frontend/src/features/HomePage/index.tsx): the
    "last detected" card derived from the polled violation list, and the
    camera panel chosen from the polled health status. */
module HomePage {
  import opened Common
  import ViolationHistory

  /** A listed violation: its camera, when loaded, and its details, when loaded. */
  datatype ViolationView = ViolationView(id: int, cameraCode: Option<string>,
                                         details: Option<seq<ViolationHistory.DetailView>>,
                                         imagePath: string, createdAt: string)

  datatype LastDetected = LastDetected(violationId: int, cameraCode: string, violationType: string,
                                       imagePath: string, detectedAt: string)

  /** The first detail's type name, or "Unknown" when there is no first detail. */
  function FirstTypeName(details: Option<seq<ViolationHistory.DetailView>>): (name: string)
    ensures name != ""
    ensures details.Some? && details.value != [] ==> name == ViolationHistory.TypeName(details.value[0])
    ensures details.None? || details == Some([]) ==> name == ViolationHistory.Unknown
  {
    if details.Some? && details.value != [] then ViolationHistory.TypeName(details.value[0])
    else ViolationHistory.Unknown
  }

  /** `lastViolation`: built from the first (most recent) violation only,
      and absent when the list is empty or that violation has no camera. */
  function LastViolation(violations: seq<ViolationView>): (r: Option<LastDetected>)
    ensures violations == [] ==> r.None?
    ensures violations != [] ==> (r.Some? <==> violations[0].cameraCode.Some?)
    ensures r.Some? ==>
      var v := violations[0];
      && r.value.violationId == v.id && r.value.cameraCode == v.cameraCode.value
      && r.value.violationType == FirstTypeName(v.details)
      && r.value.imagePath == v.imagePath && r.value.detectedAt == v.createdAt
  {
    if violations == [] then None
    else
      var v := violations[0];
      if v.cameraCode.None? then None
      else Some(LastDetected(v.id, v.cameraCode.value, FirstTypeName(v.details), v.imagePath, v.createdAt))
  }

  /** Later violations never matter: not even when the first has no camera
      and a later one has. */
  lemma OnlyFirstCounts(first: ViolationView, rest: seq<ViolationView>)
    ensures LastViolation([first] + rest) == LastViolation([first])
  {
    assert ([first] + rest)[0] == first;
  }

  /** What the camera panel shows. */
  datatype Panel = CameraFeed | CameraIsOff

  /** `status?.camera_status`: absent until the first health poll answers. */
  function CameraPanel(cameraStatus: Option<bool>): (p: Panel)
    ensures p == CameraFeed <==> cameraStatus == Some(true)
  {
    if cameraStatus == Some(true) then CameraFeed else CameraIsOff
  }

  function StatusLabel(cameraStatus: Option<bool>): (text: string)
    ensures text == "Camera Online" <==> cameraStatus == Some(true)
    ensures text == "Camera Offline" <==> cameraStatus != Some(true)
  {
    if cameraStatus == Some(true) then "Camera Online" else "Camera Offline"
  }

  /** The panel and the label always agree: the feed is shown exactly when
      the label says the camera is online. */
  lemma PanelMatchesLabel(cameraStatus: Option<bool>)
    ensures CameraPanel(cameraStatus) == CameraFeed <==> StatusLabel(cameraStatus) == "Camera Online"
  {
  }
}
