/** The detection service's side of violation reporting (yolo-service/main.py):
    class names to violation codes, the per-frame filter of "no-" detections,
    and the pending buffer that the submitter drains through the throttle. */
module Detection {
  import opened Common
  import opened Throttling
  import opened BackendApi
  import opened FormEncoding

  // ---------------------------------------------------------------------
  // Class names and codes

  /** The code the fallback rule gives: upper case, '-' replaced by '_'. */
  function FallbackCode(className: string): (code: string)
    ensures |code| == |className|
    ensures forall i :: 0 <= i < |className| ==> code[i] != '-' && !IsAsciiLower(code[i])
  {
    ReplaceChar(Upper(className), '-', '_')
  }

  /** The backend code of a detected class: the explicit table for the three
      known classes, otherwise the fallback rule. */
  function MapClassNameToCode(className: string): string
  {
    if className == "no-apron" then "NO_APRON"
    else if className == "no-hairnet" then "NO_HAIRNET"
    else if className == "no-mask" then "NO_MASK"
    else FallbackCode(className)
  }

  /** A table entry that agrees with the fallback rule, character by character. */
  lemma FallbackAgrees(className: string, code: string)
    requires |code| == |className|
    requires forall i :: 0 <= i < |className| ==>
      code[i] == (if UpperChar(className[i]) == '-' then '_' else UpperChar(className[i]))
    ensures FallbackCode(className) == code
  {
  }

  /** The explicit table agrees with the fallback rule, so every class name maps
      to its upper-case form with '-' replaced by '_'. */
  lemma TableAgreesWithFallback(className: string)
    ensures MapClassNameToCode(className) == FallbackCode(className)
  {
    if className == "no-apron" {
      FallbackAgrees(className, "NO_APRON");
    } else if className == "no-hairnet" {
      FallbackAgrees(className, "NO_HAIRNET");
    } else if className == "no-mask" {
      FallbackAgrees(className, "NO_MASK");
    }
  }

  /** Mapping a code again leaves it unchanged. Upper case here covers the
      ASCII letters only, which is where Python's str.upper agrees. */
  lemma MappingIdempotent(className: string)
    requires IsAscii(className)
    ensures MapClassNameToCode(MapClassNameToCode(className)) == MapClassNameToCode(className)
  {
    var code := MapClassNameToCode(className);
    TableAgreesWithFallback(className);
    TableAgreesWithFallback(code);
    var again := FallbackCode(code);
    assert forall i :: 0 <= i < |code| ==> again[i] == code[i];
  }

  // ---------------------------------------------------------------------
  // The per-frame filter

  predicate Distinct(s: seq<string>)
  {
    forall i, j :: 0 <= i < j < |s| ==> s[i] != s[j]
  }

  const ViolationPrefix := "no-"

  /** The keys of `violation_types_found` after the loop over one frame's
      detections: each "no-" class once, in order of first detection. */
  function ViolationTypesOf(classNames: seq<string>): (found: seq<string>)
    ensures forall x :: x in found <==> x in classNames && StartsWith(x, ViolationPrefix)
    ensures Distinct(found)
    decreases |classNames|
  {
    if classNames == [] then []
    else
      var init := classNames[..|classNames| - 1];
      var name := classNames[|classNames| - 1];
      var prev := ViolationTypesOf(init);
      assert classNames == init + [name];
      if StartsWith(name, ViolationPrefix) && name !in prev then prev + [name] else prev
  }

  /** Later detections never reorder the classes found so far: the result for
      a prefix of the detections is a prefix of the result. */
  lemma {:induction false} ViolationTypesPrefix(classNames: seq<string>, k: nat)
    requires k <= |classNames|
    ensures ViolationTypesOf(classNames[..k]) <= ViolationTypesOf(classNames)
    decreases |classNames|
  {
    if k < |classNames| {
      var init := classNames[..|classNames| - 1];
      ViolationTypesPrefix(init, k);
      assert init[..k] == classNames[..k];
    } else {
      assert classNames[..k] == classNames;
    }
  }

  /** The filter loop over one frame's detected class names. */
  method FindViolationTypes(classNames: seq<string>) returns (found: seq<string>)
    ensures found == ViolationTypesOf(classNames)
  {
    found := [];
    var i := 0;
    while i < |classNames|
      invariant 0 <= i <= |classNames|
      invariant found == ViolationTypesOf(classNames[..i])
    {
      var name := classNames[i];
      assert classNames[..i + 1][..i] == classNames[..i];
      if StartsWith(name, ViolationPrefix) && name !in found {
        found := found + [name];
      }
      i := i + 1;
    }
    assert classNames[..i] == classNames;
  }

  // ---------------------------------------------------------------------
  // The pending buffer and the submitter

  /** A buffered detection: the annotated frame (an opaque handle here) and its
      detection info. */
  datatype PendingFrame = PendingFrame(frame: nat, violationCode: string, notes: string)

  function DetectedNotes(violationType: string): (notes: string)
    ensures StartsWith(notes, "Detected ")
    ensures notes[|"Detected "|..] == violationType
  {
    "Detected " + violationType
  }

  /** One call of `submit_violation` made by `_submit_single_violation`. */
  datatype Submission = Submission(violationType: string, frame: nat, details: seq<Detail>, notes: Option<string>)

  function SubmissionOf(violationType: string, p: PendingFrame): (s: Submission)
    ensures s.violationType == violationType && s.frame == p.frame && s.notes == Some(p.notes)
    ensures |s.details| == 1 && UniqueKeys(s.details[0])
    ensures s.details[0] == [("violation_code", Some(TextValue(p.violationCode))),
                             ("confidence_score", None), ("additional_info", None)]
  {
    Submission(violationType, p.frame,
      [[("violation_code", Some(TextValue(p.violationCode))), ("confidence_score", None), ("additional_info", None)]],
      Some(p.notes))
  }

  /** The types a pass submits: those of the snapshot the throttle allows,
      in snapshot order. */
  function Plan(types: seq<string>, pending: map<string, seq<PendingFrame>>,
                last: map<string, int>, delay: int, now: int): (subs: seq<Submission>)
    requires forall t :: t in types ==> t in pending && |pending[t]| >= 1
    ensures |subs| <= |types|
    ensures forall s :: s in subs ==> s.violationType in types && Allowed(last, delay, s.violationType, now)
    ensures forall t :: t in types && Allowed(last, delay, t, now) ==> SubmissionOf(t, pending[t][0]) in subs
    decreases |types|
  {
    if types == [] then []
    else
      var init := types[..|types| - 1];
      var t := types[|types| - 1];
      assert types == init + [t];
      Plan(init, pending, last, delay, now)
        + (if Allowed(last, delay, t, now) then [SubmissionOf(t, pending[t][0])] else [])
  }

  /** The throttle's record after a pass: `now` for every allowed type of the
      snapshot; every other type keeps its time. */
  function RecordDue(types: seq<string>, last: map<string, int>, delay: int, now: int): (r: map<string, int>)
    ensures forall t :: t in types && Allowed(last, delay, t, now) ==> t in r && r[t] == now
    ensures forall t :: t !in types || !Allowed(last, delay, t, now) ==>
      (t in r <==> t in last) && (t in r ==> r[t] == last[t])
    decreases |types|
  {
    if types == [] then last
    else
      var init := types[..|types| - 1];
      var t := types[|types| - 1];
      assert types == init + [t];
      var m := RecordDue(init, last, delay, now);
      if Allowed(last, delay, t, now) then m[t := now] else m
  }

  lemma DistinctStep(s: seq<string>, i: nat)
    requires Distinct(s) && i < |s|
    ensures s[..i + 1] == s[..i] + [s[i]] && s[i] !in s[..i]
  {
    assert s[..i + 1] == s[..i] + [s[i]];
  }

  /** One more type of the snapshot: the plan gains its submission exactly
      when the throttle allowed it, and the record notes `now` for it then. */
  lemma PassStep(types: seq<string>, t: string, pending: map<string, seq<PendingFrame>>,
                 last: map<string, int>, delay: int, now: int)
    requires forall x :: x in types + [t] ==> x in pending && |pending[x]| >= 1
    requires t !in types
    ensures Allowed(RecordDue(types, last, delay, now), delay, t, now) <==> Allowed(last, delay, t, now)
    ensures Plan(types + [t], pending, last, delay, now)
         == Plan(types, pending, last, delay, now)
            + (if Allowed(last, delay, t, now) then [SubmissionOf(t, pending[t][0])] else [])
    ensures RecordDue(types + [t], last, delay, now)
         == if Allowed(last, delay, t, now) then RecordDue(types, last, delay, now)[t := now]
            else RecordDue(types, last, delay, now)
  {
    assert (types + [t])[..|types|] == types;
  }

  class ViolationSubmitter {
    /** `pending_violations`, with its insertion order kept in `order`. */
    var pending: map<string, seq<PendingFrame>>
    var order: seq<string>

    /** The buffer holds exactly the ordered types, each once, and each with
        exactly its latest frame. */
    ghost predicate Valid()
      reads this
    {
      Distinct(order) && (forall t :: t in pending <==> t in order)
      && (forall t :: t in pending ==> |pending[t]| == 1)
    }

    constructor ()
      ensures pending == map[] && order == [] && Valid()
    {
      pending := map[];
      order := [];
    }

    /** `add_violation`: the new frame replaces whatever was pending for its type. */
    method AddViolation(frame: nat, violationType: string, violationCode: string)
      requires Valid()
      modifies this
      ensures Valid()
      ensures pending == old(pending)[violationType :=
        [PendingFrame(frame, violationCode, DetectedNotes(violationType))]]
      ensures order == if violationType in old(pending) then old(order) else old(order) + [violationType]
    {
      if violationType !in pending {
        pending := pending[violationType := []];
        order := order + [violationType];
      }
      var item := PendingFrame(frame, violationCode, DetectedNotes(violationType));
      var before := pending[violationType];
      assert violationType !in old(pending) ==> before + [item] == [item];
      pending := pending[violationType := before + [item]];
      if |pending[violationType]| > 1 {
        var frames := pending[violationType];
        assert frames[|frames| - 1..] == [item];
        pending := pending[violationType := frames[|frames| - 1..]];
      }
    }

    /** `_process_violations`: the buffer is taken and cleared first; then each
        type of the snapshot is submitted once if the throttle allows it, and
        dropped otherwise. */
    method ProcessViolations(queue: ViolationQueue, now: int) returns (subs: seq<Submission>)
      requires Valid()
      modifies this, queue
      ensures pending == map[] && order == [] && Valid()
      ensures subs == Plan(old(order), old(pending), old(queue.last), queue.delay, now)
      ensures queue.last == RecordDue(old(order), old(queue.last), queue.delay, now)
    {
      var snapshot := order;
      var frames := pending;
      var last0 := queue.last;
      pending := map[];
      order := [];
      subs := [];
      var i := 0;
      while i < |snapshot|
        invariant 0 <= i <= |snapshot|
        invariant pending == map[] && order == []
        invariant subs == Plan(snapshot[..i], frames, last0, queue.delay, now)
        invariant queue.last == RecordDue(snapshot[..i], last0, queue.delay, now)
      {
        var t := snapshot[i];
        var done := snapshot[..i];
        DistinctStep(snapshot, i);
        PassStep(done, t, frames, last0, queue.delay, now);
        var ok := queue.CanSubmit(t, now);
        if ok {
          var firstFrames := frames[t][..1];
          subs := subs + [SubmissionOf(t, firstFrames[0])];
        }
        i := i + 1;
      }
      assert snapshot[..i] == snapshot;
    }
  }

  /** The detection filter of the streaming loop: every "no-" class of the frame
      is buffered once under its code. */
  method RecordDetections(submitter: ViolationSubmitter, frame: nat, classNames: seq<string>)
    requires submitter.Valid()
    modifies submitter
    ensures submitter.Valid()
    ensures forall t :: t in submitter.pending <==> t in old(submitter.pending) || (t in classNames && StartsWith(t, ViolationPrefix))
    ensures forall t :: t in classNames && StartsWith(t, ViolationPrefix) ==>
      submitter.pending[t] == [PendingFrame(frame, MapClassNameToCode(t), DetectedNotes(t))]
    ensures forall t :: t in old(submitter.pending) && !(t in classNames && StartsWith(t, ViolationPrefix)) ==>
      submitter.pending[t] == old(submitter.pending[t])
  {
    var found := FindViolationTypes(classNames);
    var i := 0;
    while i < |found|
      invariant 0 <= i <= |found|
      invariant submitter.Valid()
      invariant forall t :: t in submitter.pending <==> t in old(submitter.pending) || t in found[..i]
      invariant forall t :: t in found[..i] ==>
        submitter.pending[t] == [PendingFrame(frame, MapClassNameToCode(t), DetectedNotes(t))]
      invariant forall t :: t in old(submitter.pending) && t !in found[..i] ==>
        submitter.pending[t] == old(submitter.pending[t])
    {
      var t := found[i];
      assert found[..i + 1] == found[..i] + [t];
      submitter.AddViolation(frame, t, MapClassNameToCode(t));
      i := i + 1;
    }
    assert found[..i] == found;
  }

  /** What the backend receives for one submission: the camera code, the notes,
      and the violation code as the only detail field. */
  lemma SubmittedForm(cameraCode: string, t: string, p: PendingFrame)
    ensures var s := SubmissionOf(t, p);
      var data := FormData(cameraCode, s.notes, s.details);
      data.Keys == {"camera_code", "notes", BracketKey(DetailsList, 0, "violation_code")}
      && data[BracketKey(DetailsList, 0, "violation_code")] == TextValue(p.violationCode)
      && data["notes"] == TextValue(p.notes)
  {
    var s := SubmissionOf(t, p);
    var data := FormData(cameraCode, s.notes, s.details);
    var key := BracketKey(DetailsList, 0, "violation_code");
    DetailFieldCarried(s.details, 0, 0);
    forall k | k in DetailFields(s.details) ensures k == key {
      var i, j := DetailFieldOrigin(s.details, k);
    }
  }
}
