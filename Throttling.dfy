/** The per-type submission throttle of the detection service
    (yolo-service/modules/violation_queue.py). Time is whole seconds. */
module Throttling {
  import opened Common

  /** VIOLATION_DELAY in yolo-service/config.py. */
  const DefaultDelay := 5

  /** `delay_seconds or config.VIOLATION_DELAY`: None and 0 take the default. */
  function EffectiveDelay(delaySeconds: Option<int>): (d: int)
    ensures delaySeconds.None? || delaySeconds == Some(0) ==> d == DefaultDelay
    ensures delaySeconds.Some? && delaySeconds.value != 0 ==> d == delaySeconds.value
  {
    if delaySeconds.Some? && delaySeconds.value != 0 then delaySeconds.value else DefaultDelay
  }

  /** The last submission time of a type, 0 for a type never seen. */
  function LastOf(last: map<string, int>, violationType: string): int
  {
    if violationType in last then last[violationType] else 0
  }

  /** Whether a submission of the type is allowed at `now`. */
  predicate Allowed(last: map<string, int>, delay: int, violationType: string, now: int)
  {
    now - LastOf(last, violationType) >= delay
  }

  class ViolationQueue {
    const delay: int
    var last: map<string, int>

    constructor (delaySeconds: Option<int>)
      ensures delay == EffectiveDelay(delaySeconds) && last == map[]
    {
      delay := EffectiveDelay(delaySeconds);
      last := map[];
    }

    /** `can_submit`: allowed exactly when the delay has elapsed since the
        type's last submission, and then `now` becomes its last submission. */
    method CanSubmit(violationType: string, now: int) returns (ok: bool)
      modifies this
      ensures ok <==> Allowed(old(last), delay, violationType, now)
      ensures ok ==> last == old(last)[violationType := now]
      ensures !ok ==> last == old(last)
    {
      var lastTime := if violationType in last then last[violationType] else 0;
      if now - lastTime >= delay {
        last := last[violationType := now];
        return true;
      }
      return false;
    }

    /** `get_remaining_time`: seconds until the type may be submitted again. */
    function RemainingTime(violationType: string, now: int): (r: int)
      reads this
      ensures r >= 0
      ensures r == 0 <==> Allowed(last, delay, violationType, now)
      ensures r > 0 ==> r == delay - (now - LastOf(last, violationType))
    {
      var elapsed := now - LastOf(last, violationType);
      if delay - elapsed > 0 then delay - elapsed else 0
    }

    /** `reset`: a truthy type is forgotten alone; None or "" forgets every type. */
    method Reset(violationType: Option<string>)
      modifies this
      ensures violationType.Some? && violationType.value != "" ==> last == old(last) - {violationType.value}
      ensures violationType.None? || violationType == Some("") ==> last == map[]
    {
      if violationType.Some? && violationType.value != "" {
        last := last - {violationType.value};
      } else {
        last := map[];
      }
    }
  }

  /** Types are throttled independently: recording one type leaves every
      other type's allowance unchanged. */
  lemma OtherTypesUnaffected(last: map<string, int>, delay: int, t: string, other: string, now: int, later: int)
    requires other != t
    ensures Allowed(last[t := now], delay, other, later) <==> Allowed(last, delay, other, later)
  {
  }

  /** Right after an allowed submission the same type is refused until the
      delay has passed again (for a positive delay). */
  lemma RefusedRightAfter(last: map<string, int>, delay: int, t: string, now: int, later: int)
    requires delay > 0 && now <= later < now + delay
    ensures !Allowed(last[t := now], delay, t, later)
  {
  }

  /** A type never submitted is allowed at any time at least `delay` after 0. */
  lemma UnseenTypeAllowed(delay: int, t: string, now: int)
    requires now >= delay
    ensures Allowed(map[], delay, t, now)
  {
  }
}
