/** `PomodoroSession` and its kind and lifecycle state (Domain/Entities/PomodoroSession.swift). */
module Session {
  import opened Wrappers
  import opened Units

  datatype SessionType = Work | ShortBreak | LongBreak {
    /** The raw value shown as the session title. */
    function RawValue(): string {
      match this
      case Work => "Work"
      case ShortBreak => "Short Break"
      case LongBreak => "Long Break"
    }

    predicate IsBreak() {
      this != Work
    }
  }

  datatype SessionState = Idle | Running | Paused | Completed

  /**
   * One timed interval. `duration` and `remainingTime` are whole seconds;
   * `startedAt` is stamped when the session enters Running.
   */
  datatype PomodoroSession = PomodoroSession(
    id: Uuid,
    kind: SessionType,
    duration: int,
    remainingTime: int,
    state: SessionState,
    startedAt: Option<Instant>)
  {
    /** `1 - remainingTime / duration`, or 0 for a non-positive duration. */
    function Progress(): (p: real)
      ensures duration <= 0 ==> p == 0.0
      ensures 0 <= remainingTime <= duration ==> 0.0 <= p <= 1.0
      ensures duration > 0 ==> (p == 0.0 <==> remainingTime == duration)
      ensures duration > 0 ==> (p == 1.0 <==> remainingTime == 0)
    {
      if duration <= 0 then 0.0
      else
        ProgressBounds(remainingTime, duration);
        1.0 - remainingTime as real / duration as real
    }

    /** `isActive`: Running or Paused; the inactive sessions are exactly the Idle and the Completed ones. */
    predicate IsActive(): (r: bool)
      ensures !r <==> state == Idle || state == Completed
    {
      state == Running || state == Paused
    }

    /** The invariant every session the engine publishes keeps. */
    predicate Wellformed() {
      remainingTime <= duration
    }

    /** A copy with `remainingTime` set to `max(0, time)`. */
    function WithRemainingTime(time: int): (s: PomodoroSession)
      ensures s.remainingTime == Max(0, time) && s.remainingTime >= 0
      ensures s.id == id && s.kind == kind && s.duration == duration
      ensures s.state == state && s.startedAt == startedAt
      ensures time <= duration && duration >= 0 ==> s.Wellformed()
    {
      this.(remainingTime := Max(0, time))
    }

    /** A copy in state `newState`; the clock is read (as `now`) only when entering Running. */
    function WithState(newState: SessionState, now: Instant): (s: PomodoroSession)
      ensures s.state == newState
      ensures s.startedAt == if newState == Running then Some(now) else startedAt
      ensures s.id == id && s.kind == kind && s.duration == duration && s.remainingTime == remainingTime
      ensures s.IsActive() <==> newState == Running || newState == Paused
    {
      this.(state := newState, startedAt := if newState == Running then Some(now) else startedAt)
    }
  }

  lemma ProgressBounds(remaining: int, duration: int)
    requires duration > 0
    ensures 0 <= remaining <= duration ==> 0.0 <= remaining as real / duration as real <= 1.0
    ensures remaining as real / duration as real == 1.0 <==> remaining == duration
    ensures remaining as real / duration as real == 0.0 <==> remaining == 0
  {
    var q := remaining as real / duration as real;
    assert q * duration as real == remaining as real;
  }

  /** `PomodoroSession(type:duration:)`: the remaining time is the full duration, Idle, never started. */
  function Fresh(id: Uuid, kind: SessionType, duration: int): (s: PomodoroSession)
    ensures s.id == id && s.kind == kind && s.duration == duration
    ensures s.remainingTime == duration && s.state == Idle && s.startedAt == None
    ensures s.Wellformed() && !s.IsActive()
  {
    PomodoroSession(id, kind, duration, duration, Idle, None)
  }

  /** A fresh session has made no progress. */
  lemma FreshNoProgress(id: Uuid, kind: SessionType, duration: int)
    ensures Fresh(id, kind, duration).Progress() == 0.0
  {
  }
}
