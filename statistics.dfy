/** `SessionStatistics` (Domain/ValueObjects/SessionStatistics.swift). */
module Statistics {
  import opened Wrappers
  import opened Units
  import opened Session

  datatype SessionStatistics = SessionStatistics(
    totalWorkSessions: int,
    totalWorkMinutes: int,
    totalBreakMinutes: int,
    currentStreak: int,
    longestStreak: int,
    lastSessionDate: Option<Instant>)
  {
    /** `withCompletedSession(type:duration:)`, with the clock read as `now`. */
    function WithCompletedSession(kind: SessionType, duration: int, now: Instant): (r: SessionStatistics)
      ensures kind == Work ==>
        && r.totalWorkSessions == totalWorkSessions + 1
        && r.totalWorkMinutes == totalWorkMinutes + WholeMinutes(duration)
        && r.currentStreak == currentStreak + 1
        && r.longestStreak == Max(longestStreak, currentStreak + 1)
        && r.totalBreakMinutes == totalBreakMinutes
      ensures kind != Work ==>
        && r.totalBreakMinutes == totalBreakMinutes + WholeMinutes(duration)
        && r.totalWorkSessions == totalWorkSessions && r.totalWorkMinutes == totalWorkMinutes
        && r.currentStreak == currentStreak && r.longestStreak == longestStreak
      ensures kind == Work ==> r.longestStreak >= r.currentStreak
      ensures r.lastSessionDate == Some(now)
    {
      var minutes := WholeMinutes(duration);
      match kind
      case Work =>
        var streak := currentStreak + 1;
        this.(totalWorkSessions := totalWorkSessions + 1,
              totalWorkMinutes := totalWorkMinutes + minutes,
              currentStreak := streak,
              longestStreak := Max(longestStreak, streak),
              lastSessionDate := Some(now))
      case ShortBreak | LongBreak =>
        this.(totalBreakMinutes := totalBreakMinutes + minutes, lastSessionDate := Some(now))
    }

    /** The streak invariant. */
    predicate StreakOk() {
      longestStreak >= currentStreak
    }
  }

  /** `SessionStatistics.empty` */
  const Empty: SessionStatistics := SessionStatistics(0, 0, 0, 0, 0, None)

  /** One completion as the engine applies it: kind, full duration and completion instant. */
  datatype Completion = Completion(kind: SessionType, duration: int, at: Instant)

  /** The statistics after applying the completions in order. */
  function ApplyAll(s: SessionStatistics, cs: seq<Completion>): SessionStatistics {
    if cs == [] then s
    else
      var c := cs[|cs| - 1];
      ApplyAll(s, cs[..|cs| - 1]).WithCompletedSession(c.kind, c.duration, c.at)
  }

  function WorkCount(cs: seq<Completion>): nat {
    if cs == [] then 0 else WorkCount(cs[..|cs| - 1]) + (if cs[|cs| - 1].kind == Work then 1 else 0)
  }

  /** No counter decreases under a completion of non-negative duration. */
  lemma CompletionIsMonotone(s: SessionStatistics, kind: SessionType, duration: int, now: Instant)
    requires duration >= 0
    ensures var r := s.WithCompletedSession(kind, duration, now);
      && r.totalWorkSessions >= s.totalWorkSessions
      && r.totalWorkMinutes >= s.totalWorkMinutes
      && r.totalBreakMinutes >= s.totalBreakMinutes
      && r.currentStreak >= s.currentStreak
      && r.longestStreak >= s.longestStreak
  {
  }

  /**
   * From the empty value, any sequence of completions keeps `longestStreak >= currentStreak`,
   * counts every work completion in both `totalWorkSessions` and `currentStreak`, and a sequence
   * without work completions leaves the streak at zero.
   */
  lemma {:induction false} StreakAfterCompletions(cs: seq<Completion>)
    ensures var r := ApplyAll(Empty, cs);
      && r.StreakOk()
      && r.totalWorkSessions == WorkCount(cs)
      && r.currentStreak == WorkCount(cs)
      && r.longestStreak == WorkCount(cs)
      && (cs != [] ==> r.lastSessionDate == Some(cs[|cs| - 1].at))
  {
    if cs != [] {
      StreakAfterCompletions(cs[..|cs| - 1]);
    }
  }
}
