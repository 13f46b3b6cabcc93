/**
 * The timer's view model: the mirrored session and settings, the clock text and control flags
 * derived from the session, and the commands it forwards to the timer use case.
 */
module TimerPresentation {
  import opened Wrappers
  import opened Units
  import opened Strings
  import opened Session
  import opened Settings
  import opened Timer
  import opened Validation

  /** `displayTime`: whole minutes and seconds of the remaining time, each as `%02d`. */
  function DisplayTime(session: PomodoroSession): string {
    FormattedTimer(session.remainingTime as real)
  }

  /** Under 100 minutes the clock shows MM:SS, and the two fields read back as the remaining seconds. */
  lemma DisplayTimeReadsBack(session: PomodoroSession)
    requires 0 <= session.remainingTime < 6000
    ensures var r := DisplayTime(session);
      && |r| == 5 && r[2] == ':' && DigitsValue(r[3..]) < 60
      && DigitsValue(r[..2]) * 60 + DigitsValue(r[3..]) == session.remainingTime
  {
    FormattedTimerReadsBack(session.remainingTime as real);
  }

  /** A fresh session of the default work length shows 25:00. */
  lemma InitialDisplay(id: Uuid)
    ensures DisplayTime(Fresh(id, Work, Default.workDuration)) == "25:00"
  {
    DefaultValues();
    var r := DisplayTime(Fresh(id, Work, Default.workDuration));
    DisplayTimeReadsBack(Fresh(id, Work, Default.workDuration));
    assert Pad2(25) == "25" && Pad2(0) == "00";
  }

  /** `isRunning`: a running session is active, and neither paused nor idle. */
  predicate IsRunning(session: PomodoroSession): (r: bool)
    ensures r ==> session.IsActive() && session.state != Paused && session.state != Idle
  {
    session.state == Running
  }

  /** `isPaused`: a paused session is active, and not idle. */
  predicate IsPaused(session: PomodoroSession): (r: bool)
    ensures r ==> session.IsActive() && session.state != Idle
  {
    session.state == Paused
  }

  /** `isIdle`: an idle session is inactive. */
  predicate IsIdle(session: PomodoroSession): (r: bool)
    ensures r ==> !session.IsActive()
  {
    session.state == Idle
  }

  /** `canStart`: an idle or paused session can be started. */
  predicate CanStart(session: PomodoroSession): (r: bool)
    ensures r <==> IsIdle(session) || IsPaused(session)
  {
    session.state == Idle || session.state == Paused
  }

  /** `canPause`: only a running session can be paused. */
  predicate CanPause(session: PomodoroSession): (r: bool)
    ensures r <==> IsRunning(session)
  {
    session.state == Running
  }

  /**
   * At most one of running, paused and idle holds. The start and pause controls are never
   * offered together, and a completed session offers
   * neither; after a start only pause is offered, after a pause or a stop only start.
   */
  lemma ControlsFollowState(e: Engine, now: Instant)
    ensures !(IsRunning(e.session) && IsPaused(e.session)) && !(IsRunning(e.session) && IsIdle(e.session))
    ensures !(IsPaused(e.session) && IsIdle(e.session))
    ensures !(CanStart(e.session) && CanPause(e.session))
    ensures e.session.state == Completed ==> !CanStart(e.session) && !CanPause(e.session)
    ensures CanStart(e.session) <==> IsIdle(e.session) || IsPaused(e.session)
    ensures CanPause(AfterStart(e, now).session) && !CanStart(AfterStart(e, now).session)
    ensures CanStart(AfterPause(e, now).session) && !CanPause(AfterPause(e, now).session)
    ensures IsIdle(AfterStop(e).session) && IsIdle(AfterSkip(e).session) && IsIdle(AfterReset(e).session)
  {
  }

  /**
   * `toggleTimer()`: the use case pauses when the view model's own copy of the session is
   * running and starts otherwise.
   */
  function Toggled(e: Engine, shown: PomodoroSession, now: Instant): (r: Engine)
    ensures IsRunning(shown) ==> r.session.state == Paused && !r.ticking
    ensures !IsRunning(shown) ==> r.session.state == Running && r.ticking && r.session.startedAt == Some(now)
    ensures r.session.kind == e.session.kind && r.session.remainingTime == e.session.remainingTime
    ensures r.statistics == e.statistics && r.history == e.history && r.nextId == e.nextId
  {
    if IsRunning(shown) then AfterPause(e, now) else AfterStart(e, now)
  }

  /** While the copy is in step with the use case, each toggle flips running, keeping the time left. */
  lemma ToggleFlips(e: Engine, now: Instant, later: Instant)
    ensures IsRunning(Toggled(e, e.session, now).session) <==> !IsRunning(e.session)
    ensures var once := Toggled(e, e.session, now);
      var twice := Toggled(once, once.session, later);
      && (IsRunning(twice.session) <==> IsRunning(e.session))
      && twice.session.remainingTime == e.session.remainingTime
  {
  }

  class TimerViewModel {
    const timerUseCase: TimerUseCase
    /** The last session and settings the use case published. */
    var session: PomodoroSession
    var settings: TimerSettings

    /**
     * Until the first publication arrives: the default settings and a fresh work session of
     * the default length, under an identifier drawn by the caller.
     */
    constructor (timerUseCase: TimerUseCase, initialId: Uuid)
      ensures this.timerUseCase == timerUseCase
      ensures settings == Default && session == Fresh(initialId, Work, Default.workDuration)
      ensures session.remainingTime == 1500 && IsIdle(session)
    {
      DefaultValues();
      this.timerUseCase := timerUseCase;
      settings := Default;
      session := Fresh(initialId, Work, Default.workDuration);
    }

    /** The subscription to the use case's session. */
    method ReceiveSession(published: PomodoroSession)
      modifies this`session
      ensures session == published
    {
      session := published;
    }

    /** The subscription to the use case's settings. */
    method ReceiveSettings(published: TimerSettings)
      modifies this`settings
      ensures settings == published
    {
      settings := published;
    }

    /** `startTimer()`, forwarded to `startSession()`. */
    method StartTimer(now: Instant)
      modifies timerUseCase`session, timerUseCase`ticking
      ensures timerUseCase.State() == AfterStart(old(timerUseCase.State()), now)
    {
      timerUseCase.StartSession(now);
    }

    /** `pauseTimer()`, forwarded to `pauseSession()`. */
    method PauseTimer(now: Instant)
      modifies timerUseCase`session, timerUseCase`ticking
      ensures timerUseCase.State() == AfterPause(old(timerUseCase.State()), now)
    {
      timerUseCase.PauseSession(now);
    }

    /** `resumeTimer()`, forwarded to `resumeSession()`. */
    method ResumeTimer(now: Instant)
      modifies timerUseCase`session, timerUseCase`ticking
      ensures timerUseCase.State() == AfterStart(old(timerUseCase.State()), now)
    {
      timerUseCase.ResumeSession(now);
    }

    /** `stopTimer()`, forwarded to `stopSession()`. */
    method StopTimer()
      modifies timerUseCase`session, timerUseCase`ticking, timerUseCase`completedWorkSessions, timerUseCase`nextId
      ensures timerUseCase.State() == AfterStop(old(timerUseCase.State()))
    {
      timerUseCase.StopSession();
    }

    /** `skipSession()`, forwarded. */
    method SkipSession()
      modifies timerUseCase`session, timerUseCase`ticking, timerUseCase`completedWorkSessions, timerUseCase`nextId
      ensures timerUseCase.State() == AfterSkip(old(timerUseCase.State()))
    {
      timerUseCase.SkipSession();
    }

    /** `resetSession()`, forwarded. */
    method ResetSession()
      modifies timerUseCase`session, timerUseCase`ticking, timerUseCase`nextId
      ensures timerUseCase.State() == AfterReset(old(timerUseCase.State()))
    {
      timerUseCase.ResetSession();
    }

    /** `toggleTimer()`: decided on this view model's copy of the session, not the use case's. */
    method ToggleTimer(now: Instant)
      modifies timerUseCase`session, timerUseCase`ticking
      ensures timerUseCase.State() == Toggled(old(timerUseCase.State()), session, now)
      ensures session == old(session)
    {
      if session.state == Running {
        PauseTimer(now);
      } else {
        StartTimer(now);
      }
    }
  }
}
