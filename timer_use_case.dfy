/**
 * The Pomodoro engine `TimerUseCase` (Application/UseCases/TimerUseCase.swift).
 *
 * `Engine` is the engine's whole observable state: its own fields, the values held by the
 * three persistence stores, and the log of sounds and notifications requested. Every
 * operation is first a function on `Engine`; the class `TimerUseCase` performs the same
 * operation step by step and is proved to reach exactly that function's result.
 * The tick source is the flag `ticking` (`timerPort.start()` / `timerPort.stop()`), the
 * clock is the parameter `now`, and the calendar is the parameter `cal`.
 */
module Timer {
  import opened Wrappers
  import opened Units
  import opened Session
  import opened Settings
  import opened Statistics
  import opened History
  import opened Stores

  /**
   * A request to the sound port, or to the notification port to show the notification
   * for the end of a session of kind `about`, whose title and body are `NotificationContent(about)`.
   */
  datatype Effect = SessionCompleteSound | BreakCompleteSound | Notification(about: SessionType)

  datatype Engine = Engine(
    session: PomodoroSession,
    completedWorkSessions: nat,
    currentTaskId: Option<Uuid>,
    currentTaskTitle: Option<string>,
    ticking: bool,
    nextId: Uuid,
    settings: TimerSettings,
    statistics: SessionStatistics,
    history: SessionHistory,
    effects: seq<Effect>)

  /**
   * The engine invariant: the tick source runs exactly while the session is Running, a
   * Completed session is never published, the remaining time never exceeds the duration,
   * and the session's id was drawn before `nextId`.
   */
  predicate Consistent(e: Engine) {
    && (e.ticking <==> e.session.state == Running)
    && e.session.state != Completed
    && e.session.Wellformed()
    && e.session.id < e.nextId
  }

  /**
   * `nextSessionType(after:)`: the kind that follows `kind` and the new value of the work
   * counter. A work session is followed by a long break exactly when the counter has
   * reached the threshold, and only then is the counter reset; a break is followed by work.
   */
  function NextKind(kind: SessionType, counter: nat, threshold: int): (r: (SessionType, nat))
    ensures r.0 == Work <==> kind.IsBreak()
    ensures r.0 == LongBreak <==> kind == Work && counter >= threshold
    ensures r.1 == if r.0 == LongBreak then 0 else counter
  {
    match kind
    case Work => if counter >= threshold then (LongBreak, 0) else (ShortBreak, counter)
    case ShortBreak | LongBreak => (Work, counter)
  }

  /**
   * `shouldAutoStart(after:)`: what follows a work session starts by itself when breaks
   * auto-start, and what follows a break when pomodoros auto-start.
   */
  function ShouldAutoStart(settings: TimerSettings, after: SessionType): (r: bool)
    ensures after == Work ==> (r <==> settings.autoStartBreaks)
    ensures after.IsBreak() ==> (r <==> settings.autoStartPomodoros)
  {
    match after
    case Work => settings.autoStartBreaks
    case ShortBreak | LongBreak => settings.autoStartPomodoros
  }

  /** `notificationContent(for:)`: the (title, body) announced when a session of `kind` ends. */
  function NotificationContent(kind: SessionType): (r: (string, string))
    ensures r.0 != "" && r.1 != ""
    ensures r.0 == "Work Session Complete!" <==> kind == Work
  {
    match kind
    case Work => ("Work Session Complete!", "Time for a break. Great job staying focused!")
    case ShortBreak => ("Break Over", "Ready to get back to work?")
    case LongBreak => ("Long Break Over", "Feeling refreshed? Let's continue!")
  }

  /** Each kind is announced under its own, non-empty title. */
  lemma NotificationTitlesDistinct(a: SessionType, b: SessionType)
    ensures NotificationContent(a).0 != ""
    ensures NotificationContent(a).0 == NotificationContent(b).0 <==> a == b
  {
  }

  /**
   * What `completeSession` asks of the ports: at most one sound (the work chime after work,
   * the break chime after a break) when sound is on, then the kind's notification when
   * notifications are on.
   */
  function CompletionEffects(settings: TimerSettings, kind: SessionType): (r: seq<Effect>)
    ensures |r| == (if settings.soundEnabled then 1 else 0) + (if settings.notificationsEnabled then 1 else 0)
    ensures settings.soundEnabled ==> r[0] == (if kind == Work then SessionCompleteSound else BreakCompleteSound)
    ensures settings.notificationsEnabled ==> r[|r| - 1] == Notification(kind)
  {
    var sound := if settings.soundEnabled then [if kind == Work then SessionCompleteSound else BreakCompleteSound] else [];
    var notice := if settings.notificationsEnabled then [Notification(kind)] else [];
    sound + notice
  }

  /** `handleSettingsChange(_:)`: an Idle session is replaced by a fresh one of the new length. */
  function AfterSettingsChange(e: Engine, s: TimerSettings): (r: Engine)
    ensures e.session.state != Idle ==> r == e
    ensures e.session.state == Idle ==>
      && r.session == Fresh(e.nextId, e.session.kind, s.DurationFor(e.session.kind))
      && r == e.(session := r.session, nextId := e.nextId + 1)
  {
    if e.session.state != Idle then e
    else e.(session := Fresh(e.nextId, e.session.kind, s.DurationFor(e.session.kind)), nextId := e.nextId + 1)
  }

  /** The state right after `init`: a fresh work session, then the settings subscription's first delivery. */
  function Initial(settings: TimerSettings, statistics: SessionStatistics, history: SessionHistory): (r: Engine)
    ensures r.session == Fresh(1, Work, settings.workDuration)
    ensures r.completedWorkSessions == 0 && !r.ticking && r.effects == []
    ensures r.currentTaskId == None && r.currentTaskTitle == None
    ensures r.settings == settings && r.statistics == statistics && r.history == history
    ensures Consistent(r)
  {
    var e := Engine(Fresh(0, Work, settings.workDuration), 0, None, None, false, 1,
                    settings, statistics, history, []);
    AfterSettingsChange(e, settings)
  }

  /** `setCurrentTask(id:title:)` */
  function AfterSetCurrentTask(e: Engine, id: Option<Uuid>, title: Option<string>): (r: Engine)
    ensures r.currentTaskId == id && r.currentTaskTitle == title
    ensures r == e.(currentTaskId := id, currentTaskTitle := title)
  {
    e.(currentTaskId := id, currentTaskTitle := title)
  }

  /** `startSession()` (and `resumeSession()`): Running from wherever it was, tick source on. */
  function AfterStart(e: Engine, now: Instant): (r: Engine)
    ensures r.session.state == Running && r.ticking && r.session.startedAt == Some(now)
    ensures r.session.kind == e.session.kind && r.session.remainingTime == e.session.remainingTime
    ensures r == e.(session := r.session, ticking := true)
  {
    e.(session := e.session.WithState(Running, now), ticking := true)
  }

  /** `pauseSession()`: Paused with its remaining time kept, tick source off. */
  function AfterPause(e: Engine, now: Instant): (r: Engine)
    ensures r.session.state == Paused && !r.ticking
    ensures r.session == e.session.(state := Paused)
    ensures r == e.(session := r.session, ticking := false)
  {
    e.(session := e.session.WithState(Paused, now), ticking := false)
  }

  /** `stopSession()`: back to a fresh Idle work session, and the work counter is cleared. */
  function AfterStop(e: Engine): (r: Engine)
    ensures r.session == Fresh(e.nextId, Work, e.settings.workDuration)
    ensures r.completedWorkSessions == 0 && !r.ticking
    ensures r.statistics == e.statistics && r.history == e.history && r.effects == e.effects
    ensures r == e.(session := r.session, completedWorkSessions := 0, ticking := false, nextId := e.nextId + 1)
  {
    e.(session := Fresh(e.nextId, Work, e.settings.workDuration), completedWorkSessions := 0,
       ticking := false, nextId := e.nextId + 1)
  }

  /** `transitionToNextSession()`: a fresh Idle session of the next kind, at that kind's length. */
  function AfterTransition(e: Engine): (r: Engine)
    ensures var next := NextKind(e.session.kind, e.completedWorkSessions, e.settings.sessionsUntilLongBreak);
      r.session.kind == next.0 && r.completedWorkSessions == next.1
    ensures r.session == Fresh(e.nextId, r.session.kind, e.settings.DurationFor(r.session.kind))
    ensures r == e.(session := r.session, completedWorkSessions := r.completedWorkSessions, nextId := e.nextId + 1)
  {
    var (kind, counter) := NextKind(e.session.kind, e.completedWorkSessions, e.settings.sessionsUntilLongBreak);
    e.(session := Fresh(e.nextId, kind, e.settings.DurationFor(kind)), completedWorkSessions := counter,
       nextId := e.nextId + 1)
  }

  /**
   * `skipSession()`: the tick source stops and the next session is prepared, with no
   * statistics, history, sound or notification and no increment of the work counter.
   */
  function AfterSkip(e: Engine): (r: Engine)
    ensures !r.ticking && r.session.state == Idle
    ensures r.statistics == e.statistics && r.history == e.history && r.effects == e.effects
    ensures r.session.kind == Work <==> e.session.kind.IsBreak()
    ensures var next := NextKind(e.session.kind, e.completedWorkSessions, e.settings.sessionsUntilLongBreak);
      r.session.kind == next.0 && r.completedWorkSessions == next.1
    ensures r.session == Fresh(e.nextId, r.session.kind, e.settings.DurationFor(r.session.kind))
    ensures r == e.(session := r.session, completedWorkSessions := r.completedWorkSessions,
                    ticking := false, nextId := e.nextId + 1)
  {
    AfterTransition(e.(ticking := false))
  }

  /**
   * Skipping is not completing: from a work session one short of the long-break threshold,
   * a completion counts the session and earns the long break, clearing the counter, while a
   * skip leaves the counter alone and goes to a short break.
   */
  lemma SkipEarnsNoLongBreak(e: Engine, now: Instant, cal: Calendar)
    requires e.session.kind == Work && e.completedWorkSessions + 1 == e.settings.sessionsUntilLongBreak
    ensures AfterCompletion(e, now, cal).session.kind == LongBreak
    ensures AfterCompletion(e, now, cal).completedWorkSessions == 0
    ensures AfterSkip(e).session.kind == ShortBreak
    ensures AfterSkip(e).completedWorkSessions == e.completedWorkSessions
  {
  }

  /**
   * Auto-start follows the kind that comes next: after a completion, a break runs at once iff
   * breaks auto-start, and a work session iff pomodoros auto-start.
   */
  lemma AutoStartByNextKind(e: Engine, now: Instant, cal: Calendar)
    ensures var r := AfterCompletion(e, now, cal);
      && (r.session.kind.IsBreak() ==> (r.session.state == Running <==> e.settings.autoStartBreaks))
      && (r.session.kind == Work ==> (r.session.state == Running <==> e.settings.autoStartPomodoros))
  {
  }

  /**
   * A session is active after a start or a pause and inactive after a stop, a skip or a
   * reset; in a consistent engine the tick source runs only for an active session.
   */
  lemma ActiveAfterOperations(e: Engine, now: Instant)
    ensures AfterStart(e, now).session.IsActive() && AfterPause(e, now).session.IsActive()
    ensures !AfterStop(e).session.IsActive() && !AfterSkip(e).session.IsActive()
    ensures !AfterReset(e).session.IsActive()
    ensures Consistent(e) && e.ticking ==> e.session.IsActive()
  {
  }

  /** `resetSession()`: the same kind again, at its full configured length, Idle. */
  function AfterReset(e: Engine): (r: Engine)
    ensures r.session == Fresh(e.nextId, e.session.kind, e.settings.DurationFor(e.session.kind))
    ensures !r.ticking && r.completedWorkSessions == e.completedWorkSessions
    ensures r.statistics == e.statistics && r.history == e.history && r.effects == e.effects
    ensures r == e.(session := r.session, ticking := false, nextId := e.nextId + 1)
  {
    e.(session := Fresh(e.nextId, e.session.kind, e.settings.DurationFor(e.session.kind)),
       ticking := false, nextId := e.nextId + 1)
  }

  /** The history record `completeSession` writes for the session it ends. */
  function CompletionRecord(e: Engine, now: Instant): CompletedSession {
    CompletedSession(e.nextId, e.session.kind, e.session.duration, now, e.currentTaskId, e.currentTaskTitle)
  }

  /**
   * `completeSession()`: statistics and history record the session (full duration, kind,
   * task), the completion effects are requested, a finished work session is counted, the
   * next session is prepared and, if the settings say so, started at once.
   */
  function AfterCompletion(e: Engine, now: Instant, cal: Calendar): (r: Engine)
    ensures r.statistics == e.statistics.WithCompletedSession(e.session.kind, e.session.duration, now)
    ensures r.history == Recorded(e.history, CompletionRecord(e, now), cal)
    ensures r.effects == e.effects + CompletionEffects(e.settings, e.session.kind)
    ensures var next := NextKind(e.session.kind,
                                 e.completedWorkSessions + (if e.session.kind == Work then 1 else 0),
                                 e.settings.sessionsUntilLongBreak);
      r.session.kind == next.0 && r.completedWorkSessions == next.1
    ensures r.session.duration == r.session.remainingTime == e.settings.DurationFor(r.session.kind)
    ensures r.ticking == ShouldAutoStart(e.settings, e.session.kind)
    ensures r.session.state == if r.ticking then Running else Idle
    ensures r.settings == e.settings && r.currentTaskId == e.currentTaskId
    ensures r.currentTaskTitle == e.currentTaskTitle && r.nextId == e.nextId + 2
  {
    var e2 := AfterTransition(Bookkeeping(e, now, cal));
    if ShouldAutoStart(e.settings, e.session.kind) then AfterStart(e2, now) else e2
  }

  /** The part of `completeSession()` before the transition: everything is recorded and requested. */
  function Bookkeeping(e: Engine, now: Instant, cal: Calendar): Engine {
    var done := e.session;
    e.(ticking := false,
       statistics := e.statistics.WithCompletedSession(done.kind, done.duration, now),
       history := Recorded(e.history, CompletionRecord(e, now), cal),
       nextId := e.nextId + 1,
       effects := e.effects + CompletionEffects(e.settings, done.kind),
       completedWorkSessions := e.completedWorkSessions + (if done.kind == Work then 1 else 0))
  }

  /**
   * `tick()`: nothing unless the session is Running; otherwise one second less, and the
   * session completes on the tick that takes it to zero (or below).
   */
  function AfterTick(e: Engine, now: Instant, cal: Calendar): (r: Engine)
    ensures e.session.state != Running ==> r == e
    ensures e.session.state == Running && e.session.remainingTime > 1 ==>
      r == e.(session := e.session.(remainingTime := e.session.remainingTime - 1))
    ensures e.session.state == Running && e.session.remainingTime <= 1 ==> r == AfterCompletion(e, now, cal)
  {
    if e.session.state != Running then e
    else
      var s := e.session.WithRemainingTime(e.session.remainingTime - 1);
      if s.remainingTime <= 0 then AfterCompletion(e, now, cal) else e.(session := s)
  }

  /** Every operation keeps the engine invariant. */
  lemma OperationsKeepConsistent(e: Engine, now: Instant, cal: Calendar, s: TimerSettings,
                                 id: Option<Uuid>, title: Option<string>)
    requires Consistent(e)
    ensures Consistent(AfterStart(e, now)) && Consistent(AfterPause(e, now))
    ensures Consistent(AfterStop(e)) && Consistent(AfterSkip(e)) && Consistent(AfterReset(e))
    ensures Consistent(AfterSettingsChange(e, s)) && Consistent(AfterSetCurrentTask(e, id, title))
    ensures Consistent(AfterCompletion(e, now, cal)) && Consistent(AfterTick(e, now, cal))
  {
  }

  /** Once the tick source is off, a late tick changes nothing. */
  lemma StrayTickIgnored(e: Engine, now: Instant, cal: Calendar)
    requires Consistent(e) && !e.ticking
    ensures AfterTick(e, now, cal) == e
  {
  }

  /** Ticks delivered at the successive instants `nows`. */
  function Ticks(e: Engine, nows: seq<Instant>, cal: Calendar): Engine
    decreases |nows|
  {
    if nows == [] then e else Ticks(AfterTick(e, nows[0], cal), nows[1..], cal)
  }

  /** While time is left, each tick removes exactly one second and touches nothing else. */
  lemma {:induction false} TicksCountDown(e: Engine, nows: seq<Instant>, cal: Calendar)
    requires e.session.state == Running && |nows| < e.session.remainingTime
    ensures Ticks(e, nows, cal) == e.(session := e.session.(remainingTime := e.session.remainingTime - |nows|))
    decreases |nows|
  {
    if nows != [] {
      var e1 := AfterTick(e, nows[0], cal);
      assert e1 == e.(session := e.session.(remainingTime := e.session.remainingTime - 1));
      TicksCountDown(e1, nows[1..], cal);
    }
  }

  /**
   * A Running session with `r` seconds left completes on tick number max(1, r), exactly
   * once: the earlier ticks leave statistics, history and effects as they were.
   */
  lemma CompletesOnLastTick(e: Engine, nows: seq<Instant>, cal: Calendar)
    requires e.session.state == Running && |nows| == Max(1, e.session.remainingTime)
    ensures var before := Ticks(e, nows[..|nows| - 1], cal);
      && before.statistics == e.statistics && before.history == e.history && before.effects == e.effects
      && before.session.state == Running
      && AfterTick(before, nows[|nows| - 1], cal) == AfterCompletion(before, nows[|nows| - 1], cal)
  {
    if e.session.remainingTime >= 1 {
      TicksCountDown(e, nows[..|nows| - 1], cal);
    } else {
      assert nows[..|nows| - 1] == [];
    }
  }

  /** The work counter before work session `j` (from zero) when nothing interrupts the cycle. */
  function Wrap(j: nat, n: int): (c: nat)
    requires n >= 1
    ensures c < n
  {
    if j == 0 then 0
    else
      var w := Wrap(j - 1, n);
      if w + 1 >= n then 0 else w + 1
  }

  lemma {:induction false} WrapWithin(m: nat, c: nat, n: int)
    requires n >= 1 && c < n
    ensures Wrap(m * n + c, n) == c
    decreases m, c
  {
    if c > 0 {
      WrapWithin(m, c - 1, n);
    } else if m > 0 {
      WrapWithin(m - 1, n - 1, n);
      assert m * n == (m - 1) * n + (n - 1) + 1;
    }
  }

  /** The counter is the number of work sessions completed since the last long break: `j % n`. */
  lemma WrapIsMod(j: nat, n: int)
    requires n >= 1
    ensures Wrap(j, n) == j % n
  {
    var m, c := j / n, j % n;
    assert m >= 0;
    WrapWithin(m, c, n);
  }

  /**
   * The kind of session and the work counter after `i` completions from a cleared counter:
   * even positions are work sessions, odd positions the break after work session `i / 2`.
   */
  function CyclePhase(i: nat, n: int): (SessionType, nat)
    requires n >= 1
  {
    var j := i / 2;
    if i % 2 == 0 then (Work, Wrap(j, n))
    else (if Wrap(j, n) == n - 1 then LongBreak else ShortBreak, Wrap(j + 1, n))
  }

  /** One completion moves the cycle one position on. */
  lemma CyclePhaseStep(i: nat, n: int)
    requires n >= 1
    ensures var p := CyclePhase(i, n);
      NextKind(p.0, p.1 + (if p.0 == Work then 1 else 0), n) == CyclePhase(i + 1, n)
  {
    if i % 2 == 1 {
      assert (i + 1) / 2 == i / 2 + 1;
    } else {
      assert (i + 1) / 2 == i / 2;
    }
  }

  /** `run` is a sequence of engine states, each the completion (at `nows[i]`) of the one before. */
  predicate CompletionRun(run: seq<Engine>, nows: seq<Instant>, cal: Calendar) {
    && |run| == |nows| + 1
    && forall i :: 0 <= i < |nows| ==> run[i + 1] == AfterCompletion(run[i], nows[i], cal)
  }

  /** Each completion moves kind and counter as `NextKind` says and keeps the settings. */
  lemma CompletionPhase(e: Engine, now: Instant, cal: Calendar)
    ensures var r := AfterCompletion(e, now, cal);
      && (r.session.kind, r.completedWorkSessions)
         == NextKind(e.session.kind, e.completedWorkSessions + (if e.session.kind == Work then 1 else 0),
                     e.settings.sessionsUntilLongBreak)
      && r.settings == e.settings
  {
  }

  /**
   * Starting from a work session with a cleared counter, completing sessions one after
   * another alternates work and breaks for ever, and every `n`-th work session
   * (`n` = `sessionsUntilLongBreak` >= 1) is followed by a long break, the others by a
   * short one; the counter is back to zero after each long break.
   */
  lemma {:induction false} CompletionCycle(run: seq<Engine>, nows: seq<Instant>, cal: Calendar, i: nat)
    requires CompletionRun(run, nows, cal) && i < |run|
    requires run[0].session.kind == Work && run[0].completedWorkSessions == 0
    requires run[0].settings.sessionsUntilLongBreak >= 1
    ensures run[i].settings == run[0].settings
    ensures (run[i].session.kind, run[i].completedWorkSessions)
         == CyclePhase(i, run[0].settings.sessionsUntilLongBreak)
  {
    if i > 0 {
      CompletionCycle(run, nows, cal, i - 1);
      CompletionPhase(run[i - 1], nows[i - 1], cal);
      CyclePhaseStep(i - 1, run[0].settings.sessionsUntilLongBreak);
    }
  }

  /** The consequence for the breaks: after work session `j` (from zero) the break is long iff `j % n == n - 1`. */
  lemma LongBreakEveryNthWork(run: seq<Engine>, nows: seq<Instant>, cal: Calendar, j: nat)
    requires CompletionRun(run, nows, cal) && 2 * j + 1 < |run|
    requires run[0].session.kind == Work && run[0].completedWorkSessions == 0
    requires run[0].settings.sessionsUntilLongBreak >= 1
    ensures run[2 * j].session.kind == Work
    ensures run[2 * j + 1].session.kind
         == if j % run[0].settings.sessionsUntilLongBreak == run[0].settings.sessionsUntilLongBreak - 1
            then LongBreak else ShortBreak
  {
    CompletionCycle(run, nows, cal, 2 * j);
    CompletionCycle(run, nows, cal, 2 * j + 1);
    assert (2 * j + 1) / 2 == j && (2 * j) / 2 == j;
    WrapIsMod(j, run[0].settings.sessionsUntilLongBreak);
  }

  class TimerUseCase {
    const settingsStore: SettingsStore
    const statisticsStore: StatisticsStore
    const historyStore: HistoryStore
    var session: PomodoroSession
    var completedWorkSessions: nat
    var currentTaskId: Option<Uuid>
    var currentTaskTitle: Option<string>
    var ticking: bool
    var nextId: Uuid
    var effects: seq<Effect>

    function State(): Engine
      reads this, settingsStore, statisticsStore, historyStore
    {
      Engine(session, completedWorkSessions, currentTaskId, currentTaskTitle, ticking, nextId,
             settingsStore.value, statisticsStore.value, historyStore.value, effects)
    }

    ghost predicate Valid()
      reads this, settingsStore, statisticsStore, historyStore
    {
      Consistent(State())
    }

    constructor (settingsStore: SettingsStore, statisticsStore: StatisticsStore, historyStore: HistoryStore)
      ensures this.settingsStore == settingsStore && this.statisticsStore == statisticsStore
      ensures this.historyStore == historyStore
      ensures State() == Initial(settingsStore.value, statisticsStore.value, historyStore.value)
      ensures Valid()
    {
      this.settingsStore := settingsStore;
      this.statisticsStore := statisticsStore;
      this.historyStore := historyStore;
      var settings := settingsStore.Load();
      session := Fresh(0, Work, settings.workDuration);
      completedWorkSessions := 0;
      currentTaskId := None;
      currentTaskTitle := None;
      ticking := false;
      nextId := 1;
      effects := [];
      new;
      HandleSettingsChange(settingsStore.Load());
    }

    /** `UUID()`: a new identifier, distinct from every one drawn before. */
    method FreshId() returns (id: Uuid)
      modifies this`nextId
      ensures id == old(nextId) && nextId == old(nextId) + 1
    {
      id := nextId;
      nextId := nextId + 1;
    }

    method SetCurrentTask(id: Option<Uuid>, title: Option<string>)
      modifies this`currentTaskId, this`currentTaskTitle
      ensures State() == AfterSetCurrentTask(old(State()), id, title)
    {
      currentTaskId := id;
      currentTaskTitle := title;
    }

    method HandleSettingsChange(settings: TimerSettings)
      modifies this`session, this`nextId
      ensures State() == AfterSettingsChange(old(State()), settings)
    {
      var currentSession := session;
      if currentSession.state != Idle {
        return;
      }
      var newDuration := settings.DurationFor(currentSession.kind);
      var id := FreshId();
      session := Fresh(id, currentSession.kind, newDuration);
    }

    method Tick(now: Instant, cal: Calendar)
      modifies this, statisticsStore, historyStore
      ensures State() == AfterTick(old(State()), now, cal)
    {
      var s := session;
      if s.state != Running {
        return;
      }
      s := s.WithRemainingTime(s.remainingTime - 1);
      if s.remainingTime <= 0 {
        CompleteSession(now, cal);
      } else {
        session := s;
      }
    }

    method StartSession(now: Instant)
      modifies this`session, this`ticking
      ensures State() == AfterStart(old(State()), now)
    {
      var s := session;
      s := s.WithState(Running, now);
      session := s;
      ticking := true;
    }

    method PauseSession(now: Instant)
      modifies this`session, this`ticking
      ensures State() == AfterPause(old(State()), now)
    {
      var s := session;
      s := s.WithState(Paused, now);
      session := s;
      ticking := false;
    }

    method ResumeSession(now: Instant)
      modifies this`session, this`ticking
      ensures State() == AfterStart(old(State()), now)
    {
      StartSession(now);
    }

    method StopSession()
      modifies this`session, this`ticking, this`completedWorkSessions, this`nextId
      ensures State() == AfterStop(old(State()))
    {
      ticking := false;
      var settings := settingsStore.Load();
      var id := FreshId();
      session := Fresh(id, Work, settings.workDuration);
      completedWorkSessions := 0;
    }

    method SkipSession()
      modifies this`session, this`ticking, this`completedWorkSessions, this`nextId
      ensures State() == AfterSkip(old(State()))
    {
      ticking := false;
      TransitionToNextSession();
    }

    method ResetSession()
      modifies this`session, this`ticking, this`nextId
      ensures State() == AfterReset(old(State()))
    {
      ticking := false;
      var currentSession := session;
      var settings := settingsStore.Load();
      var duration := settings.DurationFor(currentSession.kind);
      var id := FreshId();
      session := Fresh(id, currentSession.kind, duration);
    }

    method CompleteSession(now: Instant, cal: Calendar)
      modifies this, statisticsStore, historyStore
      ensures State() == AfterCompletion(old(State()), now, cal)
    {
      var completed := session;
      RecordCompletion(now, cal);
      TransitionToNextSession();
      if ShouldAutoStart(settingsStore.Load(), completed.kind) {
        StartSession(now);
      }
    }

    /** The first part of `completeSession()`: statistics, history, sound, notification, counter. */
    method RecordCompletion(now: Instant, cal: Calendar)
      modifies this`ticking, this`nextId, this`effects, this`completedWorkSessions
      modifies statisticsStore, historyStore
      ensures State() == Bookkeeping(old(State()), now, cal)
    {
      ghost var before := State();
      ticking := false;
      var completed := session;

      UpdateStatistics(completed, now);
      var recordId := FreshId();
      var record := CompletedSession(recordId, completed.kind, completed.duration, now,
                                     currentTaskId, currentTaskTitle);
      assert record == CompletionRecord(before, now);
      UpdateHistory(record, cal);
      AnnounceCompletion(completed.kind);
      if completed.kind == Work {
        completedWorkSessions := completedWorkSessions + 1;
      }
      assert statisticsStore.value == Bookkeeping(before, now, cal).statistics;
      assert historyStore.value == Bookkeeping(before, now, cal).history;
      assert effects == Bookkeeping(before, now, cal).effects;
    }

    /** Load, credit and save the statistics. */
    method UpdateStatistics(completed: PomodoroSession, now: Instant)
      modifies statisticsStore
      ensures statisticsStore.value
           == old(statisticsStore.value).WithCompletedSession(completed.kind, completed.duration, now)
    {
      var statistics := statisticsStore.Load();
      statistics := statistics.WithCompletedSession(completed.kind, completed.duration, now);
      statisticsStore.Save(statistics);
    }

    /** Load, append to and save the history. */
    method UpdateHistory(record: CompletedSession, cal: Calendar)
      modifies historyStore
      ensures historyStore.value == Recorded(old(historyStore.value), record, cal)
    {
      var history := historyStore.Load();
      history := AddCompletedSession(history, record, cal);
      historyStore.Save(history);
    }

    /** The sound and the notification `completeSession()` requests, as the settings allow. */
    method AnnounceCompletion(kind: SessionType)
      modifies this`effects
      ensures effects == old(effects) + CompletionEffects(settingsStore.value, kind)
    {
      var settings := settingsStore.Load();
      if settings.soundEnabled {
        if kind == Work {
          effects := effects + [SessionCompleteSound];
        } else {
          effects := effects + [BreakCompleteSound];
        }
      }
      if settings.notificationsEnabled {
        effects := effects + [Notification(kind)];
      }
    }

    method TransitionToNextSession()
      modifies this`session, this`completedWorkSessions, this`nextId
      ensures State() == AfterTransition(old(State()))
    {
      var currentSession := session;
      var settings := settingsStore.Load();
      var nextType := NextSessionType(currentSession.kind);
      var duration := settings.DurationFor(nextType);
      var id := FreshId();
      session := Fresh(id, nextType, duration);
    }

    method NextSessionType(after: SessionType) returns (next: SessionType)
      modifies this`completedWorkSessions
      ensures (next, completedWorkSessions)
           == NextKind(after, old(completedWorkSessions), settingsStore.value.sessionsUntilLongBreak)
    {
      var settings := settingsStore.Load();
      match after
      case Work =>
        if completedWorkSessions >= settings.sessionsUntilLongBreak {
          completedWorkSessions := 0;
          return LongBreak;
        }
        return ShortBreak;
      case ShortBreak | LongBreak =>
        return Work;
    }
  }
}
