/** `TimerSettings` (Domain/ValueObjects/TimerSettings.swift). Durations are whole seconds. */
module Settings {
  import opened Session

  datatype AppTheme = System | Light | Dark | PomodoroRed | ForestGreen | OceanBlue

  datatype TimerSettings = TimerSettings(
    workDuration: int,
    shortBreakDuration: int,
    longBreakDuration: int,
    sessionsUntilLongBreak: int,
    autoStartBreaks: bool,
    autoStartPomodoros: bool,
    soundEnabled: bool,
    notificationsEnabled: bool,
    theme: AppTheme,
    focusModeEnabled: bool,
    tickingSoundEnabled: bool,
    showTimeInMenuBar: bool,
    dailyGoal: int)
  {
    /** `duration(for:)`: the configured length of a session of the given kind. */
    function DurationFor(kind: SessionType): (d: int)
      ensures kind == Work ==> d == workDuration
      ensures kind == ShortBreak ==> d == shortBreakDuration
      ensures kind == LongBreak ==> d == longBreakDuration
    {
      match kind
      case Work => workDuration
      case ShortBreak => shortBreakDuration
      case LongBreak => longBreakDuration
    }
  }

  /** `TimerSettings.default` */
  const Default: TimerSettings := TimerSettings(
    25 * 60, 5 * 60, 15 * 60, 4,
    false, false, true, true,
    System, false, false, true,
    8)

  /** The defaults: 25/5/15 minutes, a long break every 4 work sessions, no auto-start, a goal of 8. */
  lemma DefaultValues()
    ensures Default.DurationFor(Work) == 1500
    ensures Default.DurationFor(ShortBreak) == 300
    ensures Default.DurationFor(LongBreak) == 900
    ensures Default.sessionsUntilLongBreak == 4
    ensures !Default.autoStartBreaks && !Default.autoStartPomodoros
    ensures Default.soundEnabled && Default.notificationsEnabled
    ensures Default.theme == System && !Default.focusModeEnabled
    ensures !Default.tickingSoundEnabled && Default.showTimeInMenuBar
    ensures Default.dailyGoal == 8
  {
  }
}
