/**
 * SettingsUseCase: writes timer settings through the settings store and keeps the
 * published statistics in step with the statistics store.
 */
module SettingsCoordinator {
  import opened Settings
  import opened Statistics
  import opened Session
  import opened Stores

  class SettingsUseCase {
    const settingsStore: SettingsStore
    const statisticsStore: StatisticsStore
    /** The statistics subject's current value. */
    var statistics: SessionStatistics

    /**
     * The published statistics agree with what the store holds. This holds after construction
     * and after a reset, but not in general: the timer saves every completion to the same
     * statistics store without touching this subject.
     */
    ghost predicate Valid()
      reads this, statisticsStore
    {
      statistics == statisticsStore.value
    }

    /** The subject starts from what the statistics store loads. */
    constructor (settingsStore: SettingsStore, statisticsStore: StatisticsStore)
      ensures this.settingsStore == settingsStore && this.statisticsStore == statisticsStore
      ensures statistics == statisticsStore.Load()
      ensures Valid()
    {
      this.settingsStore := settingsStore;
      this.statisticsStore := statisticsStore;
      statistics := statisticsStore.Load();
    }

    /** Saves exactly the given settings; statistics are untouched. */
    method UpdateSettings(settings: TimerSettings)
      modifies settingsStore
      ensures settingsStore.Load() == settings
    {
      settingsStore.Save(settings);
    }

    /** Restores the default settings. */
    method ResetSettings()
      modifies settingsStore
      ensures settingsStore.Load() == Default
      ensures settingsStore.Load().DurationFor(Work) == 1500
      ensures settingsStore.Load().sessionsUntilLongBreak == 4
    {
      settingsStore.Save(Default);
      DefaultValues();
    }

    /** Saves and publishes the empty statistics; settings are untouched. */
    method ResetStatistics()
      modifies this`statistics, statisticsStore
      ensures statisticsStore.Load() == Empty && statistics == Empty
      ensures statistics.totalWorkSessions == 0 && statistics.currentStreak == 0
      ensures Valid()
    {
      statisticsStore.Save(Empty);
      statistics := Empty;
    }
  }
}
