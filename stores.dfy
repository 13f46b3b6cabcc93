/**
 * The persistence ports as in-memory stores: `load()` returns the last value saved and
 * `save(_:)` overwrites it (as the UserDefaults adapters do when encoding succeeds).
 */
module Stores {
  import opened Settings
  import opened Statistics
  import opened History
  import opened Tasks

  class SettingsStore {
    var value: TimerSettings

    constructor (initial: TimerSettings)
      ensures value == initial
    {
      value := initial;
    }

    function Load(): TimerSettings
      reads this
    {
      value
    }

    method Save(settings: TimerSettings)
      modifies this
      ensures value == settings
    {
      value := settings;
    }
  }

  class StatisticsStore {
    var value: SessionStatistics

    constructor (initial: SessionStatistics)
      ensures value == initial
    {
      value := initial;
    }

    function Load(): SessionStatistics
      reads this
    {
      value
    }

    method Save(statistics: SessionStatistics)
      modifies this
      ensures value == statistics
    {
      value := statistics;
    }
  }

  class HistoryStore {
    var value: SessionHistory

    constructor (initial: SessionHistory)
      ensures value == initial
    {
      value := initial;
    }

    function Load(): SessionHistory
      reads this
    {
      value
    }

    method Save(history: SessionHistory)
      modifies this
      ensures value == history
    {
      value := history;
    }
  }

  class TaskStore {
    var value: seq<PomodoroTask>

    constructor (initial: seq<PomodoroTask>)
      ensures value == initial
    {
      value := initial;
    }

    function Load(): seq<PomodoroTask>
      reads this
    {
      value
    }

    method Save(tasks: seq<PomodoroTask>)
      modifies this
      ensures value == tasks
    {
      value := tasks;
    }
  }
}
