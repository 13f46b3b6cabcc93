/** `PomodoroTask` and `TaskPriority` (Domain/Entities/Task.swift). */
module Tasks {
  import opened Wrappers
  import opened Units

  datatype TaskPriority = Low | Medium | High {
    /** The `Int` raw value. */
    function RawValue(): int {
      match this
      case Low => 0
      case Medium => 1
      case High => 2
    }

    function Title(): string {
      match this
      case Low => "Low"
      case Medium => "Medium"
      case High => "High"
    }
  }

  /** `TaskPriority(rawValue:)` */
  function PriorityFromRawValue(n: int): (p: Option<TaskPriority>)
    ensures p.Some? <==> 0 <= n <= 2
    ensures p.Some? ==> p.value.RawValue() == n
  {
    if n == 0 then Some(Low) else if n == 1 then Some(Medium) else if n == 2 then Some(High) else None
  }

  /** Raw values are low = 0, medium = 1, high = 2, and they identify the priority. */
  lemma RawValueRoundTrip(p: TaskPriority)
    ensures PriorityFromRawValue(p.RawValue()) == Some(p)
    ensures p.RawValue() == (match p case Low => 0 case Medium => 1 case High => 2)
  {
  }

  datatype PomodoroTask = PomodoroTask(
    id: Uuid,
    title: string,
    notes: string,
    estimatedPomodoros: int,
    completedPomodoros: int,
    isCompleted: bool,
    priority: TaskPriority,
    createdAt: Instant,
    completedAt: Option<Instant>)
  {
    /** `withUpdates(title:notes:estimatedPomodoros:priority:)`: only the supplied fields change. */
    function WithUpdates(newTitle: Option<string>, newNotes: Option<string>, newEstimate: Option<int>,
                         newPriority: Option<TaskPriority>): (t: PomodoroTask)
      ensures t.title == newTitle.GetOr(title) && t.notes == newNotes.GetOr(notes)
      ensures t.estimatedPomodoros == Max(1, newEstimate.GetOr(estimatedPomodoros))
      ensures t.priority == newPriority.GetOr(priority)
      ensures t.id == id && t.completedPomodoros == completedPomodoros && t.isCompleted == isCompleted
      ensures t.createdAt == createdAt && t.completedAt == completedAt
    {
      MakeTask(id, newTitle.GetOr(title), newNotes.GetOr(notes), newEstimate.GetOr(estimatedPomodoros),
               completedPomodoros, isCompleted, newPriority.GetOr(priority), createdAt, completedAt)
    }

    /** `completedPomodoros / estimatedPomodoros`, or 0 when the estimate is not positive. */
    function Progress(): (p: real)
      ensures estimatedPomodoros <= 0 ==> p == 0.0
      ensures 0 <= completedPomodoros <= estimatedPomodoros ==> 0.0 <= p <= 1.0
      ensures 0 < estimatedPomodoros <= completedPomodoros ==> p >= 1.0
    {
      if estimatedPomodoros <= 0 then 0.0
      else
        RatioBounds(completedPomodoros, estimatedPomodoros);
        completedPomodoros as real / estimatedPomodoros as real
    }

    /** `withIncrementedPomodoro()`: one more completed pomodoro, rebuilt through the initialiser. */
    function WithIncrementedPomodoro(): (t: PomodoroTask)
      ensures t.completedPomodoros == completedPomodoros + 1
      ensures t.estimatedPomodoros == Max(1, estimatedPomodoros)
      ensures t == this.(completedPomodoros := t.completedPomodoros, estimatedPomodoros := t.estimatedPomodoros)
      ensures estimatedPomodoros >= 1 ==> t == this.(completedPomodoros := completedPomodoros + 1)
    {
      MakeTask(id, title, notes, estimatedPomodoros, completedPomodoros + 1, isCompleted, priority,
               createdAt, completedAt)
    }

    /** `withCompletion(_:)`: the flag is set and `completedAt` is stamped exactly when it is true. */
    function WithCompletion(completed: bool, now: Instant): (t: PomodoroTask)
      ensures t.isCompleted == completed
      ensures t.completedAt.Some? <==> completed
      ensures completed ==> t.completedAt == Some(now)
      ensures t == this.(isCompleted := completed, completedAt := t.completedAt,
                         estimatedPomodoros := Max(1, estimatedPomodoros))
    {
      MakeTask(id, title, notes, estimatedPomodoros, completedPomodoros, completed, priority,
               createdAt, if completed then Some(now) else None)
    }
  }

  lemma RatioBounds(a: int, b: int)
    requires b > 0
    ensures 0 <= a <= b ==> 0.0 <= a as real / b as real <= 1.0
    ensures a >= b ==> a as real / b as real >= 1.0
  {
    var q := a as real / b as real;
    assert q * b as real == a as real;
  }

  /** The memberwise initialiser: the estimate is stored as `max(1, estimate)`. */
  function MakeTask(id: Uuid, title: string, notes: string, estimate: int, completed: int, isCompleted: bool,
                    priority: TaskPriority, createdAt: Instant, completedAt: Option<Instant>): (t: PomodoroTask)
    ensures t.estimatedPomodoros == Max(1, estimate) && t.estimatedPomodoros >= 1
    ensures t.id == id && t.title == title && t.notes == notes && t.completedPomodoros == completed
    ensures t.isCompleted == isCompleted && t.priority == priority
    ensures t.createdAt == createdAt && t.completedAt == completedAt
  {
    PomodoroTask(id, title, notes, Max(1, estimate), completed, isCompleted, priority, createdAt, completedAt)
  }

  /**
   * The initialiser with its defaults for the fields a caller leaves out: no completed
   * pomodoros, not completed, no completion date, created now.
   */
  function NewTask(id: Uuid, title: string, notes: string, estimate: int, priority: TaskPriority, now: Instant)
    : (t: PomodoroTask)
    ensures t.estimatedPomodoros == Max(1, estimate)
    ensures t.completedPomodoros == 0 && !t.isCompleted && t.completedAt == None
    ensures t.id == id && t.title == title && t.notes == notes && t.priority == priority && t.createdAt == now
  {
    MakeTask(id, title, notes, estimate, 0, false, priority, now, None)
  }

  /** A new task has made no progress. */
  lemma NewTaskNoProgress(id: Uuid, title: string, notes: string, estimate: int, priority: TaskPriority, now: Instant)
    ensures NewTask(id, title, notes, estimate, priority, now).Progress() == 0.0
  {
  }
}
