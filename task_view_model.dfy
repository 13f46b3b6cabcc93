/**
 * The task list's view model: the totals shown under the list, the add-task form and the
 * commands it forwards to the task use case.
 */
module TaskPresentation {
  import opened Wrappers
  import opened Units
  import opened Strings
  import opened Tasks
  import opened TaskCoordinator

  /** `reduce(0) { $0 + $1.estimatedPomodoros }` over a list. */
  function SumEstimates(tasks: seq<PomodoroTask>): int {
    if tasks == [] then 0 else tasks[0].estimatedPomodoros + SumEstimates(tasks[1..])
  }

  /** `reduce(0) { $0 + $1.completedPomodoros }` over a list. */
  function SumCompleted(tasks: seq<PomodoroTask>): int {
    if tasks == [] then 0 else tasks[0].completedPomodoros + SumCompleted(tasks[1..])
  }

  /** `hasCompletedTasks`: the completed part is not empty, that is, some task is completed. */
  function HasCompletedTasks(tasks: seq<PomodoroTask>): (r: bool)
    ensures r <==> exists t :: t in tasks && t.isCompleted
  {
    PartitionMembers(tasks);
    assert Completed(tasks) != [] ==> Completed(tasks)[0] in Completed(tasks);
    Completed(tasks) != []
  }

  /** `totalEstimatedPomodoros`: the estimates of the pending tasks only. */
  function TotalEstimatedPomodoros(tasks: seq<PomodoroTask>): (r: int)
    ensures r == SumEstimates(tasks) - SumEstimates(Completed(tasks))
  {
    EstimatesSplit(tasks);
    SumEstimates(Pending(tasks))
  }

  /** `totalCompletedPomodoros`: the completed pomodoros of every task, pending or not. */
  function TotalCompletedPomodoros(tasks: seq<PomodoroTask>): (r: int)
    ensures r == SumCompleted(Pending(tasks)) + SumCompleted(Completed(tasks))
  {
    CompletedSplit(tasks);
    SumCompleted(tasks)
  }

  lemma {:induction false} SumEstimatesAppend(a: seq<PomodoroTask>, b: seq<PomodoroTask>)
    ensures SumEstimates(a + b) == SumEstimates(a) + SumEstimates(b)
  {
    if a == [] {
      assert a + b == b;
    } else {
      assert (a + b)[0] == a[0] && (a + b)[1..] == a[1..] + b;
      SumEstimatesAppend(a[1..], b);
    }
  }

  lemma {:induction false} SumCompletedAppend(a: seq<PomodoroTask>, b: seq<PomodoroTask>)
    ensures SumCompleted(a + b) == SumCompleted(a) + SumCompleted(b)
  {
    if a == [] {
      assert a + b == b;
    } else {
      assert (a + b)[0] == a[0] && (a + b)[1..] == a[1..] + b;
      SumCompletedAppend(a[1..], b);
    }
  }

  /** The estimates of the pending and of the completed tasks add up to those of the whole list. */
  lemma {:induction false} EstimatesSplit(tasks: seq<PomodoroTask>)
    ensures SumEstimates(Pending(tasks)) + SumEstimates(Completed(tasks)) == SumEstimates(tasks)
  {
    if tasks != [] {
      EstimatesSplit(tasks[1..]);
      var head := if tasks[0].isCompleted then [] else [tasks[0]];
      var done := if tasks[0].isCompleted then [tasks[0]] else [];
      SumEstimatesAppend(head, Pending(tasks[1..]));
      SumEstimatesAppend(done, Completed(tasks[1..]));
      assert SumEstimates([tasks[0]]) == tasks[0].estimatedPomodoros by {
        assert [tasks[0]][1..] == [];
      }
    }
  }

  lemma {:induction false} CompletedSplit(tasks: seq<PomodoroTask>)
    ensures SumCompleted(Pending(tasks)) + SumCompleted(Completed(tasks)) == SumCompleted(tasks)
  {
    if tasks != [] {
      CompletedSplit(tasks[1..]);
      var head := if tasks[0].isCompleted then [] else [tasks[0]];
      var done := if tasks[0].isCompleted then [tasks[0]] else [];
      SumCompletedAppend(head, Pending(tasks[1..]));
      SumCompletedAppend(done, Completed(tasks[1..]));
      assert SumCompleted([tasks[0]]) == tasks[0].completedPomodoros by {
        assert [tasks[0]][1..] == [];
      }
    }
  }

  /** Every stored task has an estimate of at least one, so the total is at least their number. */
  lemma {:induction false} EstimatesAtLeastCount(tasks: seq<PomodoroTask>)
    requires forall i :: 0 <= i < |tasks| ==> tasks[i].estimatedPomodoros >= 1
    ensures SumEstimates(tasks) >= |tasks|
  {
    if tasks != [] {
      EstimatesAtLeastCount(tasks[1..]);
    }
  }

  /**
   * Adding a task through the form raises the estimated total by its stored estimate,
   * max(1, n), and leaves the completed total where it was.
   */
  lemma AddedTaskTotals(tasks: seq<PomodoroTask>, id: Uuid, title: string, n: int, now: Instant)
    ensures var added := tasks + [NewTask(id, title, "", n, Medium, now)];
      && TotalEstimatedPomodoros(added) == TotalEstimatedPomodoros(tasks) + Max(1, n)
      && TotalCompletedPomodoros(added) == TotalCompletedPomodoros(tasks)
      && HasCompletedTasks(added) == HasCompletedTasks(tasks)
  {
    var task := NewTask(id, title, "", n, Medium, now);
    PendingAppend(tasks, [task]);
    assert Pending([task]) == [task] by { assert [task][1..] == []; }
    SumEstimatesAppend(Pending(tasks), [task]);
    SumCompletedAppend(tasks, [task]);
    assert SumEstimates([task]) == Max(1, n) by { assert [task][1..] == []; }
    assert SumCompleted([task]) == 0 by { assert [task][1..] == []; }
  }

  /** After `clearCompletedTasks` nothing is completed and the estimated total is unchanged. */
  lemma ClearedTotals(tasks: seq<PomodoroTask>)
    ensures !HasCompletedTasks(Pending(tasks))
    ensures TotalEstimatedPomodoros(Pending(tasks)) == TotalEstimatedPomodoros(tasks)
  {
    PartitionMembers(tasks);
    PartitionMembers(Pending(tasks));
    PendingOfPending(tasks);
  }

  lemma {:induction false} PendingOfPending(tasks: seq<PomodoroTask>)
    ensures Pending(Pending(tasks)) == Pending(tasks)
  {
    if tasks != [] {
      PendingOfPending(tasks[1..]);
      var head := if tasks[0].isCompleted then [] else [tasks[0]];
      PendingAppend(head, Pending(tasks[1..]));
      assert Pending(head) == head by {
        if head != [] { assert head[1..] == []; }
      }
    }
  }

  class TaskViewModel {
    const taskUseCase: TaskUseCase
    /** The last list and selection the use case published. */
    var tasks: seq<PomodoroTask>
    var selectedTask: Option<PomodoroTask>
    /** The add-task form. */
    var newTaskTitle: string
    var newTaskPomodoros: int
    var isAddingTask: bool

    /** The list starts empty and the form blank, with one pomodoro, until the first publication arrives. */
    constructor (taskUseCase: TaskUseCase)
      ensures this.taskUseCase == taskUseCase && tasks == [] && selectedTask == None
      ensures newTaskTitle == "" && newTaskPomodoros == 1 && !isAddingTask
    {
      this.taskUseCase := taskUseCase;
      tasks := [];
      selectedTask := None;
      newTaskTitle := "";
      newTaskPomodoros := 1;
      isAddingTask := false;
    }

    /** The subscription to the use case's list. */
    method ReceiveTasks(list: seq<PomodoroTask>)
      modifies this`tasks
      ensures tasks == list
    {
      tasks := list;
    }

    /** The subscription to the use case's selection. */
    method ReceiveSelection(task: Option<PomodoroTask>)
      modifies this`selectedTask
      ensures selectedTask == task
    {
      selectedTask := task;
    }

    /**
     * `addTask()`: with a blank title nothing happens, the form included; otherwise the untrimmed
     * title and the count go to the use case and the form is reset and closed.
     */
    method AddTask(now: Instant)
      requires taskUseCase.Valid()
      modifies this`newTaskTitle, this`newTaskPomodoros, this`isAddingTask
      modifies taskUseCase`tasks, taskUseCase`nextId, taskUseCase.store
      ensures taskUseCase.Valid() && taskUseCase.selected == old(taskUseCase.selected)
      ensures AllWhitespace(old(newTaskTitle)) ==>
        && taskUseCase.tasks == old(taskUseCase.tasks) && taskUseCase.nextId == old(taskUseCase.nextId)
        && newTaskTitle == old(newTaskTitle) && newTaskPomodoros == old(newTaskPomodoros)
        && isAddingTask == old(isAddingTask)
      ensures !AllWhitespace(old(newTaskTitle)) ==>
        && taskUseCase.tasks == old(taskUseCase.tasks)
             + [NewTask(old(taskUseCase.nextId), Trim(old(newTaskTitle)), "", old(newTaskPomodoros), Medium, now)]
        && newTaskTitle == "" && newTaskPomodoros == 1 && !isAddingTask
    {
      if Trim(newTaskTitle) == [] {
        return;
      }
      taskUseCase.AddTask(newTaskTitle, newTaskPomodoros, now);
      newTaskTitle := "";
      newTaskPomodoros := 1;
      isAddingTask := false;
    }

    /** `cancelAddTask()`: the form is reset and closed; the list is not touched. */
    method CancelAddTask()
      modifies this`newTaskTitle, this`newTaskPomodoros, this`isAddingTask
      ensures newTaskTitle == "" && newTaskPomodoros == 1 && !isAddingTask
    {
      newTaskTitle := "";
      newTaskPomodoros := 1;
      isAddingTask := false;
    }

    /** `addTaskDirectly(_:)`, forwarded. */
    method AddTaskDirectly(task: PomodoroTask)
      requires taskUseCase.Valid()
      modifies taskUseCase`tasks, taskUseCase`nextId, taskUseCase.store
      ensures taskUseCase.Valid() && taskUseCase.selected == old(taskUseCase.selected)
      ensures taskUseCase.tasks == old(taskUseCase.tasks) + [task]
    {
      taskUseCase.AddTaskDirectly(task);
    }

    /** `updateTask(_:)`, forwarded. */
    method UpdateTask(task: PomodoroTask)
      requires taskUseCase.Valid()
      modifies taskUseCase`tasks, taskUseCase`selected, taskUseCase.store
      ensures taskUseCase.Valid()
      ensures IndexOfId(old(taskUseCase.tasks), task.id).None? ==>
        taskUseCase.tasks == old(taskUseCase.tasks) && taskUseCase.selected == old(taskUseCase.selected)
      ensures IndexOfId(old(taskUseCase.tasks), task.id).Some? ==>
        && taskUseCase.tasks == ReplaceById(old(taskUseCase.tasks), task)
        && taskUseCase.selected == SelectionAfterUpdate(old(taskUseCase.selected), task)
    {
      taskUseCase.UpdateTask(task);
    }

    /** `deleteTask(_:)`, forwarded. */
    method DeleteTask(task: PomodoroTask)
      requires taskUseCase.Valid()
      modifies taskUseCase`tasks, taskUseCase`selected, taskUseCase.store
      ensures taskUseCase.Valid()
      ensures taskUseCase.tasks == WithoutId(old(taskUseCase.tasks), task.id)
      ensures taskUseCase.selected == SelectionAfterDelete(old(taskUseCase.selected), task.id)
    {
      taskUseCase.DeleteTask(task);
    }

    /** `toggleCompletion(_:)`, forwarded to `toggleTaskCompletion`. */
    method ToggleCompletion(task: PomodoroTask, now: Instant)
      requires taskUseCase.Valid()
      modifies taskUseCase`tasks, taskUseCase`selected, taskUseCase.store
      ensures taskUseCase.Valid()
      ensures var updated := task.WithCompletion(!task.isCompleted, now);
        && (IndexOfId(old(taskUseCase.tasks), task.id).None? ==>
              taskUseCase.tasks == old(taskUseCase.tasks) && taskUseCase.selected == old(taskUseCase.selected))
        && (IndexOfId(old(taskUseCase.tasks), task.id).Some? ==>
              && taskUseCase.tasks == ReplaceById(old(taskUseCase.tasks), updated)
              && taskUseCase.selected == SelectionAfterUpdate(old(taskUseCase.selected), updated))
    {
      taskUseCase.ToggleTaskCompletion(task, now);
    }

    /** `incrementPomodoro(_:)`, forwarded to `incrementTaskPomodoro`. */
    method IncrementPomodoro(task: PomodoroTask)
      requires taskUseCase.Valid()
      modifies taskUseCase`tasks, taskUseCase`selected, taskUseCase.store
      ensures taskUseCase.Valid()
      ensures var updated := task.WithIncrementedPomodoro();
        && (IndexOfId(old(taskUseCase.tasks), task.id).None? ==>
              taskUseCase.tasks == old(taskUseCase.tasks) && taskUseCase.selected == old(taskUseCase.selected))
        && (IndexOfId(old(taskUseCase.tasks), task.id).Some? ==>
              && taskUseCase.tasks == ReplaceById(old(taskUseCase.tasks), updated)
              && taskUseCase.selected == SelectionAfterUpdate(old(taskUseCase.selected), updated))
    {
      taskUseCase.IncrementTaskPomodoro(task);
    }

    /** `selectTask(_:)`, forwarded. */
    method SelectTask(task: Option<PomodoroTask>)
      modifies taskUseCase`selected
      ensures taskUseCase.selected == task
    {
      taskUseCase.SelectTask(task);
    }

    /** `reorderTasks(from:to:)`, forwarded. */
    method ReorderTasks(source: set<nat>, destination: nat)
      requires taskUseCase.Valid()
      requires forall i :: i in source ==> i < |taskUseCase.tasks|
      requires destination <= |taskUseCase.tasks|
      modifies taskUseCase`tasks, taskUseCase.store
      ensures taskUseCase.Valid() && taskUseCase.selected == old(taskUseCase.selected)
      ensures taskUseCase.tasks == Move(old(taskUseCase.tasks), source, destination)
    {
      taskUseCase.ReorderTasks(source, destination);
    }

    /** `clearCompletedTasks()`, forwarded. */
    method ClearCompletedTasks()
      requires taskUseCase.Valid()
      modifies taskUseCase`tasks, taskUseCase`selected, taskUseCase.store
      ensures taskUseCase.Valid()
      ensures taskUseCase.tasks == Pending(old(taskUseCase.tasks))
      ensures taskUseCase.selected == SelectionAfterClear(old(taskUseCase.selected), old(taskUseCase.tasks))
    {
      taskUseCase.ClearCompletedTasks();
    }
  }
}
