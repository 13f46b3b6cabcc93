/**
 * `TaskUseCase` (Application/UseCases/TaskUseCase.swift): an ordered task list and an
 * optional selection. Every list it publishes after construction is saved, so the store
 * always holds the current list. The collection operations it calls (`firstIndex(where:)`,
 * `removeAll(where:)`, `move(fromOffsets:toOffset:)`) are the functions below.
 */
module TaskCoordinator {
  import opened Wrappers
  import opened Units
  import opened Strings
  import opened Tasks
  import opened Stores

  /** `firstIndex(where: { $0.id == id })` */
  function IndexOfId(tasks: seq<PomodoroTask>, id: Uuid): (r: Option<nat>)
    ensures r.Some? ==> r.value < |tasks| && tasks[r.value].id == id
    ensures r.Some? ==> forall j :: 0 <= j < r.value ==> tasks[j].id != id
    ensures r.None? ==> forall j :: 0 <= j < |tasks| ==> tasks[j].id != id
  {
    if tasks == [] then None
    else if tasks[0].id == id then Some(0)
    else match IndexOfId(tasks[1..], id)
      case None => None
      case Some(i) => Some(i + 1)
  }

  /** The list after `tasks[index] = task` at the first task with the same id, if there is one. */
  function ReplaceById(tasks: seq<PomodoroTask>, task: PomodoroTask): (r: seq<PomodoroTask>)
    ensures |r| == |tasks|
    ensures IndexOfId(tasks, task.id).None? ==> r == tasks
    ensures IndexOfId(tasks, task.id).Some? ==>
      var i := IndexOfId(tasks, task.id).value;
      r[i] == task && forall j :: 0 <= j < |r| && j != i ==> r[j] == tasks[j]
  {
    match IndexOfId(tasks, task.id)
    case None => tasks
    case Some(i) => tasks[i := task]
  }

  /** `removeAll { $0.id == id }` */
  function WithoutId(tasks: seq<PomodoroTask>, id: Uuid): seq<PomodoroTask> {
    if tasks == [] then []
    else (if tasks[0].id == id then [] else [tasks[0]]) + WithoutId(tasks[1..], id)
  }

  /** Exactly the tasks with another id survive, and with no match the list is unchanged. */
  lemma {:induction false} WithoutIdMembers(tasks: seq<PomodoroTask>, id: Uuid)
    ensures forall t :: t in WithoutId(tasks, id) <==> t in tasks && t.id != id
    ensures |WithoutId(tasks, id)| <= |tasks|
    ensures (forall j :: 0 <= j < |tasks| ==> tasks[j].id != id) ==> WithoutId(tasks, id) == tasks
  {
    if tasks != [] {
      WithoutIdMembers(tasks[1..], id);
      assert tasks == [tasks[0]] + tasks[1..];
    }
  }

  /** Removal keeps the survivors in their order: it distributes over concatenation. */
  lemma {:induction false} WithoutIdAppend(a: seq<PomodoroTask>, b: seq<PomodoroTask>, id: Uuid)
    ensures WithoutId(a + b, id) == WithoutId(a, id) + WithoutId(b, id)
  {
    if a == [] {
      assert a + b == b;
    } else {
      assert (a + b)[0] == a[0] && (a + b)[1..] == a[1..] + b;
      WithoutIdAppend(a[1..], b, id);
    }
  }

  /** The tasks that are not completed, in list order (`removeAll { $0.isCompleted }`). */
  function Pending(tasks: seq<PomodoroTask>): (r: seq<PomodoroTask>)
    ensures |r| <= |tasks|
    ensures forall i :: 0 <= i < |r| ==> !r[i].isCompleted
  {
    if tasks == [] then []
    else (if tasks[0].isCompleted then [] else [tasks[0]]) + Pending(tasks[1..])
  }

  /** The completed tasks, in list order (`filter { $0.isCompleted }`). */
  function Completed(tasks: seq<PomodoroTask>): (r: seq<PomodoroTask>)
    ensures |r| <= |tasks|
    ensures forall i :: 0 <= i < |r| ==> r[i].isCompleted
  {
    if tasks == [] then []
    else (if tasks[0].isCompleted then [tasks[0]] else []) + Completed(tasks[1..])
  }

  /** The pending part holds exactly the tasks not completed, the completed part the others. */
  lemma {:induction false} PartitionMembers(tasks: seq<PomodoroTask>)
    ensures forall t :: t in Pending(tasks) <==> t in tasks && !t.isCompleted
    ensures forall t :: t in Completed(tasks) <==> t in tasks && t.isCompleted
  {
    if tasks != [] {
      PartitionMembers(tasks[1..]);
      assert tasks == [tasks[0]] + tasks[1..];
    }
  }

  /** Pending and completed tasks split the list: together they are exactly its tasks. */
  lemma {:induction false} PartitionByCompletion(tasks: seq<PomodoroTask>)
    ensures multiset(Pending(tasks)) + multiset(Completed(tasks)) == multiset(tasks)
    ensures |Pending(tasks)| + |Completed(tasks)| == |tasks|
  {
    if tasks != [] {
      PartitionByCompletion(tasks[1..]);
      assert tasks == [tasks[0]] + tasks[1..];
    }
  }

  /** Both parts keep list order: they distribute over concatenation. */
  lemma {:induction false} PendingAppend(a: seq<PomodoroTask>, b: seq<PomodoroTask>)
    ensures Pending(a + b) == Pending(a) + Pending(b)
  {
    if a == [] {
      assert a + b == b;
    } else {
      assert (a + b)[0] == a[0] && (a + b)[1..] == a[1..] + b;
      PendingAppend(a[1..], b);
    }
  }

  lemma {:induction false} CompletedAppend(a: seq<PomodoroTask>, b: seq<PomodoroTask>)
    ensures Completed(a + b) == Completed(a) + Completed(b)
  {
    if a == [] {
      assert a + b == b;
    } else {
      assert (a + b)[0] == a[0] && (a + b)[1..] == a[1..] + b;
      CompletedAppend(a[1..], b);
    }
  }

  /** `map { $0.id }` */
  function Ids(tasks: seq<PomodoroTask>): (r: seq<Uuid>)
    ensures |r| == |tasks| && forall i :: 0 <= i < |tasks| ==> r[i] == tasks[i].id
  {
    seq(|tasks|, i requires 0 <= i < |tasks| => tasks[i].id)
  }

  /** The ascending indices in `[lo, hi)` that are (`moved`) or are not (`!moved`) in `source`. */
  function Indices(lo: nat, hi: nat, source: set<nat>, moved: bool): (r: seq<nat>)
    requires lo <= hi
    ensures forall k :: 0 <= k < |r| ==> lo <= r[k] < hi
    decreases hi - lo
  {
    if lo == hi then []
    else (if (lo in source) == moved then [lo] else []) + Indices(lo + 1, hi, source, moved)
  }

  /** Every index `Indices` lists is in the chosen class. */
  lemma {:induction false} IndicesClass(lo: nat, hi: nat, source: set<nat>, moved: bool)
    requires lo <= hi
    ensures forall k :: 0 <= k < |Indices(lo, hi, source, moved)| ==>
      (Indices(lo, hi, source, moved)[k] in source <==> moved)
    decreases hi - lo
  {
    if lo < hi {
      IndicesClass(lo + 1, hi, source, moved);
      var r := Indices(lo, hi, source, moved);
      var head: seq<nat> := if (lo in source) == moved then [lo] else [];
      var rest := Indices(lo + 1, hi, source, moved);
      assert r == head + rest;
      forall k | 0 <= k < |r| ensures r[k] in source <==> moved {
        if k >= |head| {
          assert r[k] == rest[k - |head|];
          assert rest[k - |head|] in source <==> moved;
        } else {
          assert head == [lo] && r[k] == lo;
          assert lo in source <==> moved;
        }
      }
    }
  }

  /** `Indices` lists its indices in strictly ascending order. */
  lemma {:induction false} IndicesAscending(lo: nat, hi: nat, source: set<nat>, moved: bool)
    requires lo <= hi
    ensures forall k, l :: 0 <= k < l < |Indices(lo, hi, source, moved)| ==>
      Indices(lo, hi, source, moved)[k] < Indices(lo, hi, source, moved)[l]
    decreases hi - lo
  {
    if lo < hi {
      IndicesAscending(lo + 1, hi, source, moved);
      var r := Indices(lo, hi, source, moved);
      var head: seq<nat> := if (lo in source) == moved then [lo] else [];
      var rest := Indices(lo + 1, hi, source, moved);
      assert r == head + rest;
      forall k, l | 0 <= k < l < |r| ensures r[k] < r[l] {
        assert r[l] == rest[l - |head|];
        assert lo + 1 <= rest[l - |head|];
        if k >= |head| {
          assert r[k] == rest[k - |head|];
        } else {
          assert head == [lo] && r[k] == lo;
        }
      }
    }
  }

  /** Every index of the range in the chosen class is listed. */
  lemma {:induction false} IndicesCover(lo: nat, hi: nat, source: set<nat>, moved: bool)
    requires lo <= hi
    ensures forall i :: lo <= i < hi && (i in source <==> moved) ==> i in Indices(lo, hi, source, moved)
    decreases hi - lo
  {
    if lo < hi {
      IndicesCover(lo + 1, hi, source, moved);
      var head: seq<nat> := if (lo in source) == moved then [lo] else [];
      assert Indices(lo, hi, source, moved) == head + Indices(lo + 1, hi, source, moved);
    }
  }

  lemma {:induction false} IndicesSplit(lo: nat, mid: nat, hi: nat, source: set<nat>, moved: bool)
    requires lo <= mid <= hi
    ensures Indices(lo, hi, source, moved) == Indices(lo, mid, source, moved) + Indices(mid, hi, source, moved)
    decreases mid - lo
  {
    if lo < mid {
      IndicesSplit(lo + 1, mid, hi, source, moved);
    }
  }

  /** The elements of `s` at the positions `idx`, in that order. */
  function Pick(s: seq<PomodoroTask>, idx: seq<nat>): (r: seq<PomodoroTask>)
    requires forall k :: 0 <= k < |idx| ==> idx[k] < |s|
    ensures |r| == |idx| && forall k :: 0 <= k < |r| ==> r[k] == s[idx[k]]
  {
    seq(|idx|, k requires 0 <= k < |idx| => s[idx[k]])
  }

  lemma PickAppend(s: seq<PomodoroTask>, a: seq<nat>, b: seq<nat>)
    requires forall k :: 0 <= k < |a| ==> a[k] < |s|
    requires forall k :: 0 <= k < |b| ==> b[k] < |s|
    ensures Pick(s, a + b) == Pick(s, a) + Pick(s, b)
  {
  }

  /**
   * `move(fromOffsets: source, toOffset: destination)`: the elements at `source` are taken
   * out and put back, in their order, just before the element originally at `destination`.
   */
  function Move(s: seq<PomodoroTask>, source: set<nat>, destination: nat): (r: seq<PomodoroTask>)
    requires forall i :: i in source ==> i < |s|
    requires destination <= |s|
    ensures |r| == |s|
  {
    var before := Indices(0, destination, source, false);
    var moved := Indices(0, |s|, source, true);
    var after := Indices(destination, |s|, source, false);
    IndicesSplit(0, destination, |s|, source, true);
    PartitionIndices(0, destination, source);
    PartitionIndices(destination, |s|, source);
    Pick(s, before) + Pick(s, moved) + Pick(s, after)
  }

  /** Each index of a range is listed exactly once among the moved and the unmoved ones. */
  lemma {:induction false} PartitionIndices(lo: nat, hi: nat, source: set<nat>)
    requires lo <= hi
    ensures |Indices(lo, hi, source, true)| + |Indices(lo, hi, source, false)| == hi - lo
    decreases hi - lo
  {
    if lo < hi {
      PartitionIndices(lo + 1, hi, source);
    }
  }

  lemma {:induction false} PickPartition(s: seq<PomodoroTask>, lo: nat, hi: nat, source: set<nat>)
    requires lo <= hi <= |s|
    ensures multiset(Pick(s, Indices(lo, hi, source, true))) + multiset(Pick(s, Indices(lo, hi, source, false)))
         == multiset(s[lo..hi])
    decreases hi - lo
  {
    if lo < hi {
      PickPartition(s, lo + 1, hi, source);
      var t, f := Indices(lo + 1, hi, source, true), Indices(lo + 1, hi, source, false);
      assert s[lo..hi] == [s[lo]] + s[lo + 1..hi];
      assert multiset(s[lo..hi]) == multiset{s[lo]} + multiset(s[lo + 1..hi]);
      if lo in source {
        PickCons(s, lo, hi, source, true);
        assert Indices(lo, hi, source, false) == f;
      } else {
        PickCons(s, lo, hi, source, false);
        assert Indices(lo, hi, source, true) == t;
      }
    }
  }

  /** Picking from `[lo, hi)` starts with `s[lo]` when `lo` is in the chosen class. */
  lemma PickCons(s: seq<PomodoroTask>, lo: nat, hi: nat, source: set<nat>, moved: bool)
    requires lo < hi <= |s| && (lo in source <==> moved)
    ensures multiset(Pick(s, Indices(lo, hi, source, moved)))
         == multiset{s[lo]} + multiset(Pick(s, Indices(lo + 1, hi, source, moved)))
  {
    var rest := Indices(lo + 1, hi, source, moved);
    assert Indices(lo, hi, source, moved) == [lo] + rest;
    PickAppend(s, [lo], rest);
    assert Pick(s, [lo]) == [s[lo]];
  }

  /** Reordering is a permutation of the list. */
  lemma MovePermutes(s: seq<PomodoroTask>, source: set<nat>, destination: nat)
    requires forall i :: i in source ==> i < |s|
    requires destination <= |s|
    ensures multiset(Move(s, source, destination)) == multiset(s)
  {
    var n := |s|;
    IndicesSplit(0, destination, n, source, true);
    PickAppend(s, Indices(0, destination, source, true), Indices(destination, n, source, true));
    PickPartition(s, 0, destination, source);
    PickPartition(s, destination, n, source);
    assert s == s[0..destination] + s[destination..n];
  }

  /**
   * The moved elements form one block, in their original order, that starts after the
   * unmoved elements that stood before `destination`; taking the block out leaves the
   * unmoved elements in their original order.
   */
  lemma MoveShape(s: seq<PomodoroTask>, source: set<nat>, destination: nat)
    requires forall i :: i in source ==> i < |s|
    requires destination <= |s|
    ensures var r := Move(s, source, destination);
      var start := |Indices(0, destination, source, false)|;
      var moved := Indices(0, |s|, source, true);
      && start + |moved| <= |r|
      && r[start..start + |moved|] == Pick(s, moved)
      && r[..start] + r[start + |moved|..] == Pick(s, Indices(0, |s|, source, false))
  {
    var before := Indices(0, destination, source, false);
    var moved := Indices(0, |s|, source, true);
    var after := Indices(destination, |s|, source, false);
    var r := Move(s, source, destination);
    assert r == Pick(s, before) + Pick(s, moved) + Pick(s, after);
    IndicesSplit(0, destination, |s|, source, false);
    PickAppend(s, before, after);
    assert r[..|before|] == Pick(s, before);
    assert r[|before| + |moved|..] == Pick(s, after);
  }

  /** Moving one element down past its neighbour swaps the two. */
  lemma MoveOneDown(a: PomodoroTask, b: PomodoroTask)
    ensures Move([a, b], {0}, 2) == [b, a]
  {
    assert Indices(0, 2, {0}, false) == [1] by {
      assert Indices(1, 2, {0}, false) == [1] + Indices(2, 2, {0}, false);
    }
    assert Indices(0, 2, {0}, true) == [0] by {
      assert Indices(1, 2, {0}, true) == Indices(2, 2, {0}, true);
    }
  }

  /** The selection after `updateTask(task)` found the task: refreshed iff the ids match. */
  function SelectionAfterUpdate(selected: Option<PomodoroTask>, task: PomodoroTask): (r: Option<PomodoroTask>)
    ensures selected.Some? && selected.value.id == task.id ==> r == Some(task)
    ensures !(selected.Some? && selected.value.id == task.id) ==> r == selected
  {
    if selected.Some? && selected.value.id == task.id then Some(task) else selected
  }

  /** The selection after `deleteTask(task)`: cleared iff it has the deleted id. */
  function SelectionAfterDelete(selected: Option<PomodoroTask>, id: Uuid): (r: Option<PomodoroTask>)
    ensures r == None <==> selected == None || selected.value.id == id
    ensures r != None ==> r == selected
  {
    if selected.Some? && selected.value.id == id then None else selected
  }

  /** The selection after `clearCompletedTasks()`: cleared iff its id is that of a task removed. */
  function SelectionAfterClear(selected: Option<PomodoroTask>, tasks: seq<PomodoroTask>): (r: Option<PomodoroTask>)
    ensures r == None <==> selected == None || exists t :: t in tasks && t.isCompleted && t.id == selected.value.id
    ensures r != None ==> r == selected
  {
    PartitionMembers(tasks);
    if selected.Some? && selected.value.id in Ids(Completed(tasks)) then None else selected
  }

  /** Every id in the list is below `bound` (the next identifier to be drawn). */
  predicate IdsBelow(tasks: seq<PomodoroTask>, bound: Uuid) {
    forall t :: t in tasks ==> t.id < bound
  }

  /** No task of a list whose ids lie below `id` carries `id`. */
  lemma FreshId(tasks: seq<PomodoroTask>, id: Uuid)
    requires IdsBelow(tasks, id)
    ensures forall t :: t in tasks ==> t.id != id
  {
  }

  /** The largest id in the list plus one, so that fresh identifiers do not collide. */
  function IdBound(tasks: seq<PomodoroTask>): (b: Uuid)
    ensures IdsBelow(tasks, b)
  {
    if tasks == [] then 0 else Max(tasks[0].id + 1, IdBound(tasks[1..]))
  }

  class TaskUseCase {
    const store: TaskStore
    var tasks: seq<PomodoroTask>
    var selected: Option<PomodoroTask>
    var nextId: Uuid

    /** The store holds the current list, and no task carries an id not yet drawn. */
    ghost predicate Valid()
      reads this, store
    {
      store.value == tasks && IdsBelow(tasks, nextId)
    }

    constructor (store: TaskStore)
      ensures this.store == store && tasks == store.value && selected == None
      ensures Valid()
    {
      this.store := store;
      var loaded := store.Load();
      tasks := loaded;
      selected := None;
      nextId := IdBound(loaded);
    }

    /** Publishing a list: the subscriber saves it. */
    method Publish(list: seq<PomodoroTask>)
      modifies this`tasks, store
      ensures tasks == list && store.value == list
    {
      tasks := list;
      store.Save(list);
    }

    /**
     * `addTask(title:estimatedPomodoros:)`: a blank title changes nothing; otherwise one new
     * task with the trimmed title, no notes, estimate max(1, n) and Medium priority is appended,
     * the same append `addTaskDirectly` makes.
     */
    method AddTask(title: string, estimatedPomodoros: int, now: Instant)
      requires Valid()
      modifies this`tasks, this`nextId, store
      ensures Valid() && selected == old(selected)
      ensures AllWhitespace(title) ==> tasks == old(tasks) && nextId == old(nextId)
      ensures !AllWhitespace(title) ==>
        tasks == old(tasks) + [NewTask(old(nextId), Trim(title), "", estimatedPomodoros, Medium, now)]
      ensures !AllWhitespace(title) ==> forall t :: t in old(tasks) ==> t.id != old(nextId)
    {
      var trimmedTitle := Trim(title);
      if trimmedTitle == [] {
        return;
      }
      var task := NewTask(nextId, trimmedTitle, "", estimatedPomodoros, Medium, now);
      FreshId(tasks, nextId);
      AddTaskDirectly(task);
    }

    /** `addTaskDirectly(_:)`: the given task is appended unchanged. */
    method AddTaskDirectly(task: PomodoroTask)
      requires Valid()
      modifies this`tasks, this`nextId, store
      ensures Valid() && selected == old(selected)
      ensures tasks == old(tasks) + [task]
    {
      var list := tasks;
      list := list + [task];
      nextId := Max(nextId, task.id + 1);
      Publish(list);
    }

    /**
     * `updateTask(_:)`: the first task with the same id is replaced and the selection is
     * refreshed if it has that id; with no such task nothing changes.
     */
    method UpdateTask(task: PomodoroTask)
      requires Valid()
      modifies this`tasks, this`selected, store
      ensures Valid()
      ensures IndexOfId(old(tasks), task.id).None? ==> tasks == old(tasks) && selected == old(selected)
      ensures IndexOfId(old(tasks), task.id).Some? ==>
        tasks == ReplaceById(old(tasks), task) && selected == SelectionAfterUpdate(old(selected), task)
    {
      var list := tasks;
      var index := IndexOfId(list, task.id);
      if index.None? {
        return;
      }
      list := list[index.value := task];
      Publish(list);
      if selected.Some? && selected.value.id == task.id {
        selected := Some(task);
      }
    }

    /** `deleteTask(_:)`: every task with that id goes; the selection goes iff it has that id. */
    method DeleteTask(task: PomodoroTask)
      requires Valid()
      modifies this`tasks, this`selected, store
      ensures Valid()
      ensures tasks == WithoutId(old(tasks), task.id)
      ensures selected == SelectionAfterDelete(old(selected), task.id)
    {
      var list := tasks;
      WithoutIdMembers(list, task.id);
      list := WithoutId(list, task.id);
      Publish(list);
      if selected.Some? && selected.value.id == task.id {
        selected := None;
      }
    }

    /** `toggleTaskCompletion(_:)`: `updateTask` with the argument's own flag flipped. */
    method ToggleTaskCompletion(task: PomodoroTask, now: Instant)
      requires Valid()
      modifies this`tasks, this`selected, store
      ensures Valid()
      ensures var updated := task.WithCompletion(!task.isCompleted, now);
        && (IndexOfId(old(tasks), task.id).None? ==> tasks == old(tasks) && selected == old(selected))
        && (IndexOfId(old(tasks), task.id).Some? ==>
              tasks == ReplaceById(old(tasks), updated) && selected == SelectionAfterUpdate(old(selected), updated))
    {
      var updatedTask := task.WithCompletion(!task.isCompleted, now);
      UpdateTask(updatedTask);
    }

    /** `incrementTaskPomodoro(_:)`: `updateTask` with the argument's count plus one. */
    method IncrementTaskPomodoro(task: PomodoroTask)
      requires Valid()
      modifies this`tasks, this`selected, store
      ensures Valid()
      ensures var updated := task.WithIncrementedPomodoro();
        && (IndexOfId(old(tasks), task.id).None? ==> tasks == old(tasks) && selected == old(selected))
        && (IndexOfId(old(tasks), task.id).Some? ==>
              tasks == ReplaceById(old(tasks), updated) && selected == SelectionAfterUpdate(old(selected), updated))
    {
      var updatedTask := task.WithIncrementedPomodoro();
      UpdateTask(updatedTask);
    }

    /** `selectTask(_:)`: any task, or none, is selected as given; the list is not consulted. */
    method SelectTask(task: Option<PomodoroTask>)
      modifies this`selected
      ensures selected == task
    {
      selected := task;
    }

    /** `reorderTasks(from:to:)` */
    method ReorderTasks(source: set<nat>, destination: nat)
      requires Valid()
      requires forall i :: i in source ==> i < |tasks|
      requires destination <= |tasks|
      modifies this`tasks, store
      ensures Valid() && selected == old(selected)
      ensures tasks == Move(old(tasks), source, destination)
    {
      var list := tasks;
      MovePermutes(list, source, destination);
      list := Move(list, source, destination);
      assert forall t :: t in list ==> t in multiset(tasks);
      Publish(list);
    }

    /** `clearCompletedTasks()`: the completed tasks go, the selection goes iff it was one of them. */
    method ClearCompletedTasks()
      requires Valid()
      modifies this`tasks, this`selected, store
      ensures Valid()
      ensures tasks == Pending(old(tasks))
      ensures selected == SelectionAfterClear(old(selected), old(tasks))
    {
      var list := tasks;
      var completedIds := Ids(Completed(list));
      PartitionMembers(list);
      list := Pending(list);
      Publish(list);
      if selected.Some? && selected.value.id in completedIds {
        selected := None;
      }
    }
  }
}
