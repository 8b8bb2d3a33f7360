/**
 The board component (src/components/KanbanBoard.tsx): the per-column view of
 the task list, the decision tables that turn a swipe, a drop or an arrow
 press into a store operation, and the handlers that update the component's
 own transient state (the add-task form, the pending delete, the drag and
 swipe fields).

 Touch coordinates are integers. Fresh ids (`generateId`) and the clock
 (`Date.now`) are parameters of the handlers that need them, and so is the
 challenge template (`getRandomChallenge`).
 */
module KanbanBoard {
  import opened KanbanTypes
  import opened Seqs
  import opened JsString
  import TaskList
  import opened KanbanContext

  /** A swipe must travel at least this far horizontally to count. */
  const MinSwipeDistance: int := 80

  /** The direction indicator shows once the finger has moved this far. */
  const IndicatorDistance: int := 20

  datatype SwipeDirection = Left | Right

  /** What a gesture asks of the store. */
  datatype SwipeAction = MoveTo(target: Column) | RequestDelete | NoAction

  /** A catalogue entry of the challenge generator. */
  datatype Challenge = Challenge(
    title: string,
    description: string,
    difficulty: Difficulty,
    category: string,
    time: string,
    xp: int)

  /** `Math.abs` */
  function Abs(x: int): nat {
    if x < 0 then -x else x
  }

  /** The position of a column on the board, left to right. */
  function Rank(c: Column): nat {
    match c
    case Todo => 0
    case InProgress => 1
    case Done => 2
  }

  // -------------------------------------------------------- getTasksByColumn

  function InColumn(c: Column): Task -> bool {
    (t: Task) => t.column == c
  }

  /** The cards of column `c`, in list order. */
  function TasksByColumn(tasks: seq<Task>, c: Column): (r: seq<Task>)
    ensures forall t :: t in r <==> t in tasks && t.column == c
  {
    Filter(tasks, InColumn(c))
  }

  /** A column shows its tasks in list order: exactly the subsequence of the
      list at the positions whose task is in that column. */
  lemma TasksByColumnKeepsOrder(tasks: seq<Task>, c: Column) returns (idx: seq<nat>)
    ensures PicksOut(TasksByColumn(tasks, c), tasks, idx)
    ensures forall i :: 0 <= i < |tasks| && tasks[i].column == c ==> i in idx
  {
    idx := FilterPicksOut(tasks, InColumn(c));
  }

  /** One step of a column's view: the head, if it is in the column, then
      the column's view of the tail. */
  lemma ColumnCons(tasks: seq<Task>, c: Column)
    requires tasks != []
    ensures multiset(TasksByColumn(tasks, c))
      == (if tasks[0].column == c then multiset{tasks[0]} else multiset{}) + multiset(TasksByColumn(tasks[1..], c))
  {
  }

  /** The three columns partition the list: every task is shown exactly once,
      duplicates included, and the column sizes add up to the list's. */
  lemma {:induction false} ColumnsPartition(tasks: seq<Task>)
    ensures multiset(TasksByColumn(tasks, Todo)) + multiset(TasksByColumn(tasks, InProgress))
      + multiset(TasksByColumn(tasks, Done)) == multiset(tasks)
    ensures |TasksByColumn(tasks, Todo)| + |TasksByColumn(tasks, InProgress)|
      + |TasksByColumn(tasks, Done)| == |tasks|
  {
    if tasks != [] {
      var rest := tasks[1..];
      ColumnsPartition(rest);
      assert tasks == [tasks[0]] + rest;
      assert multiset(tasks) == multiset{tasks[0]} + multiset(rest);
      ColumnCons(tasks, Todo);
      ColumnCons(tasks, InProgress);
      ColumnCons(tasks, Done);
    }
  }

  /** A task added with a fresh id shows at the bottom of its own column and
      changes no other column. */
  lemma AddedTaskJoinsItsColumn(tasks: seq<Task>, task: Task, c: Column)
    requires !TaskList.ContainsId(tasks, task.id)
    ensures TasksByColumn(TaskList.AddTask(tasks, task), c)
      == TasksByColumn(tasks, c) + (if task.column == c then [task] else [])
  {
    FilterConcat(tasks, [task], InColumn(c));
    assert [task][1..] == [];
  }

  /** After a move, a card with the moved id shows in the target column and in
      no other. */
  lemma MovedTaskShownOnlyInTarget(tasks: seq<Task>, taskId: string, target: Column, c: Column)
    ensures forall t :: t in TasksByColumn(TaskList.MoveTask(tasks, taskId, target), c) && t.id == taskId ==> c == target
    ensures forall i :: 0 <= i < |tasks| && tasks[i].id == taskId ==>
      tasks[i].(column := target) in TasksByColumn(TaskList.MoveTask(tasks, taskId, target), target)
  {
  }

  // ------------------------------------------------------ gesture decisions

  /** The swipe-end decision table: a short swipe does nothing; a right swipe
      moves a task one column to the right, a left swipe one column to the
      left, except that a left swipe on a to-do task asks to delete it and a
      done task is never affected. */
  function SwipeEndAction(column: Column, deltaX: int): (a: SwipeAction)
    ensures Abs(deltaX) < MinSwipeDistance ==> a == NoAction
    ensures a == NoAction <==> Abs(deltaX) < MinSwipeDistance || column == Done
    ensures a == RequestDelete <==> Abs(deltaX) >= MinSwipeDistance && deltaX < 0 && column == Todo
    ensures a.MoveTo? ==> Rank(a.target) == Rank(column) + (if deltaX > 0 then 1 else -1)
  {
    if Abs(deltaX) >= MinSwipeDistance then
      if deltaX > 0 then
        match column
        case Todo => MoveTo(InProgress)
        case InProgress => MoveTo(Done)
        case Done => NoAction
      else
        match column
        case Todo => RequestDelete
        case InProgress => MoveTo(Todo)
        case Done => NoAction
    else NoAction
  }

  /** The indicator shown while a horizontal swipe is in progress. */
  function DirectionIndicator(deltaX: int): (d: Option<SwipeDirection>)
    ensures d == Some(Right) <==> deltaX > IndicatorDistance
    ensures d == Some(Left) <==> deltaX < -IndicatorDistance
    ensures d == None <==> Abs(deltaX) <= IndicatorDistance
  {
    if deltaX > IndicatorDistance then Some(Right)
    else if deltaX < -IndicatorDistance then Some(Left)
    else None
  }

  /** The mobile arrow buttons a card in column `c` offers. */
  function ArrowTargets(c: Column): (targets: seq<Column>)
    ensures forall d :: d in targets <==> Abs(Rank(d) - Rank(c)) == 1
    ensures forall i, j :: 0 <= i < j < |targets| ==> Rank(targets[i]) < Rank(targets[j])
  {
    match c
    case Todo => [InProgress]
    case InProgress => [Todo, Done]
    case Done => [InProgress]
  }

  /** The guard of both swipe handlers: both start coordinates and the task
      must be truthy. A coordinate is falsy when it is missing or 0, so a touch
      that starts on the left or top edge of the viewport never arms a swipe. */
  predicate SwipeArmed(startX: Option<int>, startY: Option<int>, task: Option<Task>)
  {
    startX.Some? && startX.value != 0 && startY.Some? && startY.value != 0 && task.Some?
  }

  /** The pending-delete id is truthy: present and not the empty string. */
  predicate IsSetId(id: Option<string>) {
    id.Some? && id.value != ""
  }

  /** A touch starting at x = 0 or y = 0 is ignored whatever else holds. */
  lemma EdgeTouchNeverArms(startX: Option<int>, startY: Option<int>, task: Option<Task>)
    requires startX == Some(0) || startY == Some(0)
    ensures !SwipeArmed(startX, startY, task)
  {
  }

  // ------------------------------------------------------------- new tasks

  /** The task the add form creates from its text. */
  function NewTask(id: string, text: string, now: int): (t: Task)
    ensures t.id == id && t.text == text && t.column == Todo && t.createdAt == now
    ensures t.isChallenge == None && t.xp == None
    ensures t.description == None && t.difficulty == None && t.category == None && t.time == None
  {
    Task(id, text, Todo, now, None, None, None, None, None, None)
  }

  /** The task generated from a challenge template. */
  function ChallengeTask(template: Challenge, id: string, now: int): (t: Task)
    ensures t.id == id && t.column == Todo && t.createdAt == now && t.isChallenge == Some(true)
    ensures t.text == template.title && t.description == Some(template.description)
    ensures t.difficulty == Some(template.difficulty) && t.category == Some(template.category)
    ensures t.time == Some(template.time) && t.xp == Some(template.xp)
  {
    Task(id, template.title, Todo, now,
         Some(template.description), Some(template.difficulty), Some(template.category),
         Some(template.time), Some(template.xp), Some(true))
  }

  // ------------------------------------------------------------------ board

  /** The board component's state. The store is the provider's, shared. */
  class Board {
    const store: Store
    var inputValue: string
    var isAddingTask: bool
    var pendingDeleteId: Option<string>
    var draggedTask: Option<Task>
    var dragOverColumn: Option<Column>
    var swipeStartX: Option<int>
    var swipeStartY: Option<int>
    var swipeTask: Option<Task>
    var swipeDirection: Option<SwipeDirection>

    /** The board is mounted inside a provider whose first effect has run. */
    ghost predicate Valid()
      reads this, store
    {
      store.Valid() && store.isInitialized
    }

    constructor (store: Store)
      requires store.Valid() && store.isInitialized
      ensures Valid() && this.store == store
      ensures inputValue == "" && !isAddingTask && pendingDeleteId == None
      ensures draggedTask == None && dragOverColumn == None
      ensures swipeStartX == None && swipeStartY == None && swipeTask == None && swipeDirection == None
    {
      this.store := store;
      inputValue := "";
      isAddingTask := false;
      pendingDeleteId := None;
      draggedTask := None;
      dragOverColumn := None;
      swipeStartX := None;
      swipeStartY := None;
      swipeTask := None;
      swipeDirection := None;
    }

    // ----------------------------------------------------------- add form

    method HandleInputChange(value: string)
      modifies this`inputValue
      ensures inputValue == value
    {
      inputValue := value;
    }

    /** The "Add New Task" button opens the form. */
    method OpenAddForm()
      modifies this`isAddingTask
      ensures isAddingTask
    {
      isAddingTask := true;
    }

    /** The form's cancel button closes it and clears the input. */
    method CancelAddForm()
      modifies this`isAddingTask, this`inputValue
      ensures !isAddingTask && inputValue == ""
    {
      isAddingTask := false;
      inputValue := "";
    }

    /** Blank input adds nothing and leaves the form as it is; otherwise one
        to-do task carrying the input text is appended, the input cleared and
        the form closed. */
    method HandleAddTask(freshId: string, now: int)
      requires Valid() && !TaskList.ContainsId(store.tasks, freshId)
      modifies this`inputValue, this`isAddingTask, store
      ensures Valid()
      ensures AllWhiteSpace(old(inputValue)) ==>
        unchanged(store) && inputValue == old(inputValue) && isAddingTask == old(isAddingTask)
      ensures !AllWhiteSpace(old(inputValue)) ==>
        && store.tasks == old(store.tasks) + [NewTask(freshId, old(inputValue), now)]
        && inputValue == "" && !isAddingTask
    {
      if Trim(inputValue) != "" {
        var newTask := NewTask(freshId, inputValue, now);
        var wrote := store.AddTask(newTask);
        inputValue := "";
        isAddingTask := false;
      }
    }

    /** Enter in the input field submits the form; other keys do nothing. */
    method HandleKeyDown(key: string, freshId: string, now: int)
      requires Valid() && !TaskList.ContainsId(store.tasks, freshId)
      modifies this`inputValue, this`isAddingTask, store
      ensures Valid()
      ensures key != "Enter" || AllWhiteSpace(old(inputValue)) ==>
        unchanged(store) && inputValue == old(inputValue) && isAddingTask == old(isAddingTask)
      ensures key == "Enter" && !AllWhiteSpace(old(inputValue)) ==>
        && store.tasks == old(store.tasks) + [NewTask(freshId, old(inputValue), now)]
        && inputValue == "" && !isAddingTask
    {
      if key == "Enter" {
        HandleAddTask(freshId, now);
      }
    }

    /** A generated challenge is appended as a to-do task; the form is left
        as it is. */
    method HandleGenerateChallenge(template: Challenge, freshId: string, now: int)
      requires Valid() && !TaskList.ContainsId(store.tasks, freshId)
      modifies store
      ensures Valid()
      ensures store.tasks == old(store.tasks) + [ChallengeTask(template, freshId, now)]
    {
      var newTask := ChallengeTask(template, freshId, now);
      var wrote := store.AddTask(newTask);
    }

    // ----------------------------------------------------- two-step delete

    /** Asking to delete only marks the task as pending. */
    method HandleDeleteTask(id: string)
      modifies this`pendingDeleteId
      ensures pendingDeleteId == Some(id)
    {
      pendingDeleteId := Some(id);
    }

    /** Confirming deletes the pending task and clears the mark; with no
        pending id it does nothing. */
    method ConfirmDelete()
      requires Valid()
      modifies this`pendingDeleteId, store
      ensures Valid()
      ensures IsSetId(old(pendingDeleteId)) ==>
        && store.tasks == TaskList.DeleteTask(old(store.tasks), old(pendingDeleteId).value)
        && pendingDeleteId == None
      ensures !IsSetId(old(pendingDeleteId)) ==> unchanged(store) && pendingDeleteId == old(pendingDeleteId)
    {
      if IsSetId(pendingDeleteId) {
        var wrote := store.DeleteTask(pendingDeleteId.value);
        pendingDeleteId := None;
      }
    }

    /** Cancelling clears the mark and deletes nothing. */
    method CancelDelete()
      modifies this`pendingDeleteId
      ensures pendingDeleteId == None
    {
      pendingDeleteId := None;
    }

    // --------------------------------------------------------------- moves

    /** Every move the board makes (drop, swipe, arrow button) goes here. */
    method HandleMoveTask(taskId: string, newColumn: Column)
      requires Valid()
      modifies store
      ensures Valid()
      ensures store.tasks == TaskList.MoveTask(old(store.tasks), taskId, newColumn)
    {
      var wrote := store.MoveTask(taskId, newColumn);
    }

    /** A mobile arrow button: it moves the card to an adjacent column. */
    method HandleArrow(task: Task, target: Column)
      requires Valid() && target in ArrowTargets(task.column)
      modifies store
      ensures Valid()
      ensures store.tasks == TaskList.MoveTask(old(store.tasks), task.id, target)
      ensures Abs(Rank(target) - Rank(task.column)) == 1
    {
      HandleMoveTask(task.id, target);
    }

    // ------------------------------------------------------- drag and drop

    method HandleDragStart(task: Task)
      modifies this`draggedTask
      ensures draggedTask == Some(task)
    {
      draggedTask := Some(task);
    }

    method HandleDragEnd()
      modifies this`draggedTask, this`dragOverColumn
      ensures draggedTask == None && dragOverColumn == None
    {
      draggedTask := None;
      dragOverColumn := None;
    }

    method HandleDragOver(columnId: Column)
      modifies this`dragOverColumn
      ensures dragOverColumn == Some(columnId)
    {
      if dragOverColumn != Some(columnId) {
        dragOverColumn := Some(columnId);
      }
    }

    method HandleDragLeave()
      modifies this`dragOverColumn
      ensures dragOverColumn == None
    {
      dragOverColumn := None;
    }

    /** A drop moves the task whose id the drag carried, if any, to the
        column dropped on, and always ends the drag. */
    method HandleDrop(taskId: string, columnId: Column)
      requires Valid()
      modifies this`draggedTask, this`dragOverColumn, store
      ensures Valid()
      ensures taskId != "" ==> store.tasks == TaskList.MoveTask(old(store.tasks), taskId, columnId)
      ensures taskId == "" ==> unchanged(store)
      ensures draggedTask == None && dragOverColumn == None
    {
      if taskId != "" {
        HandleMoveTask(taskId, columnId);
      }
      draggedTask := None;
      dragOverColumn := None;
    }

    // --------------------------------------------------------------- swipe

    method HandleSwipeStart(clientX: int, clientY: int, task: Task)
      modifies this`swipeStartX, this`swipeStartY, this`swipeTask
      ensures swipeStartX == Some(clientX) && swipeStartY == Some(clientY) && swipeTask == Some(task)
    {
      swipeStartX := Some(clientX);
      swipeStartY := Some(clientY);
      swipeTask := Some(task);
    }

    /** Only a mostly horizontal movement of an armed swipe updates the
        indicator. */
    method HandleSwipeMove(currentX: int, currentY: int)
      modifies this`swipeDirection
      ensures !SwipeArmed(swipeStartX, swipeStartY, swipeTask) ==> swipeDirection == old(swipeDirection)
      ensures SwipeArmed(swipeStartX, swipeStartY, swipeTask) ==>
        var deltaX, deltaY := currentX - swipeStartX.value, currentY - swipeStartY.value;
        swipeDirection == if Abs(deltaX) < Abs(deltaY) then old(swipeDirection) else DirectionIndicator(deltaX)
    {
      if !SwipeArmed(swipeStartX, swipeStartY, swipeTask) {
        return;
      }
      var deltaX := currentX - swipeStartX.value;
      var deltaY := currentY - swipeStartY.value;
      if Abs(deltaX) < Abs(deltaY) {
        return;
      }
      swipeDirection := DirectionIndicator(deltaX);
    }

    /** An armed swipe ends by carrying out `SwipeEndAction` and clearing all
        four swipe fields; an unarmed one changes nothing. */
    method HandleSwipeEnd(currentX: int)
      requires Valid()
      modifies this`swipeStartX, this`swipeStartY, this`swipeTask, this`swipeDirection
      modifies this`pendingDeleteId, store
      ensures Valid()
      ensures !SwipeArmed(old(swipeStartX), old(swipeStartY), old(swipeTask)) ==> unchanged(this) && unchanged(store)
      ensures SwipeArmed(old(swipeStartX), old(swipeStartY), old(swipeTask)) ==>
        && swipeStartX == None && swipeStartY == None && swipeTask == None && swipeDirection == None
        && var task := old(swipeTask).value;
           match SwipeEndAction(task.column, currentX - old(swipeStartX).value)
           case MoveTo(target) =>
             store.tasks == TaskList.MoveTask(old(store.tasks), task.id, target) && pendingDeleteId == old(pendingDeleteId)
           case RequestDelete =>
             unchanged(store) && pendingDeleteId == Some(task.id)
           case NoAction =>
             unchanged(store) && pendingDeleteId == old(pendingDeleteId)
    {
      if !SwipeArmed(swipeStartX, swipeStartY, swipeTask) {
        return;
      }
      var task := swipeTask.value;
      var deltaX := currentX - swipeStartX.value;
      match SwipeEndAction(task.column, deltaX) {
        case MoveTo(target) => HandleMoveTask(task.id, target);
        case RequestDelete => HandleDeleteTask(task.id);
        case NoAction =>
      }
      swipeStartX := None;
      swipeStartY := None;
      swipeTask := None;
      swipeDirection := None;
    }
  }
}
