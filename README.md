# Kanban challenge board: task store and board transitions

A Dafny model of the core of a single-page kanban board. Cards are tasks or
generated "challenges". Each card sits in one of three columns: to-do,
in-progress or done. Users add cards, drag, swipe or tap arrows to move them
between columns, and delete them in two steps. The list is kept in the
browser's local storage.

The model has six modules:

- `KanbanTypes` (`kanban_types.dfy`): the task record, with its three-valued
  column as a datatype and its optional challenge fields as `Option`s.
- `TaskList` (`task_list.dfy`): the three list updaters of the task store.
  `MoveTask` re-columns every task with the id. `AddTask` appends unless the
  id is taken. `DeleteTask` filters out every task with the id. Each is a
  function with lemmas about ids, order, idempotence and "nothing else
  changes".
- `KanbanContext` (`kanban_context.dfy`): the store's provider as a class.
  Its fields are the task list, the two refs of the persistence effect
  (`isInitialized`, `prevTasks`) and the storage cell. The constructor does
  the initial load. `RunEffect` is one run of the persistence effect. Its
  contract says the first run never writes, and that a later run writes
  exactly when the list differs from the snapshot. The invariant `Valid()`
  says that reloading storage gives back the last snapshot.
- `Seqs` (`seqs.dfy`): the filter both modules rely on, with order
  preservation proved as an explicit increasing index map.
- `JsString` (`js_string.dfy`): ECMAScript's `trim`, used by the add-task
  guard.
- `KanbanBoard` (`kanban_board.dfy`): the per-column view, the swipe and
  arrow decision tables, and the `Board` class. The class holds the store and
  the component's transient state. It has one method per event handler.

Serialisation is abstract. `Codec` is a pair of functions, and the model
assumes only that parsing a serialised list returns it and that a serialised
list is never the empty string. Fresh ids, the clock and the challenge
template are method parameters.

The model follows the code in these behaviours, which a reader might expect
to be otherwise:

- `deleteTask` removes every task with the id, not just one.
  `TaskList.DeleteTaskLength` shows that this is exactly one task when ids
  are unique.
- An empty stored string loads as an empty board, like a missing one.
- Storage is written only after the first effect run, and only when the
  serialised list changed. It is not written on every operation.
- The board code awards no rewards, so no reward ledger is modelled.

One behaviour of the code as written is kept: both swipe handlers test
their start coordinates for truthiness. A touch that starts at x = 0 or
y = 0 therefore never arms a swipe (`KanbanBoard.EdgeTouchNeverArms`). When
such a swipe ends, the swipe fields are left set.

## Model

| member | source | states |
|---|---|---|
| `Seqs.Filter` | src/components/KanbanContext.tsx:58 | the result holds exactly the elements of the input that pass the test, and is no longer than the input |
| `TaskList.ContainsId` | src/components/KanbanContext.tsx:54 | true exactly when some position of the list carries the id |
| `TaskList.MoveTask` | src/components/KanbanContext.tsx:47-51 | same length and order; each task with the id gets the new column with all other fields kept; every other task is untouched |
| `TaskList.MoveTaskKeepsIds` | src/components/KanbanContext.tsx:48-50 | a move keeps the id at every position, so the ids present and their uniqueness are unchanged |
| `TaskList.MoveTaskUnknownId` | src/components/KanbanContext.tsx:48-50 | moving an id that is not on the list leaves the list unchanged |
| `TaskList.MoveTaskIdempotent` | src/components/KanbanContext.tsx:48-50 | moving the same id to the same column twice equals moving it once |
| `TaskList.AddTask` | src/components/KanbanContext.tsx:53-55 | the result carries the task's id, extends the old list and is at most one longer |
| `TaskList.AddTaskCases` | src/components/KanbanContext.tsx:54 | an unused id appends the task at the end; an id already present returns the list unchanged |
| `TaskList.AddTaskIdempotent` | src/components/KanbanContext.tsx:54 | adding the same task twice equals adding it once |
| `TaskList.AddTaskIds` | src/components/KanbanContext.tsx:54 | after an add the ids present are the old ones plus the task's; pairwise-distinct ids stay pairwise distinct |
| `TaskList.AddAllUnique` | src/components/KanbanContext.tsx:53-55 | for any series of adds, duplicates included, ids stay pairwise distinct and the ids present are the initial ones plus those submitted: one task per distinct id |
| `TaskList.DeleteTask` | src/components/KanbanContext.tsx:57-59 | no task with the id remains; a task is kept exactly when it was present with another id |
| `TaskList.DeleteTaskKeepsOrder` | src/components/KanbanContext.tsx:58 | the result is the subsequence of the old list at exactly the positions whose id differs, in the same order |
| `TaskList.DeleteTaskUnknownId` | src/components/KanbanContext.tsx:58 | deleting an id that is not on the list leaves it unchanged |
| `TaskList.DeleteTaskIdempotent` | src/components/KanbanContext.tsx:58 | deleting twice equals deleting once |
| `TaskList.DeleteTaskLength` | src/components/KanbanContext.tsx:57-59 | with unique ids, a delete shortens the list by one when the id was present and by zero otherwise |
| `TaskList.DeleteTaskKeepsUnique` | src/components/KanbanContext.tsx:58 | deleting keeps ids pairwise distinct |
| `KanbanContext.SerializeInjective` | src/components/KanbanContext.tsx:38-41 | under a round-tripping codec two lists serialise alike exactly when they are equal, so the effect's string comparison is a list comparison |
| `KanbanContext.InitialTasks` | src/components/KanbanContext.tsx:18-24 | an absent or empty stored value, or one that fails to parse, loads as the empty list; a parsable non-empty value loads as what it parses to |
| `KanbanContext.ReloadAfterWrite` | src/components/KanbanContext.tsx:18-45 | loading what the effect wrote gives back the list it wrote |
| `KanbanContext.Store.constructor` | src/components/KanbanContext.tsx:18-27 | mounting loads the list from storage, with the effect not yet run and an empty snapshot |
| `KanbanContext.Store.RunEffect` | src/components/KanbanContext.tsx:29-45 | the first run only records the snapshot and never writes; a later run writes exactly when the list differs from the snapshot, and then stores its serialisation and takes a new snapshot; afterwards reloading storage yields the current list |
| `KanbanContext.Store.MoveTask` | src/components/KanbanContext.tsx:47-51 | the list becomes `TaskList.MoveTask` of the old one, and storage is rewritten exactly when that changed it |
| `KanbanContext.Store.AddTask` | src/components/KanbanContext.tsx:53-55 | the list becomes `TaskList.AddTask` of the old one, and storage is written exactly when the id was new |
| `KanbanContext.Store.DeleteTask` | src/components/KanbanContext.tsx:57-59 | the list becomes `TaskList.DeleteTask` of the old one, and storage is written exactly when the id was present |
| `KanbanContext.RunEffectTwice` | src/components/KanbanContext.tsx:29-45 | two consecutive effect runs on the same list write at most once; the second never writes |
| `KanbanContext.AddThenMove` | src/components/KanbanContext.tsx:47-55 | adding a task to an empty board and moving it to in-progress leaves exactly that task, in-progress, in memory and in storage |
| `JsString.Trim` | src/components/KanbanBoard.tsx:36 | the trimmed input is the input without its leading white space, cut after the last character that is not white space; it is empty exactly when every character is ECMAScript white space |
| `KanbanBoard.TasksByColumn` | src/components/KanbanBoard.tsx:93-95 | a task is listed under a column exactly when it is on the board with that column |
| `KanbanBoard.TasksByColumnKeepsOrder` | src/components/KanbanBoard.tsx:94 | a column lists the subsequence of the board at exactly the positions in that column, in board order |
| `KanbanBoard.ColumnsPartition` | src/components/KanbanBoard.tsx:214-218 | over the three columns the per-column lists partition the board: their multisets add up to the board's, and so do their lengths |
| `KanbanBoard.AddedTaskJoinsItsColumn` | src/components/KanbanBoard.tsx:93-95 | a task added with a fresh id appears at the bottom of its own column and changes no other column |
| `KanbanBoard.MovedTaskShownOnlyInTarget` | src/components/KanbanBoard.tsx:89-95 | after a move, the moved card is listed in the target column and in no other |
| `KanbanBoard.SwipeEndAction` | src/components/KanbanBoard.tsx:134-155 | a swipe shorter than 80 does nothing; a done task is never affected; a left swipe on a to-do task requests deletion and nothing else does; every move goes one column right on a right swipe and one column left on a left swipe |
| `KanbanBoard.DirectionIndicator` | src/components/KanbanBoard.tsx:119-126 | the indicator is right exactly beyond +20, left exactly beyond -20, and absent in between |
| `KanbanBoard.ArrowTargets` | src/components/KanbanBoard.tsx:386-437 | a card's arrow buttons lead exactly to the columns adjacent to its own, left to right |
| `KanbanBoard.SwipeArmed` | src/components/KanbanBoard.tsx:105 | the guard shared by the swipe-move and swipe-end handlers (the same test at line 130): both start coordinates present and non-zero, and a touched task recorded |
| `KanbanBoard.IsSetId` | src/components/KanbanBoard.tsx:79 | the pending-delete id counts as set exactly when it is present and not the empty string |
| `KanbanBoard.EdgeTouchNeverArms` | src/components/KanbanBoard.tsx:105 | a swipe whose start x or y is 0 fails the truthiness guard |
| `KanbanBoard.NewTask` | src/components/KanbanBoard.tsx:37-42 | a typed task carries the given id, text and creation time, starts in to-do, is not a challenge and has no description, difficulty, category, duration or xp |
| `KanbanBoard.ChallengeTask` | src/components/KanbanBoard.tsx:52-63 | a generated challenge starts in to-do, is flagged as a challenge, and copies title, description, difficulty, category, time and xp from the template |
| `KanbanBoard.Board.constructor` | src/components/KanbanBoard.tsx:17-29 | the board starts with empty input, closed form, nothing pending, no drag and no swipe |
| `KanbanBoard.Board.HandleInputChange` | src/components/KanbanBoard.tsx:31-33 | the input takes the typed value |
| `KanbanBoard.Board.OpenAddForm` | src/components/KanbanBoard.tsx:471 | the add form opens |
| `KanbanBoard.Board.CancelAddForm` | src/components/KanbanBoard.tsx:519-522 | the form closes and the input is cleared |
| `KanbanBoard.Board.HandleAddTask` | src/components/KanbanBoard.tsx:35-48 | blank input changes nothing, input and form included; otherwise exactly one to-do task with the input text is appended, then the input is cleared and the form closed |
| `KanbanBoard.Board.HandleKeyDown` | src/components/KanbanBoard.tsx:68-72 | Enter behaves as the add button; any other key changes nothing |
| `KanbanBoard.Board.HandleGenerateChallenge` | src/components/KanbanBoard.tsx:50-66 | exactly the challenge task built from the template is appended |
| `KanbanBoard.Board.HandleDeleteTask` | src/components/KanbanBoard.tsx:74-76 | requesting a delete only marks the id as pending; the store is untouched |
| `KanbanBoard.Board.ConfirmDelete` | src/components/KanbanBoard.tsx:78-83 | with a pending id, that id is deleted and the mark cleared; with none, nothing changes |
| `KanbanBoard.Board.CancelDelete` | src/components/KanbanBoard.tsx:85-87 | the mark is cleared and nothing is deleted |
| `KanbanBoard.Board.HandleMoveTask` | src/components/KanbanBoard.tsx:89-91 | the store's list becomes the moved list |
| `KanbanBoard.Board.HandleArrow` | src/components/KanbanBoard.tsx:386-437 | an arrow press moves the card to an adjacent column |
| `KanbanBoard.Board.HandleDragStart` | src/components/KanbanBoard.tsx:166-173 | the dragged card is recorded |
| `KanbanBoard.Board.HandleDragEnd` | src/components/KanbanBoard.tsx:175-178 | drag state is cleared |
| `KanbanBoard.Board.HandleDragOver` | src/components/KanbanBoard.tsx:180-188 | the hovered column is recorded |
| `KanbanBoard.Board.HandleDragLeave` | src/components/KanbanBoard.tsx:190-192 | the hovered column is cleared |
| `KanbanBoard.Board.HandleDrop` | src/components/KanbanBoard.tsx:194-208 | a non-empty carried id is moved to the column dropped on, an empty one moves nothing, and drag state is always cleared |
| `KanbanBoard.Board.HandleSwipeStart` | src/components/KanbanBoard.tsx:98-102 | the start point and the touched card are recorded |
| `KanbanBoard.Board.HandleSwipeMove` | src/components/KanbanBoard.tsx:104-127 | only an armed, mostly horizontal movement (abs dx at least abs dy) sets the indicator, to the direction of dx; otherwise it is unchanged |
| `KanbanBoard.Board.HandleSwipeEnd` | src/components/KanbanBoard.tsx:129-163 | an unarmed swipe changes nothing; an armed one carries out the swipe-end decision (move, delete request or nothing) and clears all four swipe fields |

## Left out

- Rendering, animation, styling, the per-column counts and hint texts, the
  sound themes, the delete-confirmation and theme-toggle components, and app
  wiring. None of them decide what happens to a task.
- `JSON.stringify` and `JSON.parse`: abstract, as a round-tripping `Codec`. A
  stored value that parses to something other than a task list (the string
  `null`, say) would enter state unchanged in the code. The model cannot
  express that value.
- Object key order in serialisation: equal lists are taken to serialise
  alike.
- Storage write failures and the context hook's error when used outside its
  provider.
- React scheduling. Each handler is one atomic update. A store operation is
  immediately followed by the effect run of the re-render it causes. Stale
  `useCallback` closures and double-invoked effects are not modelled.
- Store mutators and the board require the first effect run to have
  happened. React runs the provider's mount effect before any event handler.
- `generateId` and `Date.now` are parameters.
- `KanbanBoard.Board.HandleAddTask`: requires the fresh id to be unused,
  because the random id generator is not modelled. `TaskList.AddTask` covers
  a colliding id: the new task is silently dropped.
- `KanbanBoard.Board.HandleGenerateChallenge`: requires the fresh id to be
  unused, for the same reason.
- `KanbanBoard.Board.HandleKeyDown`: requires the fresh id to be unused, for
  the same reason.
- The challenge catalogue: `src/lib/challenges` is not part of this model,
  so its template is an input record.
- The reward ledger has no code in the board, so it is not modelled.
- `KanbanBoard.Board.HandleArrow`: requires the target to be one of the
  buttons the card shows, since the UI renders only those.
- The drop handler's cast of a column id: the only drop targets are the
  three columns, so the model takes a `Column`. The drag payload is the id
  parameter of `HandleDrop`. An empty id stands for a missing payload.
- Coordinates, `createdAt` and `xp` are integers. JavaScript numbers with a
  fractional part are not modelled.
- `JsString.Trim` works on Unicode scalar values, not UTF-16 code units.
  Every ECMAScript white-space character is a single code unit, so the guard
  is unaffected.
- Suppressing the browser's default scrolling during a horizontal swipe is
  not modelled.
