/**
 The task record of the board (src/components/KanbanTypes.ts) and the
 optional-value wrapper its optional challenge fields need.
 */
module KanbanTypes {

  datatype Option<+T> = None | Some(value: T)

  /** The three workflow columns: 'todo' | 'in-progress' | 'done'. */
  datatype Column = Todo | InProgress | Done

  datatype Difficulty = Easy | Medium | Hard

  /** One card on the board. `id` is an opaque string; `createdAt` is the
      creation time in epoch milliseconds. The last six fields are present
      only on generated challenges. */
  datatype Task = Task(
    id: string,
    text: string,
    column: Column,
    createdAt: int,
    description: Option<string>,
    difficulty: Option<Difficulty>,
    category: Option<string>,
    time: Option<string>,
    xp: Option<int>,
    isChallenge: Option<bool>)
}
