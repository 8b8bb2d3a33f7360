/**
 The task store's provider (src/components/KanbanContext.tsx): the task list
 as component state, the lazy initial load from local storage, and the
 persistence effect that writes the list back only when its serialisation
 changed since the last snapshot.

 Storage is one string cell, the value under the `kanban-tasks` key (`None`
 when the key is absent). `JSON.stringify` and `JSON.parse` are taken as a
 pair of functions, `Codec`, of which the model assumes only that parsing a
 serialised list gives the list back and that a serialised list is never the
 empty string.
 */
module KanbanContext {
  import opened KanbanTypes
  import TaskList

  /** `JSON.stringify` / `JSON.parse` restricted to task lists; `parse`
      answers `None` where `JSON.parse` throws. */
  datatype Codec = Codec(serialize: seq<Task> -> string, parse: string -> Option<seq<Task>>) {
    ghost predicate RoundTrips() {
      forall tasks :: parse(serialize(tasks)) == Some(tasks) && serialize(tasks) != ""
    }
  }

  /** Two lists serialise alike exactly when they are equal, so comparing
      serialisations is comparing lists. */
  lemma SerializeInjective(codec: Codec, a: seq<Task>, b: seq<Task>)
    requires codec.RoundTrips()
    ensures codec.serialize(a) == codec.serialize(b) <==> a == b
  {
  }

  /** The initial state of the task list: the parsed stored value when the
      stored string is present, non-empty and parses; the empty list when it
      is absent, empty (falsy) or parsing throws. */
  function InitialTasks(stored: Option<string>, parse: string -> Option<seq<Task>>): (r: seq<Task>)
    ensures stored == None || stored == Some("") ==> r == []
    ensures forall s :: stored == Some(s) && parse(s) == None ==> r == []
    ensures forall s, tasks :: stored == Some(s) && s != "" && parse(s) == Some(tasks) ==> r == tasks
  {
    match stored
    case Some(s) =>
      if s != "" then
        match parse(s)
        case Some(tasks) => tasks
        case None => []
      else []
    case None => []
  }

  /** Reloading what the effect wrote gives the same list back. */
  lemma ReloadAfterWrite(codec: Codec, tasks: seq<Task>)
    requires codec.RoundTrips()
    ensures InitialTasks(Some(codec.serialize(tasks)), codec.parse) == tasks
  {
  }

  /** The provider's state: the `tasks` state variable, the two refs the
      persistence effect keeps (`isInitializedRef`, `prevTasksRef`) and the
      storage cell. */
  class Store {
    const codec: Codec
    var tasks: seq<Task>
    var isInitialized: bool
    var prevTasks: seq<Task>
    var storage: Option<string>

    /** Before the first effect run the list is what was loaded and the
        snapshot is empty; afterwards, reloading storage yields the snapshot. */
    ghost predicate Consistent()
      reads this
    {
      && codec.RoundTrips()
      && (!isInitialized ==> tasks == InitialTasks(storage, codec.parse) && prevTasks == [])
      && (isInitialized ==> InitialTasks(storage, codec.parse) == prevTasks)
    }

    /** Between events: consistent, and once initialized the snapshot is the
        current list. */
    ghost predicate Valid()
      reads this
    {
      Consistent() && (isInitialized ==> prevTasks == tasks)
    }

    /** Mounting the provider: the lazy `useState` initialiser loads from
        storage; the refs start as `false` and `[]`. */
    constructor (stored: Option<string>, codec: Codec)
      requires codec.RoundTrips()
      ensures Valid() && !isInitialized
      ensures this.codec == codec && storage == stored && prevTasks == []
      ensures tasks == InitialTasks(stored, codec.parse)
    {
      this.codec := codec;
      tasks := InitialTasks(stored, codec.parse);
      isInitialized := false;
      prevTasks := [];
      storage := stored;
    }

    /** One run of the persistence effect. The first run only records the
        snapshot; a later run writes, and takes a new snapshot, exactly when
        the serialised list differs from the serialised snapshot. */
    method RunEffect() returns (wrote: bool)
      requires Consistent()
      modifies this
      ensures Valid() && isInitialized
      ensures tasks == old(tasks) && prevTasks == tasks
      ensures !old(isInitialized) ==> !wrote
      ensures wrote <==> old(isInitialized) && codec.serialize(tasks) != codec.serialize(old(prevTasks))
      ensures wrote <==> old(isInitialized) && tasks != old(prevTasks)
      ensures storage == if wrote then Some(codec.serialize(tasks)) else old(storage)
      ensures InitialTasks(storage, codec.parse) == tasks
    {
      if !isInitialized {
        isInitialized := true;
        prevTasks := tasks;
        return false;
      }
      var tasksString := codec.serialize(tasks);
      var prevTasksString := codec.serialize(prevTasks);
      SerializeInjective(codec, tasks, prevTasks);
      if tasksString != prevTasksString {
        storage := Some(tasksString);
        prevTasks := tasks;
        wrote := true;
      } else {
        wrote := false;
      }
    }

    /** `moveTask`, followed by the effect run of the re-render it causes. */
    method MoveTask(taskId: string, newColumn: Column) returns (wrote: bool)
      requires Valid() && isInitialized
      modifies this
      ensures Valid() && isInitialized
      ensures tasks == TaskList.MoveTask(old(tasks), taskId, newColumn)
      ensures wrote <==> tasks != old(tasks)
      ensures storage == if wrote then Some(codec.serialize(tasks)) else old(storage)
    {
      tasks := TaskList.MoveTask(tasks, taskId, newColumn);
      wrote := RunEffect();
    }

    /** `addTask`, followed by the effect run of the re-render it causes. */
    method AddTask(task: Task) returns (wrote: bool)
      requires Valid() && isInitialized
      modifies this
      ensures Valid() && isInitialized
      ensures tasks == TaskList.AddTask(old(tasks), task)
      ensures wrote <==> !TaskList.ContainsId(old(tasks), task.id)
      ensures storage == if wrote then Some(codec.serialize(tasks)) else old(storage)
    {
      tasks := TaskList.AddTask(tasks, task);
      wrote := RunEffect();
    }

    /** `deleteTask`, followed by the effect run of the re-render it causes. */
    method DeleteTask(taskId: string) returns (wrote: bool)
      requires Valid() && isInitialized
      modifies this
      ensures Valid() && isInitialized
      ensures tasks == TaskList.DeleteTask(old(tasks), taskId)
      ensures wrote <==> TaskList.ContainsId(old(tasks), taskId)
      ensures storage == if wrote then Some(codec.serialize(tasks)) else old(storage)
    {
      ghost var before := tasks;
      tasks := TaskList.DeleteTask(tasks, taskId);
      if TaskList.ContainsId(before, taskId) {
        var i :| 0 <= i < |before| && before[i].id == taskId;
        assert before[i] !in tasks;
      } else {
        TaskList.DeleteTaskUnknownId(before, taskId);
      }
      wrote := RunEffect();
    }
  }

  /** Two consecutive effect runs on the same list write at most once; in
      fact the second never writes. */
  method RunEffectTwice(store: Store) returns (first: bool, second: bool)
    requires store.Consistent()
    modifies store
    ensures !second && !(first && second)
    ensures store.Valid() && store.tasks == old(store.tasks)
  {
    first := store.RunEffect();
    second := store.RunEffect();
  }

  /** Adding a task to an empty board and moving it to in-progress leaves
      exactly that task, in its new column, both in memory and in storage. */
  method AddThenMove(store: Store, task: Task)
    requires store.Valid() && store.isInitialized && store.tasks == []
    modifies store
    ensures store.Valid()
    ensures store.tasks == [task.(column := InProgress)]
    ensures store.storage == Some(store.codec.serialize([task.(column := InProgress)]))
  {
    var added := store.AddTask(task);
    var moved := store.MoveTask(task.id, InProgress);
    if task.column == InProgress {
      assert task.(column := InProgress) == task;
    }
  }
}
