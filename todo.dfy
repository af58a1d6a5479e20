/** The task tree the to-do screen keeps in its `todoItems` state: an ordered
    list of tasks, each with an ordered list of sub-tasks, and the keyed
    rewrites (`map`, `filter`, `find`) its handlers apply to it. Every rewrite
    builds a new list; nothing is updated in place. */
module TodoItems {

  /** Ids are the strings `Date.now().toString()` produces at creation time. */
  type Id = string

  datatype Option<T> = None | Some(value: T)

  /** JavaScript truthiness of an optional id: `null` and `''` are falsy. */
  predicate Truthy(o: Option<Id>) {
    o.Some? && o.value != ""
  }

  /** `{id, text, completed, alarmTime?}`; `alarmTime` is the locale string of
      the picked date, absent until an alarm is set. */
  datatype SubTask = SubTask(id: Id, text: string, completed: bool, alarmTime: Option<string>)

  /** `{id, text, completed, date, subTasks, expanded, alarmTime?}`. */
  datatype Task = Task(id: Id, text: string, completed: bool, date: string,
                       subTasks: seq<SubTask>, expanded: bool, alarmTime: Option<string>)

  /** What a handler does to the one sub-task whose id it matches. */
  datatype SubTaskEdit = FlipSubTaskCompleted | SetSubTaskAlarm(when: string)

  /** What a handler does to the one task whose id it matches. */
  datatype TaskEdit =
    | FlipCompleted
    | FlipExpanded
    | AppendSubTask(sub: SubTask)
    | EditSubTasks(subTaskId: Id, edit: SubTaskEdit)
    | SetTaskAlarm(when: string)

  /** An edit rebuilds a sub-task with a spread and never touches its id or text. */
  function EditSubTask(s: SubTask, e: SubTaskEdit): (r: SubTask)
    ensures r.id == s.id && r.text == s.text
  {
    match e
    case FlipSubTaskCompleted => s.(completed := !s.completed)
    case SetSubTaskAlarm(when) => s.(alarmTime := Some(when))
  }

  /** `subs.map(s => s.id === id ? edit(s) : s)`. */
  function MapSubTasks(subs: seq<SubTask>, id: Id, e: SubTaskEdit): (r: seq<SubTask>)
    ensures |r| == |subs|
    ensures forall j | 0 <= j < |r| :: r[j].id == subs[j].id
  {
    if subs == [] then []
    else [if subs[0].id == id then EditSubTask(subs[0], e) else subs[0]]
         + MapSubTasks(subs[1..], id, e)
  }

  /** An edit rebuilds a task with a spread and never touches its id, text or date. */
  function EditTask(t: Task, e: TaskEdit): (r: Task)
    ensures r.id == t.id && r.text == t.text && r.date == t.date
  {
    match e
    case FlipCompleted => t.(completed := !t.completed)
    case FlipExpanded => t.(expanded := !t.expanded)
    case AppendSubTask(sub) => t.(subTasks := t.subTasks + [sub])
    case EditSubTasks(subId, edit) => t.(subTasks := MapSubTasks(t.subTasks, subId, edit))
    case SetTaskAlarm(when) => t.(alarmTime := Some(when))
  }

  /** `items.map(item => item.id === id ? edit(item) : item)`: length, order and
      every id are kept. */
  function MapTasks(items: seq<Task>, id: Id, e: TaskEdit): (r: seq<Task>)
    ensures |r| == |items|
    ensures forall i | 0 <= i < |r| :: r[i].id == items[i].id
  {
    if items == [] then []
    else [if items[0].id == id then EditTask(items[0], e) else items[0]]
         + MapTasks(items[1..], id, e)
  }

  /** `items.filter(item => item.id !== id)`. */
  function RemoveTask(items: seq<Task>, id: Id): (r: seq<Task>)
    ensures |r| <= |items|
    ensures forall t | t in r :: t in items && t.id != id
  {
    if items == [] then []
    else if items[0].id != id then [items[0]] + RemoveTask(items[1..], id)
    else RemoveTask(items[1..], id)
  }

  /** `items.find(item => item.id === id)`: the first task with that id. */
  function FindTask(items: seq<Task>, id: Id): (r: Option<Task>)
    ensures r.None? <==> forall i | 0 <= i < |items| :: items[i].id != id
    ensures r.Some? ==> r.value in items && r.value.id == id
  {
    if items == [] then None
    else if items[0].id == id then Some(items[0])
    else FindTask(items[1..], id)
  }

  /** `subs.find(s => s.id === id)`: the first sub-task with that id. */
  function FindSubTask(subs: seq<SubTask>, id: Id): (r: Option<SubTask>)
    ensures r.None? <==> forall j | 0 <= j < |subs| :: subs[j].id != id
    ensures r.Some? ==> r.value in subs && r.value.id == id
  {
    if subs == [] then None
    else if subs[0].id == id then Some(subs[0])
    else FindSubTask(subs[1..], id)
  }

  // ---------------------------------------------------------------------
  // The keyed map, element by element
  // ---------------------------------------------------------------------

  /** Only a sub-task whose id matches is edited; the others are returned as they are. */
  lemma {:induction false} MapSubTasksAt(subs: seq<SubTask>, id: Id, e: SubTaskEdit, j: int)
    requires 0 <= j < |subs|
    ensures MapSubTasks(subs, id, e)[j] == if subs[j].id == id then EditSubTask(subs[j], e) else subs[j]
  {
    if j > 0 {
      MapSubTasksAt(subs[1..], id, e, j - 1);
    }
  }

  /** Only a task whose id matches is edited; the others are returned as they are. */
  lemma {:induction false} MapTasksAt(items: seq<Task>, id: Id, e: TaskEdit, i: int)
    requires 0 <= i < |items|
    ensures MapTasks(items, id, e)[i] == if items[i].id == id then EditTask(items[i], e) else items[i]
  {
    if i > 0 {
      MapTasksAt(items[1..], id, e, i - 1);
    }
  }

  /** An id that no sub-task carries leaves the list equal to the original. */
  lemma {:induction false} MapSubTasksUnknownId(subs: seq<SubTask>, id: Id, e: SubTaskEdit)
    requires forall j | 0 <= j < |subs| :: subs[j].id != id
    ensures MapSubTasks(subs, id, e) == subs
  {
    if subs != [] {
      MapSubTasksUnknownId(subs[1..], id, e);
    }
  }

  /** An id that no task carries leaves the list equal to the original. */
  lemma {:induction false} MapTasksUnknownId(items: seq<Task>, id: Id, e: TaskEdit)
    requires forall i | 0 <= i < |items| :: items[i].id != id
    ensures MapTasks(items, id, e) == items
  {
    if items != [] {
      MapTasksUnknownId(items[1..], id, e);
    }
  }

  /** Toggling a sub-task's `completed` twice restores the list. */
  lemma {:induction false} MapSubTasksFlipTwice(subs: seq<SubTask>, id: Id)
    ensures MapSubTasks(MapSubTasks(subs, id, FlipSubTaskCompleted), id, FlipSubTaskCompleted) == subs
  {
    if subs != [] {
      MapSubTasksFlipTwice(subs[1..], id);
    }
  }

  /** The task edits that undo themselves: the three toggles. */
  predicate SelfInverse(e: TaskEdit) {
    || e.FlipCompleted?
    || e.FlipExpanded?
    || (e.EditSubTasks? && e.edit.FlipSubTaskCompleted?)
  }

  lemma EditTaskTwice(t: Task, e: TaskEdit)
    requires SelfInverse(e)
    ensures EditTask(EditTask(t, e), e) == t
  {
    if e.EditSubTasks? {
      MapSubTasksFlipTwice(t.subTasks, e.subTaskId);
    }
  }

  /** Applying a toggle twice, with the same id, restores the list. */
  lemma {:induction false} MapTasksTwice(items: seq<Task>, id: Id, e: TaskEdit)
    requires SelfInverse(e)
    ensures MapTasks(MapTasks(items, id, e), id, e) == items
  {
    if items != [] {
      EditTaskTwice(items[0], e);
      MapTasksTwice(items[1..], id, e);
    }
  }

  // ---------------------------------------------------------------------
  // The handlers' rewrites
  // ---------------------------------------------------------------------

  /** `toggleTodoItem`: `completed` flips exactly on the tasks whose id matches,
      no other field of any task changes, a second toggle restores the list and
      an unknown id changes nothing. */
  lemma {:induction false} ToggleTodoItemSpec(items: seq<Task>, id: Id)
    ensures var r := MapTasks(items, id, FlipCompleted);
      && |r| == |items|
      && forall i | 0 <= i < |items| ::
           && r[i].completed == (items[i].completed != (items[i].id == id))
           && r[i].(completed := items[i].completed) == items[i]
    ensures MapTasks(MapTasks(items, id, FlipCompleted), id, FlipCompleted) == items
    ensures (forall i | 0 <= i < |items| :: items[i].id != id) ==> MapTasks(items, id, FlipCompleted) == items
  {
    forall i | 0 <= i < |items| {
      MapTasksAt(items, id, FlipCompleted, i);
    }
    MapTasksTwice(items, id, FlipCompleted);
    if forall i | 0 <= i < |items| :: items[i].id != id {
      MapTasksUnknownId(items, id, FlipCompleted);
    }
  }

  /** `toggleExpandCollapse`: `expanded` flips exactly on the tasks whose id
      matches, nothing else changes, and a second toggle restores the list. */
  lemma {:induction false} ToggleExpandSpec(items: seq<Task>, id: Id)
    ensures var r := MapTasks(items, id, FlipExpanded);
      && |r| == |items|
      && forall i | 0 <= i < |items| ::
           && r[i].expanded == (items[i].expanded != (items[i].id == id))
           && r[i].(expanded := items[i].expanded) == items[i]
    ensures MapTasks(MapTasks(items, id, FlipExpanded), id, FlipExpanded) == items
    ensures (forall i | 0 <= i < |items| :: items[i].id != id) ==> MapTasks(items, id, FlipExpanded) == items
  {
    forall i | 0 <= i < |items| {
      MapTasksAt(items, id, FlipExpanded, i);
    }
    MapTasksTwice(items, id, FlipExpanded);
    if forall i | 0 <= i < |items| :: items[i].id != id {
      MapTasksUnknownId(items, id, FlipExpanded);
    }
  }

  /** `toggleSubTask`: inside the tasks with id `taskId`, `completed` flips
      exactly on the sub-tasks with id `subTaskId`. No task's own fields change,
      so a task's `completed` never follows its sub-tasks (nor they it); no other
      field of a sub-task changes; a second toggle restores the list. */
  lemma {:induction false} ToggleSubTaskSpec(items: seq<Task>, taskId: Id, subTaskId: Id)
    ensures var r := MapTasks(items, taskId, EditSubTasks(subTaskId, FlipSubTaskCompleted));
      && |r| == |items|
      && forall i | 0 <= i < |items| ::
           && r[i].(subTasks := items[i].subTasks) == items[i]
           && |r[i].subTasks| == |items[i].subTasks|
           && forall j | 0 <= j < |items[i].subTasks| ::
                && r[i].subTasks[j].completed
                   == (items[i].subTasks[j].completed
                       != (items[i].id == taskId && items[i].subTasks[j].id == subTaskId))
                && r[i].subTasks[j].(completed := items[i].subTasks[j].completed) == items[i].subTasks[j]
    ensures var e := EditSubTasks(subTaskId, FlipSubTaskCompleted);
      MapTasks(MapTasks(items, taskId, e), taskId, e) == items
  {
    var e := EditSubTasks(subTaskId, FlipSubTaskCompleted);
    var r := MapTasks(items, taskId, e);
    forall i | 0 <= i < |items|
      ensures r[i].(subTasks := items[i].subTasks) == items[i]
      ensures |r[i].subTasks| == |items[i].subTasks|
      ensures forall j | 0 <= j < |items[i].subTasks| ::
                && r[i].subTasks[j].completed
                   == (items[i].subTasks[j].completed
                       != (items[i].id == taskId && items[i].subTasks[j].id == subTaskId))
                && r[i].subTasks[j].(completed := items[i].subTasks[j].completed) == items[i].subTasks[j]
    {
      MapTasksAt(items, taskId, e, i);
      forall j | 0 <= j < |items[i].subTasks| {
        MapSubTasksAt(items[i].subTasks, subTaskId, FlipSubTaskCompleted, j);
      }
    }
    MapTasksTwice(items, taskId, e);
  }

  /** `addSubTask`: the new sub-task is appended at the end of the sub-tasks of
      the tasks with id `taskId` and nowhere else; no other field of any task
      changes; an unknown id changes nothing. */
  lemma {:induction false} AddSubTaskSpec(items: seq<Task>, taskId: Id, sub: SubTask)
    ensures var r := MapTasks(items, taskId, AppendSubTask(sub));
      && |r| == |items|
      && forall i | 0 <= i < |items| ::
           && r[i].(subTasks := items[i].subTasks) == items[i]
           && r[i].subTasks == if items[i].id == taskId then items[i].subTasks + [sub] else items[i].subTasks
    ensures (forall i | 0 <= i < |items| :: items[i].id != taskId) ==> MapTasks(items, taskId, AppendSubTask(sub)) == items
  {
    forall i | 0 <= i < |items| {
      MapTasksAt(items, taskId, AppendSubTask(sub), i);
    }
    if forall i | 0 <= i < |items| :: items[i].id != taskId {
      MapTasksUnknownId(items, taskId, AppendSubTask(sub));
    }
  }

  // ---------------------------------------------------------------------
  // Confirmed delete
  // ---------------------------------------------------------------------

  /** Exactly the tasks whose id differs are kept: every task with the id goes. */
  lemma {:induction false} RemoveTaskKeeps(items: seq<Task>, id: Id)
    ensures forall t :: t in RemoveTask(items, id) <==> t in items && t.id != id
  {
    if items != [] {
      RemoveTaskKeeps(items[1..], id);
      assert items == [items[0]] + items[1..];
    }
  }

  /** Deleting an id no task carries leaves the list equal to the original. */
  lemma {:induction false} RemoveTaskAbsent(items: seq<Task>, id: Id)
    requires forall i | 0 <= i < |items| :: items[i].id != id
    ensures RemoveTask(items, id) == items
  {
    if items != [] {
      RemoveTaskAbsent(items[1..], id);
    }
  }

  /** Filtering commutes with concatenation, so the kept tasks stay in their
      original order. */
  lemma {:induction false} RemoveTaskAppend(a: seq<Task>, b: seq<Task>, id: Id)
    ensures RemoveTask(a + b, id) == RemoveTask(a, id) + RemoveTask(b, id)
  {
    if a != [] {
      assert (a + b)[1..] == a[1..] + b;
      RemoveTaskAppend(a[1..], b, id);
    } else {
      assert a + b == b;
    }
  }

  /** When one task carries the id, deleting it closes the gap it leaves. */
  lemma {:induction false} RemoveTaskUnique(items: seq<Task>, id: Id, k: int)
    requires 0 <= k < |items| && items[k].id == id
    requires forall i | 0 <= i < |items| && i != k :: items[i].id != id
    ensures RemoveTask(items, id) == items[..k] + items[k + 1..]
  {
    var rest := items[1..];
    if k == 0 {
      forall i | 0 <= i < |rest| ensures rest[i].id != id {
        assert rest[i] == items[i + 1];
      }
      RemoveTaskAbsent(rest, id);
    } else {
      forall i | 0 <= i < |rest| && i != k - 1 ensures rest[i].id != id {
        assert rest[i] == items[i + 1];
      }
      RemoveTaskUnique(rest, id, k - 1);
      assert items[..k] == [items[0]] + rest[..k - 1];
      assert items[k + 1..] == rest[k..];
    }
  }

  // ---------------------------------------------------------------------
  // Lookup
  // ---------------------------------------------------------------------

  /** `find` returns the first task carrying the id. */
  lemma {:induction false} FindTaskFirst(items: seq<Task>, k: int)
    requires 0 <= k < |items|
    requires forall j | 0 <= j < k :: items[j].id != items[k].id
    ensures FindTask(items, items[k].id) == Some(items[k])
  {
    if k > 0 {
      FindTaskFirst(items[1..], k - 1);
    }
  }

  /** `find` returns the first sub-task carrying the id. */
  lemma {:induction false} FindSubTaskFirst(subs: seq<SubTask>, m: int)
    requires 0 <= m < |subs|
    requires forall j | 0 <= j < m :: subs[j].id != subs[m].id
    ensures FindSubTask(subs, subs[m].id) == Some(subs[m])
  {
    if m > 0 {
      FindSubTaskFirst(subs[1..], m - 1);
    }
  }
}
