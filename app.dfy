/** The `App` component: its state variables as fields and its handlers as
    methods. A handler computes the new task list with the rewrites of
    `TodoItems` and `Alarm` and replaces the field, as each `setState` call
    does. Persisting the list and scheduling the notification are left to the
    caller: `HandleAlarmSet` returns the request it hands to the service and
    takes whether the service accepted it as an input. */
module App {
  import opened JsString
  import opened TodoItems
  import opened Alarm

  class TodoApp {
    var todoItems: seq<Task>
    var inputText: string
    var subTaskInputText: string
    var showDatePicker: bool
    var selectedTaskId: Option<Id>
    var selectedSubTaskId: Option<Id>

    /** The initial `useState` values. */
    constructor ()
      ensures todoItems == [] && inputText == "" && subTaskInputText == ""
      ensures !showDatePicker && selectedTaskId == None && selectedSubTaskId == None
    {
      todoItems := [];
      inputText := "";
      subTaskInputText := "";
      showDatePicker := false;
      selectedTaskId := None;
      selectedSubTaskId := None;
    }

    /** The task input's `onChangeText`. */
    method ChangeInputText(text: string)
      modifies this`inputText
      ensures inputText == text
    {
      inputText := text;
    }

    /** The sub-task input's `onChangeText`. */
    method ChangeSubTaskInputText(text: string)
      modifies this`subTaskInputText
      ensures subTaskInputText == text
    {
      subTaskInputText := text;
    }

    /** Blank input is ignored; otherwise the untrimmed text becomes a new,
        incomplete, collapsed task without sub-tasks or alarm at the end of the
        list, and the input is cleared. `newId` and `today` stand for
        `Date.now().toString()` and `new Date().toLocaleDateString()`. */
    method AddTodoItem(newId: Id, today: string)
      modifies this`todoItems, this`inputText
      ensures AllWhiteSpace(old(inputText)) ==> todoItems == old(todoItems) && inputText == old(inputText)
      ensures !AllWhiteSpace(old(inputText)) ==>
                && todoItems == old(todoItems) + [Task(newId, old(inputText), false, today, [], false, None)]
                && inputText == ""
    {
      TrimEmptyIff(inputText);
      if Trim(inputText) != "" {
        var newItem := Task(newId, inputText, false, today, [], false, None);
        todoItems := todoItems + [newItem];
        inputText := "";
      }
    }

    method ToggleTodoItem(id: Id)
      modifies this`todoItems
      ensures todoItems == MapTasks(old(todoItems), id, FlipCompleted)
    {
      todoItems := MapTasks(todoItems, id, FlipCompleted);
    }

    /** The "Delete" button of the confirmation dialog. */
    method ConfirmDelete(id: Id)
      modifies this`todoItems
      ensures todoItems == RemoveTask(old(todoItems), id)
    {
      todoItems := RemoveTask(todoItems, id);
    }

    method ToggleSubTask(todoItemId: Id, subTaskId: Id)
      modifies this`todoItems
      ensures todoItems == MapTasks(old(todoItems), todoItemId, EditSubTasks(subTaskId, FlipSubTaskCompleted))
    {
      todoItems := MapTasks(todoItems, todoItemId, EditSubTasks(subTaskId, FlipSubTaskCompleted));
    }

    /** Blank input is ignored; otherwise a new incomplete sub-task is appended
        to the task with id `todoItemId` and the input is cleared, even when no
        task has that id. `newId` stands for `Date.now().toString()`. */
    method AddSubTask(todoItemId: Id, newId: Id)
      modifies this`todoItems, this`subTaskInputText
      ensures AllWhiteSpace(old(subTaskInputText)) ==>
                todoItems == old(todoItems) && subTaskInputText == old(subTaskInputText)
      ensures !AllWhiteSpace(old(subTaskInputText)) ==>
                && todoItems == MapTasks(old(todoItems), todoItemId,
                                         AppendSubTask(SubTask(newId, old(subTaskInputText), false, None)))
                && subTaskInputText == ""
    {
      TrimEmptyIff(subTaskInputText);
      if Trim(subTaskInputText) != "" {
        var newSubTask := SubTask(newId, subTaskInputText, false, None);
        todoItems := MapTasks(todoItems, todoItemId, AppendSubTask(newSubTask));
        subTaskInputText := "";
      }
    }

    /** Records the sub-task id when it is truthy and the task id otherwise,
        never both, and opens the picker. */
    method SetAlarm(taskId: Id, subTaskId: Option<Id>)
      modifies this`selectedTaskId, this`selectedSubTaskId, this`showDatePicker
      ensures showDatePicker
      ensures Truthy(subTaskId) ==> selectedSubTaskId == subTaskId && selectedTaskId == old(selectedTaskId)
      ensures !Truthy(subTaskId) ==> selectedTaskId == Some(taskId) && selectedSubTaskId == old(selectedSubTaskId)
    {
      if Truthy(subTaskId) {
        selectedSubTaskId := subTaskId;
      } else {
        selectedTaskId := Some(taskId);
      }
      showDatePicker := true;
    }

    /** The picker's `onCancel`: it closes the picker and keeps the selection. */
    method CancelPicker()
      modifies this`showDatePicker
      ensures !showDatePicker
    {
      showDatePicker := false;
    }

    /** The picker's `onConfirm`. `now` stands for `Date.now()` and
        `scheduleSucceeds` for whether `scheduleNotificationAsync` resolves. The
        picker always closes. A rejected request ends the handler at its
        `await`, so the list and the selection are kept; otherwise both
        selection ids are reset. */
    method HandleAlarmSet(selectedDate: Option<PickedDate>, now: int, scheduleSucceeds: bool)
      returns (outcome: AlarmOutcome)
      modifies this`todoItems, this`showDatePicker, this`selectedTaskId, this`selectedSubTaskId
      ensures (outcome, todoItems)
              == ConfirmAlarm(old(todoItems), old(selectedTaskId), old(selectedSubTaskId), selectedDate, now, scheduleSucceeds)
      ensures !showDatePicker
      ensures outcome.ScheduleFailed? ==>
                selectedTaskId == old(selectedTaskId) && selectedSubTaskId == old(selectedSubTaskId)
      ensures !outcome.ScheduleFailed? ==> selectedTaskId == None && selectedSubTaskId == None
    {
      showDatePicker := false;
      var result := ConfirmAlarm(todoItems, selectedTaskId, selectedSubTaskId, selectedDate, now, scheduleSucceeds);
      outcome := result.0;
      if outcome.ScheduleFailed? {
        return;
      }
      todoItems := result.1;
      selectedTaskId := None;
      selectedSubTaskId := None;
    }

    method ToggleExpandCollapse(id: Id)
      modifies this`todoItems
      ensures todoItems == MapTasks(old(todoItems), id, FlipExpanded)
    {
      todoItems := MapTasks(todoItems, id, FlipExpanded);
    }
  }

  /** A task alarm from a fresh screen: the task gets the picked locale
      string as its alarm and the notification is titled with its text. */
  method TaskAlarmScenario(taskText: string, taskId: Id, today: string, picked: PickedDate, now: int)
    returns (items: seq<Task>, outcome: AlarmOutcome)
    requires !AllWhiteSpace(taskText) && picked.time > now
    ensures items == [Task(taskId, taskText, false, today, [], false, Some(picked.localeString))]
    ensures outcome == Scheduled(Notification(Notice(TaskTitlePrefix + taskText, DefaultBody),
                                              Some(taskId), None, picked.time))
  {
    var app := new TodoApp();
    app.ChangeInputText(taskText);
    app.AddTodoItem(taskId, today);
    app.SetAlarm(taskId, None);
    outcome := app.HandleAlarmSet(Some(picked), now, true);
    items := app.todoItems;
    AlarmNoticeForTask([Task(taskId, taskText, false, today, [], false, None)], 0, None);
  }

  /** A sub-task alarm from a fresh screen: the task id stays null, so the
      notification is still scheduled, with both default texts, yet neither
      the task nor its sub-task records the alarm. */
  method SubTaskAlarmScenario(taskText: string, subTaskText: string, taskId: Id, subTaskId: Id,
                              today: string, picked: PickedDate, now: int)
    returns (items: seq<Task>, outcome: AlarmOutcome)
    requires !AllWhiteSpace(taskText) && !AllWhiteSpace(subTaskText) && subTaskId != "" && picked.time > now
    ensures items == [Task(taskId, taskText, false, today, [SubTask(subTaskId, subTaskText, false, None)], false, None)]
    ensures outcome == Scheduled(Notification(Notice(DefaultTitle, DefaultBody), None, Some(subTaskId), picked.time))
  {
    var app := new TodoApp();
    app.ChangeInputText(taskText);
    app.AddTodoItem(taskId, today);
    app.ChangeSubTaskInputText(subTaskText);
    var task := app.todoItems;
    app.AddSubTask(taskId, subTaskId);
    var sub := SubTask(subTaskId, subTaskText, false, None);
    MapTasksAt(task, taskId, AppendSubTask(sub), 0);
    assert [] + [sub] == [sub];
    assert app.todoItems == [Task(taskId, taskText, false, today, [sub], false, None)];
    app.SetAlarm(taskId, Some(subTaskId));
    outcome := app.HandleAlarmSet(Some(picked), now, true);
    items := app.todoItems;
  }

  /** A task alarm cancelled in the picker leaves its task id selected, so a
      following sub-task alarm lands on that sub-task, with both texts naming
      the task and the sub-task. */
  method CancelledThenSubTaskAlarmScenario(taskText: string, subTaskText: string, taskId: Id, subTaskId: Id,
                                           today: string, picked: PickedDate, now: int)
    returns (items: seq<Task>, outcome: AlarmOutcome)
    requires !AllWhiteSpace(taskText) && !AllWhiteSpace(subTaskText) && subTaskId != "" && picked.time > now
    ensures items == [Task(taskId, taskText, false, today,
                           [SubTask(subTaskId, subTaskText, false, Some(picked.localeString))], false, None)]
    ensures outcome == Scheduled(Notification(Notice(TaskTitlePrefix + taskText, SubTaskBodyPrefix + subTaskText),
                                              Some(taskId), Some(subTaskId), picked.time))
  {
    var app := new TodoApp();
    app.ChangeInputText(taskText);
    app.AddTodoItem(taskId, today);
    app.ChangeSubTaskInputText(subTaskText);
    var task := app.todoItems;
    app.AddSubTask(taskId, subTaskId);
    var sub := SubTask(subTaskId, subTaskText, false, None);
    MapTasksAt(task, taskId, AppendSubTask(sub), 0);
    assert [] + [sub] == [sub];
    assert app.todoItems == [Task(taskId, taskText, false, today, [sub], false, None)];
    app.SetAlarm(taskId, None);
    app.CancelPicker();
    app.SetAlarm(taskId, Some(subTaskId));
    var before := app.todoItems;
    outcome := app.HandleAlarmSet(Some(picked), now, true);
    items := app.todoItems;
    AlarmNoticeForSubTask(before, 0, 0);
    SetAlarmTimeSpec(before, Some(taskId), Some(subTaskId), picked.localeString);
    assert AlarmSetOn(before[0], items[0], Some(taskId), Some(subTaskId), picked.localeString);
    assert items[0].subTasks == [sub.(alarmTime := Some(picked.localeString))];
  }

  /** A sub-task alarm cancelled in the picker leaves its sub-task id selected.
      A following task alarm records only the task id, so the alarm lands on
      that sub-task and not on the task, and the body names the sub-task. */
  method CancelledSubTaskThenTaskAlarmScenario(taskText: string, subTaskText: string, taskId: Id, subTaskId: Id,
                                               today: string, picked: PickedDate, now: int)
    returns (items: seq<Task>, outcome: AlarmOutcome)
    requires !AllWhiteSpace(taskText) && !AllWhiteSpace(subTaskText) && subTaskId != "" && picked.time > now
    ensures items == [Task(taskId, taskText, false, today,
                           [SubTask(subTaskId, subTaskText, false, Some(picked.localeString))], false, None)]
    ensures outcome == Scheduled(Notification(Notice(TaskTitlePrefix + taskText, SubTaskBodyPrefix + subTaskText),
                                              Some(taskId), Some(subTaskId), picked.time))
  {
    var app := new TodoApp();
    app.ChangeInputText(taskText);
    app.AddTodoItem(taskId, today);
    app.ChangeSubTaskInputText(subTaskText);
    var task := app.todoItems;
    app.AddSubTask(taskId, subTaskId);
    var sub := SubTask(subTaskId, subTaskText, false, None);
    MapTasksAt(task, taskId, AppendSubTask(sub), 0);
    assert [] + [sub] == [sub];
    assert app.todoItems == [Task(taskId, taskText, false, today, [sub], false, None)];
    app.SetAlarm(taskId, Some(subTaskId));
    app.CancelPicker();
    app.SetAlarm(taskId, None);
    var before := app.todoItems;
    outcome := app.HandleAlarmSet(Some(picked), now, true);
    items := app.todoItems;
    AlarmNoticeForSubTask(before, 0, 0);
    SetAlarmTimeSpec(before, Some(taskId), Some(subTaskId), picked.localeString);
    assert AlarmSetOn(before[0], items[0], Some(taskId), Some(subTaskId), picked.localeString);
    assert items[0].subTasks == [sub.(alarmTime := Some(picked.localeString))];
  }
}
