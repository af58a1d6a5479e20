# To-do list task tree — a Dafny model

This project models the task-tree logic of the `App` component of a React
Native to-do application (`App.js`). The screen keeps one piece of state that
matters: `todoItems`, an ordered list of tasks. Each task is
`{id, text, completed, date, subTasks, expanded, alarmTime?}` and each
sub-task is `{id, text, completed, alarmTime?}`. Every handler builds a new
list with `map`, `filter` or a spread and replaces the state with it. The
model covers these handlers:

- adding a task;
- toggling a task's `completed`;
- the confirmed delete;
- toggling a sub-task;
- adding a sub-task;
- toggling `expanded`;
- choosing what an alarm is for (`setAlarm`);
- confirming an alarm date (`handleAlarmSet`): the strict future-time guard,
  the notification's title and body, whether the notification service
  accepts the request, and setting `alarmTime` on one node.

Modules:

- `JsString` (`text.dfy`): JavaScript's `trim`, used to reject blank input.
- `TodoItems` (`todo.dfy`): the `Task` and `SubTask` datatypes and the keyed
  rewrites. `MapTasks` and `MapSubTasks` are the `map(item => item.id === id ?
  {...item, …} : item)` shape. What a handler does to the matching node is a
  `TaskEdit` or `SubTaskEdit` value. `RemoveTask` is the `filter`.
  `FindTask` and `FindSubTask` are the `find` lookups, which return the first
  match.
- `Alarm` (`alarm.dfy`): the notification text, the alarm rewrite and the
  guard.
- `App` (`app.dfy`): the class `TodoApp`. Its fields are the component's state
  variables. Its methods are the handlers. Each method's `ensures` ties the new
  state to the rewrites above, and its `modifies` clause names the state
  variables the handler sets. Four client methods walk through alarm
  scenarios end to end.

Clocks and locale formatting are opaque inputs:

- `Date.now().toString()` is an `Id` parameter;
- `toLocaleDateString()` and `toLocaleString()` are string parameters;
- `getTime()` and `Date.now()` are integers (milliseconds), so the guard is an
  integer `>`;
- whether `Notifications.scheduleNotificationAsync` resolves or rejects is a
  boolean parameter, `scheduleSucceeds`.

Selection ids that can be `null` are `Option<Id>`. The test
`if (selectedSubTaskId)` is JavaScript truthiness (`Truthy`: present and not
the empty string).

Behaviour of the code that the model keeps:

- `setAlarm` records only one of the two ids. A sub-task alarm picked from a
  fresh selection leaves `selectedTaskId` null. `handleAlarmSet` then finds no
  task, rewrites nothing and schedules a notification with both default texts
  (`SubTaskAlarmScenario`).
- The picker's cancel button only closes the picker; it does not reset the
  selection. A task alarm that was cancelled leaves its task id selected. A
  later sub-task alarm on that task then does land on the sub-task
  (`CancelledThenSubTaskAlarmScenario`).
- The reverse order goes wrong. A cancelled sub-task alarm leaves its sub-task
  id selected. A later task alarm on the same task records only the task id.
  `handleAlarmSet` then sets `alarmTime` on that sub-task and never on the
  task, and the body names the sub-task
  (`CancelledSubTaskThenTaskAlarmScenario`).
- Ids are not checked for uniqueness. `map` and `filter` act on every task
  with the id; `find` (notification text) picks the first one.
- `addSubTask` with non-blank text clears the sub-task input even when no task
  has the given id. The tree is unchanged in that case, and nothing reports
  the unknown id.
- A past or present date changes no state except closing the picker and
  resetting the selection. The code returns no error; it only shows an
  "Invalid Alarm" dialog, modelled as the outcome `InvalidAlarm`.
- The `await` on the scheduling call has no `try`/`catch`. When the request is
  rejected, the handler stops there: the picker is already closed, but the
  list is not rewritten and both selection ids stay set (outcome
  `ScheduleFailed`).
- Deleting a task cancels no notification. Nothing in `App.js` tracks
  scheduled notifications, so the model has no alarm table either.

## Model

| member | source | states |
|---|---|---|
| JsString.TrimStart | App.js:43 | the result is the suffix of the input left after dropping its longest all-white-space prefix |
| JsString.TrimEnd | App.js:43 | the result is the prefix of the input left after dropping its longest all-white-space suffix |
| JsString.Trim | App.js:43 | `trim` returns a slice of its input that neither starts nor ends with white space, with only white space before and after it |
| JsString.TrimEmptyIff | App.js:43 | `text.trim() !== ''` fails exactly when every character is white space, the empty string included |
| TodoItems.EditSubTask | App.js:95-245 | the sub-task spreads at 95-100 (toggle) and 245 (alarm time): rebuilding a sub-task with a spread never changes its id or text |
| TodoItems.MapSubTasks | App.js:95-100 | the keyed `map` over sub-tasks keeps the length, the order and every id |
| TodoItems.EditTask | App.js:61-270 | the task spreads at 61 (toggle), 101 (sub-tasks replaced), 118 (sub-task appended), 249 and 251 (alarm) and 270 (expand): rebuilding a task with a spread never changes its id, text or date |
| TodoItems.MapTasks | App.js:59-64 | the keyed `map` over tasks keeps the length, the order and every id |
| TodoItems.RemoveTask | App.js:81 | the `filter` result is no longer than the list, and each of its tasks comes from the list and has a different id |
| TodoItems.FindTask | App.js:216 | `find` returns nothing exactly when no task has the id; otherwise it returns a task of the list with that id |
| TodoItems.FindSubTask | App.js:221 | `find` returns nothing exactly when no sub-task has the id; otherwise it returns a sub-task of the list with that id |
| TodoItems.MapSubTasksAt | App.js:95-100 | at every position the sub-task is edited when its id matches and is otherwise returned as it was |
| TodoItems.MapTasksAt | App.js:59-64 | at every position the task is edited when its id matches and is otherwise returned as it was |
| TodoItems.MapSubTasksUnknownId | App.js:95-100 | an id no sub-task carries leaves the sub-task list equal to the original |
| TodoItems.MapTasksUnknownId | App.js:59-64 | an id no task carries leaves the list equal to the original |
| TodoItems.MapSubTasksFlipTwice | App.js:95-100 | toggling the same sub-task id twice restores the sub-task list |
| TodoItems.EditTaskTwice | App.js:61 | each of the three toggles undoes itself on a single task |
| TodoItems.MapTasksTwice | App.js:58-67 | applying a toggle twice with the same id restores the whole list |
| TodoItems.ToggleTodoItemSpec | App.js:58-67 | `completed` flips exactly on the tasks with the id; no other field of any task changes; toggling twice restores the list; an unknown id changes nothing |
| TodoItems.ToggleExpandSpec | App.js:267-275 | `expanded` flips exactly on the tasks with the id; nothing else changes; toggling twice restores the list; an unknown id changes nothing |
| TodoItems.ToggleSubTaskSpec | App.js:92-107 | only the named sub-task of the named task flips `completed`; no field of any task changes, so there is no cascade in either direction; toggling twice restores the list |
| TodoItems.AddSubTaskSpec | App.js:116-121 | the new sub-task is appended at the end of the named task's sub-tasks only; no other field changes; an unknown task id changes nothing |
| TodoItems.RemoveTaskKeeps | App.js:81 | a task survives the delete exactly when it was in the list and its id differs |
| TodoItems.RemoveTaskAbsent | App.js:81 | deleting an id no task carries leaves the list equal to the original |
| TodoItems.RemoveTaskAppend | App.js:81 | the delete commutes with concatenation, so the survivors keep their original order |
| TodoItems.RemoveTaskUnique | App.js:81 | when exactly one task has the id, the result is the list with that one position cut out |
| TodoItems.FindTaskFirst | App.js:216 | `find` returns the first task with the id |
| TodoItems.FindSubTaskFirst | App.js:221 | `find` returns the first sub-task with the id |
| Alarm.AlarmNotice | App.js:212-226 | the title is the default exactly when no task has the selected id; the body differs from the default only when a task id and a truthy sub-task id are selected |
| Alarm.AlarmNoticeDefault | App.js:212-217 | with no task id selected, or none matching, title and body are both the defaults |
| Alarm.AlarmNoticeForTask | App.js:216-218 | for a found task without a matching selected sub-task, the title is "Alarm for Task: " plus that task's text and the body is the default |
| Alarm.AlarmNoticeForSubTask | App.js:216-224 | for a found task and a found sub-task, the title names the task and the body is "Alarm for Subtask: " plus the sub-task's text |
| Alarm.SetAlarmTime | App.js:240-255 | the alarm rewrite keeps the number of tasks |
| Alarm.SetAlarmTimeSpec | App.js:240-255 | `alarmTime` is set on the selected task when no truthy sub-task id is selected, else only on the matching sub-tasks of the selected task; every other node and field is unchanged; a null task id changes nothing |
| Alarm.ConfirmAlarm | App.js:207-261 | a request is handed to the notification service exactly when a date is given whose time is strictly after now; it fires at the picked time and carries both selection ids and the derived text; the tree is rewritten exactly when, in addition, the service accepts the request, and is otherwise unchanged |
| App.TodoApp.constructor | App.js:12-17 | the initial state: empty list and inputs, picker closed, no selection |
| App.TodoApp.ChangeInputText | App.js:360 | the task input holds the typed text |
| App.TodoApp.ChangeSubTaskInputText | App.js:342 | the sub-task input holds the typed text |
| App.TodoApp.AddTodoItem | App.js:42-55 | blank input leaves list and input unchanged; otherwise exactly one new task with the untrimmed text, `completed` and `expanded` false, no sub-tasks and no alarm is appended at the end, and the input is cleared |
| App.TodoApp.ToggleTodoItem | App.js:58-67 | the new list is the toggle rewrite of the old one, and nothing else changes |
| App.TodoApp.ConfirmDelete | App.js:80-83 | the new list is the old one without the tasks carrying the id, and nothing else changes |
| App.TodoApp.ToggleSubTask | App.js:92-107 | the new list is the sub-task toggle rewrite of the old one, and nothing else changes |
| App.TodoApp.AddSubTask | App.js:109-126 | blank input changes nothing; otherwise one incomplete sub-task is appended under the named task and the sub-task input is cleared |
| App.TodoApp.SetAlarm | App.js:128-135 | a truthy sub-task id is recorded and the task id is left as it was, otherwise the task id is recorded and the sub-task id left as it was; the picker opens |
| App.TodoApp.CancelPicker | App.js:379 | the picker closes and the selection is kept |
| App.TodoApp.HandleAlarmSet | App.js:204-266 | outcome and new list are those of `ConfirmAlarm` on the old state; the picker always closes; when the service rejects the request the selection ids keep their values, and otherwise both become null |
| App.TodoApp.ToggleExpandCollapse | App.js:267-275 | the new list is the expand toggle rewrite of the old one, and nothing else changes |
| App.TaskAlarmScenario | App.js:128-266 | add a task, pick its alarm with a future date: the task gets the alarm and the title names it |
| App.SubTaskAlarmScenario | App.js:128-266 | add a task and a sub-task, pick the sub-task's alarm with a future date: a notification with both default texts is scheduled and no node records the alarm |
| App.CancelledThenSubTaskAlarmScenario | App.js:128-266 | a cancelled task alarm keeps its task id selected, so a following sub-task alarm is set on that sub-task and names both task and sub-task |
| App.CancelledSubTaskThenTaskAlarmScenario | App.js:128-266 | a cancelled sub-task alarm keeps its sub-task id selected, so a following task alarm is set on that sub-task, not on the task, and the body names the sub-task |

## Left out

- Loading and saving the list with AsyncStorage and JSON (App.js:23-40) is I/O and library serialisation. `saveTodoItems` writes the value the handler started from; the model has no storage.
- Scheduling the notification (App.js:229-238) is a foreign asynchronous call. `HandleAlarmSet` returns the request as part of its `AlarmOutcome` and takes the call's success or failure as the input `scheduleSucceeds`.
- App.TodoApp.HandleAlarmSet: runs as one atomic step, so it does not model other handlers running while the `await` at App.js:229 is pending. In the code, the list written at App.js:240-257 is rebuilt from the `todoItems` captured when the handler started, so a change made in that window is lost. A `setAlarm` made in that window is also wiped by the resets at App.js:264-265.
- The permission request and the foreground and response notification listeners (App.js:138-202) are left out. They work on callbacks from the notification service over a copy of the list taken at mount time.
- The confirmation dialog, the toast, the "Invalid Alarm" dialog, rendering and styles are UI. Only the confirmed branch of the delete is modelled.
- `AlarmPicker.js` is a modal with a date picker and two buttons and no logic. It is not part of this model.
- Locale date formatting and real clocks are inputs. `getTime()` is taken to be an integer, which excludes an invalid `Date`.
- Id uniqueness is neither assumed nor checked. Ids are creation timestamps, and the code relies on them being distinct without checking it; the lemmas state what happens with duplicates too.
