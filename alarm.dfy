/** Confirming an alarm from the date picker: the strict future-time guard,
    the title and body of the local notification, and setting `alarmTime` on
    the selected task or sub-task. */
module Alarm {
  import opened TodoItems

  const DefaultTitle: string := "To Do Alarm!!!"
  const DefaultBody: string := "Your To Do Alarm has been Triggered!"
  const TaskTitlePrefix: string := "Alarm for Task: "
  const SubTaskBodyPrefix: string := "Alarm for Subtask: "

  /** The date the picker confirms: its `getTime()` in milliseconds and its
      `toLocaleString()`, both opaque to the model. */
  datatype PickedDate = PickedDate(time: int, localeString: string)

  datatype Notice = Notice(title: string, body: string)

  /** The request handed to the notification service: its content, its data
      (both selection ids, as they stand) and its trigger date. */
  datatype Notification = Notification(notice: Notice, taskId: Option<Id>, subTaskId: Option<Id>, fireAt: int)

  /** No date confirmed; a date not after now ("Invalid Alarm"); a notification
      the service scheduled; or a request the service rejected, which ends the
      handler at its `await`. */
  datatype AlarmOutcome =
    | NoDate
    | InvalidAlarm
    | Scheduled(request: Notification)
    | ScheduleFailed(request: Notification)
  {
    /** The guard passed and a request was handed to the service. */
    predicate Requested() {
      Scheduled? || ScheduleFailed?
    }
  }

  /** The notification text. The title names the selected task when one is
      found; the body names the selected sub-task when it is found inside that
      task. A sub-task is only looked up inside a found task. */
  function AlarmNotice(items: seq<Task>, selectedTaskId: Option<Id>, selectedSubTaskId: Option<Id>): (n: Notice)
    ensures n.title == DefaultTitle
            <==> (selectedTaskId.None? || forall i | 0 <= i < |items| :: items[i].id != selectedTaskId.value)
    ensures n.body != DefaultBody ==> selectedTaskId.Some? && Truthy(selectedSubTaskId)
  {
    // `item.id === null` holds for no task.
    var task := if selectedTaskId.Some? then FindTask(items, selectedTaskId.value) else None;
    match task
    case None => Notice(DefaultTitle, DefaultBody)
    case Some(t) =>
      var sub := if Truthy(selectedSubTaskId) then FindSubTask(t.subTasks, selectedSubTaskId.value) else None;
      assert (TaskTitlePrefix + t.text)[0] != DefaultTitle[0];
      Notice(TaskTitlePrefix + t.text,
             match sub
             case Some(s) => SubTaskBodyPrefix + s.text
             case None => DefaultBody)
  }

  /** With no task selected, or none carrying the selected id, both texts are
      the defaults; this is the case for every sub-task alarm picked from a
      fresh selection, whose task id stays null. */
  lemma AlarmNoticeDefault(items: seq<Task>, selectedTaskId: Option<Id>, selectedSubTaskId: Option<Id>)
    requires selectedTaskId.None? || forall i | 0 <= i < |items| :: items[i].id != selectedTaskId.value
    ensures AlarmNotice(items, selectedTaskId, selectedSubTaskId) == Notice(DefaultTitle, DefaultBody)
  {
  }

  /** A task alarm: the title names the first task with the selected id; the
      body stays the default when no sub-task is selected or that task has none
      with the selected id. */
  lemma AlarmNoticeForTask(items: seq<Task>, k: int, selectedSubTaskId: Option<Id>)
    requires 0 <= k < |items|
    requires forall j | 0 <= j < k :: items[j].id != items[k].id
    requires !Truthy(selectedSubTaskId)
             || forall m | 0 <= m < |items[k].subTasks| :: items[k].subTasks[m].id != selectedSubTaskId.value
    ensures AlarmNotice(items, Some(items[k].id), selectedSubTaskId)
            == Notice(TaskTitlePrefix + items[k].text, DefaultBody)
  {
    FindTaskFirst(items, k);
  }

  /** Both ids selected and found: the title names the task and the body the
      first of its sub-tasks with the selected id. */
  lemma AlarmNoticeForSubTask(items: seq<Task>, k: int, m: int)
    requires 0 <= k < |items|
    requires forall j | 0 <= j < k :: items[j].id != items[k].id
    requires 0 <= m < |items[k].subTasks| && items[k].subTasks[m].id != ""
    requires forall j | 0 <= j < m :: items[k].subTasks[j].id != items[k].subTasks[m].id
    ensures AlarmNotice(items, Some(items[k].id), Some(items[k].subTasks[m].id))
            == Notice(TaskTitlePrefix + items[k].text, SubTaskBodyPrefix + items[k].subTasks[m].text)
  {
    FindTaskFirst(items, k);
    FindSubTaskFirst(items[k].subTasks, m);
  }

  /** The rewrite after a confirmed future date: on the tasks whose id equals
      the selected task id, set `alarmTime` on the sub-tasks with the selected
      sub-task id when that id is truthy, and on the task itself otherwise. */
  function SetAlarmTime(items: seq<Task>, selectedTaskId: Option<Id>, selectedSubTaskId: Option<Id>, when: string): (r: seq<Task>)
    ensures |r| == |items|
  {
    match selectedTaskId
    // `item.id === null` holds for no task, so the map returns every task as it is.
    case None => items
    case Some(taskId) =>
      MapTasks(items, taskId,
               if Truthy(selectedSubTaskId) then EditSubTasks(selectedSubTaskId.value, SetSubTaskAlarm(when))
               else SetTaskAlarm(when))
  }

  /** How one task relates to its rewrite under `SetAlarmTime`: a task that is
      not selected is unchanged; a selected task gets the alarm itself when no
      truthy sub-task id is selected, and otherwise only its sub-tasks with the
      selected id get it, every other field and sub-task staying as it was. */
  ghost predicate AlarmSetOn(t: Task, t': Task, selectedTaskId: Option<Id>, selectedSubTaskId: Option<Id>, when: string) {
    if selectedTaskId != Some(t.id) then t' == t
    else if !Truthy(selectedSubTaskId) then t' == t.(alarmTime := Some(when))
    else
      && t'.(subTasks := t.subTasks) == t
      && |t'.subTasks| == |t.subTasks|
      && forall j | 0 <= j < |t.subTasks| ::
           t'.subTasks[j] == if t.subTasks[j].id == selectedSubTaskId.value
                             then t.subTasks[j].(alarmTime := Some(when))
                             else t.subTasks[j]
  }

  /** Only the selected node gets the alarm, every other task, sub-task and
      field is unchanged, and without a selected task id nothing changes at all. */
  lemma SetAlarmTimeSpec(items: seq<Task>, selectedTaskId: Option<Id>, selectedSubTaskId: Option<Id>, when: string)
    ensures var r := SetAlarmTime(items, selectedTaskId, selectedSubTaskId, when);
      forall i | 0 <= i < |items| :: AlarmSetOn(items[i], r[i], selectedTaskId, selectedSubTaskId, when)
    ensures selectedTaskId.None? ==> SetAlarmTime(items, selectedTaskId, selectedSubTaskId, when) == items
  {
    var r := SetAlarmTime(items, selectedTaskId, selectedSubTaskId, when);
    if selectedTaskId.Some? {
      var taskId := selectedTaskId.value;
      var e := if Truthy(selectedSubTaskId) then EditSubTasks(selectedSubTaskId.value, SetSubTaskAlarm(when))
               else SetTaskAlarm(when);
      forall i | 0 <= i < |items|
        ensures AlarmSetOn(items[i], r[i], selectedTaskId, selectedSubTaskId, when)
      {
        MapTasksAt(items, taskId, e, i);
        if Truthy(selectedSubTaskId) && items[i].id == taskId {
          forall j | 0 <= j < |items[i].subTasks| {
            MapSubTasksAt(items[i].subTasks, selectedSubTaskId.value, SetSubTaskAlarm(when), j);
          }
        }
      }
    }
  }

  /** `handleAlarmSet`'s effect on the tree. A request is handed to the
      notification service exactly when a date is given and its time is
      strictly after now; it fires at the picked time and carries both
      selection ids. `scheduleSucceeds` is whether the service's promise
      resolves: the tree is rewritten only then, and in every other case it
      is returned unchanged. */
  function ConfirmAlarm(items: seq<Task>, selectedTaskId: Option<Id>, selectedSubTaskId: Option<Id>,
                        selectedDate: Option<PickedDate>, now: int, scheduleSucceeds: bool): (r: (AlarmOutcome, seq<Task>))
    ensures r.0.NoDate? <==> selectedDate.None?
    ensures r.0.Requested() <==> selectedDate.Some? && selectedDate.value.time > now
    ensures r.0.Scheduled? <==> r.0.Requested() && scheduleSucceeds
    ensures r.0.Requested() ==>
              && r.0.request.fireAt == selectedDate.value.time
              && r.0.request.taskId == selectedTaskId
              && r.0.request.subTaskId == selectedSubTaskId
              && r.0.request.notice == AlarmNotice(items, selectedTaskId, selectedSubTaskId)
    ensures r.0.Scheduled? ==> r.1 == SetAlarmTime(items, selectedTaskId, selectedSubTaskId, selectedDate.value.localeString)
    ensures !r.0.Scheduled? ==> r.1 == items
    ensures |r.1| == |items|
  {
    match selectedDate
    case None => (NoDate, items)
    case Some(d) =>
      if d.time > now then
        var request := Notification(AlarmNotice(items, selectedTaskId, selectedSubTaskId), selectedTaskId, selectedSubTaskId, d.time);
        if scheduleSucceeds then
          (Scheduled(request), SetAlarmTime(items, selectedTaskId, selectedSubTaskId, d.localeString))
        else
          (ScheduleFailed(request), items)
      else
        (InvalidAlarm, items)
  }
}
