/** The reminder side of a scheduled task (TaskReminderEnvironment): showing
    its notification, snoozing it, completing it from the notification, and
    registering every alarm again after a restart.

    The alarm manager is a table from task key to trigger time and the
    notification manager a table from task key to the notification shown.
    The clock is the parameter `now`. The two helpers the environment calls
    but whose code is not part of this model, the status toggle and the
    next-due-date rule, are function parameters the caller supplies. */
module TaskReminder {
  import opened Seqs
  import opened ToDoEntities
  import opened ToDoReadDao
  import opened ToDoWriteDao

  /** How far a snooze pushes the alarm, in minutes. */
  const SnoozeMinutes: int := 15

  datatype TaskWithListId = TaskWithListId(task: ToDoTaskDb, listId: Id)

  /** What the notification manager shows for a task. */
  datatype Notification = Notification(task: ToDoTaskDb, list: ToDoListDb)

  /** The write the status toggle asks for: a new status with its completion
      time, or (for a repeating task) the next due date. */
  datatype ToggleOutcome =
    | StatusUpdate(completedAt: Option<Time>, newStatus: ToDoStatus)
    | DueDateUpdate(nextDueDate: Time)

  /** The task keyed `taskId` with its list key, if it exists, is not
      complete and has a due date; otherwise nothing. */
  function GetTask(db: Db, taskId: Id): (r: Option<TaskWithListId>)
    ensures r.Some? ==> r.value.task in db.tasks && r.value.task.id == taskId
    ensures r.Some? ==> r.value.task.status != Complete && r.value.task.dueDate.Some?
    ensures r.Some? ==> r.value.listId == r.value.task.listId
    ensures UniqueKeys(db) ==>
      (r.Some? <==> exists t :: t in db.tasks && t.id == taskId && IsScheduled(t))
  {
    match Find(db.tasks, (t: ToDoTaskDb) => t.id == taskId)
    case None => None
    case Some(t) =>
      assert UniqueKeys(db) ==> forall u :: u in db.tasks && u.id == taskId ==> u == t by {
        if UniqueKeys(db) {
          forall u | u in db.tasks && u.id == taskId ensures u == t {
            DistinctKeyDetermines(db.tasks, TaskKey, u, t);
          }
        }
      }
      if IsScheduled(t) then Some(TaskWithListId(t, t.listId)) else None
  }

  /** The guard admits exactly the tasks that getScheduledTasks returns. */
  lemma GetTaskMatchesScheduled(db: Db, taskId: Id)
    requires UniqueKeys(db)
    ensures GetTask(db, taskId).Some? <==> exists t :: t in GetScheduledTasks(db) && t.id == taskId
  {
    if GetTask(db, taskId).Some? {
      assert GetTask(db, taskId).value.task in GetScheduledTasks(db);
    }
  }

  /** The notification notifyNotification shows: the eligible task paired
      with the list whose key is the task's list key. In a valid database
      that list always exists, so every eligible task is shown. */
  function NotificationFor(db: Db, taskId: Id): (r: Option<Notification>)
    ensures r.Some? ==> GetTask(db, taskId).Some? && r.value.task == GetTask(db, taskId).value.task
    ensures r.Some? ==> r.value.list in db.lists && r.value.list.id == r.value.task.listId
    ensures Valid(db) ==> (r.Some? <==> GetTask(db, taskId).Some?)
  {
    match GetTask(db, taskId)
    case None => None
    case Some(tw) =>
      match Find(db.lists, (l: ToDoListDb) => l.id == tw.listId)
      case None => None
      case Some(l) => Some(Notification(tw.task, l))
  }

  /** The store write of completeReminder: the toggle's outcome applied to
      the task, stamped with the clock reading the toggle was given. */
  function ApplyToggle(db: Db, task: ToDoTaskDb, o: ToggleOutcome, now: Time): (r: Db)
    ensures r.groups == db.groups && r.lists == db.lists && r.steps == db.steps
    ensures Valid(db) ==> Valid(r)
    ensures |r.tasks| == |db.tasks|
    ensures forall i :: 0 <= i < |db.tasks| && db.tasks[i].id != task.id ==> r.tasks[i] == db.tasks[i]
    ensures forall i :: 0 <= i < |db.tasks| && db.tasks[i].id == task.id ==>
      r.tasks[i].updatedAt == now && r.tasks[i].id == task.id && r.tasks[i].listId == db.tasks[i].listId
    ensures o.StatusUpdate? ==> forall i :: 0 <= i < |db.tasks| && db.tasks[i].id == task.id ==>
      r.tasks[i] == db.tasks[i].(status := o.newStatus, completedAt := o.completedAt, updatedAt := now)
    ensures o.DueDateUpdate? ==> forall i :: 0 <= i < |db.tasks| && db.tasks[i].id == task.id ==>
      r.tasks[i] == db.tasks[i].(dueDate := Some(o.nextDueDate), isDueDateTimeSet := task.isDueDateTimeSet, updatedAt := now)
  {
    match o
    case StatusUpdate(completedAt, newStatus) =>
      AfterUpdateTaskStatus(db, task.id, newStatus, completedAt, now)
    case DueDateUpdate(next) =>
      AfterUpdateTaskDueDate(db, task.id, next, task.isDueDateTimeSet, now)
  }

  function KeysOfTasks(ts: seq<ToDoTaskDb>): set<Id> {
    set t | t in ts :: t.id
  }

  /** The alarms restartAllReminder registers for `ts`, one per task, each
      at the next scheduled due date computed from `now`. */
  function RestartAlarms(ts: seq<ToDoTaskDb>, nextDue: (ToDoTaskDb, Time) -> Time, now: Time): (r: map<Id, Time>)
    ensures r.Keys == KeysOfTasks(ts)
  {
    if ts == [] then map[]
    else
      var init := ts[..|ts| - 1];
      var last := ts[|ts| - 1];
      assert ts == init + [last];
      assert KeysOfTasks(ts) == KeysOfTasks(init) + {last.id};
      RestartAlarms(init, nextDue, now)[last.id := nextDue(last, now)]
  }

  /** With distinct task keys, each task's alarm is at its own next due date. */
  lemma {:induction false} RestartAlarmsAt(ts: seq<ToDoTaskDb>, nextDue: (ToDoTaskDb, Time) -> Time, now: Time, i: nat)
    requires Distinct(ts, TaskKey) && i < |ts|
    ensures RestartAlarms(ts, nextDue, now)[ts[i].id] == nextDue(ts[i], now)
  {
    var init := ts[..|ts| - 1];
    if i < |ts| - 1 {
      assert TaskKey(ts[i]) != TaskKey(ts[|ts| - 1]);
      assert Distinct(init, TaskKey) by {
        forall j, k | 0 <= j < k < |init| ensures TaskKey(init[j]) != TaskKey(init[k]) {
          assert init[j] == ts[j] && init[k] == ts[k];
        }
      }
      assert init[i] == ts[i];
      RestartAlarmsAt(init, nextDue, now, i);
    }
  }

  /** After a restart every scheduled task of a store with unique keys has
      exactly one alarm, at its own next due date, and no other task has one. */
  lemma RestartCoversScheduled(db: Db, nextDue: (ToDoTaskDb, Time) -> Time, now: Time)
    requires UniqueKeys(db)
    ensures forall id :: id in RestartAlarms(GetScheduledTasks(db), nextDue, now) <==>
      exists t :: t in db.tasks && t.id == id && IsScheduled(t)
    ensures forall t :: t in GetScheduledTasks(db) ==>
      RestartAlarms(GetScheduledTasks(db), nextDue, now)[t.id] == nextDue(t, now)
  {
    var ts := GetScheduledTasks(db);
    FilterDistinct(db.tasks, TaskKey, IsScheduled);
    forall t | t in ts ensures RestartAlarms(ts, nextDue, now)[t.id] == nextDue(t, now) {
      var i :| 0 <= i < |ts| && ts[i] == t;
      RestartAlarmsAt(ts, nextDue, now, i);
    }
  }

  /** One more task registers one more alarm. */
  lemma RestartAlarmsSnoc(ts: seq<ToDoTaskDb>, nextDue: (ToDoTaskDb, Time) -> Time, now: Time, i: nat)
    requires i < |ts|
    ensures RestartAlarms(ts[..i + 1], nextDue, now) == RestartAlarms(ts[..i], nextDue, now)[ts[i].id := nextDue(ts[i], now)]
  {
    assert ts[..i + 1][..i] == ts[..i];
  }

  lemma UnionUpdate<K, V>(a: map<K, V>, b: map<K, V>, k: K, v: V)
    ensures (a + b)[k := v] == a + b[k := v]
  {
  }

  /** The platform alarm table: at most one alarm per task. */
  class TaskAlarmManager {
    var alarms: map<Id, Time>

    constructor ()
      ensures alarms == map[]
    {
      alarms := map[];
    }

    method ScheduleTaskAlarm(task: ToDoTaskDb, at: Time)
      modifies this
      ensures alarms == old(alarms)[task.id := at]
    {
      alarms := alarms[task.id := at];
    }

    method CancelTaskAlarm(task: ToDoTaskDb)
      modifies this
      ensures alarms == old(alarms) - {task.id}
    {
      alarms := alarms - {task.id};
    }
  }

  /** The notifications on screen: at most one per task. */
  class TaskNotificationManager {
    var shown: map<Id, Notification>

    constructor ()
      ensures shown == map[]
    {
      shown := map[];
    }

    method Show(task: ToDoTaskDb, list: ToDoListDb)
      modifies this
      ensures shown == old(shown)[task.id := Notification(task, list)]
    {
      shown := shown[task.id := Notification(task, list)];
    }

    method Dismiss(task: ToDoTaskDb)
      modifies this
      ensures shown == old(shown) - {task.id}
    {
      shown := shown - {task.id};
    }
  }

  class TaskReminderEnvironment {
    const localManager: ToDoDatabase
    const alarmManager: TaskAlarmManager
    const notificationManager: TaskNotificationManager

    constructor (localManager: ToDoDatabase, alarmManager: TaskAlarmManager,
                 notificationManager: TaskNotificationManager)
      ensures this.localManager == localManager && this.alarmManager == alarmManager
      ensures this.notificationManager == notificationManager
    {
      this.localManager := localManager;
      this.alarmManager := alarmManager;
      this.notificationManager := notificationManager;
    }

    /** Shows the notification of an eligible task; does nothing otherwise. */
    method NotifyNotification(taskId: Id) returns (r: Option<Notification>)
      modifies notificationManager
      ensures r == NotificationFor(localManager.Snapshot(), taskId)
      ensures r.Some? ==> notificationManager.shown == old(notificationManager.shown)[taskId := r.value]
      ensures r.None? ==> notificationManager.shown == old(notificationManager.shown)
    {
      r := NotificationFor(localManager.Snapshot(), taskId);
      if r.Some? {
        notificationManager.Show(r.value.task, r.value.list);
      }
    }

    /** Moves the alarm of an eligible task to `now` plus the snooze delay
        and dismisses its notification; does nothing otherwise. */
    method SnoozeReminder(taskId: Id, now: Time) returns (r: Option<TaskWithListId>)
      modifies alarmManager, notificationManager
      ensures r == GetTask(localManager.Snapshot(), taskId)
      ensures r.Some? ==> alarmManager.alarms == old(alarmManager.alarms)[taskId := now + SnoozeMinutes]
      ensures r.Some? ==> notificationManager.shown == old(notificationManager.shown) - {taskId}
      ensures r.None? ==> unchanged(alarmManager, notificationManager)
    {
      r := GetTask(localManager.Snapshot(), taskId);
      if r.Some? {
        alarmManager.ScheduleTaskAlarm(r.value.task, now + SnoozeMinutes);
        notificationManager.Dismiss(r.value.task);
      }
    }

    /** Runs the status toggle of an eligible task with one clock reading,
        writes its outcome stamped with that reading, then cancels the
        task's alarm and dismisses its notification; does nothing otherwise. */
    method CompleteReminder(taskId: Id, now: Time, toggle: (ToDoTaskDb, Time) -> ToggleOutcome)
      returns (r: Option<TaskWithListId>)
      requires localManager.Valid()
      modifies localManager, alarmManager, notificationManager
      ensures localManager.Valid()
      ensures r == GetTask(old(localManager.Snapshot()), taskId)
      ensures r.Some? ==>
        localManager.Snapshot() == ApplyToggle(old(localManager.Snapshot()), r.value.task, toggle(r.value.task, now), now)
      ensures r.Some? ==> alarmManager.alarms == old(alarmManager.alarms) - {taskId}
      ensures r.Some? ==> notificationManager.shown == old(notificationManager.shown) - {taskId}
      ensures r.None? ==> unchanged(localManager, alarmManager, notificationManager)
    {
      r := GetTask(localManager.Snapshot(), taskId);
      if r.Some? {
        var task := r.value.task;
        var currentDate := now;
        var outcome := toggle(task, currentDate);
        if outcome.StatusUpdate? {
          localManager.UpdateTaskStatus(task.id, outcome.newStatus, outcome.completedAt, currentDate);
        } else {
          localManager.UpdateTaskDueDate(task.id, outcome.nextDueDate, task.isDueDateTimeSet, currentDate);
        }
        alarmManager.CancelTaskAlarm(task);
        notificationManager.Dismiss(task);
      }
    }

    /** Registers one alarm for every scheduled task, at its next scheduled
        due date; alarms of other tasks stay as they were. */
    method RestartAllReminder(now: Time, nextDue: (ToDoTaskDb, Time) -> Time) returns (ts: seq<ToDoTaskDb>)
      modifies alarmManager
      ensures ts == GetScheduledTasks(localManager.Snapshot())
      ensures alarmManager.alarms == old(alarmManager.alarms) + RestartAlarms(ts, nextDue, now)
    {
      ts := GetScheduledTasks(localManager.Snapshot());
      ghost var start := alarmManager.alarms;
      for i := 0 to |ts|
        invariant alarmManager.alarms == start + RestartAlarms(ts[..i], nextDue, now)
      {
        RestartAlarmsSnoc(ts, nextDue, now, i);
        UnionUpdate(start, RestartAlarms(ts[..i], nextDue, now), ts[i].id, nextDue(ts[i], now));
        alarmManager.ScheduleTaskAlarm(ts[i], nextDue(ts[i], now));
      }
      assert ts[..|ts|] == ts;
    }
  }
}
