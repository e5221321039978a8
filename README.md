# Compose-ToDo: the local store, the task reminder and the language setting

This project models three parts of the Compose-ToDo Android app in Dafny.

- **The local to-do database.** It has four tables: groups, lists in a group, tasks in a list, and steps in a task.
  - The write side (`ToDoWriteDao`) inserts batches of rows, deletes tasks or lists with their children, and updates a task's status or due date.
  - The read side (`ToDoReadDao`) answers the queries the app's screens use: lists of a group, the "ungrouped" lists view, the overview counts, tasks ordered by due date, steps of a task, the nested group → list → task → step views, and the scheduled tasks.
  - The store's behaviour is the one its database tests assert. A snapshot of the tables is the value `Db`. Every query is a function of one snapshot. The database object `ToDoDatabase` is a class whose write methods replace its tables.
- **The task reminder** (`TaskReminderEnvironment`). It shows a task's notification, snoozes it, completes it from the notification, and registers every alarm again after a restart.
  - Each of these only acts on a task that exists, is not complete and has a due date.
  - The alarm manager is a table from task key to alarm time. The notification manager is a table from task key to the shown notification.
- **The language setting** (`LanguageExt`). It converts between the app's language and the stored preference, and marks which row of the language list is applied.

Modules, one per file:

| file | module | contents |
|---|---|---|
| `seqs.dfy` | `Seqs` | `Option`, order-preserving `Filter`/`Map`/`Find`, key distinctness, and their lemmas |
| `todo_entities.dfy` | `ToDoEntities` | the rows, the snapshot `Db`, the nested views, and referential integrity `Valid` |
| `todo_read_dao.dfy` | `ToDoReadDao` | the read queries |
| `todo_write_dao.dfy` | `ToDoWriteDao` | the writes as functions from one snapshot to the next, their effect on the views, and the class `ToDoDatabase` |
| `todo_scenarios.dfy` | `ToDoScenarios` | two test scenarios replayed on the model |
| `task_reminder.dfy` | `TaskReminder` | the eligibility guard, the alarm and notification managers, and `TaskReminderEnvironment` |
| `language_ext.dfy` | `LanguageExt` | the language conversions and the selection |

The store's integrity (`ToDoEntities.Valid`) has two parts:
- every table has unique primary keys;
- every list names an existing group, every task an existing list, and every step an existing task.

Every write keeps this integrity.

An insert is one transaction. The batch is refused whole, and nothing changes, if any of these holds:
- it repeats a key within itself;
- it reuses a key already in the table;
- it names a parent that does not exist.

Otherwise its rows are appended in batch order. A delete removes rows by primary key. It cascades:
- a task takes its steps with it;
- a list takes its tasks and their steps with it.

Times are whole minutes (`int`); the queries only compare them, and the reminder adds 15 minutes. The clock is a parameter `now`.

`toggleStatusHandler` and `getNextScheduledDueDate` are called by the reminder, but their code is not part of this model. They are function parameters, `toggle` and `nextDue`:
- `toggle` returns what to write: either a new status with its completion time, or the next due date of a repeating task.

## Model

| member | source | states |
|---|---|---|
| ToDoReadDao.GetListByGroupId | app/src/test/java/com/wisnu/kurniawan/composetodolist/foundation/datasource/local/ToDoReadTest.kt:86-89 | a list is returned exactly when it is stored with that group id |
| ToDoReadDao.GetListWithUnGroupList | app/src/test/java/com/wisnu/kurniawan/composetodolist/foundation/datasource/local/ToDoReadTest.kt:151-155 | exactly the default group's lists and the given group's lists are returned; every default-group list comes before any other; filtering the result on the default group gives that group's lists in list-table order, once each, and filtering it on another given group gives that group's lists in the same way; a group id that owns no list yields the default group's lists alone |
| ToDoScenarios.UnGroupListScenario | app/src/test/java/com/wisnu/kurniawan/composetodolist/foundation/datasource/local/ToDoReadTest.kt:93-155 | on the test's four lists the view for group 1 is [list3, list4, list1] and for an unknown group [list3, list4] |
| ToDoReadDao.GetTaskOverallCount | app/src/test/java/com/wisnu/kurniawan/composetodolist/foundation/datasource/local/ToDoReadTest.kt:257-263 | the first count is the number of all tasks; in a store with unique keys the second is the number of tasks due strictly before the bound and the third the number of tasks with a due date; due-before ≤ dated ≤ all |
| ToDoReadDao.DueBeforeCount | app/src/test/java/com/wisnu/kurniawan/composetodolist/foundation/datasource/local/ToDoReadTest.kt:257-263 | with unique keys, the filter of tasks due strictly before the bound has as many entries as there are such tasks |
| ToDoReadDao.DueDateCount | app/src/test/java/com/wisnu/kurniawan/composetodolist/foundation/datasource/local/ToDoReadTest.kt:257-263 | with unique keys, the filter of tasks with a due date has as many entries as there are such tasks |
| ToDoReadDao.DueBeforeIsStrict | app/src/test/java/com/wisnu/kurniawan/composetodolist/foundation/datasource/local/ToDoReadTest.kt:257-263 | moving the bound one minute later adds exactly the tasks due at the old bound, so a task due exactly at the bound is not counted |
| ToDoReadDao.DueBeforeMonotonic | app/src/test/java/com/wisnu/kurniawan/composetodolist/foundation/datasource/local/ToDoReadTest.kt:257-263 | a later bound never counts fewer tasks as due before it |
| ToDoScenarios.OverallCountScenario | app/src/test/java/com/wisnu/kurniawan/composetodolist/foundation/datasource/local/ToDoReadTest.kt:159-263 | with the test's six due dates and the bound "tomorrow" the counts are (6, 3, 5) |
| ToDoReadDao.InsertByDueDate | app/src/test/java/com/wisnu/kurniawan/composetodolist/foundation/datasource/local/ToDoReadTest.kt:373-381 | inserting a dated task into a sequence sorted by due date keeps it sorted and adds exactly that task |
| ToDoReadDao.SortByDueDate | app/src/test/java/com/wisnu/kurniawan/composetodolist/foundation/datasource/local/ToDoReadTest.kt:373-381 | the result is sorted by due date ascending and is a permutation of the input |
| ToDoReadDao.GetTaskOrderByDueDate | app/src/test/java/com/wisnu/kurniawan/composetodolist/foundation/datasource/local/ToDoReadTest.kt:371-381 | the result is sorted by due date, is a permutation of the tasks that have a due date, and holds a task exactly when it is stored with a due date |
| ToDoReadDao.GetStep | app/src/test/java/com/wisnu/kurniawan/composetodolist/foundation/datasource/local/ToDoReadTest.kt:448-450 | a step is returned exactly when it is stored with that task id |
| ToDoReadDao.ChildQueriesExact | app/src/test/java/com/wisnu/kurniawan/composetodolist/foundation/datasource/local/ToDoReadTest.kt:448-450 | getListByGroupId, the tasks of a list, getStep and getScheduledTasks return every stored occurrence of a matching row exactly as often as it is stored, and no other row |
| ToDoReadDao.TasksOfList | app/src/test/java/com/wisnu/kurniawan/composetodolist/foundation/datasource/local/ToDoReadTest.kt:827-834 | a task is returned exactly when it is stored with that list id |
| ToDoReadDao.GetTaskWithSteps | app/src/test/java/com/wisnu/kurniawan/composetodolist/foundation/datasource/local/ToDoReadTest.kt:544-551 | the task column is the task table in order, and each entry's steps are exactly getStep of its task: its own steps in step-table order, once each |
| ToDoReadDao.GetTaskWithStepsByListId | app/src/test/java/com/wisnu/kurniawan/composetodolist/foundation/datasource/local/ToDoReadTest.kt:827-834 | the task column is exactly the list's tasks in task-table order, and each entry's steps are exactly getStep of its task: its own steps in step-table order, once each |
| ToDoReadDao.GetListWithTasks | app/src/test/java/com/wisnu/kurniawan/composetodolist/foundation/datasource/local/ToDoReadTest.kt:531-543 | the list column is the list table in order; each list carries exactly its own tasks in task-table order, each task's steps exactly getStep of that task, in step-table order |
| ToDoReadDao.GetListWithTasksByGroupId | app/src/test/java/com/wisnu/kurniawan/composetodolist/foundation/datasource/local/ToDoReadTest.kt:738-750 | the list column is exactly the group's lists in list-table order; each list carries exactly its own tasks in task-table order, each task's steps exactly getStep of that task, in step-table order |
| ToDoReadDao.GetGroupWithList | app/src/test/java/com/wisnu/kurniawan/composetodolist/foundation/datasource/local/ToDoReadTest.kt:513-530 | one entry per group in table order; each carries exactly its lists in list-table order, each list exactly its own tasks in order, each task's steps exactly getStep of that task, in step-table order |
| ToDoReadDao.GetScheduledTasks | app/src/test/java/com/wisnu/kurniawan/composetodolist/foundation/datasource/local/ToDoReadTest.kt:903-907 | a task is returned exactly when it is stored, is not complete and has a due date |
| ToDoWriteDao.AfterInsertGroup | app/src/test/java/com/wisnu/kurniawan/composetodolist/foundation/datasource/local/ToDoReadTest.kt:86 | the batch is accepted exactly when its keys are new and distinct; then it is appended to the group table; integrity is kept |
| ToDoWriteDao.AfterInsertList | app/src/test/java/com/wisnu/kurniawan/composetodolist/foundation/datasource/local/ToDoReadTest.kt:87 | accepted exactly when the keys are new and distinct and every group exists; then appended; integrity is kept |
| ToDoWriteDao.AfterInsertTask | app/src/test/java/com/wisnu/kurniawan/composetodolist/foundation/datasource/local/ToDoReadTest.kt:255 | accepted exactly when the keys are new and distinct and every list exists; then appended; integrity is kept |
| ToDoWriteDao.AfterInsertStep | app/src/test/java/com/wisnu/kurniawan/composetodolist/foundation/datasource/local/ToDoReadTest.kt:448 | accepted exactly when the keys are new and distinct and every task exists; then appended; integrity is kept |
| ToDoWriteDao.InsertListOrder | app/src/test/java/com/wisnu/kurniawan/composetodolist/foundation/datasource/local/ToDoReadTest.kt:152-155 | after an insert a group's lists are its earlier lists followed by the new ones of that group, in batch order |
| ToDoWriteDao.InsertTaskOrder | app/src/test/java/com/wisnu/kurniawan/composetodolist/foundation/datasource/local/ToDoReadTest.kt:825-834 | after an insert a list's tasks are its earlier tasks followed by the new ones of that list, in batch order |
| ToDoWriteDao.InsertStepOrder | app/src/test/java/com/wisnu/kurniawan/composetodolist/foundation/datasource/local/ToDoReadTest.kt:448-450 | after an insert a task's steps are its earlier steps followed by the new ones of that task, in batch order |
| ToDoWriteDao.AfterDeleteTask | app/src/test/java/com/wisnu/kurniawan/composetodolist/foundation/datasource/local/ToDoReadTest.kt:511 | a task stays exactly when its key is not deleted; a step stays exactly when its task's key is not deleted; groups and lists are unchanged; integrity is kept |
| ToDoWriteDao.DeleteTaskKeepsSteps | app/src/test/java/com/wisnu/kurniawan/composetodolist/foundation/datasource/local/ToDoReadTest.kt:544-551 | a task that is not deleted keeps exactly its steps |
| ToDoWriteDao.DeleteTaskListView | app/src/test/java/com/wisnu/kurniawan/composetodolist/foundation/datasource/local/ToDoReadTest.kt:531-543 | a list's task view after the delete is the old view without the deleted tasks, in the same order |
| ToDoWriteDao.DeleteTaskListsView | app/src/test/java/com/wisnu/kurniawan/composetodolist/foundation/datasource/local/ToDoReadTest.kt:531-543 | the list views of any lists after the delete are the old ones with the deleted tasks dropped |
| ToDoWriteDao.DeleteTaskViews | app/src/test/java/com/wisnu/kurniawan/composetodolist/foundation/datasource/local/ToDoReadTest.kt:511-551 | getTaskWithSteps, getListWithTasks and getGroupWithList after deleteTask are the old views with the deleted tasks and their steps dropped and everything else in place |
| ToDoWriteDao.AfterDeleteList | app/src/test/java/com/wisnu/kurniawan/composetodolist/foundation/datasource/local/ToDoReadTest.kt:621 | a list stays exactly when its key is not deleted; a task exactly when its list stays; a step exactly when its task was not in a deleted list; groups are unchanged; integrity is kept |
| ToDoWriteDao.DeleteListKeepsSteps | app/src/test/java/com/wisnu/kurniawan/composetodolist/foundation/datasource/local/ToDoReadTest.kt:654-661 | with unique keys, a task whose list stays keeps exactly its steps |
| ToDoWriteDao.DeleteListKeepsList | app/src/test/java/com/wisnu/kurniawan/composetodolist/foundation/datasource/local/ToDoReadTest.kt:641-653 | with unique keys, a list that stays keeps exactly its tasks and their steps |
| ToDoWriteDao.DeleteListListsView | app/src/test/java/com/wisnu/kurniawan/composetodolist/foundation/datasource/local/ToDoReadTest.kt:641-653 | the views of the surviving lists among any lists are the old views with the deleted lists dropped |
| ToDoWriteDao.DeleteListTaskView | app/src/test/java/com/wisnu/kurniawan/composetodolist/foundation/datasource/local/ToDoReadTest.kt:654-661 | getTaskWithSteps after deleteList is the old view without the tasks of the deleted lists, in order |
| ToDoWriteDao.DeleteListGroupView | app/src/test/java/com/wisnu/kurniawan/composetodolist/foundation/datasource/local/ToDoReadTest.kt:623-640 | a group's entry after deleteList is the old entry without the deleted lists |
| ToDoWriteDao.DeleteListViews | app/src/test/java/com/wisnu/kurniawan/composetodolist/foundation/datasource/local/ToDoReadTest.kt:621-661 | getTaskWithSteps, getListWithTasks and getGroupWithList after deleteList are the old views with the deleted lists, their tasks and steps dropped and everything else in place |
| ToDoWriteDao.SameTaskKeysValid | app/src/main/java/com/wisnu/kurniawan/composetodolist/features/todo/taskreminder/data/TaskReminderEnvironment.kt:60-65 | rewriting tasks in place with their keys and lists kept preserves integrity |
| ToDoWriteDao.AfterUpdateTaskStatus | app/src/main/java/com/wisnu/kurniawan/composetodolist/features/todo/taskreminder/data/TaskReminderEnvironment.kt:60-62 | the task with that key gets the new status, completion time and update time; every other row and every key is unchanged; integrity is kept |
| ToDoWriteDao.AfterUpdateTaskDueDate | app/src/main/java/com/wisnu/kurniawan/composetodolist/features/todo/taskreminder/data/TaskReminderEnvironment.kt:63-65 | the task with that key gets the new due date, date-time flag and update time; every other row and every key is unchanged; integrity is kept |
| ToDoWriteDao.ToDoDatabase.constructor | app/src/test/java/com/wisnu/kurniawan/composetodolist/foundation/datasource/local/ToDoReadTest.kt:35-44 | a new database is empty and valid |
| ToDoWriteDao.ToDoDatabase.InsertGroup | app/src/test/java/com/wisnu/kurniawan/composetodolist/foundation/datasource/local/ToDoReadTest.kt:86 | succeeds exactly when the batch is insertable; the tables become the accepted snapshot or stay as they were; integrity is kept |
| ToDoWriteDao.ToDoDatabase.InsertList | app/src/test/java/com/wisnu/kurniawan/composetodolist/foundation/datasource/local/ToDoReadTest.kt:87 | as InsertGroup, for lists |
| ToDoWriteDao.ToDoDatabase.InsertTask | app/src/test/java/com/wisnu/kurniawan/composetodolist/foundation/datasource/local/ToDoReadTest.kt:255 | as InsertGroup, for tasks |
| ToDoWriteDao.ToDoDatabase.InsertStep | app/src/test/java/com/wisnu/kurniawan/composetodolist/foundation/datasource/local/ToDoReadTest.kt:448 | as InsertGroup, for steps |
| ToDoWriteDao.ToDoDatabase.DeleteTask | app/src/test/java/com/wisnu/kurniawan/composetodolist/foundation/datasource/local/ToDoReadTest.kt:511 | the tables become the snapshot after deleteTask; integrity is kept |
| ToDoWriteDao.ToDoDatabase.DeleteList | app/src/test/java/com/wisnu/kurniawan/composetodolist/foundation/datasource/local/ToDoReadTest.kt:621 | the tables become the snapshot after deleteList; integrity is kept |
| ToDoWriteDao.ToDoDatabase.UpdateTaskStatus | app/src/main/java/com/wisnu/kurniawan/composetodolist/features/todo/taskreminder/data/TaskReminderEnvironment.kt:61 | the tables become the snapshot after the status update; integrity is kept |
| ToDoWriteDao.ToDoDatabase.UpdateTaskDueDate | app/src/main/java/com/wisnu/kurniawan/composetodolist/features/todo/taskreminder/data/TaskReminderEnvironment.kt:64 | the tables become the snapshot after the due-date update; integrity is kept |
| TaskReminder.GetTask | app/src/main/java/com/wisnu/kurniawan/composetodolist/features/todo/taskreminder/data/TaskReminderEnvironment.kt:83-90 | a found task is stored under that key, is not complete, has a due date and comes with its own list key; with unique keys a task is found exactly when such a task exists |
| TaskReminder.GetTaskMatchesScheduled | app/src/main/java/com/wisnu/kurniawan/composetodolist/features/todo/taskreminder/data/TaskReminderEnvironment.kt:86-89 | the guard admits a key exactly when a task of getScheduledTasks has it |
| TaskReminder.NotificationFor | app/src/main/java/com/wisnu/kurniawan/composetodolist/features/todo/taskreminder/data/TaskReminderEnvironment.kt:33-39 | a notification pairs the guarded task with the stored list of its list key; in a valid store every guarded task has one |
| TaskReminder.ApplyToggle | app/src/main/java/com/wisnu/kurniawan/composetodolist/features/todo/taskreminder/data/TaskReminderEnvironment.kt:57-66 | only the tasks with that key change, each stamped with the clock reading: a status outcome makes the row the old row with the new status, completion time and update time, and every other field kept; a due-date outcome makes it the old row with the next due date, the task's date-time flag and the update time, and every other field kept; integrity is kept |
| TaskReminder.RestartAlarms | app/src/main/java/com/wisnu/kurniawan/composetodolist/features/todo/taskreminder/data/TaskReminderEnvironment.kt:76-79 | the alarms registered for some tasks are keyed by exactly those tasks' keys |
| TaskReminder.RestartAlarmsAt | app/src/main/java/com/wisnu/kurniawan/composetodolist/features/todo/taskreminder/data/TaskReminderEnvironment.kt:77-78 | with distinct keys, each task's alarm is at its own next due date |
| TaskReminder.RestartCoversScheduled | app/src/main/java/com/wisnu/kurniawan/composetodolist/features/todo/taskreminder/data/TaskReminderEnvironment.kt:73-81 | with unique keys, after a restart a key has an alarm exactly when a scheduled task has it, and each scheduled task's alarm is at its own next due date |
| TaskReminder.TaskAlarmManager.ScheduleTaskAlarm | app/src/main/java/com/wisnu/kurniawan/composetodolist/features/todo/taskreminder/data/TaskReminderEnvironment.kt:49 | the task's alarm is set to the given time, replacing any earlier one; other alarms are unchanged |
| TaskReminder.TaskAlarmManager.CancelTaskAlarm | app/src/main/java/com/wisnu/kurniawan/composetodolist/features/todo/taskreminder/data/TaskReminderEnvironment.kt:68 | the task's alarm is removed; other alarms are unchanged |
| TaskReminder.TaskNotificationManager.Show | app/src/main/java/com/wisnu/kurniawan/composetodolist/features/todo/taskreminder/data/TaskReminderEnvironment.kt:42 | the task's notification becomes the given task and list; other notifications are unchanged |
| TaskReminder.TaskNotificationManager.Dismiss | app/src/main/java/com/wisnu/kurniawan/composetodolist/features/todo/taskreminder/data/TaskReminderEnvironment.kt:50 | the task's notification is removed; other notifications are unchanged |
| TaskReminder.TaskReminderEnvironment.constructor | app/src/main/java/com/wisnu/kurniawan/composetodolist/features/todo/taskreminder/data/TaskReminderEnvironment.kt:24-30 | the environment holds the given store and managers |
| TaskReminder.TaskReminderEnvironment.NotifyNotification | app/src/main/java/com/wisnu/kurniawan/composetodolist/features/todo/taskreminder/data/TaskReminderEnvironment.kt:33-44 | the notification of NotificationFor is shown for that task, and nothing else changes; with no notification, nothing is shown |
| TaskReminder.TaskReminderEnvironment.SnoozeReminder | app/src/main/java/com/wisnu/kurniawan/composetodolist/features/todo/taskreminder/data/TaskReminderEnvironment.kt:46-52 | for a guarded task the alarm moves to now plus 15 minutes and the notification is dismissed; otherwise nothing changes |
| TaskReminder.TaskReminderEnvironment.CompleteReminder | app/src/main/java/com/wisnu/kurniawan/composetodolist/features/todo/taskreminder/data/TaskReminderEnvironment.kt:54-71 | for a guarded task the store becomes ApplyToggle of the toggle's outcome at one clock reading, then the alarm is cancelled and the notification dismissed; otherwise nothing changes; integrity is kept |
| TaskReminder.TaskReminderEnvironment.RestartAllReminder | app/src/main/java/com/wisnu/kurniawan/composetodolist/features/todo/taskreminder/data/TaskReminderEnvironment.kt:73-81 | returns the scheduled tasks; the alarm table becomes the old one overridden by one alarm per scheduled task at its next due date |
| LanguageExt.ToLanguagePreference | app/src/main/java/com/wisnu/kurniawan/composetodolist/foundation/extension/LanguageExt.kt:7-13 | each language maps to the preference of the same name, and only that language does |
| LanguageExt.ToLanguage | app/src/main/java/com/wisnu/kurniawan/composetodolist/foundation/extension/LanguageExt.kt:15-21 | storing the language read from a preference gives back that preference |
| LanguageExt.LanguageRoundTrip | app/src/main/java/com/wisnu/kurniawan/composetodolist/foundation/extension/LanguageExt.kt:7-21 | toLanguage(toLanguagePreference(l)) == l for every language |
| LanguageExt.PreferenceRoundTrip | app/src/main/java/com/wisnu/kurniawan/composetodolist/foundation/extension/LanguageExt.kt:7-21 | toLanguagePreference(toLanguage(p)) == p for every preference |
| LanguageExt.ToLanguagePreferenceBijective | app/src/main/java/com/wisnu/kurniawan/composetodolist/foundation/extension/LanguageExt.kt:7-21 | different languages are stored as different preferences, and every preference stores some language |
| LanguageExt.Select | app/src/main/java/com/wisnu/kurniawan/composetodolist/foundation/extension/LanguageExt.kt:23-27 | same length and order; a row is applied exactly when its language is the selected one; every other field is unchanged |
| LanguageExt.SelectLastWins | app/src/main/java/com/wisnu/kurniawan/composetodolist/foundation/extension/LanguageExt.kt:23-27 | selecting l2 after l1 is the same as selecting l2 alone |
| LanguageExt.SelectIdempotent | app/src/main/java/com/wisnu/kurniawan/composetodolist/foundation/extension/LanguageExt.kt:23-27 | selecting the same language twice is selecting it once |
| LanguageExt.SelectMarksOne | app/src/main/java/com/wisnu/kurniawan/composetodolist/foundation/extension/LanguageExt.kt:25 | in a list with one row per language, the selected language's row is the only applied one |

## Left out

- The code of ToDoWriteDao, ToDoReadDao and LocalManager is not part of this model. Their behaviour is taken from what the database tests assert.
- The insert conflict rule (refuse the whole batch on a duplicate key or a missing parent) and the cascading deletes are the usual Room behaviour for primary and foreign keys. They are an assumption of the model: the tests only insert well-formed batches.
- ToDoReadDao.GetTaskOverallCount: the first count is stated as "all tasks". The test data has no complete task, so it cannot show whether complete tasks are excluded from any of the three counts. The second and third counts are stated as numbers of distinct tasks only for a store with unique keys, which every write keeps.
- ToDoReadDao.GetTaskOrderByDueDate: the order between tasks with the same due date is not stated, because the tests do not show it.
- The literal value of the default group's key (`DEFAULT_ID`) is not part of this model. Only its identity matters.
- Room's in-memory database construction, `runBlocking`, and the Flow operators (`take(1)`, `flatMapConcat`, `onEach`, `filter`) are not modelled. Each query is a synchronous function of one snapshot, and each reminder operation is one synchronous step.
- `toggleStatusHandler` and `getNextScheduledDueDate` are not modelled: their code is not part of this model. They are the parameters `toggle` and `nextDue`, with no recurrence rule assumed.
- TaskReminder.TaskReminderEnvironment.CompleteReminder assumes that the status toggle calls exactly one of its two callbacks, once. The handler could call neither or both; such a handler is not modelled.
- ToDoWriteDao.ToDoDatabase.InsertGroup, InsertList, InsertTask and InsertStep return `false` for a refused batch. In the app, Room would raise a constraint error instead; the exception is not modelled.
- TaskReminder.TaskReminderEnvironment.RestartAllReminder does not model the clock being read afresh for every task. It uses one reading `now` for all tasks.
- The calendar arithmetic of `LocalDateTime` is not modelled. Times are minutes, and "plus 15 minutes" is `+ 15`.
- The debug logging in notifyNotification is not modelled.
- The platform alarm API and notification rendering are not modelled. The managers are the two tables described above.
- TaskReminder.NotificationFor: when the task's list is missing, the model shows nothing. That case cannot occur in a valid store, and the source's behaviour for it is not visible.
- `getTaskWithStepsByIdWithListId` is modelled by its role in the guard only: the task with that key and its list key. Its step column is not used by the reminder.
- `LanguageItem`'s fields other than `language` and `applied` are not part of this model. They stand as one field `title`, which the selection leaves alone.
- The scheduled-tasks screen, the theme and the step-creation screen are user interface (Compose layout, a cancellable one-second debounce, palette choice, focus handling) and are not modelled.
