/** The write side of the local database (ToDoWriteDao and the two task
    updates the reminder uses), first as functions from one snapshot to the
    next, then as the `ToDoDatabase` object whose tables they update.

    An insert is one transaction: a batch that repeats a primary key, reuses
    an existing one or names a missing parent is rejected whole. A delete
    matches rows by primary key and cascades to the children. */
module ToDoWriteDao {
  import opened Seqs
  import opened ToDoEntities
  import opened ToDoReadDao

  /** `rows` repeat no key of their own and none of `existing`. */
  predicate FreshKeys<T>(existing: seq<T>, rows: seq<T>, key: T -> Id) {
    && Distinct(rows, key)
    && forall i, j :: 0 <= i < |existing| && 0 <= j < |rows| ==> key(existing[i]) != key(rows[j])
  }

  predicate CanInsertGroup(db: Db, rows: seq<ToDoGroupDb>) {
    FreshKeys(db.groups, rows, GroupKey)
  }

  predicate CanInsertList(db: Db, rows: seq<ToDoListDb>) {
    FreshKeys(db.lists, rows, ListKey) && forall l :: l in rows ==> l.groupId in GroupIds(db)
  }

  predicate CanInsertTask(db: Db, rows: seq<ToDoTaskDb>) {
    FreshKeys(db.tasks, rows, TaskKey) && forall t :: t in rows ==> t.listId in ListIds(db)
  }

  predicate CanInsertStep(db: Db, rows: seq<ToDoStepDb>) {
    FreshKeys(db.steps, rows, StepKey) && forall s :: s in rows ==> s.taskId in TaskIds(db)
  }

  /** The snapshot after insertGroup(rows), or None when the batch is rejected. */
  function AfterInsertGroup(db: Db, rows: seq<ToDoGroupDb>): (r: Option<Db>)
    ensures r.Some? <==> CanInsertGroup(db, rows)
    ensures r.Some? ==> r.value == db.(groups := db.groups + rows)
    ensures r.Some? && Valid(db) ==> Valid(r.value)
  {
    if CanInsertGroup(db, rows) then
      var d := db.(groups := db.groups + rows);
      assert Valid(db) ==> Distinct(db.groups + rows, GroupKey) by {
        if Valid(db) { DistinctAppend(db.groups, rows, GroupKey); }
      }
      assert GroupIds(db) <= GroupIds(d);
      Some(d)
    else None
  }

  /** The snapshot after insertList(rows), or None when the batch is rejected. */
  function AfterInsertList(db: Db, rows: seq<ToDoListDb>): (r: Option<Db>)
    ensures r.Some? <==> CanInsertList(db, rows)
    ensures r.Some? ==> r.value == db.(lists := db.lists + rows)
    ensures r.Some? && Valid(db) ==> Valid(r.value)
  {
    if CanInsertList(db, rows) then
      var d := db.(lists := db.lists + rows);
      assert Valid(db) ==> Distinct(db.lists + rows, ListKey) by {
        if Valid(db) { DistinctAppend(db.lists, rows, ListKey); }
      }
      assert ListIds(db) <= ListIds(d);
      Some(d)
    else None
  }

  /** The snapshot after insertTask(rows), or None when the batch is rejected. */
  function AfterInsertTask(db: Db, rows: seq<ToDoTaskDb>): (r: Option<Db>)
    ensures r.Some? <==> CanInsertTask(db, rows)
    ensures r.Some? ==> r.value == db.(tasks := db.tasks + rows)
    ensures r.Some? && Valid(db) ==> Valid(r.value)
  {
    if CanInsertTask(db, rows) then
      var d := db.(tasks := db.tasks + rows);
      assert Valid(db) ==> Distinct(db.tasks + rows, TaskKey) by {
        if Valid(db) { DistinctAppend(db.tasks, rows, TaskKey); }
      }
      assert TaskIds(db) <= TaskIds(d);
      Some(d)
    else None
  }

  /** The snapshot after insertStep(rows), or None when the batch is rejected. */
  function AfterInsertStep(db: Db, rows: seq<ToDoStepDb>): (r: Option<Db>)
    ensures r.Some? <==> CanInsertStep(db, rows)
    ensures r.Some? ==> r.value == db.(steps := db.steps + rows)
    ensures r.Some? && Valid(db) ==> Valid(r.value)
  {
    if CanInsertStep(db, rows) then
      assert Valid(db) ==> Distinct(db.steps + rows, StepKey) by {
        if Valid(db) { DistinctAppend(db.steps, rows, StepKey); }
      }
      Some(db.(steps := db.steps + rows))
    else None
  }

  /** Inserted lists come after the group's earlier lists, in batch order. */
  lemma InsertListOrder(db: Db, rows: seq<ToDoListDb>, groupId: Id)
    requires CanInsertList(db, rows)
    ensures GetListByGroupId(AfterInsertList(db, rows).value, groupId)
         == GetListByGroupId(db, groupId) + Filter(rows, (l: ToDoListDb) => l.groupId == groupId)
  {
    FilterAppend(db.lists, rows, (l: ToDoListDb) => l.groupId == groupId);
  }

  /** Inserted tasks come after the list's earlier tasks, in batch order. */
  lemma InsertTaskOrder(db: Db, rows: seq<ToDoTaskDb>, listId: Id)
    requires CanInsertTask(db, rows)
    ensures TasksOfList(AfterInsertTask(db, rows).value, listId)
         == TasksOfList(db, listId) + Filter(rows, (t: ToDoTaskDb) => t.listId == listId)
  {
    FilterAppend(db.tasks, rows, (t: ToDoTaskDb) => t.listId == listId);
  }

  /** Inserted steps come after the task's earlier steps, in batch order. */
  lemma InsertStepOrder(db: Db, rows: seq<ToDoStepDb>, taskId: Id)
    requires CanInsertStep(db, rows)
    ensures GetStep(AfterInsertStep(db, rows).value, taskId)
         == GetStep(db, taskId) + Filter(rows, (s: ToDoStepDb) => s.taskId == taskId)
  {
    FilterAppend(db.steps, rows, (s: ToDoStepDb) => s.taskId == taskId);
  }

  function KeysOf<T(==)>(rows: seq<T>, key: T -> Id): set<Id> {
    set x | x in rows :: key(x)
  }

  /** The snapshot after deleteTask(rows): the tasks with those keys and
      every step of theirs are gone; nothing else changes. */
  function AfterDeleteTask(db: Db, rows: seq<ToDoTaskDb>): (r: Db)
    ensures r.groups == db.groups && r.lists == db.lists
    ensures forall t :: t in r.tasks <==> t in db.tasks && t.id !in KeysOf(rows, TaskKey)
    ensures forall s :: s in r.steps <==> s in db.steps && s.taskId !in KeysOf(rows, TaskKey)
    ensures Valid(db) ==> Valid(r)
  {
    var ids := KeysOf(rows, TaskKey);
    var r := db.(tasks := Filter(db.tasks, (t: ToDoTaskDb) => t.id !in ids),
                 steps := Filter(db.steps, (s: ToDoStepDb) => s.taskId !in ids));
    assert Valid(db) ==> Distinct(r.tasks, TaskKey) by {
      if Valid(db) { FilterDistinct(db.tasks, TaskKey, (t: ToDoTaskDb) => t.id !in ids); }
    }
    assert Valid(db) ==> Distinct(r.steps, StepKey) by {
      if Valid(db) { FilterDistinct(db.steps, StepKey, (s: ToDoStepDb) => s.taskId !in ids); }
    }
    assert forall s :: s in r.steps && s.taskId in TaskIds(db) ==> s.taskId in TaskIds(r) by {
      forall s | s in r.steps && s.taskId in TaskIds(db) ensures s.taskId in TaskIds(r) {
        var t :| t in db.tasks && t.id == s.taskId;
        assert t in r.tasks;
      }
    }
    r
  }

  /** The keys of the tasks whose list is among `listIds`. */
  function TasksOfLists(db: Db, listIds: set<Id>): set<Id> {
    set t | t in db.tasks && t.listId in listIds :: t.id
  }

  /** The snapshot after deleteList(rows): those lists, their tasks and
      those tasks' steps are gone; nothing else changes. */
  function AfterDeleteList(db: Db, rows: seq<ToDoListDb>): (r: Db)
    ensures r.groups == db.groups
    ensures forall l :: l in r.lists <==> l in db.lists && l.id !in KeysOf(rows, ListKey)
    ensures forall t :: t in r.tasks <==> t in db.tasks && t.listId !in KeysOf(rows, ListKey)
    ensures forall s :: s in r.steps <==> s in db.steps && s.taskId !in TasksOfLists(db, KeysOf(rows, ListKey))
    ensures Valid(db) ==> Valid(r)
  {
    var ids := KeysOf(rows, ListKey);
    var gone := TasksOfLists(db, ids);
    var r := db.(lists := Filter(db.lists, (l: ToDoListDb) => l.id !in ids),
                 tasks := Filter(db.tasks, (t: ToDoTaskDb) => t.listId !in ids),
                 steps := Filter(db.steps, (s: ToDoStepDb) => s.taskId !in gone));
    assert Valid(db) ==> Distinct(r.lists, ListKey) by {
      if Valid(db) { FilterDistinct(db.lists, ListKey, (l: ToDoListDb) => l.id !in ids); }
    }
    assert Valid(db) ==> Distinct(r.tasks, TaskKey) by {
      if Valid(db) { FilterDistinct(db.tasks, TaskKey, (t: ToDoTaskDb) => t.listId !in ids); }
    }
    assert Valid(db) ==> Distinct(r.steps, StepKey) by {
      if Valid(db) { FilterDistinct(db.steps, StepKey, (s: ToDoStepDb) => s.taskId !in gone); }
    }
    assert Valid(db) ==> Valid(r) by {
      if Valid(db) {
        forall t | t in r.tasks ensures t.listId in ListIds(r) {
          var l :| l in db.lists && l.id == t.listId;
          assert l in r.lists;
        }
        forall s | s in r.steps ensures s.taskId in TaskIds(r) {
          var t :| t in db.tasks && t.id == s.taskId;
          assert t.listId !in ids;
          assert t in r.tasks;
        }
      }
    }
    r
  }

  // What the nested views look like after a delete.

  /** A task view without the entries of the tasks keyed in `ids`. */
  function DropTasks(v: seq<ToDoTaskWithSteps>, ids: set<Id>): seq<ToDoTaskWithSteps> {
    Filter(v, (w: ToDoTaskWithSteps) => w.task.id !in ids)
  }

  /** A list view whose every list loses the entries of the tasks keyed in `ids`. */
  function DropTasksInLists(v: seq<ToDoListWithTasks>, ids: set<Id>): seq<ToDoListWithTasks> {
    Map(v, (e: ToDoListWithTasks) => e.(taskWithSteps := DropTasks(e.taskWithSteps, ids)))
  }

  /** A list view without the lists keyed in `ids`. */
  function DropLists(v: seq<ToDoListWithTasks>, ids: set<Id>): seq<ToDoListWithTasks> {
    Filter(v, (e: ToDoListWithTasks) => e.list.id !in ids)
  }

  /** A task that is not deleted keeps exactly its steps. */
  lemma DeleteTaskKeepsSteps(db: Db, rows: seq<ToDoTaskDb>, t: ToDoTaskDb)
    requires t.id !in KeysOf(rows, TaskKey)
    ensures TaskWithStepsOf(AfterDeleteTask(db, rows), t) == TaskWithStepsOf(db, t)
  {
    var ids := KeysOf(rows, TaskKey);
    FilterFilter(db.steps, (s: ToDoStepDb) => s.taskId !in ids, (s: ToDoStepDb) => s.taskId == t.id,
                 (s: ToDoStepDb) => s.taskId == t.id);
  }

  /** After deleteTask, a list's task view is the old one without the deleted tasks. */
  lemma DeleteTaskListView(db: Db, rows: seq<ToDoTaskDb>, listId: Id)
    ensures GetTaskWithStepsByListId(AfterDeleteTask(db, rows), listId)
         == DropTasks(GetTaskWithStepsByListId(db, listId), KeysOf(rows, TaskKey))
  {
    var ids := KeysOf(rows, TaskKey);
    var d := AfterDeleteTask(db, rows);
    var keep := (t: ToDoTaskDb) => t.id !in ids;
    var mine := (t: ToDoTaskDb) => t.listId == listId;
    var both := (t: ToDoTaskDb) => t.id !in ids && t.listId == listId;
    FilterFilter(db.tasks, keep, mine, both);
    FilterFilter(db.tasks, mine, keep, both);
    forall t: ToDoTaskDb | keep(t) ensures TaskWithStepsOf(d, t) == TaskWithStepsOf(db, t) {
      DeleteTaskKeepsSteps(db, rows, t);
    }
    MapFilter(TasksOfList(db, listId), keep, (t: ToDoTaskDb) => TaskWithStepsOf(db, t),
              (t: ToDoTaskDb) => TaskWithStepsOf(d, t), (w: ToDoTaskWithSteps) => w.task.id !in ids);
  }

  /** deleteTask as getTaskWithSteps, getListWithTasks and getGroupWithList
      see it: the deleted tasks and their steps vanish, every other list,
      task and step stays where it was. */
  lemma DeleteTaskViews(db: Db, rows: seq<ToDoTaskDb>)
    ensures GetTaskWithSteps(AfterDeleteTask(db, rows)) == DropTasks(GetTaskWithSteps(db), KeysOf(rows, TaskKey))
    ensures GetListWithTasks(AfterDeleteTask(db, rows)) == DropTasksInLists(GetListWithTasks(db), KeysOf(rows, TaskKey))
    ensures GetGroupWithList(AfterDeleteTask(db, rows))
         == Map(GetGroupWithList(db), (g: ToDoGroupWithList) =>
                  g.(listWithTasks := DropTasksInLists(g.listWithTasks, KeysOf(rows, TaskKey))))
  {
    var ids := KeysOf(rows, TaskKey);
    var d := AfterDeleteTask(db, rows);
    forall t: ToDoTaskDb | t.id !in ids ensures TaskWithStepsOf(d, t) == TaskWithStepsOf(db, t) {
      DeleteTaskKeepsSteps(db, rows, t);
    }
    MapFilter(db.tasks, (t: ToDoTaskDb) => t.id !in ids, (t: ToDoTaskDb) => TaskWithStepsOf(db, t),
              (t: ToDoTaskDb) => TaskWithStepsOf(d, t), (w: ToDoTaskWithSteps) => w.task.id !in ids);
    forall l: ToDoListDb ensures ListWithTasksOf(d, l) == ListWithTasksOf(db, l).(taskWithSteps := DropTasks(ListWithTasksOf(db, l).taskWithSteps, ids)) {
      DeleteTaskListView(db, rows, l.id);
    }
    DeleteTaskListsView(db, rows, db.lists);
    forall g: ToDoGroupDb ensures GroupWithListOf(d, g)
        == GroupWithListOf(db, g).(listWithTasks := DropTasksInLists(GroupWithListOf(db, g).listWithTasks, ids)) {
      DeleteTaskListsView(db, rows, GetListByGroupId(db, g.id));
    }
    var lhs := GetGroupWithList(d);
    var rhs := Map(GetGroupWithList(db), (g: ToDoGroupWithList) =>
                  g.(listWithTasks := DropTasksInLists(g.listWithTasks, ids)));
    assert |lhs| == |rhs|;
    assert forall i :: 0 <= i < |lhs| ==> lhs[i] == rhs[i];
  }

  /** The list view of any lists after deleteTask. */
  lemma DeleteTaskListsView(db: Db, rows: seq<ToDoTaskDb>, ls: seq<ToDoListDb>)
    ensures Map(ls, (l: ToDoListDb) => ListWithTasksOf(AfterDeleteTask(db, rows), l))
         == DropTasksInLists(Map(ls, (l: ToDoListDb) => ListWithTasksOf(db, l)), KeysOf(rows, TaskKey))
  {
    var lhs := Map(ls, (l: ToDoListDb) => ListWithTasksOf(AfterDeleteTask(db, rows), l));
    var rhs := DropTasksInLists(Map(ls, (l: ToDoListDb) => ListWithTasksOf(db, l)), KeysOf(rows, TaskKey));
    forall i | 0 <= i < |ls| ensures lhs[i] == rhs[i] {
      DeleteTaskListView(db, rows, ls[i].id);
    }
  }

  /** A task whose list is not deleted keeps exactly its steps: with unique
      task keys, its key is not among the cascaded ones. */
  lemma DeleteListKeepsSteps(db: Db, rows: seq<ToDoListDb>, t: ToDoTaskDb)
    requires UniqueKeys(db)
    requires t in db.tasks && t.listId !in KeysOf(rows, ListKey)
    ensures TaskWithStepsOf(AfterDeleteList(db, rows), t) == TaskWithStepsOf(db, t)
  {
    var ids := KeysOf(rows, ListKey);
    var gone := TasksOfLists(db, ids);
    if t.id in gone {
      var t2 :| t2 in db.tasks && t2.listId in ids && t2.id == t.id;
      DistinctKeyDetermines(db.tasks, TaskKey, t, t2);
      assert false;
    }
    FilterFilter(db.steps, (s: ToDoStepDb) => s.taskId !in gone, (s: ToDoStepDb) => s.taskId == t.id,
                 (s: ToDoStepDb) => s.taskId == t.id);
  }

  /** A list that is not deleted keeps exactly its tasks and their steps. */
  lemma DeleteListKeepsList(db: Db, rows: seq<ToDoListDb>, l: ToDoListDb)
    requires UniqueKeys(db)
    requires l.id !in KeysOf(rows, ListKey)
    ensures ListWithTasksOf(AfterDeleteList(db, rows), l) == ListWithTasksOf(db, l)
  {
    var ids := KeysOf(rows, ListKey);
    var d := AfterDeleteList(db, rows);
    var mine := (t: ToDoTaskDb) => t.listId == l.id;
    FilterFilter(db.tasks, (t: ToDoTaskDb) => t.listId !in ids, mine, mine);
    var ts := TasksOfList(db, l.id);
    forall i | 0 <= i < |ts| ensures TaskWithStepsOf(db, ts[i]) == TaskWithStepsOf(d, ts[i]) {
      assert ts[i] in ts;
      DeleteListKeepsSteps(db, rows, ts[i]);
    }
    MapCongruent(ts, (t: ToDoTaskDb) => TaskWithStepsOf(db, t), (t: ToDoTaskDb) => TaskWithStepsOf(d, t));
  }

  /** The list view of any lists after deleteList. */
  lemma DeleteListListsView(db: Db, rows: seq<ToDoListDb>, ls: seq<ToDoListDb>)
    requires UniqueKeys(db)
    ensures Map(Filter(ls, (l: ToDoListDb) => l.id !in KeysOf(rows, ListKey)),
                (l: ToDoListDb) => ListWithTasksOf(AfterDeleteList(db, rows), l))
         == DropLists(Map(ls, (l: ToDoListDb) => ListWithTasksOf(db, l)), KeysOf(rows, ListKey))
  {
    var ids := KeysOf(rows, ListKey);
    var d := AfterDeleteList(db, rows);
    forall l: ToDoListDb | l.id !in ids ensures ListWithTasksOf(d, l) == ListWithTasksOf(db, l) {
      DeleteListKeepsList(db, rows, l);
    }
    MapFilter(ls, (l: ToDoListDb) => l.id !in ids, (l: ToDoListDb) => ListWithTasksOf(db, l),
              (l: ToDoListDb) => ListWithTasksOf(d, l), (e: ToDoListWithTasks) => e.list.id !in ids);
  }

  /** After deleteList, getTaskWithSteps lists the tasks of the other lists. */
  lemma DeleteListTaskView(db: Db, rows: seq<ToDoListDb>)
    requires UniqueKeys(db)
    ensures GetTaskWithSteps(AfterDeleteList(db, rows))
         == Filter(GetTaskWithSteps(db), (w: ToDoTaskWithSteps) => w.task.listId !in KeysOf(rows, ListKey))
  {
    var ids := KeysOf(rows, ListKey);
    var d := AfterDeleteList(db, rows);
    var keepT := (t: ToDoTaskDb) => t.listId !in ids;
    forall i | 0 <= i < |db.tasks| && keepT(db.tasks[i])
      ensures TaskWithStepsOf(d, db.tasks[i]) == TaskWithStepsOf(db, db.tasks[i])
    {
      DeleteListKeepsSteps(db, rows, db.tasks[i]);
    }
    MapFilter(db.tasks, keepT, (t: ToDoTaskDb) => TaskWithStepsOf(db, t),
              (t: ToDoTaskDb) => TaskWithStepsOf(d, t), (w: ToDoTaskWithSteps) => w.task.listId !in ids);
  }

  /** After deleteList, a group keeps its other lists, in order. */
  lemma DeleteListGroupView(db: Db, rows: seq<ToDoListDb>, g: ToDoGroupDb)
    requires UniqueKeys(db)
    ensures GroupWithListOf(AfterDeleteList(db, rows), g)
         == GroupWithListOf(db, g).(listWithTasks := DropLists(GroupWithListOf(db, g).listWithTasks, KeysOf(rows, ListKey)))
  {
    var ids := KeysOf(rows, ListKey);
    var keepL := (l: ToDoListDb) => l.id !in ids;
    var mine := (l: ToDoListDb) => l.groupId == g.id;
    var both := (l: ToDoListDb) => l.id !in ids && l.groupId == g.id;
    FilterFilter(db.lists, keepL, mine, both);
    FilterFilter(db.lists, mine, keepL, both);
    DeleteListListsView(db, rows, GetListByGroupId(db, g.id));
  }

  /** deleteList as getTaskWithSteps, getListWithTasks and getGroupWithList
      see it: the deleted lists, their tasks and those tasks' steps vanish;
      every other list keeps its tasks and steps, in order. */
  lemma DeleteListViews(db: Db, rows: seq<ToDoListDb>)
    requires UniqueKeys(db)
    ensures GetTaskWithSteps(AfterDeleteList(db, rows))
         == Filter(GetTaskWithSteps(db), (w: ToDoTaskWithSteps) => w.task.listId !in KeysOf(rows, ListKey))
    ensures GetListWithTasks(AfterDeleteList(db, rows)) == DropLists(GetListWithTasks(db), KeysOf(rows, ListKey))
    ensures GetGroupWithList(AfterDeleteList(db, rows))
         == Map(GetGroupWithList(db), (g: ToDoGroupWithList) =>
                  g.(listWithTasks := DropLists(g.listWithTasks, KeysOf(rows, ListKey))))
  {
    var ids := KeysOf(rows, ListKey);
    var d := AfterDeleteList(db, rows);
    DeleteListTaskView(db, rows);
    DeleteListListsView(db, rows, db.lists);
    var lhs := GetGroupWithList(d);
    var rhs := Map(GetGroupWithList(db), (g: ToDoGroupWithList) =>
                  g.(listWithTasks := DropLists(g.listWithTasks, ids)));
    forall i | 0 <= i < |lhs| ensures lhs[i] == rhs[i] {
      DeleteListGroupView(db, rows, db.groups[i]);
    }
  }

  // The two task updates the reminder issues through the local manager.

  /** Keys and foreign keys of the tasks are what they were. */
  predicate SameTaskKeys(a: seq<ToDoTaskDb>, b: seq<ToDoTaskDb>) {
    |a| == |b| && forall i :: 0 <= i < |a| ==> a[i].id == b[i].id && a[i].listId == b[i].listId
  }

  /** Rewriting tasks in place, keys and parents kept, keeps the database valid. */
  lemma SameTaskKeysValid(db: Db, tasks: seq<ToDoTaskDb>)
    requires Valid(db) && SameTaskKeys(db.tasks, tasks)
    ensures Valid(db.(tasks := tasks))
  {
    var d := db.(tasks := tasks);
    assert forall t :: t in db.tasks ==> t.id in TaskIds(d) by {
      forall t | t in db.tasks ensures t.id in TaskIds(d) {
        var i :| 0 <= i < |db.tasks| && db.tasks[i] == t;
        assert tasks[i] in d.tasks;
      }
    }
    assert forall t :: t in tasks ==> t.listId in ListIds(d) by {
      forall t | t in tasks ensures t.listId in ListIds(d) {
        var i :| 0 <= i < |tasks| && tasks[i] == t;
        assert db.tasks[i] in db.tasks;
      }
    }
  }

  /** updateTaskStatus: the task keyed `taskId` gets the new status,
      completion time and update time; every other row is unchanged. */
  function AfterUpdateTaskStatus(db: Db, taskId: Id, status: ToDoStatus, completedAt: Option<Time>, updatedAt: Time): (r: Db)
    ensures r.groups == db.groups && r.lists == db.lists && r.steps == db.steps
    ensures SameTaskKeys(db.tasks, r.tasks)
    ensures forall i :: 0 <= i < |db.tasks| && db.tasks[i].id != taskId ==> r.tasks[i] == db.tasks[i]
    ensures forall i :: 0 <= i < |db.tasks| && db.tasks[i].id == taskId ==>
      r.tasks[i] == db.tasks[i].(status := status, completedAt := completedAt, updatedAt := updatedAt)
    ensures Valid(db) ==> Valid(r)
  {
    var r := db.(tasks := Map(db.tasks, (t: ToDoTaskDb) =>
      if t.id == taskId then t.(status := status, completedAt := completedAt, updatedAt := updatedAt) else t));
    assert Valid(db) ==> Valid(r) by {
      if Valid(db) { SameTaskKeysValid(db, r.tasks); }
    }
    r
  }

  /** updateTaskDueDate: the task keyed `taskId` gets the new due date, the
      given date-time flag and update time; every other row is unchanged. */
  function AfterUpdateTaskDueDate(db: Db, taskId: Id, dueDate: Time, isDueDateTimeSet: bool, updatedAt: Time): (r: Db)
    ensures r.groups == db.groups && r.lists == db.lists && r.steps == db.steps
    ensures SameTaskKeys(db.tasks, r.tasks)
    ensures forall i :: 0 <= i < |db.tasks| && db.tasks[i].id != taskId ==> r.tasks[i] == db.tasks[i]
    ensures forall i :: 0 <= i < |db.tasks| && db.tasks[i].id == taskId ==>
      r.tasks[i] == db.tasks[i].(dueDate := Some(dueDate), isDueDateTimeSet := isDueDateTimeSet, updatedAt := updatedAt)
    ensures Valid(db) ==> Valid(r)
  {
    var r := db.(tasks := Map(db.tasks, (t: ToDoTaskDb) =>
      if t.id == taskId then t.(dueDate := Some(dueDate), isDueDateTimeSet := isDueDateTimeSet, updatedAt := updatedAt) else t));
    assert Valid(db) ==> Valid(r) by {
      if Valid(db) { SameTaskKeysValid(db, r.tasks); }
    }
    r
  }

  /** The database object: four tables that the write operations replace. */
  class ToDoDatabase {
    var groups: seq<ToDoGroupDb>
    var lists: seq<ToDoListDb>
    var tasks: seq<ToDoTaskDb>
    var steps: seq<ToDoStepDb>

    function Snapshot(): Db
      reads this
    {
      Db(groups, lists, tasks, steps)
    }

    ghost predicate Valid()
      reads this
    {
      ToDoEntities.Valid(Snapshot())
    }

    constructor ()
      ensures Valid() && Snapshot() == EmptyDb
    {
      groups, lists, tasks, steps := [], [], [], [];
    }

    method InsertGroup(rows: seq<ToDoGroupDb>) returns (ok: bool)
      requires Valid()
      modifies this
      ensures Valid()
      ensures ok <==> CanInsertGroup(old(Snapshot()), rows)
      ensures Snapshot() == if ok then AfterInsertGroup(old(Snapshot()), rows).value else old(Snapshot())
    {
      var r := AfterInsertGroup(Snapshot(), rows);
      ok := r.Some?;
      if ok {
        groups := r.value.groups;
      }
    }

    method InsertList(rows: seq<ToDoListDb>) returns (ok: bool)
      requires Valid()
      modifies this
      ensures Valid()
      ensures ok <==> CanInsertList(old(Snapshot()), rows)
      ensures Snapshot() == if ok then AfterInsertList(old(Snapshot()), rows).value else old(Snapshot())
    {
      var r := AfterInsertList(Snapshot(), rows);
      ok := r.Some?;
      if ok {
        lists := r.value.lists;
      }
    }

    method InsertTask(rows: seq<ToDoTaskDb>) returns (ok: bool)
      requires Valid()
      modifies this
      ensures Valid()
      ensures ok <==> CanInsertTask(old(Snapshot()), rows)
      ensures Snapshot() == if ok then AfterInsertTask(old(Snapshot()), rows).value else old(Snapshot())
    {
      var r := AfterInsertTask(Snapshot(), rows);
      ok := r.Some?;
      if ok {
        tasks := r.value.tasks;
      }
    }

    method InsertStep(rows: seq<ToDoStepDb>) returns (ok: bool)
      requires Valid()
      modifies this
      ensures Valid()
      ensures ok <==> CanInsertStep(old(Snapshot()), rows)
      ensures Snapshot() == if ok then AfterInsertStep(old(Snapshot()), rows).value else old(Snapshot())
    {
      var r := AfterInsertStep(Snapshot(), rows);
      ok := r.Some?;
      if ok {
        steps := r.value.steps;
      }
    }

    method DeleteTask(rows: seq<ToDoTaskDb>)
      requires Valid()
      modifies this
      ensures Valid()
      ensures Snapshot() == AfterDeleteTask(old(Snapshot()), rows)
    {
      var r := AfterDeleteTask(Snapshot(), rows);
      tasks, steps := r.tasks, r.steps;
    }

    method DeleteList(rows: seq<ToDoListDb>)
      requires Valid()
      modifies this
      ensures Valid()
      ensures Snapshot() == AfterDeleteList(old(Snapshot()), rows)
    {
      var r := AfterDeleteList(Snapshot(), rows);
      lists, tasks, steps := r.lists, r.tasks, r.steps;
    }

    method UpdateTaskStatus(taskId: Id, status: ToDoStatus, completedAt: Option<Time>, updatedAt: Time)
      requires Valid()
      modifies this
      ensures Valid()
      ensures Snapshot() == AfterUpdateTaskStatus(old(Snapshot()), taskId, status, completedAt, updatedAt)
    {
      tasks := AfterUpdateTaskStatus(Snapshot(), taskId, status, completedAt, updatedAt).tasks;
    }

    method UpdateTaskDueDate(taskId: Id, dueDate: Time, isDueDateTimeSet: bool, updatedAt: Time)
      requires Valid()
      modifies this
      ensures Valid()
      ensures Snapshot() == AfterUpdateTaskDueDate(old(Snapshot()), taskId, dueDate, isDueDateTimeSet, updatedAt)
    {
      tasks := AfterUpdateTaskDueDate(Snapshot(), taskId, dueDate, isDueDateTimeSet, updatedAt).tasks;
    }
  }
}
