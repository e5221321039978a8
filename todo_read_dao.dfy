/** The read side of the local database (ToDoReadDao): filters, joins,
    orderings and counts over one snapshot of the tables. */
module ToDoReadDao {
  import opened ToDoEntities
  import opened Seqs

  /** The lists of group `groupId`, in insertion order. */
  function GetListByGroupId(db: Db, groupId: Id): (r: seq<ToDoListDb>)
    ensures forall l :: l in r <==> l in db.lists && l.groupId == groupId
  {
    Filter(db.lists, (l: ToDoListDb) => l.groupId == groupId)
  }

  /** The lists of the default group first, then those of `groupId`. A group
      id that owns no list yields the default group's lists alone. */
  function GetListWithUnGroupList(db: Db, groupId: Id): (r: seq<ToDoListDb>)
    ensures forall l :: l in r <==> l in db.lists && (l.groupId == DefaultGroupId || l.groupId == groupId)
    ensures forall i, j :: 0 <= i < j < |r| && r[j].groupId == DefaultGroupId ==> r[i].groupId == DefaultGroupId
    ensures (forall l :: l in db.lists ==> l.groupId != groupId) ==> r == GetListByGroupId(db, DefaultGroupId)
    ensures Filter(r, (l: ToDoListDb) => l.groupId == DefaultGroupId) == GetListByGroupId(db, DefaultGroupId)
    ensures groupId != DefaultGroupId ==>
      Filter(r, (l: ToDoListDb) => l.groupId == groupId) == GetListByGroupId(db, groupId)
  {
    var defaults := GetListByGroupId(db, DefaultGroupId);
    var own := if groupId == DefaultGroupId then [] else GetListByGroupId(db, groupId);
    assert forall i :: 0 <= i < |defaults| ==> defaults[i] in defaults;
    assert forall j :: 0 <= j < |own| ==> own[j] in own;
    assert |own| > 0 ==> own[0] in own;
    GroupBlocks(db, DefaultGroupId, groupId, defaults, own);
    defaults + own
  }

  /** Filtering the ungrouped view on one of its two groups gives back that
      group's block, in order and once. */
  lemma GroupBlocks(db: Db, d: Id, g: Id, defaults: seq<ToDoListDb>, own: seq<ToDoListDb>)
    requires defaults == GetListByGroupId(db, d)
    requires own == if g == d then [] else GetListByGroupId(db, g)
    ensures Filter(defaults + own, (l: ToDoListDb) => l.groupId == d) == defaults
    ensures g != d ==> Filter(defaults + own, (l: ToDoListDb) => l.groupId == g) == own
  {
    var isD := (l: ToDoListDb) => l.groupId == d;
    var isG := (l: ToDoListDb) => l.groupId == g;
    FilterAppend(defaults, own, isD);
    FilterAppend(defaults, own, isG);
    FilterFilter(db.lists, isD, isD, isD);
    if g != d {
      FilterFilter(db.lists, isG, isG, isG);
      FilterFilter(db.lists, isG, isD, (l: ToDoListDb) => false);
      FilterFilter(db.lists, isD, isG, (l: ToDoListDb) => false);
      FilterNone(db.lists);
    } else {
      assert Filter(own, isD) == [];
    }
  }

  lemma {:induction false} FilterNone(s: seq<ToDoListDb>)
    ensures Filter(s, (l: ToDoListDb) => false) == []
  {
    if s != [] { FilterNone(s[1..]); }
  }

  /** Whether `t` is due strictly before `date`. */
  predicate DueBefore(t: ToDoTaskDb, date: Time) {
    t.dueDate.Some? && t.dueDate.value < date
  }

  /** DueBefore with the bound fixed. */
  function DueBeforeBound(date: Time): ToDoTaskDb -> bool {
    (t: ToDoTaskDb) => DueBefore(t, date)
  }

  predicate HasDueDate(t: ToDoTaskDb) {
    t.dueDate.Some?
  }

  /** All tasks; those due strictly before `date`; those with a due date.
      In a store with unique keys the last two are numbers of distinct tasks. */
  function GetTaskOverallCount(db: Db, date: Time): (r: ToDoTaskOverallCount)
    ensures r.all == |db.tasks|
    ensures r.dueBefore <= r.scheduled <= r.all
    ensures UniqueKeys(db) ==> r.dueBefore == |set t | t in db.tasks && DueBefore(t, date)|
    ensures UniqueKeys(db) ==> r.scheduled == |set t | t in db.tasks && t.dueDate.Some?|
  {
    var isBefore := DueBeforeBound(date);
    var before := Filter(db.tasks, isBefore);
    var dated := Filter(db.tasks, HasDueDate);
    FilterWeaker(db.tasks, isBefore, HasDueDate);
    assert UniqueKeys(db) ==> |before| == |set t | t in db.tasks && DueBefore(t, date)| by {
      if UniqueKeys(db) { DueBeforeCount(db, date); }
    }
    assert UniqueKeys(db) ==> |dated| == |set t | t in db.tasks && t.dueDate.Some?| by {
      if UniqueKeys(db) { DueDateCount(db); }
    }
    ToDoTaskOverallCount(|db.tasks|, |before|, |dated|)
  }

  /** With unique keys, the tasks due before `date` are counted once each. */
  lemma DueBeforeCount(db: Db, date: Time)
    requires UniqueKeys(db)
    ensures |Filter(db.tasks, DueBeforeBound(date))| == |set t | t in db.tasks && DueBefore(t, date)|
  {
    FilterCardinality(db.tasks, TaskKey, DueBeforeBound(date), set t | t in db.tasks && DueBefore(t, date));
  }

  /** With unique keys, the tasks with a due date are counted once each. */
  lemma DueDateCount(db: Db)
    requires UniqueKeys(db)
    ensures |Filter(db.tasks, HasDueDate)| == |set t | t in db.tasks && t.dueDate.Some?|
  {
    FilterCardinality(db.tasks, TaskKey, HasDueDate, set t | t in db.tasks && t.dueDate.Some?);
  }

  /** The "due before" count is strict: moving the bound one minute later
      adds exactly the tasks due at the old bound. */
  lemma DueBeforeIsStrict(db: Db, date: Time)
    ensures GetTaskOverallCount(db, date + 1).dueBefore
         == GetTaskOverallCount(db, date).dueBefore
          + |Filter(db.tasks, (t: ToDoTaskDb) => t.dueDate == Some(date))|
  {
    FilterSplitCount(db.tasks, (t: ToDoTaskDb) => DueBefore(t, date + 1),
                     (t: ToDoTaskDb) => DueBefore(t, date), (t: ToDoTaskDb) => t.dueDate == Some(date));
  }

  /** The "due before" count grows with the bound. */
  lemma DueBeforeMonotonic(db: Db, d1: Time, d2: Time)
    requires d1 <= d2
    ensures GetTaskOverallCount(db, d1).dueBefore <= GetTaskOverallCount(db, d2).dueBefore
  {
    FilterWeaker(db.tasks, (t: ToDoTaskDb) => DueBefore(t, d1), (t: ToDoTaskDb) => DueBefore(t, d2));
  }

  predicate AllDue(s: seq<ToDoTaskDb>) {
    forall i :: 0 <= i < |s| ==> s[i].dueDate.Some?
  }

  predicate SortedByDue(s: seq<ToDoTaskDb>)
    requires AllDue(s)
  {
    forall i, j :: 0 <= i < j < |s| ==> s[i].dueDate.value <= s[j].dueDate.value
  }

  /** A task due no later than the head of a sorted sequence can go in front. */
  lemma SortedPrepend(x: ToDoTaskDb, s: seq<ToDoTaskDb>)
    requires x.dueDate.Some? && AllDue(s) && SortedByDue(s)
    requires |s| > 0 ==> x.dueDate.value <= s[0].dueDate.value
    ensures AllDue([x] + s) && SortedByDue([x] + s)
  {
    var r := [x] + s;
    assert forall i :: 1 <= i < |r| ==> r[i] == s[i - 1];
    forall i, j | 0 <= i < j < |r| ensures r[i].dueDate.value <= r[j].dueDate.value {
      if i > 0 {
        assert r[i] == s[i - 1] && r[j] == s[j - 1];
      } else {
        assert r[j] == s[j - 1];
        assert s[0].dueDate.value <= s[j - 1].dueDate.value;
      }
    }
  }

  /** Places `t` before the first task not due earlier than it. */
  function InsertByDueDate(t: ToDoTaskDb, s: seq<ToDoTaskDb>): (r: seq<ToDoTaskDb>)
    requires t.dueDate.Some? && AllDue(s) && SortedByDue(s)
    ensures AllDue(r) && SortedByDue(r)
    ensures multiset(r) == multiset(s) + multiset{t}
    ensures |r| == |s| + 1 && (r[0] == t || (|s| > 0 && r[0] == s[0]))
  {
    if s == [] || t.dueDate.value <= s[0].dueDate.value then
      SortedPrepend(t, s);
      [t] + s
    else
      var rest := InsertByDueDate(t, s[1..]);
      assert s == [s[0]] + s[1..];
      SortedPrepend(s[0], rest);
      [s[0]] + rest
  }

  /** Insertion sort on the due date. */
  function SortByDueDate(s: seq<ToDoTaskDb>): (r: seq<ToDoTaskDb>)
    requires AllDue(s)
    ensures AllDue(r) && SortedByDue(r)
    ensures multiset(r) == multiset(s)
  {
    if s == [] then []
    else
      assert s == [s[0]] + s[1..];
      InsertByDueDate(s[0], SortByDueDate(s[1..]))
  }

  /** The tasks that have a due date, earliest first; tasks without a due
      date are left out. */
  function GetTaskOrderByDueDate(db: Db): (r: seq<ToDoTaskDb>)
    ensures AllDue(r) && SortedByDue(r)
    ensures multiset(r) == multiset(Filter(db.tasks, HasDueDate))
    ensures forall t :: t in r <==> t in db.tasks && t.dueDate.Some?
  {
    var dated := Filter(db.tasks, HasDueDate);
    var r := SortByDueDate(dated);
    assert forall t :: t in r <==> t in multiset(dated);
    r
  }

  /** The steps of task `taskId`, in insertion order. */
  function GetStep(db: Db, taskId: Id): (r: seq<ToDoStepDb>)
    ensures forall s :: s in r <==> s in db.steps && s.taskId == taskId
  {
    Filter(db.steps, (s: ToDoStepDb) => s.taskId == taskId)
  }

  /** The tasks of list `listId`, in insertion order. */
  function TasksOfList(db: Db, listId: Id): (r: seq<ToDoTaskDb>)
    ensures forall t :: t in r <==> t in db.tasks && t.listId == listId
  {
    Filter(db.tasks, (t: ToDoTaskDb) => t.listId == listId)
  }

  /** The child queries neither repeat nor drop rows: each returns every
      stored occurrence of a matching row, once per occurrence. */
  lemma ChildQueriesExact(db: Db, groupId: Id, listId: Id, taskId: Id)
    ensures forall l :: multiset(GetListByGroupId(db, groupId))[l]
                     == if l.groupId == groupId then multiset(db.lists)[l] else 0
    ensures forall t :: multiset(TasksOfList(db, listId))[t]
                     == if t.listId == listId then multiset(db.tasks)[t] else 0
    ensures forall s :: multiset(GetStep(db, taskId))[s]
                     == if s.taskId == taskId then multiset(db.steps)[s] else 0
    ensures forall t :: multiset(GetScheduledTasks(db))[t]
                     == if IsScheduled(t) then multiset(db.tasks)[t] else 0
  {
    FilterMultiset(db.lists, (l: ToDoListDb) => l.groupId == groupId);
    FilterMultiset(db.tasks, (t: ToDoTaskDb) => t.listId == listId);
    FilterMultiset(db.steps, (s: ToDoStepDb) => s.taskId == taskId);
    FilterMultiset(db.tasks, IsScheduled);
  }

  function TaskWithStepsOf(db: Db, t: ToDoTaskDb): ToDoTaskWithSteps {
    ToDoTaskWithSteps(t, GetStep(db, t.id))
  }

  function ListWithTasksOf(db: Db, l: ToDoListDb): ToDoListWithTasks {
    ToDoListWithTasks(l, GetTaskWithStepsByListId(db, l.id))
  }

  function GroupWithListOf(db: Db, g: ToDoGroupDb): ToDoGroupWithList {
    ToDoGroupWithList(g, GetListWithTasksByGroupId(db, g.id))
  }

  /** The task column of a joined view. */
  function TasksOf(v: seq<ToDoTaskWithSteps>): seq<ToDoTaskDb> {
    Map(v, (e: ToDoTaskWithSteps) => e.task)
  }

  /** The list column of a joined view. */
  function ListsOf(v: seq<ToDoListWithTasks>): seq<ToDoListDb> {
    Map(v, (e: ToDoListWithTasks) => e.list)
  }

  /** Every entry of a task view carries exactly its own task's steps. */
  predicate StepsJoined(db: Db, v: seq<ToDoTaskWithSteps>) {
    forall i :: 0 <= i < |v| ==> v[i].steps == GetStep(db, v[i].task.id)
  }

  /** Every task with its steps. */
  function GetTaskWithSteps(db: Db): (r: seq<ToDoTaskWithSteps>)
    ensures TasksOf(r) == db.tasks
    ensures StepsJoined(db, r)
  {
    Map(db.tasks, (t: ToDoTaskDb) => TaskWithStepsOf(db, t))
  }

  /** The tasks of list `listId` with their steps, in the order of the task
      table. */
  function GetTaskWithStepsByListId(db: Db, listId: Id): (r: seq<ToDoTaskWithSteps>)
    ensures TasksOf(r) == TasksOfList(db, listId)
    ensures forall t :: t in TasksOf(r) <==> t in db.tasks && t.listId == listId
    ensures StepsJoined(db, r)
  {
    var r := Map(TasksOfList(db, listId), (t: ToDoTaskDb) => TaskWithStepsOf(db, t));
    assert TasksOf(r) == TasksOfList(db, listId);
    r
  }

  /** Every list with its tasks, in the order of the task table, and their
      steps. */
  function GetListWithTasks(db: Db): (r: seq<ToDoListWithTasks>)
    ensures ListsOf(r) == db.lists
    ensures forall i :: 0 <= i < |r| ==> TasksOf(r[i].taskWithSteps) == TasksOfList(db, r[i].list.id)
    ensures forall i :: 0 <= i < |r| ==> StepsJoined(db, r[i].taskWithSteps)
  {
    Map(db.lists, (l: ToDoListDb) => ListWithTasksOf(db, l))
  }

  /** The lists of group `groupId`, in the order of the list table, with
      their tasks and steps. */
  function GetListWithTasksByGroupId(db: Db, groupId: Id): (r: seq<ToDoListWithTasks>)
    ensures ListsOf(r) == GetListByGroupId(db, groupId)
    ensures forall l :: l in ListsOf(r) <==> l in db.lists && l.groupId == groupId
    ensures forall i :: 0 <= i < |r| ==> TasksOf(r[i].taskWithSteps) == TasksOfList(db, r[i].list.id)
    ensures forall i :: 0 <= i < |r| ==> StepsJoined(db, r[i].taskWithSteps)
  {
    var r := Map(GetListByGroupId(db, groupId), (l: ToDoListDb) => ListWithTasksOf(db, l));
    assert ListsOf(r) == GetListByGroupId(db, groupId);
    r
  }

  /** Every group with its lists, their tasks and their steps. */
  function GetGroupWithList(db: Db): (r: seq<ToDoGroupWithList>)
    ensures |r| == |db.groups|
    ensures forall i :: 0 <= i < |r| ==> r[i].group == db.groups[i]
    ensures forall i :: 0 <= i < |r| ==> ListsOf(r[i].listWithTasks) == GetListByGroupId(db, r[i].group.id)
    ensures forall i, j :: 0 <= i < |r| && 0 <= j < |r[i].listWithTasks| ==>
      TasksOf(r[i].listWithTasks[j].taskWithSteps) == TasksOfList(db, r[i].listWithTasks[j].list.id)
    ensures forall i, j :: 0 <= i < |r| && 0 <= j < |r[i].listWithTasks| ==>
      StepsJoined(db, r[i].listWithTasks[j].taskWithSteps)
  {
    Map(db.groups, (g: ToDoGroupDb) => GroupWithListOf(db, g))
  }

  /** The tasks that are not complete and have a due date. */
  function GetScheduledTasks(db: Db): (r: seq<ToDoTaskDb>)
    ensures forall t :: t in r <==> t in db.tasks && t.status != Complete && t.dueDate.Some?
  {
    Filter(db.tasks, IsScheduled)
  }
}
