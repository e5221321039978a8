/** The four tables of the local to-do database (groups, lists, tasks, steps),
    the nested views the read side returns, and the referential integrity the
    database keeps. Times are whole minutes: the queries only compare them. */
module ToDoEntities {
  import opened Seqs

  type Id = string

  /** A point in time, in minutes. */
  type Time = int

  datatype ToDoStatus = InProgress | Complete

  /** The group that holds the lists the user did not put in any group. Its
      literal value is not part of this model; nothing depends on it. */
  const DefaultGroupId: Id := "default_group"

  datatype ToDoGroupDb = ToDoGroupDb(id: Id, name: string, createdAt: Time, updatedAt: Time)

  datatype ToDoListDb = ToDoListDb(
    id: Id, name: string, color: string, groupId: Id, createdAt: Time, updatedAt: Time)

  datatype ToDoTaskDb = ToDoTaskDb(
    id: Id, name: string, listId: Id, status: ToDoStatus,
    dueDate: Option<Time>, isDueDateTimeSet: bool, completedAt: Option<Time>,
    createdAt: Time, updatedAt: Time)

  datatype ToDoStepDb = ToDoStepDb(
    id: Id, name: string, taskId: Id, status: ToDoStatus, createdAt: Time, updatedAt: Time)

  /** A snapshot of the whole database; each table in insertion order. */
  datatype Db = Db(
    groups: seq<ToDoGroupDb>, lists: seq<ToDoListDb>,
    tasks: seq<ToDoTaskDb>, steps: seq<ToDoStepDb>)

  const EmptyDb: Db := Db([], [], [], [])

  // Nested views of the read side.
  datatype ToDoTaskWithSteps = ToDoTaskWithSteps(task: ToDoTaskDb, steps: seq<ToDoStepDb>)
  datatype ToDoListWithTasks = ToDoListWithTasks(list: ToDoListDb, taskWithSteps: seq<ToDoTaskWithSteps>)
  datatype ToDoGroupWithList = ToDoGroupWithList(group: ToDoGroupDb, listWithTasks: seq<ToDoListWithTasks>)

  /** The three numbers of the overview screen. */
  datatype ToDoTaskOverallCount = ToDoTaskOverallCount(all: nat, dueBefore: nat, scheduled: nat)

  function GroupIds(db: Db): set<Id> { set g | g in db.groups :: g.id }
  function ListIds(db: Db): set<Id> { set l | l in db.lists :: l.id }
  function TaskIds(db: Db): set<Id> { set t | t in db.tasks :: t.id }

  function GroupKey(g: ToDoGroupDb): Id { g.id }
  function ListKey(l: ToDoListDb): Id { l.id }
  function TaskKey(t: ToDoTaskDb): Id { t.id }
  function StepKey(s: ToDoStepDb): Id { s.id }

  /** Primary keys are unique in every table. */
  predicate UniqueKeys(db: Db) {
    && Distinct(db.groups, GroupKey)
    && Distinct(db.lists, ListKey)
    && Distinct(db.tasks, TaskKey)
    && Distinct(db.steps, StepKey)
  }

  /** Every foreign key names an existing parent row. */
  predicate ForeignKeys(db: Db) {
    && (forall l :: l in db.lists ==> l.groupId in GroupIds(db))
    && (forall t :: t in db.tasks ==> t.listId in ListIds(db))
    && (forall s :: s in db.steps ==> s.taskId in TaskIds(db))
  }

  /** The integrity the database keeps between any two writes. */
  predicate Valid(db: Db) {
    UniqueKeys(db) && ForeignKeys(db)
  }

  /** A task is scheduled when it is not complete and has a due date. */
  predicate IsScheduled(t: ToDoTaskDb) {
    t.status != Complete && t.dueDate.Some?
  }
}
