/** Two of the read-side scenarios of the database tests, replayed on the
    model with the rows the tests insert, described by the fields the
    queries look at. */
module ToDoScenarios {
  import opened Seqs
  import opened ToDoEntities
  import opened ToDoReadDao

  /** Lists of two groups and two default-group lists: the default group's
      lists come first, and a group that owns no list adds nothing. */
  lemma {:induction false} UnGroupListScenario(db: Db, g1: Id, g2: Id, unknown: Id, l1: ToDoListDb, l2: ToDoListDb, l3: ToDoListDb, l4: ToDoListDb)
    requires db.lists == [l1, l2, l3, l4]
    requires l1.groupId == g1 && l2.groupId == g2 && l3.groupId == DefaultGroupId && l4.groupId == DefaultGroupId
    requires g1 != DefaultGroupId && g2 != DefaultGroupId && g1 != g2
    requires unknown != g1 && unknown != g2 && unknown != DefaultGroupId
    ensures GetListWithUnGroupList(db, g1) == [l3, l4, l1]
    ensures GetListWithUnGroupList(db, unknown) == [l3, l4]
  {
    ScenarioGroups(db, g1, g2, unknown, l1, l2, l3, l4);
    UnGroupListBlocks(db, g1);
    UnGroupListBlocks(db, unknown);
  }

  // The ungrouped view is the default block followed by the group's own.
  lemma UnGroupListBlocks(db: Db, groupId: Id)
    requires groupId != DefaultGroupId
    ensures GetListWithUnGroupList(db, groupId) == GetListByGroupId(db, DefaultGroupId) + GetListByGroupId(db, groupId)
  {
  }

  /** The three group filters on the scenario's lists. */
  lemma {:induction false} ScenarioGroups(db: Db, g1: Id, g2: Id, unknown: Id, l1: ToDoListDb, l2: ToDoListDb, l3: ToDoListDb, l4: ToDoListDb)
    requires db.lists == [l1, l2, l3, l4]
    requires l1.groupId == g1 && l2.groupId == g2 && l3.groupId == DefaultGroupId && l4.groupId == DefaultGroupId
    requires g1 != DefaultGroupId && g2 != DefaultGroupId && g1 != g2
    requires unknown != g1 && unknown != g2 && unknown != DefaultGroupId
    ensures GetListByGroupId(db, DefaultGroupId) == [l3, l4]
    ensures GetListByGroupId(db, g1) == [l1]
    ensures GetListByGroupId(db, unknown) == []
  {
    var ls := db.lists;
    var isDefault := (l: ToDoListDb) => l.groupId == DefaultGroupId;
    var isOne := (l: ToDoListDb) => l.groupId == g1;
    var isUnknown := (l: ToDoListDb) => l.groupId == unknown;
    assert ls[1..] == [l2, l3, l4] && ls[2..] == [l3, l4] && ls[3..] == [l4] && ls[4..] == [];
    assert ls[1..][1..] == ls[2..] && ls[2..][1..] == ls[3..] && ls[3..][1..] == ls[4..];
    assert Filter(ls[3..], isDefault) == [l4] && Filter(ls[3..], isOne) == [] && Filter(ls[3..], isUnknown) == [];
    assert Filter(ls[2..], isDefault) == [l3, l4] && Filter(ls[2..], isOne) == [] && Filter(ls[2..], isUnknown) == [];
    assert Filter(ls, isDefault) == [l3, l4];
    assert Filter(ls, isOne) == [l1];
    assert Filter(ls, isUnknown) == [];
  }

  // Minutes of the test's calendar: day d at hour h.
  function At(d: int, h: int): Time {
    d * 1440 + h * 60
  }

  /** Six tasks, five with a due date; three are due strictly before the
      bound and one exactly at it, which is not counted. */
  lemma {:induction false} OverallCountScenario(db: Db, t1: ToDoTaskDb, t2: ToDoTaskDb, t3: ToDoTaskDb, t4: ToDoTaskDb, t5: ToDoTaskDb, t6: ToDoTaskDb)
    requires db.tasks == [t1, t2, t3, t4, t5, t6]
    requires t1.dueDate == None && t2.dueDate == Some(At(19, 1)) && t3.dueDate == Some(At(20, 0))
    requires t4.dueDate == Some(At(21, 0)) && t5.dueDate == Some(At(18, 0)) && t6.dueDate == Some(At(17, 0))
    ensures GetTaskOverallCount(db, At(20, 0)) == ToDoTaskOverallCount(6, 3, 5)
  {
    var ts := db.tasks;
    var before := (t: ToDoTaskDb) => DueBefore(t, At(20, 0));
    assert ts[1..][1..] == ts[2..] && ts[2..][1..] == ts[3..] && ts[3..][1..] == ts[4..];
    assert ts[4..][1..] == ts[5..] && ts[5..][1..] == ts[6..] && ts[6..] == [];
    assert ts[5..] == [t6] && ts[4..] == [t5, t6] && ts[3..] == [t4, t5, t6];
    assert |Filter(ts[5..], before)| == 1 && |Filter(ts[5..], HasDueDate)| == 1;
    assert |Filter(ts[4..], before)| == 2 && |Filter(ts[4..], HasDueDate)| == 2;
    assert |Filter(ts[3..], before)| == 2 && |Filter(ts[3..], HasDueDate)| == 3;
    assert |Filter(ts[2..], before)| == 2 && |Filter(ts[2..], HasDueDate)| == 4;
    assert |Filter(ts[1..], before)| == 3 && |Filter(ts[1..], HasDueDate)| == 5;
  }
}
