/** What the board edits promise across calls: the id invariants they keep
    when the id oracle gives a fresh id, the moves as permutations with
    their inverses, the idempotent edits, and the order of the activity
    log. */
module BoardLaws {
  import opened Documents
  import opened JsArray
  import opened Boards

  /** Every group's task ids are unique within the group. */
  ghost predicate TaskIdsUniquePerGroup(gs: seq<Group>)
  {
    forall i :: 0 <= i < |gs| ==> UniqueTaskIds(gs[i].tasks)
  }

  /** Replacing one group changes the task count by the difference in that
      group's size. */
  lemma {:induction false} TaskCountUpdate(gs: seq<Group>, i: nat, g: Group)
    requires i < |gs|
    ensures TaskCount(gs[i := g]) + |gs[i].tasks| == TaskCount(gs) + |g.tasks|
  {
    if i > 0 {
      assert gs[i := g][1..] == gs[1..][i - 1 := g];
      TaskCountUpdate(gs[1..], i - 1, g);
    }
  }

  /** Groups of the same sizes hold the same number of tasks. */
  lemma {:induction false} TaskCountSameSizes(gs: seq<Group>, hs: seq<Group>)
    requires |gs| == |hs|
    requires forall i :: 0 <= i < |gs| ==> |gs[i].tasks| == |hs[i].tasks|
    ensures TaskCount(gs) == TaskCount(hs)
  {
    if |gs| > 0 {
      TaskCountSameSizes(gs[1..], hs[1..]);
    }
  }

  // ---------------------------------------------------------------------
  // addGroup, addTask

  /** With a fresh id from the oracle, addGroup keeps group ids unique, and
      the new group is the one a lookup by its id finds. */
  lemma AddGroupKeepsIdsUnique(b: Board, draft: GroupProps, newId: Id)
    requires UniqueGroupIds(b.groups) && !HasGroup(b.groups, newId)
    ensures UniqueGroupIds(AddGroup(b, draft, newId).groups)
    ensures FirstGroup(AddGroup(b, draft, newId).groups, newId) == |b.groups|
  {
    var r := AddGroup(b, draft, newId);
    FindIndexIs(r.groups, GroupIdIs(newId), |b.groups|);
  }

  /** With a fresh id from the oracle, addTask keeps task ids unique in
      every group, and the new task is the last of its group. */
  lemma AddTaskKeepsIdsUnique(b: Board, groupId: Id, draft: TaskProps, newId: Id)
    requires TaskIdsUniquePerGroup(b.groups) && !TaskOnBoard(b.groups, newId)
    requires HasGroup(b.groups, groupId)
    ensures AddTask(b, groupId, draft, newId).Ok?
    ensures TaskIdsUniquePerGroup(AddTask(b, groupId, draft, newId).value.groups)
    ensures TaskOnBoard(AddTask(b, groupId, draft, newId).value.groups, newId)
  {
    var r := AddTask(b, groupId, draft, newId).value;
    var i := FirstGroup(b.groups, groupId);
    var ts := r.groups[i].tasks;
    assert ts[|ts| - 1].id == newId;
    forall k | 0 <= k < |ts| - 1
      ensures ts[k].id != newId
    {
      assert ts[k] == b.groups[i].tasks[k];
    }
  }

  // ---------------------------------------------------------------------
  // moveTask

  /** moveTask between two different groups: the source loses every task
      with the id, the destination gains the first one found at its end,
      and every other group is as it was. */
  lemma MoveTaskBetweenGroups(b: Board, fromId: Id, taskId: Id, toId: Id)
    requires MoveTask(b, fromId, taskId, toId).Ok?
    requires FirstGroup(b.groups, fromId) != FirstGroup(b.groups, toId)
    ensures
      var r := MoveTask(b, fromId, taskId, toId).value;
      var fi := FirstGroup(b.groups, fromId);
      var di := FirstGroup(b.groups, toId);
      && 0 <= fi < |b.groups| && 0 <= di < |b.groups|
      && var j := FirstTask(b.groups[fi].tasks, taskId);
         && 0 <= j < |b.groups[fi].tasks|
         && b.groups[fi].tasks[j].id == taskId
         && !HasTask(r.groups[fi].tasks, taskId)
         && r.groups[fi].tasks == Filter(b.groups[fi].tasks, TaskIdIsNot(taskId))
         && r.groups[di].tasks == b.groups[di].tasks + [b.groups[fi].tasks[j]]
         && r.groups[fi].fields == b.groups[fi].fields
         && r.groups[di].fields == b.groups[di].fields
         && forall k :: 0 <= k < |b.groups| && k != fi && k != di ==> r.groups[k] == b.groups[k]
  {
  }

  /** moveTask within one group (ids unique in it): the task goes to the
      end, the others keep their order, and the group holds the same
      tasks. */
  lemma MoveTaskWithinGroup(b: Board, groupId: Id, taskId: Id)
    requires MoveTask(b, groupId, taskId, groupId).Ok?
    requires UniqueTaskIds(b.groups[FirstGroup(b.groups, groupId)].tasks)
    ensures
      var r := MoveTask(b, groupId, taskId, groupId).value;
      var i := FirstGroup(b.groups, groupId);
      var ts := b.groups[i].tasks;
      var j := FirstTask(ts, taskId);
      && 0 <= j < |ts|
      && r.groups[i].tasks == RemoveAt(ts, j) + [ts[j]]
      && multiset(r.groups[i].tasks) == multiset(ts)
      && forall k :: 0 <= k < |b.groups| && k != i ==> r.groups[k] == b.groups[k]
  {
    var i := FirstGroup(b.groups, groupId);
    var ts := b.groups[i].tasks;
    var j := FirstTask(ts, taskId);
    FilterDropsOne(ts, TaskIdIsNot(taskId), j);
  }

  /** moveTask neither loses nor duplicates a task when ids are unique in
      the source group. */
  lemma MoveTaskKeepsTaskCount(b: Board, fromId: Id, taskId: Id, toId: Id)
    requires MoveTask(b, fromId, taskId, toId).Ok?
    requires UniqueTaskIds(b.groups[FirstGroup(b.groups, fromId)].tasks)
    ensures TaskCount(MoveTask(b, fromId, taskId, toId).value.groups) == TaskCount(b.groups)
  {
    var fi := FirstGroup(b.groups, fromId);
    var from := b.groups[fi];
    var j := FirstTask(from.tasks, taskId);
    var kept := Filter(from.tasks, TaskIdIsNot(taskId));
    FilterDropsOne(from.tasks, TaskIdIsNot(taskId), j);
    var di := FirstGroup(b.groups, toId);
    RelocateOneKeepsCount(b.groups, fi, di, kept, from.tasks[j]);
  }

  /** Replacing one group's tasks by one fewer and then appending one task
      to a group keeps the total. */
  lemma RelocateOneKeepsCount(gs: seq<Group>, fi: nat, di: nat, kept: seq<Task>, t: Task)
    requires fi < |gs| && di < |gs| && |kept| + 1 == |gs[fi].tasks|
    ensures
      var groups := gs[fi := gs[fi].(tasks := kept)];
      TaskCount(groups[di := groups[di].(tasks := groups[di].tasks + [t])]) == TaskCount(gs)
  {
    var groups := gs[fi := gs[fi].(tasks := kept)];
    TaskCountUpdate(gs, fi, gs[fi].(tasks := kept));
    TaskCountUpdate(groups, di, groups[di].(tasks := groups[di].tasks + [t]));
  }

  // ---------------------------------------------------------------------
  // saveTask

  /** Saving a task a second time changes nothing: the first save leaves
      the task where the second one finds it. */
  lemma UpsertTwice(ts: seq<Task>, task: Task)
    ensures Upsert(Upsert(ts, task), task) == Upsert(ts, task)
  {
    var r := Upsert(ts, task);
    if HasTask(ts, task.id) {
      var j := FirstTask(ts, task.id);
      FindIndexIs(r, TaskIdIs(task.id), j);
    } else {
      FindIndexIs(r, TaskIdIs(task.id), |ts|);
    }
  }

  /** saveTask without an activity is idempotent. */
  lemma SaveTaskIdempotent(b: Board, groupId: Id, task: Task)
    requires SaveTask(b, groupId, task, None).Ok?
    ensures SaveTask(SaveTask(b, groupId, task, None).value, groupId, task, None) == SaveTask(b, groupId, task, None)
  {
    var r := SaveTask(b, groupId, task, None).value;
    var i := FirstGroup(b.groups, groupId);
    FindIndexSameVerdicts(b.groups, r.groups, GroupIdIs(groupId));
    UpsertTwice(b.groups[i].tasks, task);
    assert r.groups[i := r.groups[i].(tasks := Upsert(r.groups[i].tasks, task))] == r.groups;
  }

  /** saveTask keeps task ids unique, and afterwards the group holds the
      saved task exactly once. */
  lemma UpsertKeepsIdsUnique(ts: seq<Task>, task: Task)
    requires UniqueTaskIds(ts)
    ensures UniqueTaskIds(Upsert(ts, task))
    ensures forall k :: 0 <= k < |Upsert(ts, task)| && Upsert(ts, task)[k].id == task.id ==> Upsert(ts, task)[k] == task
  {
  }

  // ---------------------------------------------------------------------
  // addActivity

  /** addActivity applied to each activity in turn. */
  function AddActivities(b: Board, acts: seq<Activity>): Result<Board>
    decreases |acts|
  {
    if |acts| == 0 then Ok(b)
    else
      match AddActivity(b, acts[0])
      case Err(e) => Err(e)
      case Ok(b1) => AddActivities(b1, acts[1..])
  }

  function Reversed<T>(s: seq<T>): (r: seq<T>)
    ensures |r| == |s|
  {
    if |s| == 0 then [] else Reversed(s[1..]) + [s[0]]
  }

  lemma {:induction false} ReversedAt<T>(s: seq<T>, k: nat)
    requires k < |s|
    ensures Reversed(s)[k] == s[|s| - 1 - k]
  {
    if k < |s| - 1 {
      ReversedAt(s[1..], k);
    }
  }

  /** After consecutive addActivity calls the log reads newest first: the
      new entries in reverse order of arrival, then the old log. */
  lemma {:induction false} AddActivitiesNewestFirst(b: Board, acts: seq<Activity>)
    requires b.activities.Some?
    ensures AddActivities(b, acts).Ok?
    ensures AddActivities(b, acts).value.activities == Some(Reversed(acts) + b.activities.value)
    ensures SameDocument(b, AddActivities(b, acts).value) && AddActivities(b, acts).value.groups == b.groups
    decreases |acts|
  {
    if |acts| > 0 {
      var b1 := AddActivity(b, acts[0]).value;
      AddActivitiesNewestFirst(b1, acts[1..]);
      assert b1.activities.value == [acts[0]] + b.activities.value;
      assert Reversed(acts) == Reversed(acts[1..]) + [acts[0]];
      assert Reversed(acts[1..]) + b1.activities.value == Reversed(acts) + b.activities.value;
      assert AddActivities(b, acts) == AddActivities(b1, acts[1..]);
    } else {
      assert Reversed(acts) + b.activities.value == b.activities.value;
    }
  }

  /** Of N consecutive addActivity calls, the most recent is first in the
      log and the earliest is N-th. */
  lemma AddActivitiesEnds(b: Board, acts: seq<Activity>)
    requires b.activities.Some? && |acts| > 0
    ensures AddActivities(b, acts).Ok? && AddActivities(b, acts).value.activities.Some?
    ensures var log := AddActivities(b, acts).value.activities.value;
      |log| == |acts| + |b.activities.value| &&
      log[0] == acts[|acts| - 1] && log[|acts| - 1] == acts[0]
  {
    AddActivitiesNewestFirst(b, acts);
    ReversedAt(acts, 0);
    ReversedAt(acts, |acts| - 1);
  }

  // ---------------------------------------------------------------------
  // group-update, group-delete

  /** Merging the same updates twice is merging them once. */
  lemma MergeGroupIdempotent(g: Group, p: GroupProps)
    ensures MergeGroup(MergeGroup(g, p), p) == MergeGroup(g, p)
  {
  }

  /** group-update with updates that carry no id is idempotent. */
  lemma UpdateGroupIdempotent(b: Board, groupId: Id, updates: GroupProps)
    requires updates.id.None? && UpdateGroup(b, groupId, updates).Ok?
    ensures UpdateGroup(UpdateGroup(b, groupId, updates).value, groupId, updates) == UpdateGroup(b, groupId, updates)
  {
    var r := UpdateGroup(b, groupId, updates).value;
    var i := FirstGroup(b.groups, groupId);
    FindIndexSameVerdicts(b.groups, r.groups, GroupIdIs(groupId));
    MergeGroupIdempotent(b.groups[i], updates);
    assert r.groups[i := MergeGroup(r.groups[i], updates)] == r.groups;
  }

  /** group-delete of an id no group has leaves the groups as they are. */
  lemma DeleteAbsentGroup(b: Board, groupId: Id)
    requires !HasGroup(b.groups, groupId)
    ensures DeleteGroup(b, groupId) == b
  {
    FilterKeepsAll(b.groups, GroupIdIsNot(groupId));
  }

  /** group-delete is idempotent. */
  lemma DeleteGroupIdempotent(b: Board, groupId: Id)
    ensures DeleteGroup(DeleteGroup(b, groupId), groupId) == DeleteGroup(b, groupId)
  {
    DeleteAbsentGroup(DeleteGroup(b, groupId), groupId);
  }

  /** With unique group ids, group-delete is splicing the group out at its
      index: the others keep their order. */
  lemma DeleteUniqueGroup(b: Board, groupId: Id)
    requires UniqueGroupIds(b.groups) && HasGroup(b.groups, groupId)
    ensures
      var i := FirstGroup(b.groups, groupId);
      0 <= i < |b.groups| && DeleteGroup(b, groupId).groups == RemoveAt(b.groups, i)
  {
    var i := FirstGroup(b.groups, groupId);
    FilterDropsOne(b.groups, GroupIdIsNot(groupId), i);
  }

  // ---------------------------------------------------------------------
  // group-move

  /** With both indices in range, group-move is "remove at the source,
      insert at the target": the moved group lands at the target index. */
  lemma MoveGroupInRange(b: Board, sourceIndex: int, targetIndex: int)
    requires 0 <= sourceIndex < |b.groups| && 0 <= targetIndex < |b.groups|
    ensures MoveGroup(b, sourceIndex, targetIndex).Ok?
    ensures
      var gs := MoveGroup(b, sourceIndex, targetIndex).value.groups;
      && gs == InsertAt(RemoveAt(b.groups, sourceIndex), targetIndex, b.groups[sourceIndex])
      && |gs| == |b.groups| && gs[targetIndex] == b.groups[sourceIndex]
  {
  }

  /** For any indices the move accepts, negative ones counted from the end
      as splice does: the group from the source position sits at the
      target position, and taking it out again leaves the other groups in
      their old order. */
  lemma MoveGroupLands(b: Board, sourceIndex: int, targetIndex: int)
    requires MoveGroup(b, sourceIndex, targetIndex).Ok?
    ensures
      var gs := MoveGroup(b, sourceIndex, targetIndex).value.groups;
      var s := SpliceStart(sourceIndex, |b.groups|);
      var t := SpliceStart(targetIndex, |b.groups| - 1);
      && |gs| == |b.groups| && t < |gs|
      && gs[t] == b.groups[s]
      && RemoveAt(gs, t) == RemoveAt(b.groups, s)
  {
    var s := SpliceStart(sourceIndex, |b.groups|);
    var rest := RemoveAt(b.groups, s);
    var t := SpliceStart(targetIndex, |rest|);
    assert MoveGroup(b, sourceIndex, targetIndex).value.groups == InsertAt(rest, t, b.groups[s]);
    RemoveInserted(rest, t, b.groups[s]);
  }

  /** [G1, G2, G3] with source 1 and target 0 becomes [G2, G1, G3]. */
  lemma MoveGroupExample(b: Board, g1: Group, g2: Group, g3: Group)
    requires b.groups == [g1, g2, g3]
    ensures MoveGroup(b, 1, 0) == Ok(b.(groups := [g2, g1, g3]))
  {
    MoveGroupInRange(b, 1, 0);
    SecondToFront(b.groups);
  }

  /** Taking the middle of three out and putting it first. */
  lemma SecondToFront<T>(s: seq<T>)
    requires |s| == 3
    ensures InsertAt(RemoveAt(s, 1), 0, s[1]) == [s[1], s[0], s[2]]
  {
    var rest := RemoveAt(s, 1);
    assert rest[0] == s[0] && rest[1] == s[2];
    var r := InsertAt(rest, 0, s[1]);
    assert r[0] == s[1] && r[1] == s[0] && r[2] == s[2];
  }

  /** Moving the group back from the target to the source undoes the
      move. */
  lemma MoveGroupRoundTrip(b: Board, sourceIndex: int, targetIndex: int)
    requires 0 <= sourceIndex < |b.groups| && 0 <= targetIndex < |b.groups|
    ensures MoveGroup(b, sourceIndex, targetIndex).Ok?
    ensures MoveGroup(MoveGroup(b, sourceIndex, targetIndex).value, targetIndex, sourceIndex) == Ok(b)
  {
    var gs := b.groups;
    var x := gs[sourceIndex];
    var rest := RemoveAt(gs, sourceIndex);
    var moved := InsertAt(rest, targetIndex, x);
    MoveGroupInRange(b, sourceIndex, targetIndex);
    MoveGroupInRange(b.(groups := moved), targetIndex, sourceIndex);
    RemoveInserted(rest, targetIndex, x);
    InsertRemoved(gs, sourceIndex);
  }

  /** A source index of -1 names the last group, as splice counts negative
      positions from the end. */
  lemma MoveGroupFromEnd(b: Board, targetIndex: int)
    requires |b.groups| > 0
    ensures MoveGroup(b, -1, targetIndex) == MoveGroup(b, |b.groups| - 1, targetIndex)
  {
  }

  // ---------------------------------------------------------------------
  // task-update, task-delete

  /** task-update never adds or removes a task. */
  lemma UpdateTaskKeepsTaskCount(b: Board, taskId: Id, updates: TaskProps)
    requires UpdateTask(b, taskId, updates).Ok?
    ensures TaskCount(UpdateTask(b, taskId, updates).value.groups) == TaskCount(b.groups)
  {
    TaskCountSameSizes(UpdateTask(b, taskId, updates).value.groups, b.groups);
  }

  /** task-update leaves every task with another id as it was. */
  lemma UpdateTaskLeavesOtherTasks(b: Board, taskId: Id, updates: TaskProps, i: nat, k: nat)
    requires UpdateTask(b, taskId, updates).Ok?
    requires i < |b.groups| && k < |b.groups[i].tasks| && b.groups[i].tasks[k].id != taskId
    ensures UpdateTask(b, taskId, updates).value.groups[i].tasks[k] == b.groups[i].tasks[k]
  {
  }

  /** With unique task ids in the group, deleting a task it holds removes
      exactly that task and keeps the order of the others. */
  lemma DeleteUniqueTask(b: Board, groupId: Id, taskId: Id)
    requires HasGroup(b.groups, groupId)
    requires UniqueTaskIds(b.groups[FirstGroup(b.groups, groupId)].tasks)
    requires HasTask(b.groups[FirstGroup(b.groups, groupId)].tasks, taskId)
    ensures
      var i := FirstGroup(b.groups, groupId);
      var ts := b.groups[i].tasks;
      && 0 <= FirstTask(ts, taskId) < |ts|
      && DeleteTask(b, groupId, taskId).value.groups[i].tasks == RemoveAt(ts, FirstTask(ts, taskId))
  {
    var i := FirstGroup(b.groups, groupId);
    var ts := b.groups[i].tasks;
    FilterDropsOne(ts, TaskIdIsNot(taskId), FirstTask(ts, taskId));
  }

  /** task-delete of a task the group does not hold saves the board as it
      was loaded. */
  lemma DeleteAbsentTask(b: Board, groupId: Id, taskId: Id)
    requires HasGroup(b.groups, groupId)
    requires !HasTask(b.groups[FirstGroup(b.groups, groupId)].tasks, taskId)
    ensures DeleteTask(b, groupId, taskId) == Ok(b)
  {
    var i := FirstGroup(b.groups, groupId);
    var g := b.groups[i];
    FilterKeepsAll(g.tasks, TaskIdIsNot(taskId));
    assert b.groups[i := g] == b.groups;
  }
}
