/** Board documents and the in-memory edit each board operation performs
    between loading the board and saving it: the service functions of
    services/board.service.js (addGroup, addTask, moveTask, saveTask,
    addActivity) and the inline edits of the socket handlers in
    services/socket.service.js (group-update, group-delete, group-move,
    task-update, task-delete, activity-add). Every edit is a function from
    the loaded board to the board that is then saved. */
module Boards {
  import opened Documents
  import opened JsArray

  type Id = string

  /** A task: its id and every other property (title, status, ...). */
  datatype Task = Task(id: Id, fields: Fields)

  /** A group, one column of the board: its id, its ordered tasks and its
      other properties. */
  datatype Group = Group(id: Id, tasks: seq<Task>, fields: Fields)

  /** An activity-log entry is a plain object. */
  type Activity = Fields

  /** A board document. `id` is `_id`, absent on a board that was never
      inserted; `activities` may be missing from a stored document; `fields`
      holds every other top-level property (title, members, createdBy,
      createdAt, ...). */
  datatype Board = Board(id: Option<Id>, groups: seq<Group>, activities: Option<seq<Activity>>, fields: Fields)

  /** The properties a client sends for a task; `id` is present only when the
      payload carries one. */
  datatype TaskProps = TaskProps(id: Option<Id>, fields: Fields)

  /** The properties a client sends for a group. */
  datatype GroupProps = GroupProps(id: Option<Id>, tasks: Option<seq<Task>>, fields: Fields)

  // The callbacks the source hands to find, findIndex and filter.
  function GroupIdIs(id: Id): Group -> bool { (g: Group) => g.id == id }
  function GroupIdIsNot(id: Id): Group -> bool { (g: Group) => g.id != id }
  function TaskIdIs(id: Id): Task -> bool { (t: Task) => t.id == id }
  function TaskIdIsNot(id: Id): Task -> bool { (t: Task) => t.id != id }

  /** `groups.findIndex(g => g.id === id)` (and the index `find` returns from). */
  function FirstGroup(gs: seq<Group>, id: Id): int
  {
    FindIndex(gs, GroupIdIs(id))
  }

  /** `tasks.findIndex(t => t.id === id)`. */
  function FirstTask(ts: seq<Task>, id: Id): (i: int)
    ensures -1 <= i < |ts|
    ensures i == -1 <==> !HasTask(ts, id)
  {
    FindIndex(ts, TaskIdIs(id))
  }

  predicate HasGroup(gs: seq<Group>, id: Id)
  {
    exists i :: 0 <= i < |gs| && gs[i].id == id
  }

  predicate HasTask(ts: seq<Task>, id: Id)
  {
    exists j :: 0 <= j < |ts| && ts[j].id == id
  }

  ghost predicate UniqueGroupIds(gs: seq<Group>)
  {
    forall i, j :: 0 <= i < j < |gs| ==> gs[i].id != gs[j].id
  }

  ghost predicate UniqueTaskIds(ts: seq<Task>)
  {
    forall i, j :: 0 <= i < j < |ts| ==> ts[i].id != ts[j].id
  }

  /** The groups keep their ids and their order. */
  ghost predicate SameGroupIds(gs: seq<Group>, hs: seq<Group>)
  {
    |gs| == |hs| && forall i :: 0 <= i < |gs| ==> gs[i].id == hs[i].id
  }

  /** An edit leaves `_id` and every top-level property other than groups
      and activities alone. */
  predicate SameDocument(b: Board, r: Board)
  {
    r.id == b.id && r.fields == b.fields
  }

  /** The number of tasks on the board. */
  function TaskCount(gs: seq<Group>): nat
  {
    if |gs| == 0 then 0 else |gs[0].tasks| + TaskCount(gs[1..])
  }

  // ---------------------------------------------------------------------
  // services/board.service.js

  /** addGroup: the draft is given the fresh id and an empty task list, over
      whatever id or tasks the client put in it, and is pushed last. */
  function AddGroup(b: Board, draft: GroupProps, newId: Id): (r: Board)
    ensures SameDocument(b, r) && r.activities == b.activities
    ensures |r.groups| == |b.groups| + 1 && r.groups[..|b.groups|] == b.groups
    ensures r.groups[|b.groups|] == Group(newId, [], draft.fields)
  {
    b.(groups := b.groups + [Group(newId, [], draft.fields)])
  }

  /** addTask: the draft, given the fresh id, is pushed onto the first group
      with the id; without such a group the source dereferences undefined. */
  function AddTask(b: Board, groupId: Id, draft: TaskProps, newId: Id): (r: Result<Board>)
    ensures r.Ok? <==> HasGroup(b.groups, groupId)
    ensures r.Err? ==> r.error == GroupNotFound
    ensures r.Ok? ==>
      && SameDocument(b, r.value) && r.value.activities == b.activities
      && |r.value.groups| == |b.groups|
      && var i := FirstGroup(b.groups, groupId);
         && 0 <= i < |b.groups|
         && r.value.groups[i] == b.groups[i].(tasks := b.groups[i].tasks + [Task(newId, draft.fields)])
         && forall k :: 0 <= k < |b.groups| && k != i ==> r.value.groups[k] == b.groups[k]
  {
    var i := FirstGroup(b.groups, groupId);
    if i < 0 then Err(GroupNotFound)
    else
      var g := b.groups[i];
      Ok(b.(groups := b.groups[i := g.(tasks := g.tasks + [Task(newId, draft.fields)])]))
  }

  /** moveTask: every task with the id is filtered out of the first group
      with `fromId`, and the first such task is pushed onto the first group
      with `toId` (the two may be the same group). The source pushes
      `undefined` when the task is not in the source group; here that is
      TaskNotFound (see BoardFindings). */
  function MoveTask(b: Board, fromId: Id, taskId: Id, toId: Id): (r: Result<Board>)
    ensures r.Ok? <==>
      HasGroup(b.groups, fromId) && HasGroup(b.groups, toId) &&
      HasTask(b.groups[FirstGroup(b.groups, fromId)].tasks, taskId)
    ensures r.Err? ==>
      (r.error == GroupNotFound <==> !HasGroup(b.groups, fromId) || !HasGroup(b.groups, toId))
    ensures r.Err? ==> r.error == GroupNotFound || r.error == TaskNotFound
    ensures r.Ok? ==>
      SameDocument(b, r.value) && r.value.activities == b.activities &&
      SameGroupIds(b.groups, r.value.groups)
  {
    var fi := FirstGroup(b.groups, fromId);
    if fi < 0 then Err(GroupNotFound)
    else
      var from := b.groups[fi];
      var ti := FirstTask(from.tasks, taskId);
      var groups := b.groups[fi := from.(tasks := Filter(from.tasks, TaskIdIsNot(taskId)))];
      var di := FirstGroup(b.groups, toId);
      if di < 0 then Err(GroupNotFound)
      else if ti < 0 then Err(TaskNotFound)
      else Ok(b.(groups := groups[di := groups[di].(tasks := groups[di].tasks + [from.tasks[ti]])]))
  }

  /** saveTask: the first task with the same id is replaced whole, at its
      index; otherwise the task is pushed. A given activity is then unshifted
      onto the activities, which must exist. */
  function SaveTask(b: Board, groupId: Id, task: Task, activity: Option<Activity>): (r: Result<Board>)
    ensures r.Ok? <==> HasGroup(b.groups, groupId) && (activity.Some? ==> b.activities.Some?)
    ensures r.Err? ==> r.error == (if HasGroup(b.groups, groupId) then ActivitiesMissing else GroupNotFound)
    ensures r.Ok? ==>
      && SameDocument(b, r.value) && SameGroupIds(b.groups, r.value.groups)
      && r.value.activities == (if activity.Some? then Some([activity.value] + b.activities.value) else b.activities)
      && var i := FirstGroup(b.groups, groupId);
         && 0 <= i < |b.groups|
         && r.value.groups[i].fields == b.groups[i].fields
         && r.value.groups[i].tasks == Upsert(b.groups[i].tasks, task)
         && forall k :: 0 <= k < |b.groups| && k != i ==> r.value.groups[k] == b.groups[k]
  {
    var gi := FirstGroup(b.groups, groupId);
    if gi < 0 then Err(GroupNotFound)
    else
      var g := b.groups[gi];
      var b1 := b.(groups := b.groups[gi := g.(tasks := Upsert(g.tasks, task))]);
      if activity.None? then Ok(b1)
      else if b1.activities.None? then Err(ActivitiesMissing)
      else Ok(b1.(activities := Some([activity.value] + b1.activities.value)))
  }

  /** The task list saveTask leaves: the first task with the id replaced at
      its index, or the task appended. */
  function Upsert(ts: seq<Task>, task: Task): (r: seq<Task>)
    ensures HasTask(ts, task.id) ==> |r| == |ts| && r[FirstTask(ts, task.id)] == task
    ensures !HasTask(ts, task.id) ==> r == ts + [task]
    ensures forall k :: 0 <= k < |ts| && ts[k].id != task.id ==> r[k] == ts[k]
    ensures HasTask(ts, task.id) ==> forall k :: 0 <= k < |ts| && k != FirstTask(ts, task.id) ==> r[k] == ts[k]
    ensures HasTask(r, task.id)
  {
    var ti := FirstTask(ts, task.id);
    if ti != -1 then ts[ti := task]
    else
      var r := ts + [task];
      assert r[|ts|].id == task.id;
      r
  }

  /** addActivity: the activity is unshifted; a board without activities
      makes `unshift` throw. */
  function AddActivity(b: Board, activity: Activity): (r: Result<Board>)
    ensures r.Ok? <==> b.activities.Some?
    ensures r.Err? ==> r.error == ActivitiesMissing
    ensures r.Ok? ==>
      SameDocument(b, r.value) && r.value.groups == b.groups &&
      r.value.activities.Some? && |r.value.activities.value| == |b.activities.value| + 1 &&
      r.value.activities.value[0] == activity && r.value.activities.value[1..] == b.activities.value
  {
    if b.activities.None? then Err(ActivitiesMissing)
    else Ok(b.(activities := Some([activity] + b.activities.value)))
  }

  // ---------------------------------------------------------------------
  // services/socket.service.js

  /** `{ ...g, ...p }`: properties the client supplied overwrite, the rest
      are kept; a supplied `id` or `tasks` overwrites those too. */
  function MergeGroup(g: Group, p: GroupProps): (r: Group)
    ensures r.id == (if p.id.Some? then p.id.value else g.id)
    ensures r.tasks == (if p.tasks.Some? then p.tasks.value else g.tasks)
    ensures r.fields.Keys == g.fields.Keys + p.fields.Keys
    ensures forall k :: k in p.fields ==> r.fields[k] == p.fields[k]
    ensures forall k :: k in g.fields && k !in p.fields ==> r.fields[k] == g.fields[k]
  {
    Group(if p.id.Some? then p.id.value else g.id,
          if p.tasks.Some? then p.tasks.value else g.tasks,
          g.fields + p.fields)
  }

  /** `{ ...t, ...p }` for a task. */
  function MergeTask(t: Task, p: TaskProps): (r: Task)
    ensures r.id == (if p.id.Some? then p.id.value else t.id)
    ensures r.fields.Keys == t.fields.Keys + p.fields.Keys
    ensures forall k :: k in p.fields ==> r.fields[k] == p.fields[k]
    ensures forall k :: k in t.fields && k !in p.fields ==> r.fields[k] == t.fields[k]
  {
    Task(if p.id.Some? then p.id.value else t.id, t.fields + p.fields)
  }

  /** group-update: the first group with the id is replaced by its merge with
      the updates; a missing group throws before anything is saved. */
  function UpdateGroup(b: Board, groupId: Id, updates: GroupProps): (r: Result<Board>)
    ensures r.Ok? <==> HasGroup(b.groups, groupId)
    ensures r.Err? ==> r.error == GroupNotFound
    ensures r.Ok? ==>
      && SameDocument(b, r.value) && r.value.activities == b.activities
      && |r.value.groups| == |b.groups|
      && var i := FirstGroup(b.groups, groupId);
         && 0 <= i < |b.groups|
         && r.value.groups[i] == MergeGroup(b.groups[i], updates)
         && forall k :: 0 <= k < |b.groups| && k != i ==> r.value.groups[k] == b.groups[k]
  {
    var i := FirstGroup(b.groups, groupId);
    if i == -1 then Err(GroupNotFound)
    else Ok(b.(groups := b.groups[i := MergeGroup(b.groups[i], updates)]))
  }

  /** group-delete: every group with the id is filtered out. */
  function DeleteGroup(b: Board, groupId: Id): (r: Board)
    ensures SameDocument(b, r) && r.activities == b.activities
    ensures !HasGroup(r.groups, groupId)
    ensures forall g :: g in r.groups ==> g in b.groups
    ensures forall k :: 0 <= k < |b.groups| && b.groups[k].id != groupId ==> b.groups[k] in r.groups
  {
    b.(groups := Filter(b.groups, GroupIdIsNot(groupId)))
  }

  /** group-move: `splice(sourceIndex, 1)` takes the group out and
      `splice(targetIndex, 0, moved)` puts it back, both with splice's
      treatment of negative and too-large positions. When the first splice
      removes nothing the source inserts `undefined`; here that is
      IndexOutOfRange (see BoardFindings). The payload's groupId plays no
      part in the edit. */
  function MoveGroup(b: Board, sourceIndex: int, targetIndex: int): (r: Result<Board>)
    ensures r.Ok? <==> SpliceStart(sourceIndex, |b.groups|) < |b.groups|
    ensures r.Err? ==> r.error == IndexOutOfRange
    ensures r.Ok? ==>
      SameDocument(b, r.value) && r.value.activities == b.activities &&
      multiset(r.value.groups) == multiset(b.groups)
  {
    var s := SpliceStart(sourceIndex, |b.groups|);
    if s >= |b.groups| then Err(IndexOutOfRange)
    else
      var rest := RemoveAt(b.groups, s);
      var moved := b.groups[s];
      var t := SpliceStart(targetIndex, |rest|);
      MovePermutes(b.groups, s, t);
      Ok(b.(groups := InsertAt(rest, t, moved)))
  }

  /** Taking an element out and putting it back elsewhere permutes. */
  lemma MovePermutes<T>(s: seq<T>, i: nat, j: nat)
    requires i < |s| && j < |s|
    ensures multiset(InsertAt(RemoveAt(s, i), j, s[i])) == multiset(s)
  {
    var rest := RemoveAt(s, i);
    calc {
      multiset(s);
      { assert s == s[..i] + [s[i]] + s[i + 1..]; }
      multiset(s[..i]) + multiset{s[i]} + multiset(s[i + 1..]);
      multiset(rest) + multiset{s[i]};
      { assert rest == rest[..j] + rest[j..]; }
      multiset(rest[..j]) + multiset{s[i]} + multiset(rest[j..]);
      multiset(InsertAt(rest, j, s[i]));
    }
  }

  /** task-update, one group: the first task with the id is merged with the
      updates. */
  function UpdateFirstTask(g: Group, taskId: Id, updates: TaskProps): (r: Group)
    ensures r.id == g.id && r.fields == g.fields && |r.tasks| == |g.tasks|
    ensures !HasTask(g.tasks, taskId) ==> r == g
    ensures HasTask(g.tasks, taskId) ==>
      var j := FirstTask(g.tasks, taskId);
      0 <= j < |g.tasks| && r.tasks[j] == MergeTask(g.tasks[j], updates) &&
      forall k :: 0 <= k < |g.tasks| && k != j ==> r.tasks[k] == g.tasks[k]
  {
    var j := FirstTask(g.tasks, taskId);
    if j == -1 then g
    else g.(tasks := g.tasks[j := MergeTask(g.tasks[j], updates)])
  }

  /** task-update, the whole board: every group's first task with the id is
      merged (the forEach of the handler). */
  function UpdateTaskInGroups(gs: seq<Group>, taskId: Id, updates: TaskProps): (r: seq<Group>)
    ensures |r| == |gs|
  {
    seq(|gs|, i requires 0 <= i < |gs| => UpdateFirstTask(gs[i], taskId, updates))
  }

  /** Some group holds a task with the id. */
  predicate TaskOnBoard(gs: seq<Group>, taskId: Id)
  {
    exists i :: 0 <= i < |gs| && HasTask(gs[i].tasks, taskId)
  }

  /** task-update: when no group holds the task the handler throws and saves
      nothing. */
  function UpdateTask(b: Board, taskId: Id, updates: TaskProps): (r: Result<Board>)
    ensures r.Ok? <==> TaskOnBoard(b.groups, taskId)
    ensures r.Err? ==> r.error == TaskNotFound
    ensures r.Ok? ==>
      SameDocument(b, r.value) && r.value.activities == b.activities &&
      SameGroupIds(b.groups, r.value.groups) &&
      forall i :: 0 <= i < |b.groups| ==> r.value.groups[i] == UpdateFirstTask(b.groups[i], taskId, updates)
  {
    if TaskOnBoard(b.groups, taskId) then Ok(b.(groups := UpdateTaskInGroups(b.groups, taskId, updates)))
    else Err(TaskNotFound)
  }

  /** task-delete: every task with the id is filtered out of the first group
      with `groupId`, and out of no other group. */
  function DeleteTask(b: Board, groupId: Id, taskId: Id): (r: Result<Board>)
    ensures r.Ok? <==> HasGroup(b.groups, groupId)
    ensures r.Err? ==> r.error == GroupNotFound
    ensures r.Ok? ==>
      && SameDocument(b, r.value) && r.value.activities == b.activities
      && SameGroupIds(b.groups, r.value.groups)
      && var i := FirstGroup(b.groups, groupId);
         && 0 <= i < |b.groups|
         && r.value.groups[i].fields == b.groups[i].fields
         && r.value.groups[i].tasks == Filter(b.groups[i].tasks, TaskIdIsNot(taskId))
         && !HasTask(r.value.groups[i].tasks, taskId)
         && (forall t :: t in r.value.groups[i].tasks ==> t in b.groups[i].tasks)
         && (forall t :: t in b.groups[i].tasks && t.id != taskId ==> t in r.value.groups[i].tasks)
         && forall k :: 0 <= k < |b.groups| && k != i ==> r.value.groups[k] == b.groups[k]
  {
    var i := FirstGroup(b.groups, groupId);
    if i < 0 then Err(GroupNotFound)
    else
      var g := b.groups[i];
      Ok(b.(groups := b.groups[i := g.(tasks := Filter(g.tasks, TaskIdIsNot(taskId)))]))
  }

  /** activity-add's record `{ id: makeId(), ...activity, createdAt, byMember }`:
      a client-supplied id wins over the generated one, while the server's
      createdAt and byMember win over the client's. */
  function NewActivity(activity: Activity, newId: Id, now: int, byMember: Value): (a: Activity)
    ensures a.Keys == activity.Keys + {"id", "createdAt", "byMember"}
    ensures a["id"] == (if "id" in activity then activity["id"] else Str(newId))
    ensures a["createdAt"] == Time(now) && a["byMember"] == byMember
    ensures forall k :: k in activity && k != "id" && k != "createdAt" && k != "byMember" ==> a[k] == activity[k]
  {
    map["id" := Str(newId)] + activity + map["createdAt" := Time(now), "byMember" := byMember]
  }

  /** activity-add: the new record is pushed at the END of the activities,
      which are created empty when missing (unlike addActivity, which
      unshifts). */
  function AppendActivity(b: Board, activity: Activity, newId: Id, now: int, byMember: Value): (r: Board)
    ensures SameDocument(b, r) && r.groups == b.groups
    ensures r.activities.Some?
    ensures r.activities.value == (if b.activities.Some? then b.activities.value else []) + [NewActivity(activity, newId, now, byMember)]
  {
    var acts := if b.activities.Some? then b.activities.value else [];
    b.(activities := Some(acts + [NewActivity(activity, newId, now, byMember)]))
  }
}
