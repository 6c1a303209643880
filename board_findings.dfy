/** Two board edits as the source writes them, where an entry of a task
    list or of the group list can be `undefined` (`None` here), set beside
    the edits of module Boards, which report an error instead. */
module BoardFindings {
  import opened Documents
  import opened JsArray
  import opened Boards

  /** A sequence in which every entry is defined. */
  function Defined<T>(s: seq<T>): (r: seq<Option<T>>)
    ensures |r| == |s| && forall k :: 0 <= k < |s| ==> r[k] == Some(s[k])
  {
    seq(|s|, k requires 0 <= k < |s| => Some(s[k]))
  }

  /** The task lists of the groups, in group order. */
  function Columns(gs: seq<Group>): (r: seq<seq<Option<Task>>>)
    ensures |r| == |gs| && forall i :: 0 <= i < |gs| ==> r[i] == Defined(gs[i].tasks)
  {
    seq(|gs|, i requires 0 <= i < |gs| => Defined(gs[i].tasks))
  }

  // ---------------------------------------------------------------------
  // moveTask (services/board.service.js)

  /** moveTask as written: `find` gives undefined for an absent task, the
      filter runs, and the push puts that undefined at the end of the
      destination. Only a missing group throws (reading `.tasks` of
      undefined). The result is the task lists the board is saved with. */
  function MoveTaskAsWritten(gs: seq<Group>, fromId: Id, taskId: Id, toId: Id): Result<seq<seq<Option<Task>>>>
  {
    var fi := FirstGroup(gs, fromId);
    if fi < 0 then Err(GroupNotFound)
    else
      var from := gs[fi];
      var ti := FirstTask(from.tasks, taskId);
      var task := if ti < 0 then None else Some(from.tasks[ti]);
      var cols := Columns(gs)[fi := Defined(Filter(from.tasks, TaskIdIsNot(taskId)))];
      var di := FirstGroup(gs, toId);
      if di < 0 then Err(GroupNotFound)
      else Ok(cols[di := cols[di] + [task]])
  }

  /** The discrepancy: a task id the source group does not hold is saved as
      an undefined entry at the end of the destination group. */
  lemma MoveAbsentTaskPushesUndefined(b: Board, fromId: Id, taskId: Id, toId: Id)
    requires HasGroup(b.groups, fromId) && HasGroup(b.groups, toId)
    requires !HasTask(b.groups[FirstGroup(b.groups, fromId)].tasks, taskId)
    ensures MoveTaskAsWritten(b.groups, fromId, taskId, toId).Ok?
    ensures
      var cols := MoveTaskAsWritten(b.groups, fromId, taskId, toId).value;
      var di := FirstGroup(b.groups, toId);
      && 0 <= di < |cols|
      && |cols[di]| == |b.groups[di].tasks| + 1
      && cols[di][|cols[di]| - 1] == None
    ensures MoveTask(b, fromId, taskId, toId) == Err(TaskNotFound)
  {
    var fi := FirstGroup(b.groups, fromId);
    FilterKeepsAll(b.groups[fi].tasks, TaskIdIsNot(taskId));
  }

  /** A concrete case: one group "g" with no tasks, moving task "t" from
      "g" to "g" leaves the group holding a single undefined entry. */
  lemma MoveAbsentTaskExample(b: Board)
    requires b.groups == [Group("g", [], map[])]
    ensures MoveTaskAsWritten(b.groups, "g", "t", "g") == Ok([[None]])
  {
    assert FirstGroup(b.groups, "g") == 0;
    assert Filter([], TaskIdIsNot("t")) == [];
    assert Defined<Task>([]) == [];
    var cols := Columns(b.groups)[0 := Defined(Filter([], TaskIdIsNot("t")))];
    assert cols == [[]];
    var none: seq<Option<Task>> := [None];
    assert cols[0] + [None] == none;
    assert cols[0 := cols[0] + [None]] == [none];
  }

  /** Replacing one group replaces its column. */
  lemma ColumnsUpdate(gs: seq<Group>, i: nat, g: Group)
    requires i < |gs|
    ensures Columns(gs[i := g]) == Columns(gs)[i := Defined(g.tasks)]
  {
  }

  /** Pushing a defined task pushes a defined entry. */
  lemma DefinedPush(ts: seq<Task>, t: Task)
    ensures Defined(ts + [t]) == Defined(ts) + [Some(t)]
  {
  }

  /** Wherever the task is present, the source and the corrected edit save
      the same task lists. */
  lemma MoveTaskAgrees(b: Board, fromId: Id, taskId: Id, toId: Id)
    requires MoveTask(b, fromId, taskId, toId).Ok?
    ensures MoveTaskAsWritten(b.groups, fromId, taskId, toId) == Ok(Columns(MoveTask(b, fromId, taskId, toId).value.groups))
  {
    var fi := FirstGroup(b.groups, fromId);
    var di := FirstGroup(b.groups, toId);
    var from := b.groups[fi];
    var ti := FirstTask(from.tasks, taskId);
    var kept := Filter(from.tasks, TaskIdIsNot(taskId));
    var groups := b.groups[fi := from.(tasks := kept)];
    var task := from.tasks[ti];
    var moved := groups[di := groups[di].(tasks := groups[di].tasks + [task])];
    assert MoveTask(b, fromId, taskId, toId).value.groups == moved;
    var cols := Columns(b.groups)[fi := Defined(kept)];
    ColumnsUpdate(b.groups, fi, from.(tasks := kept));
    assert Columns(groups) == cols;
    ColumnsUpdate(groups, di, groups[di].(tasks := groups[di].tasks + [task]));
    DefinedPush(groups[di].tasks, task);
    assert cols[di] == Defined(groups[di].tasks);
    assert Columns(moved) == cols[di := cols[di] + [Some(task)]];
    assert MoveTaskAsWritten(b.groups, fromId, taskId, toId) == Ok(cols[di := cols[di] + [Some(task)]]);
  }

  // ---------------------------------------------------------------------
  // group-move (services/socket.service.js)

  /** group-move as written: when `splice(sourceIndex, 1)` removes nothing,
      `movedGroup` is undefined and the second splice inserts it anyway. */
  function MoveGroupAsWritten(gs: seq<Group>, sourceIndex: int, targetIndex: int): seq<Option<Group>>
  {
    var s := SpliceStart(sourceIndex, |gs|);
    var moved := if s < |gs| then Some(gs[s]) else None;
    var rest := if s < |gs| then Defined(RemoveAt(gs, s)) else Defined(gs);
    InsertAt(rest, SpliceStart(targetIndex, |rest|), moved)
  }

  /** The discrepancy: a source index at or past the end saves a group
      list one longer, holding an undefined group at the target. */
  lemma MoveGroupPastEndInsertsUndefined(b: Board, sourceIndex: int, targetIndex: int)
    requires sourceIndex >= |b.groups| && 0 <= targetIndex <= |b.groups|
    ensures
      var slots := MoveGroupAsWritten(b.groups, sourceIndex, targetIndex);
      |slots| == |b.groups| + 1 && slots[targetIndex] == None
    ensures MoveGroup(b, sourceIndex, targetIndex) == Err(IndexOutOfRange)
  {
  }

  /** Wherever the source index names a group, the source and the
      corrected edit save the same group list. */
  lemma MoveGroupAgrees(b: Board, sourceIndex: int, targetIndex: int)
    requires MoveGroup(b, sourceIndex, targetIndex).Ok?
    ensures MoveGroupAsWritten(b.groups, sourceIndex, targetIndex) == Defined(MoveGroup(b, sourceIndex, targetIndex).value.groups)
  {
    var gs := b.groups;
    var s := SpliceStart(sourceIndex, |gs|);
    var rest := RemoveAt(gs, s);
    var t := SpliceStart(targetIndex, |rest|);
    var drest := Defined(rest);
    assert InsertAt(drest, t, Some(gs[s])) == Defined(InsertAt(rest, t, gs[s])) by {
      assert drest[..t] == Defined(rest[..t]);
      assert drest[t..] == Defined(rest[t..]);
    }
  }
}
