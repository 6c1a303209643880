/** The board event handlers of services/socket.service.js. Each one
    loads the board from the collection, edits it, saves it, and relays
    the event to the other viewers of the board; any failure is caught and
    reported to the sender alone as an `error` event with a fixed message.
    The event payloads are not modelled, only where each event goes. */
module SocketHandlers {
  import opened Documents
  import opened JsArray
  import opened Boards
  import opened BoardService
  import opened Sockets

  /** What a handler emits: the event relayed to a route, or the `error`
      event with its message to the sender. */
  datatype Reply = Sent(route: Route, event: string) | ErrorToSender(message: string)

  /** `socket.to(board:<id>).emit(event, ...)`: to the other viewers of the
      board. */
  function Relay(senderId: string, boardId: Id, event: string): Reply
  {
    Sent(ToRoomExcept(BoardRoom(boardId), senderId), event)
  }

  /** The reply of a handler that either completed its edit or failed. */
  function ReplyFor<T>(r: Result<T>, senderId: string, boardId: Id, event: string, failure: string): (reply: Reply)
    ensures r.Ok? ==> reply == Relay(senderId, boardId, event)
    ensures r.Err? ==> reply == ErrorToSender(failure)
  {
    if r.Ok? then Relay(senderId, boardId, event) else ErrorToSender(failure)
  }

  /** The collection after a handler: the edited board when the edit
      succeeded, untouched otherwise. */
  function Stored(boards: map<Id, Board>, boardId: Id, r: Result<Board>): map<Id, Board>
  {
    if r.Ok? then boards[boardId := r.value] else boards
  }

  /** board-updated: nothing is stored; the event goes to the other viewers. */
  function BoardUpdated(senderId: string, boardId: Id): (reply: Reply)
    ensures reply.Sent? && reply.route == ToRoomExcept("board:" + boardId, senderId)
  {
    Relay(senderId, boardId, "board-updated")
  }

  /** group-add. */
  method GroupAdd(store: BoardCollection, senderId: string, boardId: Id, draft: GroupProps, newId: Id)
    returns (reply: Reply)
    requires store.Valid()
    modifies store
    ensures store.Valid()
    ensures boardId !in old(store.boards) ==> reply == ErrorToSender("Failed to add group") && store.boards == old(store.boards)
    ensures boardId in old(store.boards) ==>
      reply == Relay(senderId, boardId, "group-added") &&
      store.boards == old(store.boards)[boardId := Boards.AddGroup(old(store.boards)[boardId], draft, newId)]
  {
    var r := store.AddGroup(boardId, draft, newId);
    reply := ReplyFor(r, senderId, boardId, "group-added", "Failed to add group");
  }

  /** group-update: merge the updates into the first group with the id; a
      missing group throws before the save. */
  method GroupUpdate(store: BoardCollection, senderId: string, boardId: Id, groupId: Id, updates: GroupProps)
    returns (reply: Reply)
    requires store.Valid()
    modifies store
    ensures store.Valid()
    ensures boardId !in old(store.boards) ==> reply == ErrorToSender("Failed to update group") && store.boards == old(store.boards)
    ensures boardId in old(store.boards) ==>
      var r := UpdateGroup(old(store.boards)[boardId], groupId, updates);
      reply == ReplyFor(r, senderId, boardId, "group-updated", "Failed to update group") &&
      store.boards == Stored(old(store.boards), boardId, r)
  {
    var loaded := store.GetById(boardId);
    if loaded.None? {
      return ErrorToSender("Failed to update group");
    }
    var board := loaded.value;
    var groupIndex := FirstGroup(board.groups, groupId);
    if groupIndex == -1 {
      return ErrorToSender("Failed to update group");
    }
    board := board.(groups := board.groups[groupIndex := MergeGroup(board.groups[groupIndex], updates)]);
    SetDocOfEdit(loaded.value, board);
    // The loaded board carries its _id, so save takes the update branch.
    var saved := store.Update(board);
    reply := Relay(senderId, boardId, "group-updated");
  }

  /** group-delete. */
  method GroupDelete(store: BoardCollection, senderId: string, boardId: Id, groupId: Id)
    returns (reply: Reply)
    requires store.Valid()
    modifies store
    ensures store.Valid()
    ensures boardId !in old(store.boards) ==> reply == ErrorToSender("Failed to delete group") && store.boards == old(store.boards)
    ensures boardId in old(store.boards) ==>
      reply == Relay(senderId, boardId, "group-deleted") &&
      store.boards == old(store.boards)[boardId := DeleteGroup(old(store.boards)[boardId], groupId)]
  {
    var loaded := store.GetById(boardId);
    if loaded.None? {
      return ErrorToSender("Failed to delete group");
    }
    var board := loaded.value;
    board := board.(groups := Filter(board.groups, GroupIdIsNot(groupId)));
    SetDocOfEdit(loaded.value, board);
    var saved := store.Update(board);
    reply := Relay(senderId, boardId, "group-deleted");
  }

  /** group-move: splice out at the source index, splice in at the target.
      A source index that names no group is reported as a failure here (see
      BoardFindings for what the source saves instead). */
  method GroupMove(store: BoardCollection, senderId: string, boardId: Id, sourceIndex: int, targetIndex: int)
    returns (reply: Reply)
    requires store.Valid()
    modifies store
    ensures store.Valid()
    ensures boardId !in old(store.boards) ==> reply == ErrorToSender("Failed to move group") && store.boards == old(store.boards)
    ensures boardId in old(store.boards) ==>
      var r := MoveGroup(old(store.boards)[boardId], sourceIndex, targetIndex);
      reply == ReplyFor(r, senderId, boardId, "group-moved", "Failed to move group") &&
      store.boards == Stored(old(store.boards), boardId, r)
  {
    var loaded := store.GetById(boardId);
    if loaded.None? {
      return ErrorToSender("Failed to move group");
    }
    var board := loaded.value;
    var n := |board.groups|;
    var s := SpliceStart(sourceIndex, n);
    if s >= n {
      return ErrorToSender("Failed to move group");
    }
    var movedGroup := board.groups[s];
    var rest := RemoveAt(board.groups, s);
    MovePermutes(board.groups, s, SpliceStart(targetIndex, |rest|));
    board := board.(groups := InsertAt(rest, SpliceStart(targetIndex, |rest|), movedGroup));
    SetDocOfEdit(loaded.value, board);
    var saved := store.Update(board);
    reply := Relay(senderId, boardId, "group-moved");
  }

  /** task-add. */
  method TaskAdd(store: BoardCollection, senderId: string, boardId: Id, groupId: Id, draft: TaskProps, newId: Id)
    returns (reply: Reply)
    requires store.Valid()
    modifies store
    ensures store.Valid()
    ensures boardId !in old(store.boards) ==> reply == ErrorToSender("Failed to add task") && store.boards == old(store.boards)
    ensures boardId in old(store.boards) ==>
      var r := Boards.AddTask(old(store.boards)[boardId], groupId, draft, newId);
      reply == ReplyFor(r, senderId, boardId, "task-added", "Failed to add task") &&
      store.boards == Stored(old(store.boards), boardId, r)
  {
    var r := store.AddTask(boardId, groupId, draft, newId);
    reply := ReplyFor(r, senderId, boardId, "task-added", "Failed to add task");
  }

  /** The forEach of task-update: in every group, the first task with the
      id is merged with the updates, and the flag records whether any group
      held one. */
  method ApplyTaskUpdate(groups: seq<Group>, taskId: Id, updates: TaskProps) returns (updated: seq<Group>, taskFound: bool)
    ensures updated == UpdateTaskInGroups(groups, taskId, updates)
    ensures taskFound <==> TaskOnBoard(groups, taskId)
  {
    updated := groups;
    taskFound := false;
    ghost var target := UpdateTaskInGroups(groups, taskId, updates);
    ghost var holder := 0;
    var i := 0;
    while i < |updated|
      invariant 0 <= i <= |groups| && |updated| == |groups|
      invariant forall k :: 0 <= k < i ==> updated[k] == target[k]
      invariant forall k :: i <= k < |groups| ==> updated[k] == groups[k]
      invariant taskFound ==> 0 <= holder < i && HasTask(groups[holder].tasks, taskId)
      invariant !taskFound ==> forall k :: 0 <= k < i ==> !HasTask(groups[k].tasks, taskId)
    {
      var group := groups[i];
      var taskIndex := FirstTask(group.tasks, taskId);
      if taskIndex != -1 {
        updated := updated[i := group.(tasks := group.tasks[taskIndex := MergeTask(group.tasks[taskIndex], updates)])];
        taskFound := true;
        holder := i;
      }
      i := i + 1;
    }
  }

  /** task-update: a task id no group holds throws before the save. */
  method TaskUpdate(store: BoardCollection, senderId: string, boardId: Id, taskId: Id, updates: TaskProps)
    returns (reply: Reply)
    requires store.Valid()
    modifies store
    ensures store.Valid()
    ensures boardId !in old(store.boards) ==> reply == ErrorToSender("Failed to update task") && store.boards == old(store.boards)
    ensures boardId in old(store.boards) ==>
      var r := UpdateTask(old(store.boards)[boardId], taskId, updates);
      reply == ReplyFor(r, senderId, boardId, "task-updated", "Failed to update task") &&
      store.boards == Stored(old(store.boards), boardId, r)
  {
    var loaded := store.GetById(boardId);
    if loaded.None? {
      return ErrorToSender("Failed to update task");
    }
    var board := loaded.value;
    var groups, taskFound := ApplyTaskUpdate(board.groups, taskId, updates);
    if !taskFound {
      return ErrorToSender("Failed to update task");
    }
    board := board.(groups := groups);
    SetDocOfEdit(loaded.value, board);
    var saved := store.Update(board);
    reply := Relay(senderId, boardId, "task-updated");
  }

  /** task-delete: a missing group throws before the save. */
  method TaskDelete(store: BoardCollection, senderId: string, boardId: Id, groupId: Id, taskId: Id)
    returns (reply: Reply)
    requires store.Valid()
    modifies store
    ensures store.Valid()
    ensures boardId !in old(store.boards) ==> reply == ErrorToSender("Failed to delete task") && store.boards == old(store.boards)
    ensures boardId in old(store.boards) ==>
      var r := DeleteTask(old(store.boards)[boardId], groupId, taskId);
      reply == ReplyFor(r, senderId, boardId, "task-deleted", "Failed to delete task") &&
      store.boards == Stored(old(store.boards), boardId, r)
  {
    var loaded := store.GetById(boardId);
    if loaded.None? {
      return ErrorToSender("Failed to delete task");
    }
    var board := loaded.value;
    var i := FirstGroup(board.groups, groupId);
    if i < 0 {
      return ErrorToSender("Failed to delete task");
    }
    var group := board.groups[i];
    board := board.(groups := board.groups[i := group.(tasks := Filter(group.tasks, TaskIdIsNot(taskId)))]);
    SetDocOfEdit(loaded.value, board);
    var saved := store.Update(board);
    reply := Relay(senderId, boardId, "task-deleted");
  }

  /** task-move: the service's moveTask. */
  method TaskMove(store: BoardCollection, senderId: string, boardId: Id, taskId: Id, sourceGroupId: Id, targetGroupId: Id)
    returns (reply: Reply)
    requires store.Valid()
    modifies store
    ensures store.Valid()
    ensures boardId !in old(store.boards) ==> reply == ErrorToSender("Failed to move task") && store.boards == old(store.boards)
    ensures boardId in old(store.boards) ==>
      var r := Boards.MoveTask(old(store.boards)[boardId], sourceGroupId, taskId, targetGroupId);
      reply == ReplyFor(r, senderId, boardId, "task-moved", "Failed to move task") &&
      store.boards == Stored(old(store.boards), boardId, r)
  {
    var r := store.MoveTask(boardId, sourceGroupId, taskId, targetGroupId);
    reply := ReplyFor(r, senderId, boardId, "task-moved", "Failed to move task");
  }

  /** activity-add: the new record, stamped with the sender's logged-in
      user, is appended; the clock and makeId are parameters. */
  method ActivityAdd(store: BoardCollection, sender: Socket, boardId: Id, activity: Activity, newId: Id, now: int)
    returns (reply: Reply)
    requires store.Valid()
    modifies store
    ensures store.Valid()
    ensures boardId !in old(store.boards) ==> reply == ErrorToSender("Failed to add activity") && store.boards == old(store.boards)
    ensures boardId in old(store.boards) ==>
      reply == Relay(sender.id, boardId, "activity-added") &&
      store.boards == old(store.boards)[boardId := AppendActivity(old(store.boards)[boardId], activity, newId, now, sender.loggedinUser)]
  {
    var loaded := store.GetById(boardId);
    if loaded.None? {
      return ErrorToSender("Failed to add activity");
    }
    var board := loaded.value;
    var newActivity := NewActivity(activity, newId, now, sender.loggedinUser);
    if board.activities.None? {
      board := board.(activities := Some([]));
    }
    board := board.(activities := Some(board.activities.value + [newActivity]));
    SetDocOfEdit(loaded.value, board);
    var saved := store.Update(board);
    reply := Relay(sender.id, boardId, "activity-added");
  }
}
