/** services/board.service.js over an abstract board collection: the
    collection is a map from `_id` to the stored document, `save` is the
    insert-or-update it performs, and each service function loads a board,
    edits it and saves it. */
module BoardService {
  import opened Documents
  import opened JsArray
  import opened Boards

  /** `query`'s criteria: a case-insensitive regex on the title when `txt`
      is truthy, and nothing otherwise. */
  function QueryCriteria(txt: Value): (c: Fields)
    ensures Truthy(txt) ==> c == map["title" := Obj(map["$regex" := txt, "$options" := Str("i")])]
    ensures !Truthy(txt) ==> c == map[]
  {
    if Truthy(txt) then map["title" := Obj(map["$regex" := txt, "$options" := Str("i")])] else map[]
  }

  /** What `updateOne({_id}, {$set: board})` leaves stored: every top-level
      property the edited board carries replaces the stored one, and the
      stored `_id` stays. A board whose `activities` property is missing
      does not touch the stored activities. */
  function SetDoc(stored: Board, b: Board): (r: Board)
    ensures r.id == stored.id && r.groups == b.groups
    ensures r.activities == (if b.activities.Some? then b.activities else stored.activities)
    ensures r.fields.Keys == stored.fields.Keys + b.fields.Keys
    ensures forall k :: k in b.fields ==> r.fields[k] == b.fields[k]
    ensures forall k :: k in stored.fields && k !in b.fields ==> r.fields[k] == stored.fields[k]
  {
    Board(stored.id, b.groups, if b.activities.Some? then b.activities else stored.activities, stored.fields + b.fields)
  }

  /** Saving an edit of a loaded board stores exactly the edited board: the
      edit kept `_id` and the other properties, and it only drops
      activities that were already missing. */
  lemma SetDocOfEdit(stored: Board, e: Board)
    requires SameDocument(stored, e) && (e.activities.None? ==> stored.activities.None?)
    ensures SetDoc(stored, e) == e
  {
    assert stored.fields + e.fields == e.fields;
  }

  /** The document `save` inserts for a board without `_id`: stamped with
      the clock's time, an empty activity log, `members = [createdBy]`, and
      the id the insert reports. */
  function Created(b: Board, insertedId: Id, now: int): (r: Board)
    ensures r.id == Some(insertedId) && r.groups == b.groups && r.activities == Some([])
    ensures r.fields.Keys == b.fields.Keys + {"createdAt", "members"}
    ensures r.fields["createdAt"] == Num(now)
    ensures r.fields["members"] == List([Get(b.fields, "createdBy")])
    ensures forall k :: k in b.fields && k != "createdAt" && k != "members" ==> r.fields[k] == b.fields[k]
  {
    var createdBy := Get(b.fields, "createdBy");
    Board(Some(insertedId), b.groups, Some([]), b.fields["createdAt" := Num(now)]["members" := List([createdBy])])
  }

  /** The `board` collection. */
  class BoardCollection {
    var boards: map<Id, Board>

    /** Every stored document carries the `_id` it is stored under. */
    ghost predicate Valid()
      reads this
    {
      forall k :: k in boards ==> boards[k].id == Some(k)
    }

    constructor ()
      ensures Valid() && boards == map[]
    {
      boards := map[];
    }

    /** `getById`: the stored board with the id, or none (`null`). */
    function GetById(boardId: Id): (r: Option<Board>)
      requires Valid()
      reads this
      ensures r.Some? <==> boardId in boards
      ensures r.Some? ==> r.value.id == Some(boardId) && r.value == boards[boardId]
    {
      if boardId in boards then Some(boards[boardId]) else None
    }

    /** `remove`: the board with the id is deleted, if there is one. */
    method Remove(boardId: Id)
      requires Valid()
      modifies this
      ensures Valid() && boardId !in boards
      ensures boards == old(boards) - {boardId}
    {
      boards := boards - {boardId};
    }

    /** `save` on a board with `_id`: the update; the board is returned as
        given. Without a stored document with that id nothing is stored. */
    method Update(b: Board) returns (r: Result<Board>)
      requires Valid() && b.id.Some?
      modifies this
      ensures Valid() && r == Ok(b)
      ensures b.id.value in old(boards) ==> boards == old(boards)[b.id.value := SetDoc(old(boards)[b.id.value], b)]
      ensures b.id.value !in old(boards) ==> boards == old(boards)
    {
      var id := b.id.value;
      if id in boards {
        boards := boards[id := SetDoc(boards[id], b)];
      }
      r := Ok(b);
    }

    /** `save`: a board with `_id` is updated in place; one without is
        stamped and inserted under the id the insert reports (the driver's
        fresh ObjectId, a parameter here, as is the clock). */
    method Save(b: Board, insertedId: Id, now: int) returns (r: Result<Board>)
      requires Valid()
      modifies this
      ensures Valid()
      ensures b.id.Some? ==> r == Ok(b)
      ensures b.id.Some? ==>
        boards == (if b.id.value in old(boards) then old(boards)[b.id.value := SetDoc(old(boards)[b.id.value], b)] else old(boards))
      ensures b.id.None? && insertedId in old(boards) ==> r == Err(DuplicateKey) && boards == old(boards)
      ensures b.id.None? && insertedId !in old(boards) ==>
        r == Ok(Created(b, insertedId, now)) && boards == old(boards)[insertedId := Created(b, insertedId, now)]
    {
      if b.id.Some? {
        r := Update(b);
      } else if insertedId in boards {
        r := Err(DuplicateKey);
      } else {
        var created := Created(b, insertedId, now);
        boards := boards[insertedId := created];
        r := Ok(created);
      }
    }

    /** `addGroup`: load, push the new group, save. */
    method AddGroup(boardId: Id, draft: GroupProps, newId: Id) returns (r: Result<Board>)
      requires Valid()
      modifies this
      ensures Valid()
      ensures boardId !in old(boards) ==> r == Err(BoardNotFound) && boards == old(boards)
      ensures boardId in old(boards) ==>
        r == Ok(Boards.AddGroup(old(boards)[boardId], draft, newId)) && boards == old(boards)[boardId := r.value]
    {
      if boardId !in boards {
        return Err(BoardNotFound);
      }
      var board := boards[boardId];
      var group := Group(newId, [], draft.fields);
      board := board.(groups := board.groups + [group]);
      SetDocOfEdit(boards[boardId], board);
      r := Update(board);
    }

    /** `addTask`: load, push the new task onto the first group with the
        id, save. */
    method AddTask(boardId: Id, groupId: Id, draft: TaskProps, newId: Id) returns (r: Result<Board>)
      requires Valid()
      modifies this
      ensures Valid()
      ensures boardId !in old(boards) ==> r == Err(BoardNotFound) && boards == old(boards)
      ensures boardId in old(boards) ==> r == Boards.AddTask(old(boards)[boardId], groupId, draft, newId)
      ensures boardId in old(boards) ==> boards == if r.Ok? then old(boards)[boardId := r.value] else old(boards)
    {
      if boardId !in boards {
        return Err(BoardNotFound);
      }
      var board := boards[boardId];
      var i := FirstGroup(board.groups, groupId);
      if i < 0 {
        return Err(GroupNotFound);
      }
      var group := board.groups[i];
      board := board.(groups := board.groups[i := group.(tasks := group.tasks + [Task(newId, draft.fields)])]);
      SetDocOfEdit(boards[boardId], board);
      r := Update(board);
    }

    /** `moveTask`: load; filter the task out of the first group with
        `fromId`; look the destination up on the filtered board; push the
        task found before the filter; save. */
    method MoveTask(boardId: Id, fromId: Id, taskId: Id, toId: Id) returns (r: Result<Board>)
      requires Valid()
      modifies this
      ensures Valid()
      ensures boardId !in old(boards) ==> r == Err(BoardNotFound) && boards == old(boards)
      ensures boardId in old(boards) ==> r == Boards.MoveTask(old(boards)[boardId], fromId, taskId, toId)
      ensures boardId in old(boards) ==> boards == if r.Ok? then old(boards)[boardId := r.value] else old(boards)
    {
      if boardId !in boards {
        return Err(BoardNotFound);
      }
      var loaded := boards[boardId];
      var board := loaded;
      var fi := FirstGroup(board.groups, fromId);
      if fi < 0 {
        return Err(GroupNotFound);
      }
      var fromGroup := board.groups[fi];
      var ti := FirstTask(fromGroup.tasks, taskId);
      board := board.(groups := board.groups[fi := fromGroup.(tasks := Filter(fromGroup.tasks, TaskIdIsNot(taskId)))]);
      FindIndexSameVerdicts(loaded.groups, board.groups, GroupIdIs(toId));
      var di := FirstGroup(board.groups, toId);
      if di < 0 {
        return Err(GroupNotFound);
      }
      if ti < 0 {
        return Err(TaskNotFound);
      }
      var toGroup := board.groups[di];
      board := board.(groups := board.groups[di := toGroup.(tasks := toGroup.tasks + [fromGroup.tasks[ti]])]);
      SetDocOfEdit(boards[boardId], board);
      r := Update(board);
    }

    /** `saveTask`: load; replace the first task with the id or push the
        task; unshift the activity when one is given; save. */
    method SaveTask(boardId: Id, groupId: Id, task: Task, activity: Option<Activity>) returns (r: Result<Board>)
      requires Valid()
      modifies this
      ensures Valid()
      ensures boardId !in old(boards) ==> r == Err(BoardNotFound) && boards == old(boards)
      ensures boardId in old(boards) ==> r == Boards.SaveTask(old(boards)[boardId], groupId, task, activity)
      ensures boardId in old(boards) ==> boards == if r.Ok? then old(boards)[boardId := r.value] else old(boards)
    {
      if boardId !in boards {
        return Err(BoardNotFound);
      }
      var board := boards[boardId];
      var i := FirstGroup(board.groups, groupId);
      if i < 0 {
        return Err(GroupNotFound);
      }
      var group := board.groups[i];
      var taskIdx := FirstTask(group.tasks, task.id);
      if taskIdx != -1 {
        group := group.(tasks := group.tasks[taskIdx := task]);
      } else {
        group := group.(tasks := group.tasks + [task]);
      }
      board := board.(groups := board.groups[i := group]);
      if activity.Some? {
        if board.activities.None? {
          return Err(ActivitiesMissing);
        }
        board := board.(activities := Some([activity.value] + board.activities.value));
      }
      SetDocOfEdit(boards[boardId], board);
      r := Update(board);
    }

    /** `addActivity`: load, unshift the activity, save. */
    method AddActivity(boardId: Id, activity: Activity) returns (r: Result<Board>)
      requires Valid()
      modifies this
      ensures Valid()
      ensures boardId !in old(boards) ==> r == Err(BoardNotFound) && boards == old(boards)
      ensures boardId in old(boards) ==> r == Boards.AddActivity(old(boards)[boardId], activity)
      ensures boardId in old(boards) ==> boards == if r.Ok? then old(boards)[boardId := r.value] else old(boards)
    {
      if boardId !in boards {
        return Err(BoardNotFound);
      }
      var board := boards[boardId];
      if board.activities.None? {
        return Err(ActivitiesMissing);
      }
      board := board.(activities := Some([activity] + board.activities.value));
      SetDocOfEdit(boards[boardId], board);
      r := Update(board);
    }
  }

  /** Saving a new board and then loading it by the reported id gives the
      stamped board back, with an empty activity log that addActivity can
      then prepend to. */
  method SaveThenLoad(store: BoardCollection, b: Board, insertedId: Id, now: int, activity: Activity)
    returns (loaded: Option<Board>, logged: Result<Board>)
    requires store.Valid() && b.id.None? && insertedId !in store.boards
    modifies store
    ensures loaded == Some(Created(b, insertedId, now))
    ensures logged.Ok? && logged.value.activities == Some([activity])
  {
    var saved := store.Save(b, insertedId, now);
    loaded := store.GetById(insertedId);
    logged := store.AddActivity(insertedId, activity);
    assert [activity] + [] == [activity];
  }
}
