# Tasklo backend core in Dafny

This project models the board-editing core of the Tasklo backend, a
Trello-like task board server written in JavaScript (Express, socket.io and
MongoDB). It covers four parts of that server:

- **Board service** (`services/board.service.js`). The service loads a board
  document, edits its `groups`, `tasks` and `activities` in place, and saves
  it back. The model keeps the store as a class `BoardService.BoardCollection`
  over a map from `_id` to board. Each service operation is a method proved
  equal to a pure edit in module `Boards`. The laws of those edits are proved
  in `BoardLaws`: ids stay unique, task counts are kept, saves are idempotent,
  group moves round-trip, and the activity log is newest first.
- **Socket service** (`services/socket.service.js`). This part covers the
  per-connection state of a socket (class `Sockets.Socket`: current chat
  topic, joined rooms, `userId`), the routing choices of `broadcast`,
  `emitToUser` and `emitTo`, and the first-match search `_getUserSocket`. It
  also covers the board-editing event handlers (module `SocketHandlers`),
  each proved to store exactly the `Boards` edit or to leave the store alone
  and answer the sender with the handler's error message.
- **Handshake middleware** (`middlewares/socket.middleware.js`). The token
  comes from the auth field or, failing that, from the `loginToken=` cookie,
  which the code cuts out with `split`. The middleware then accepts or
  rejects, calling `next` exactly once.
- **User service** (`api/user/user.service.js`). This part covers query
  criteria, the projections stored by `add`, `update` and `addGoogleUser`,
  password stripping in `query` and `getById`, and `getOrCreateGoogleUser`,
  over a class `UserService.UserCollection`.

JavaScript semantics are written out where the code relies on them:

- truthiness (`Documents.Truthy`);
- `find`, `findIndex` and `filter` (`JsArray`);
- `splice` start normalisation for negative and too-large indices;
- `split` with a separator;
- object spread as a right-biased map union.

Fresh ids (`makeId`, and `_makeId`, which `services/board.service.js` uses
but neither defines nor imports), the clock, the id an insert reports,
`validateToken`, review lookup, ObjectId timestamps and Mongo query matching
are parameters of the operations that use them.

## Model

| member | source | states |
|---|---|---|
| `BoardService.QueryCriteria` | services/board.service.js:16-23 | a truthy `txt` gives a case-insensitive title regex; otherwise there are no criteria |
| `BoardService.BoardCollection.GetById` | services/board.service.js:25-28 | the stored board with that id, carrying that id, or none when no board has it |
| `BoardService.BoardCollection.Remove` | services/board.service.js:48-51 | the board with the id is gone and every other board is kept |
| `BoardService.SetDoc` | services/board.service.js:35 | `$set` replaces every property the edited board carries, keeps the others and keeps the stored `_id` |
| `BoardService.SetDocOfEdit` | services/board.service.js:32-37 | saving an edit of a loaded board that kept its `_id` and properties stores exactly the edited board |
| `BoardService.Created` | services/board.service.js:38-44 | a new board gets `createdAt` = now, `activities` = `[]`, `members` = `[createdBy]` and the inserted id; every other property is kept |
| `BoardService.BoardCollection.Update` | services/board.service.js:32-37 | the update branch merges into the stored board with that id and returns the board with its `_id` |
| `BoardService.BoardCollection.Save` | services/board.service.js:30-46 | a board with `_id` is merged in place; one without is stamped and inserted under the reported id, or refused when that id is taken |
| `BoardService.BoardCollection.AddGroup` | services/board.service.js:53-58 | the stored board becomes `Boards.AddGroup` of the loaded one; a missing board is an error and nothing changes |
| `BoardService.BoardCollection.AddTask` | services/board.service.js:61-66 | the result and the store are `Boards.AddTask` of the loaded board, or unchanged on error |
| `BoardService.BoardCollection.MoveTask` | services/board.service.js:69-76 | the result and the store are `Boards.MoveTask` of the loaded board, with the destination looked up on the filtered board |
| `BoardService.BoardCollection.SaveTask` | services/board.service.js:79-95 | the result and the store are `Boards.SaveTask` of the loaded board, or unchanged on error |
| `BoardService.BoardCollection.AddActivity` | services/board.service.js:97-101 | the result and the store are `Boards.AddActivity` of the loaded board, or unchanged on error |
| `BoardService.SaveThenLoad` | services/board.service.js:25-46 | a saved new board loads back as the stamped board, and a following addActivity leaves exactly that one activity |
| `Boards.AddGroup` | services/board.service.js:53-58 | groups grow by exactly one; earlier groups are unchanged; the last group has the fresh id and no tasks, whatever id and tasks the client sent |
| `Boards.AddTask` | services/board.service.js:61-66 | succeeds exactly when the group exists; the first group with the id gains the task with the fresh id at its end; other groups are unchanged |
| `Boards.MoveTask` | services/board.service.js:69-76 | succeeds exactly when both groups exist and the task is in the source; a missing group is GroupNotFound, otherwise TaskNotFound; the saved board is the same document with the same activities and group ids. Where the task goes is stated by `BoardLaws.MoveTaskBetweenGroups` and `BoardLaws.MoveTaskWithinGroup` |
| `Boards.SaveTask` | services/board.service.js:79-95 | the first task with the same id is replaced whole at its index, otherwise the task is appended; a given activity is prepended; missing group or log is an error |
| `Boards.Upsert` | services/board.service.js:83-88 | replaces the first task with the id at the same index, or appends; other tasks are unchanged; afterwards the id is present |
| `Boards.AddActivity` | services/board.service.js:97-101 | succeeds exactly when the log exists; the activity becomes entry 0 and the old log follows unchanged |
| `Boards.MergeGroup` | services/socket.service.js:117 | `{...group, ...updates}`: supplied fields overwrite, others are kept |
| `Boards.MergeTask` | services/socket.service.js:213 | `{...task, ...updates}`: supplied fields overwrite, others are kept |
| `Boards.UpdateGroup` | services/socket.service.js:108-118 | succeeds exactly when the group exists; only the first group with the id is merged, in place; other groups are unchanged |
| `Boards.DeleteGroup` | services/socket.service.js:137-139 | no group with the id remains; every other group is kept and nothing new appears |
| `Boards.MoveGroup` | services/socket.service.js:156-161 | succeeds exactly when the source index, normalised as splice does, is in range, otherwise IndexOutOfRange; the same document with a permutation of its groups. Where the group lands is stated by `BoardLaws.MoveGroupLands` |
| `Boards.MovePermutes` | services/socket.service.js:160-161 | remove-at then insert-at keeps the multiset of groups |
| `Boards.UpdateFirstTask` | services/socket.service.js:211-215 | a group without the task is unchanged; otherwise only its first task with the id is merged |
| `Boards.UpdateTask` | services/socket.service.js:205-222 | succeeds exactly when some group holds the task; every group's first match is merged |
| `Boards.DeleteTask` | services/socket.service.js:240-250 | succeeds exactly when the group exists; that group's tasks become filter's result, the tasks with other ids in their order, and the other groups are unchanged |
| `Boards.NewActivity` | services/socket.service.js:293-298 | the client's `id` wins over the generated one; `createdAt` and `byMember` always come from the server; other fields are kept |
| `Boards.AppendActivity` | services/socket.service.js:300-303 | the new activity is appended at the end of the log, which is created empty when missing |
| `BoardLaws.TaskCountUpdate` | services/board.service.js:73-75 | replacing one group changes the task count by the difference in that group's size |
| `BoardLaws.TaskCountSameSizes` | services/socket.service.js:210-216 | groups of the same sizes hold the same number of tasks |
| `BoardLaws.AddGroupKeepsIdsUnique` | services/board.service.js:53-58 | with a fresh id, group ids stay unique and the new group is the one found by its id |
| `BoardLaws.AddTaskKeepsIdsUnique` | services/board.service.js:61-66 | with a fresh id, task ids stay unique within each group and the new task is on the board |
| `BoardLaws.MoveTaskBetweenGroups` | services/board.service.js:69-76 | between distinct groups, the source loses every task with the id, the destination gains the task at its end, and every other group is untouched |
| `BoardLaws.MoveTaskWithinGroup` | services/board.service.js:71-75 | moving within one group keeps its tasks and moves the task to the last position |
| `BoardLaws.MoveTaskKeepsTaskCount` | services/board.service.js:69-76 | with unique task ids in the source, the total task count is preserved |
| `BoardLaws.UpsertTwice` | services/board.service.js:83-88 | upserting the same task twice is the same as once |
| `BoardLaws.SaveTaskIdempotent` | services/board.service.js:79-95 | saveTask without an activity is idempotent |
| `BoardLaws.UpsertKeepsIdsUnique` | services/board.service.js:83-88 | unique task ids stay unique, and every task with the id is the saved one |
| `BoardLaws.AddActivitiesNewestFirst` | services/board.service.js:97-101 | repeated addActivity leaves the log as the new activities newest first, then the old log |
| `BoardLaws.AddActivitiesEnds` | services/board.service.js:99 | after repeated addActivity, the latest activity is entry 0 |
| `BoardLaws.MergeGroupIdempotent` | services/socket.service.js:117 | merging the same updates twice is the same as once |
| `BoardLaws.UpdateGroupIdempotent` | services/socket.service.js:108-118 | repeating a group update without an `id` change gives the same board |
| `BoardLaws.DeleteAbsentGroup` | services/socket.service.js:137-139 | deleting an absent group id leaves the groups identical |
| `BoardLaws.DeleteGroupIdempotent` | services/socket.service.js:137-139 | deleting twice is deleting once |
| `BoardLaws.DeleteUniqueGroup` | services/socket.service.js:137-139 | with unique ids, deleting removes exactly the group at its index and keeps the order of the rest |
| `BoardLaws.MoveGroupLands` | services/socket.service.js:160-161 | for any accepted indices, negative ones counted from the end: the group from the normalised source position is at the normalised target position, and removing it leaves the other groups in their old order |
| `BoardLaws.MoveGroupInRange` | services/socket.service.js:156-161 | in-range indices succeed with remove-at-source, insert-at-target |
| `BoardLaws.MoveGroupExample` | services/socket.service.js:156-161 | `[G1,G2,G3]` moved from 1 to 0 is `[G2,G1,G3]` |
| `BoardLaws.MoveGroupRoundTrip` | services/socket.service.js:156-161 | moving from source to target and back restores the board |
| `BoardLaws.MoveGroupFromEnd` | services/socket.service.js:160 | a source index of -1 means the last group, as `splice` counts from the end |
| `BoardLaws.UpdateTaskKeepsTaskCount` | services/socket.service.js:210-222 | a task update keeps the number of tasks |
| `BoardLaws.UpdateTaskLeavesOtherTasks` | services/socket.service.js:210-216 | every task with a different id is unchanged |
| `BoardLaws.DeleteUniqueTask` | services/socket.service.js:243-250 | with unique task ids, deleting a task the group holds removes exactly that task and keeps the others in order |
| `BoardLaws.DeleteAbsentTask` | services/socket.service.js:243-250 | deleting an absent task from an existing group is a no-op |
| `BoardFindings.MoveAbsentTaskPushesUndefined` | services/board.service.js:72-75 | as written, moving an absent task pushes `undefined` into the destination, where the corrected edit reports the task missing |
| `BoardFindings.MoveAbsentTaskExample` | services/board.service.js:72-75 | a single empty group `g`, moving task `t` from `g` to `g`, leaves `g` holding one `undefined` |
| `BoardFindings.MoveTaskAgrees` | services/board.service.js:69-76 | whenever the corrected move succeeds, the as-written code produces the same groups |
| `BoardFindings.MoveGroupPastEndInsertsUndefined` | services/socket.service.js:160-161 | as written, a source index past the end inserts `undefined` and grows the list, where the corrected move reports an out-of-range index |
| `BoardFindings.MoveGroupAgrees` | services/socket.service.js:160-161 | whenever the corrected move succeeds, the as-written code produces the same groups |
| `Sockets.Socket.constructor` | middlewares/socket.middleware.js:4 | a socket as the handshake receives it, before authentication: no topic, no rooms and no user |
| `Sockets.Socket.OnConnection` | services/socket.service.js:21 | the socket joins `user:<userId>` and nothing else changes |
| `Sockets.ChatSetTopic` | services/socket.service.js:35-43 | the same topic is a no-op; otherwise the previous truthy topic is left, the new one joined and recorded, and no other room changes |
| `Sockets.Socket.SetTopic` | services/socket.service.js:35-43 | the socket's topic state becomes `ChatSetTopic` of the old one |
| `Sockets.ChatSetTopicKeepsOneTopic` | services/socket.service.js:35-43 | with non-empty topics, the socket holds at most one topic room, the recorded one, and other rooms are untouched |
| `Sockets.SetTopicsKeepsOneTopic` | services/socket.service.js:35-43 | the same holds over any sequence of topic changes, and the last topic is recorded |
| `Sockets.ChatSetTopicIdempotent` | services/socket.service.js:36 | setting a topic twice is setting it once |
| `Sockets.EmptyTopicIsNeverLeft` | services/socket.service.js:37-38 | a joined empty topic is never left, because the leave is guarded by truthiness |
| `Sockets.ChatSendRoute` | services/socket.service.js:44-50 | a chat message goes to the room of the current topic |
| `Sockets.ChatSendGoesToLastTopic` | services/socket.service.js:35-50 | after topic changes, messages go to the last topic set |
| `Sockets.Socket.UserWatch` | services/socket.service.js:52-55 | joins `watching:<userId>` and nothing else changes |
| `Sockets.Socket.SetUserSocket` | services/socket.service.js:58-61 | sets `userId` and nothing else |
| `Sockets.Socket.UnsetUserSocket` | services/socket.service.js:62-65 | removes `userId` and nothing else |
| `Sockets.Socket.BoardWatch` | services/socket.service.js:68-71 | joins `board:<boardId>` and nothing else changes |
| `Sockets.Socket.BoardUnwatch` | services/socket.service.js:73-76 | leaves `board:<boardId>` and nothing else changes |
| `Sockets.WatchUnwatch` | services/socket.service.js:68-76 | watching and then unwatching a board leaves the socket outside that board's room, with its other rooms as before |
| `Sockets.GetUserSocket` | services/socket.service.js:360-364 | returns the first socket whose `userId` equals the id, or none exactly when no socket has it |
| `Sockets.BroadcastRoute` | services/socket.service.js:340-358 | exactly one of four routes: room without the sender, all without the sender, room, all, decided by whether a room is given and a sender socket is found |
| `Sockets.Broadcast` | services/socket.service.js:340-358 | the route is `BroadcastRoute` with the first socket of the user as the excluded one |
| `Sockets.EmitToUser` | services/socket.service.js:325-336 | emits to the first socket of the user, and does nothing exactly when the user has none |
| `Sockets.EmitToRoute` | services/socket.service.js:320-323 | a truthy label emits to `watching:<label>`, otherwise to everyone |
| `SocketHandlers.BoardUpdated` | services/socket.service.js:79-82 | relays the data to the board's room without the sender |
| `SocketHandlers.ReplyFor` | services/socket.service.js:93-101 | success is relayed to the board's room without the sender; failure is one error message to the sender |
| `SocketHandlers.GroupAdd` | services/socket.service.js:85-103 | stores `Boards.AddGroup`, or leaves the store alone and answers "Failed to add group" |
| `SocketHandlers.GroupUpdate` | services/socket.service.js:105-130 | stores `Boards.UpdateGroup`; a missing board or group leaves the store alone and answers "Failed to update group" |
| `SocketHandlers.GroupDelete` | services/socket.service.js:132-151 | stores `Boards.DeleteGroup`, or leaves the store alone and answers "Failed to delete group" |
| `SocketHandlers.GroupMove` | services/socket.service.js:153-177 | stores `Boards.MoveGroup`; the `groupId` plays no part; a failure answers "Failed to move group" |
| `SocketHandlers.TaskAdd` | services/socket.service.js:180-200 | stores `Boards.AddTask`, or leaves the store alone and answers "Failed to add task" |
| `SocketHandlers.ApplyTaskUpdate` | services/socket.service.js:208-216 | the `forEach` loop leaves the groups as `UpdateTaskInGroups`, and `taskFound` holds exactly when some group has the task |
| `SocketHandlers.TaskUpdate` | services/socket.service.js:202-235 | stores `Boards.UpdateTask`; without the task nothing is saved and the sender gets "Failed to update task" |
| `SocketHandlers.TaskDelete` | services/socket.service.js:237-263 | stores `Boards.DeleteTask`; a missing group saves nothing and answers "Failed to delete task" |
| `SocketHandlers.TaskMove` | services/socket.service.js:265-284 | stores `Boards.MoveTask` of the source and target groups, or answers "Failed to move task" |
| `SocketHandlers.ActivityAdd` | services/socket.service.js:287-316 | stores `Boards.AppendActivity` with the sender's logged-in user as `byMember` |
| `SocketMiddleware.IndexOf` | middlewares/socket.middleware.js:7 | either -1 or a position at or after `from` where the separator occurs |
| `SocketMiddleware.IndexOfIsFirst` | middlewares/socket.middleware.js:7 | -1 means the separator does not occur from `from` on; otherwise no occurrence lies between `from` and the answer, so the answer is the first one |
| `SocketMiddleware.SplitJoin` | middlewares/socket.middleware.js:7 | joining the pieces of `split` with the separator gives the string back |
| `SocketMiddleware.SplitPiecesHaveNoSeparator` | middlewares/socket.middleware.js:7 | no piece of `split` contains the separator |
| `SocketMiddleware.SplitFirstPieces` | middlewares/socket.middleware.js:7 | piece 0 is the text before the first separator and piece 1 starts right after it |
| `SocketMiddleware.CookieTokenIs` | middlewares/socket.middleware.js:7 | without `loginToken=` there is no token; otherwise the token is the text right after the first `loginToken=`, up to the next `;`, the next `loginToken=` or the end |
| `SocketMiddleware.LoginToken` | middlewares/socket.middleware.js:6-7 | a truthy auth token wins, and only otherwise is the cookie consulted |
| `SocketMiddleware.EmptyCookieTokenIsNoToken` | middlewares/socket.middleware.js:7-11 | an empty cookie value counts as no token |
| `SocketMiddleware.Decide` | middlewares/socket.middleware.js:9-26 | no token rejects with "No loginToken provided"; a throwing or falsy validation rejects with "Invalid loginToken"; otherwise the user is admitted |
| `SocketMiddleware.SocketAuth` | middlewares/socket.middleware.js:4-28 | `next` is called exactly once with the decision; the validator is consulted only with a token; the user fields are set only on acceptance |
| `SocketMiddleware.SocketLogger` | middlewares/socket.middleware.js:30-33 | always exactly one `next()` with no error |
| `SocketMiddleware.AdmittedNeedsValidToken` | middlewares/socket.middleware.js:4-28 | an admitted socket had a truthy token that validated to a truthy user; no token never admits |
| `UserService.BuildCriteria` | api/user/user.service.js:161-171 | `$or` is present exactly when `txt` is truthy, as two case-insensitive regexes on username and fullname; `score >= minBalance` is present exactly when `minBalance` is truthy |
| `UserService.NoFilterNoCriteria` | api/user/user.service.js:161-171 | with neither filter truthy the criteria are empty |
| `UserService.CriteriaIndependent` | api/user/user.service.js:163-169 | the criteria are the union of the text part and the balance part, each decided alone |
| `UserService.NewUserDoc` | api/user/user.service.js:71-78 | only username, password, fullname, imgUrl, isAdmin and score, with score 100 |
| `UserService.FirstValueOr` | api/user/user.service.js:134-136 | the first entry's truthy `value`; `''` for an empty list, a first entry without a truthy `value`, a string or any other non-object |
| `UserService.GoogleUserDoc` | api/user/user.service.js:131-140 | username and email both from the first email, imgUrl from the first photo, score 100, isAdmin false, createdAt now, no password |
| `UserService.GoogleUserWithoutEmail` | api/user/user.service.js:134-136 | a profile without emails and photos gets `''` for username, email and imgUrl |
| `UserService.QueryView` | api/user/user.service.js:25-29 | the password is dropped, `createdAt` is the id's timestamp, every other field is kept |
| `UserService.QueryViews` | api/user/user.service.js:24-29 | one view per matching document, in order, none with a password |
| `UserService.QueryViewsAppend` | api/user/user.service.js:24-29 | the views of two document lists in a row are the views of the first followed by the views of the second |
| `UserService.WithoutByUser` | api/user/user.service.js:47-50 | a review loses `byUser` and keeps its other fields |
| `UserService.GetByIdView` | api/user/user.service.js:44-50 | no password; `givenReviews` are the user's reviews without `byUser`; other fields are kept |
| `UserService.ObjectIdFromHex` | api/user/user.service.js:39 | the id `createFromHexString` builds is written in lower case whatever the case of the text, so a lower-case id is kept as it is |
| `UserService.SameObjectId` | api/user/user.service.js:39 | two texts of 24 hexadecimal digits give the same id exactly when they spell the same digit values, upper or lower case |
| `UserService.UpdateDoc` | api/user/user.service.js:92-96 | only `_id`, `fullname` and `score`, the `_id` being `ObjectIdFromHex` of the text; an `_id` that is not a string of 24 hexadecimal digits is InvalidObjectId, as `createFromHexString` throws |
| `UserService.UserCollection.constructor` | api/user/user.service.js:6-16 | the collection starts empty |
| `UserService.UserCollection.FindOne` | api/user/user.service.js:62 | a stored document with the value, or none exactly when no document has it |
| `UserService.UserCollection.GetByUsername` | api/user/user.service.js:59-67 | a stored user with that username, or none |
| `UserService.UserCollection.GetByGoogleId` | api/user/user.service.js:119-127 | a stored user with that Google id, or none |
| `UserService.UserCollection.GetById` | api/user/user.service.js:37-57 | an id that is not 24 hexadecimal digits is InvalidObjectId; otherwise found exactly when a user has `ObjectIdFromHex` of the id, and then the result is `GetByIdView` of the first stored user with that id |
| `UserService.UserCollection.GetByIdIgnoresCase` | api/user/user.service.js:37-41 | two texts of the same id in different letter case find the same user |
| `UserService.UserCollection.Query` | api/user/user.service.js:20-35 | returns `QueryViews` of the stored documents that match the criteria |
| `UserService.UserCollection.Add` | api/user/user.service.js:69-88 | stores `NewUserDoc` under the inserted id and returns it without password; a taken id is a duplicate-key error |
| `UserService.UserCollection.Update` | api/user/user.service.js:90-104 | `$set` of fullname and score on the user whose id is `ObjectIdFromHex` of the given `_id`, so letter case does not matter; every other user and field is unchanged |
| `UserService.UserCollection.AddGoogleUser` | api/user/user.service.js:129-149 | stores `GoogleUserDoc` under the inserted id and returns it |
| `UserService.UserCollection.GetOrCreateGoogleUser` | api/user/user.service.js:151-157 | an existing user is returned and nothing is inserted; otherwise the Google user is added |
| `UserService.UserCollection.Remove` | api/user/user.service.js:106-115 | an id that is not 24 hexadecimal digits is InvalidObjectId and deletes nothing; otherwise no user with `ObjectIdFromHex` of the id remains, whatever its letter case, and every other user is kept |

## Left out

- socket.io itself is not modelled: server setup, `fetchSockets`, actual emission and delivery, the payloads of emitted events, and the socket's own-id room. Routing is modelled as the route chosen.
- `withContext` and `asyncLocalStorage.run` are not modelled; they carry ambient context across asynchronous code.
- Read-modify-write races between concurrent handlers on one board are not modelled. Every operation runs alone.
- `server.js`, `services/db.service.js` and the configuration files are not part of this model (HTTP routes, OAuth, an AI call, connection plumbing).
- Logging is not modelled; no modelled outcome depends on it.
- The `disconnect` handler only logs and is not modelled.
- Clocks, fresh ids, inserted ids, `validateToken`, the review service and ObjectId timestamps are parameters.
- Mongo query matching is a parameter of `UserService.UserCollection.Query`. The regex semantics of `$regex` are not modelled.
- UserService.UpdateDoc, UserService.UserCollection.GetById, UserService.UserCollection.Remove: `ObjectId.createFromHexString` is modelled by its acceptance rule (exactly 24 hexadecimal digits) and by the id it builds, written as lower-case hex text. Stored user ids are kept in that form, so ids are compared by value. The bson library itself is not part of this model, and an object with a `length` of 24 is treated as not a string.
- Boards.SaveTask, BoardService.BoardCollection.SaveTask: `activity` is either an activity object or absent. A falsy non-object (`0`, `""`, `false`), which `if (activity)` skips, and a truthy non-object (a string or a number), which the code would prepend to the log, are not modelled.
- SocketHandlers.GroupMove, Boards.MoveGroup, UserService.WithoutByUser: event payload fields are typed: move indices are integers and ids are strings. splice's conversion of an absent, string, fractional or NaN index, and a `null` or `undefined` review from the review service (where `delete review.byUser` throws), are not modelled.
- BSON serialisation is not modelled; in particular, stored `undefined` values are kept as written.
- `Sockets.Template` renders strings, numbers, booleans, `null` and `undefined` as JavaScript does. Arrays, objects and dates get a placeholder text.
- A board whose `groups` property is missing is not modelled. The model gives every board a sequence of groups.
- A board with an empty-string `_id` (falsy, so `save` would insert it) is not modelled; `_id` is either absent or present.
- Board service and handler operations on a board id that does not exist return `BoardNotFound`. The code throws a `TypeError` on `null` there, which the handlers turn into the same error message.
- A `next` callback that throws is not modelled. Such a throw would trigger a second `next` call from the `catch` block.
- `handshake.auth` being undefined is not modelled; the auth token is a value that may be `undefined`.
- `userId.toString()` in `emitToUser` and `broadcast` is not modelled; the user id is already a string.
- `chat-send-msg` before any topic is set (`to(undefined)`) is modelled as no route.
- SocketMiddleware.CookieTokenIs: the token ends at the next `;` or at the next `loginToken=`, whichever comes first. `split('loginToken=')[1]` stops at a second `loginToken=`. The code is followed here.
- Sockets.ChatSetTopic: a truthy previous topic is left. The empty topic `""` is never left, because the leave is guarded by the truthiness of `myTopic`.

## Findings

| source | as written | input that shows it | evidently intended | confidence | as-written member | corrected member |
|---|---|---|---|---|---|---|
| services/board.service.js:72-75 | `moveTask` pushes whatever `find` returned, so an absent task pushes `undefined` into the destination group and saves it | a board with one empty group `g`; move task `t` from `g` to `g` | report that the task is missing and save nothing | not executed | `BoardFindings.MoveAbsentTaskPushesUndefined` | `Boards.MoveTask` |
| services/socket.service.js:160-161 | `splice(sourceIndex, 1)` past the end removes nothing, and `undefined` is then inserted at the target, so the board gains an `undefined` group | three groups, `sourceIndex` 5, `targetIndex` 0 | reject an out-of-range source index and save nothing | not executed | `BoardFindings.MoveGroupPastEndInsertsUndefined` | `Boards.MoveGroup` |
