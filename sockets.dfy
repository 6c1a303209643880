/** The per-connection state of services/socket.service.js — the chat
    topic, the rooms joined, the user id the socket answers to — and the
    routing decisions of `emitTo`, `emitToUser` and `broadcast`. Delivery
    itself belongs to socket.io and is not modelled: a route names where an
    event goes. */
module Sockets {
  import opened Documents

  /** Decimal digits of a natural number. */
  function NatToString(n: nat): (s: string)
    ensures |s| > 0
    decreases n
  {
    var d := ['0', '1', '2', '3', '4', '5', '6', '7', '8', '9'][n % 10];
    if n < 10 then [d] else NatToString(n / 10) + [d]
  }

  /** How a value reads inside a template literal. Arrays and dates are
      not modelled and read as a plain object does. */
  function Template(v: Value): string
  {
    match v
    case Undefined => "undefined"
    case Null => "null"
    case Bool(b) => if b then "true" else "false"
    case Num(n) => if n < 0 then "-" + NatToString(-n) else NatToString(n)
    case Str(s) => s
    case ObjectId(hex) => hex
    case _ => "[object Object]"
  }

  /** The room of the viewers of a board. */
  function BoardRoom(boardId: string): string { "board:" + boardId }

  /** The room of the watchers of a user. */
  function WatchRoom(userId: string): string { "watching:" + userId }

  /** The chat topic and the rooms of one socket. */
  datatype TopicState = TopicState(myTopic: Option<string>, rooms: set<string>)

  /** `if (socket.myTopic)`: a topic is left only when it is a non-empty
      string. */
  predicate HasTopic(st: TopicState)
  {
    st.myTopic.Some? && st.myTopic.value != ""
  }

  /** chat-set-topic: the same topic again changes nothing; otherwise the
      current topic, when there is one, is left, and the new one joined
      and remembered. */
  function ChatSetTopic(st: TopicState, topic: string): (r: TopicState)
    ensures st.myTopic == Some(topic) ==> r == st
    ensures r.myTopic == Some(topic)
    ensures st.myTopic != Some(topic) ==> topic in r.rooms
    ensures st.myTopic != Some(topic) && HasTopic(st) ==> st.myTopic.value !in r.rooms
    ensures forall room :: room != topic && (HasTopic(st) ==> room != st.myTopic.value) ==> (room in r.rooms <==> room in st.rooms)
  {
    if st.myTopic == Some(topic) then st
    else
      var rooms := if HasTopic(st) then st.rooms - {st.myTopic.value} else st.rooms;
      TopicState(Some(topic), rooms + {topic})
  }

  /** chat-set-topic applied to each topic in turn. */
  function SetTopics(st: TopicState, topics: seq<string>): TopicState
    decreases |topics|
  {
    if |topics| == 0 then st else SetTopics(ChatSetTopic(st, topics[0]), topics[1..])
  }

  /** Of the topics in `ts`, the socket is in the current one only. */
  ghost predicate OneTopicOf(st: TopicState, ts: set<string>)
  {
    if st.myTopic.Some? then st.myTopic.value in ts && st.rooms * ts == {st.myTopic.value}
    else st.rooms * ts == {}
  }

  /** One chat-set-topic with a non-empty topic keeps the socket in at
      most one topic, and touches no room outside the topics. */
  lemma ChatSetTopicKeepsOneTopic(st: TopicState, ts: set<string>, topic: string)
    requires OneTopicOf(st, ts) && topic in ts && "" !in ts
    ensures OneTopicOf(ChatSetTopic(st, topic), ts)
    ensures ChatSetTopic(st, topic).rooms - ts == st.rooms - ts
  {
    var r := ChatSetTopic(st, topic);
    if st.myTopic != Some(topic) {
      if st.myTopic.Some? {
        assert r.rooms * ts == {topic};
      } else {
        assert r.rooms * ts == {topic};
      }
    }
  }

  /** After any run of chat-set-topic with non-empty topics, a socket that
      joined none of them otherwise is in exactly one of them, the last,
      and every other room is as it was. */
  lemma {:induction false} SetTopicsKeepsOneTopic(st: TopicState, ts: set<string>, topics: seq<string>)
    requires OneTopicOf(st, ts) && "" !in ts
    requires forall k :: 0 <= k < |topics| ==> topics[k] in ts
    ensures OneTopicOf(SetTopics(st, topics), ts)
    ensures SetTopics(st, topics).rooms - ts == st.rooms - ts
    ensures |topics| > 0 ==> SetTopics(st, topics).myTopic == Some(topics[|topics| - 1])
    decreases |topics|
  {
    if |topics| > 0 {
      ChatSetTopicKeepsOneTopic(st, ts, topics[0]);
      SetTopicsKeepsOneTopic(ChatSetTopic(st, topics[0]), ts, topics[1..]);
    }
  }

  /** chat-send-msg: to every socket in the room of the current topic;
      before any topic is set there is no room (what socket.io does with
      `to(undefined)` is not modelled). */
  function ChatSendRoute(myTopic: Option<string>): (r: Option<Route>)
    ensures r.Some? <==> myTopic.Some?
    ensures r.Some? ==> r.value == ToRoom(myTopic.value)
  {
    if myTopic.Some? then Some(ToRoom(myTopic.value)) else None
  }

  /** Chat messages go to the topic set last. */
  lemma ChatSendGoesToLastTopic(st: TopicState, topics: seq<string>)
    requires |topics| > 0
    ensures ChatSendRoute(SetTopics(st, topics).myTopic) == Some(ToRoom(topics[|topics| - 1]))
    decreases |topics|
  {
    if |topics| > 1 {
      ChatSendGoesToLastTopic(ChatSetTopic(st, topics[0]), topics[1..]);
    }
  }

  /** Setting the current topic again is a no-op, so the handler is
      idempotent. */
  lemma ChatSetTopicIdempotent(st: TopicState, topic: string)
    ensures ChatSetTopic(ChatSetTopic(st, topic), topic) == ChatSetTopic(st, topic)
  {
  }

  /** The empty topic is falsy: once joined it is never left by a later
      chat-set-topic. */
  lemma EmptyTopicIsNeverLeft(st: TopicState, topics: seq<string>)
    requires "" in st.rooms
    ensures "" in SetTopics(st, topics).rooms
    decreases |topics|
  {
    if |topics| > 0 {
      EmptyTopicIsNeverLeft(ChatSetTopic(st, topics[0]), topics[1..]);
    }
  }

  /** A connected socket. socket.io also puts every socket in a room named
      by its own id; that room is not modelled. */
  class Socket {
    const id: string
    /** `socket.userId`: undefined until authenticated or set. */
    var userId: Value
    /** `socket.loggedinUser`, as the token validation returned it. */
    var loggedinUser: Value
    var myTopic: Option<string>
    var rooms: set<string>

    constructor (id: string)
      ensures this.id == id && userId == Undefined && loggedinUser == Undefined
      ensures myTopic == None && rooms == {}
    {
      this.id := id;
      userId := Undefined;
      loggedinUser := Undefined;
      myTopic := None;
      rooms := {};
    }

    function Topic(): TopicState
      reads this
    {
      TopicState(myTopic, rooms)
    }

    /** `socket.join(room)`. */
    method Join(room: string)
      modifies this
      ensures rooms == old(rooms) + {room}
      ensures myTopic == old(myTopic) && userId == old(userId) && loggedinUser == old(loggedinUser)
    {
      rooms := rooms + {room};
    }

    /** `socket.leave(room)`. */
    method Leave(room: string)
      modifies this
      ensures rooms == old(rooms) - {room}
      ensures myTopic == old(myTopic) && userId == old(userId) && loggedinUser == old(loggedinUser)
    {
      rooms := rooms - {room};
    }

    /** On connection the socket joins the room of its user. */
    method OnConnection()
      modifies this
      ensures rooms == old(rooms) + {"user:" + Template(userId)}
      ensures myTopic == old(myTopic) && userId == old(userId) && loggedinUser == old(loggedinUser)
    {
      Join("user:" + Template(userId));
    }

    /** chat-set-topic. */
    method SetTopic(topic: string)
      modifies this
      ensures Topic() == ChatSetTopic(old(Topic()), topic)
      ensures userId == old(userId) && loggedinUser == old(loggedinUser)
    {
      if myTopic == Some(topic) {
        return;
      }
      if myTopic.Some? && myTopic.value != "" {
        Leave(myTopic.value);
      }
      Join(topic);
      myTopic := Some(topic);
    }

    /** user-watch. */
    method UserWatch(userId: string)
      modifies this
      ensures rooms == old(rooms) + {WatchRoom(userId)}
      ensures myTopic == old(myTopic) && this.userId == old(this.userId) && loggedinUser == old(loggedinUser)
    {
      Join(WatchRoom(userId));
    }

    /** set-user-socket. */
    method SetUserSocket(userId: Value)
      modifies this
      ensures this.userId == userId
      ensures myTopic == old(myTopic) && rooms == old(rooms) && loggedinUser == old(loggedinUser)
    {
      this.userId := userId;
    }

    /** unset-user-socket: `delete socket.userId`. */
    method UnsetUserSocket()
      modifies this
      ensures userId == Undefined
      ensures myTopic == old(myTopic) && rooms == old(rooms) && loggedinUser == old(loggedinUser)
    {
      userId := Undefined;
    }

    /** board-watch. */
    method BoardWatch(boardId: string)
      modifies this
      ensures rooms == old(rooms) + {BoardRoom(boardId)}
      ensures myTopic == old(myTopic) && userId == old(userId) && loggedinUser == old(loggedinUser)
    {
      Join(BoardRoom(boardId));
    }

    /** board-unwatch. */
    method BoardUnwatch(boardId: string)
      modifies this
      ensures rooms == old(rooms) - {BoardRoom(boardId)}
      ensures myTopic == old(myTopic) && userId == old(userId) && loggedinUser == old(loggedinUser)
    {
      Leave(BoardRoom(boardId));
    }
  }

  /** Watching then unwatching a board leaves the socket in the rooms it
      was in, unless it already watched the board. */
  method WatchUnwatch(s: Socket, boardId: string)
    modifies s
    ensures BoardRoom(boardId) !in s.rooms
    ensures s.rooms == old(s.rooms) - {BoardRoom(boardId)}
  {
    s.BoardWatch(boardId);
    s.BoardUnwatch(boardId);
  }

  /** `_getUserSocket`: the first socket whose userId is the string. */
  method GetUserSocket(sockets: seq<Socket>, userId: string) returns (found: Option<Socket>)
    ensures found.None? <==> forall k :: 0 <= k < |sockets| ==> sockets[k].userId != Str(userId)
    ensures found.Some? ==>
      exists i :: 0 <= i < |sockets| && sockets[i] == found.value && sockets[i].userId == Str(userId) &&
        forall k :: 0 <= k < i ==> sockets[k].userId != Str(userId)
  {
    var i := 0;
    while i < |sockets|
      invariant 0 <= i <= |sockets|
      invariant forall k :: 0 <= k < i ==> sockets[k].userId != Str(userId)
    {
      if sockets[i].userId == Str(userId) {
        return Some(sockets[i]);
      }
      i := i + 1;
    }
    return None;
  }

  /** Where an event goes. */
  datatype Route =
    | ToRoomExcept(room: string, excluded: string)   // from a socket to a room, itself excluded
    | ToAllExcept(excluded: string)                  // from a socket to every other socket
    | ToRoom(room: string)                           // to every socket in a room
    | ToAll                                          // to every socket
    | ToSocket(socketId: string)                     // to one socket

  /** `if (room && ...)`: a room is given when it is a non-empty string. */
  predicate RoomGiven(room: Option<string>)
  {
    room.Some? && room.value != ""
  }

  /** broadcast: exactly one of four branches, chosen by whether a room is
      given and whether the user has a socket; the user's socket, when
      there is one, is left out. */
  function BroadcastRoute(room: Option<string>, excluded: Option<string>): (r: Route)
    ensures r.ToRoomExcept? <==> RoomGiven(room) && excluded.Some?
    ensures r.ToAllExcept? <==> !RoomGiven(room) && excluded.Some?
    ensures r.ToRoom? <==> RoomGiven(room) && excluded.None?
    ensures r.ToAll? <==> !RoomGiven(room) && excluded.None?
    ensures (r.ToRoomExcept? || r.ToRoom?) ==> r.room == room.value
    ensures (r.ToRoomExcept? || r.ToAllExcept?) ==> r.excluded == excluded.value
  {
    if RoomGiven(room) && excluded.Some? then ToRoomExcept(room.value, excluded.value)
    else if excluded.Some? then ToAllExcept(excluded.value)
    else if RoomGiven(room) then ToRoom(room.value)
    else ToAll
  }

  /** broadcast: looks the user's socket up, then routes. */
  method Broadcast(sockets: seq<Socket>, room: Option<string>, userId: string) returns (r: Route)
    ensures (forall k :: 0 <= k < |sockets| ==> sockets[k].userId != Str(userId)) ==> r == BroadcastRoute(room, None)
    ensures forall k ::
      (0 <= k < |sockets| && sockets[k].userId == Str(userId) && (forall j :: 0 <= j < k ==> sockets[j].userId != Str(userId)))
      ==> r == BroadcastRoute(room, Some(sockets[k].id))
  {
    var excluded := GetUserSocket(sockets, userId);
    r := BroadcastRoute(room, if excluded.Some? then Some(excluded.value.id) else None);
  }

  /** emitToUser: to the user's first socket, and nowhere when the user has
      none. */
  method EmitToUser(sockets: seq<Socket>, userId: string) returns (r: Option<Route>)
    ensures r.None? <==> forall k :: 0 <= k < |sockets| ==> sockets[k].userId != Str(userId)
    ensures forall k ::
      (0 <= k < |sockets| && sockets[k].userId == Str(userId) && (forall j :: 0 <= j < k ==> sockets[j].userId != Str(userId)))
      ==> r == Some(ToSocket(sockets[k].id))
  {
    var socket := GetUserSocket(sockets, userId);
    if socket.Some? {
      r := Some(ToSocket(socket.value.id));
    } else {
      r := None;
    }
  }

  /** emitTo: to the watchers of the label (`watched`) when one is given, otherwise to
      every socket. */
  function EmitToRoute(watched: Option<string>): (r: Route)
    ensures RoomGiven(watched) ==> r == ToRoom(WatchRoom(watched.value))
    ensures !RoomGiven(watched) ==> r == ToAll
  {
    if RoomGiven(watched) then ToRoom(WatchRoom(watched.value)) else ToAll
  }
}
