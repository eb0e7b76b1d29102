/** The gateway, the chat service and the users service with the state they update in place. Every
    method is proved against the handler of the same name in RealtimeModel. */
module RealtimeServices {
  import opened Common
  import opened RealtimeModel
  import RateLimiter

  class Database {
    var users: map<UserId, User>
    var requests: map<RequestId, Request>
    var blocks: set<(UserId, UserId)>
    ghost var issued: set<RequestId>

    ghost function View(): Db
      reads this
    {
      Db(users, requests, blocks, issued)
    }

    /** DELETE of a user row, with the cascades of its foreign keys. */
    method RemoveUser(u: UserId)
      modifies this
      ensures View() == WithoutUser(old(View()), u)
    {
      users := users - {u};
      requests := map r | r in requests && requests[r].from != u && requests[r].to != u :: requests[r];
      blocks := set p | p in blocks && p.0 != u && p.1 != u;
    }
  }

  /** Socket.IO with its Redis adapter, and the Redis keys all workers share. */
  class Cluster {
    var home: map<SocketId, WorkerId>
    var members: set<(SocketId, Room)>
    var userSocket: map<UserId, SocketId>
    var socketUser: map<SocketId, UserId>
    var ordered: set<SocketId>
    ghost var admitted: seq<(UserId, SocketId)>

    ghost function View(): Shared
      reads this
    {
      Shared(home, members, userSocket, socketUser, ordered, admitted)
    }
  }

  datatype Relay = Dropped | NotInRoom | To(sockets: set<SocketId>)

  class Gateway {
    const worker: WorkerId
    const cluster: Cluster
    const db: Database
    const strokes: RateLimiter.Limiter
    const clears: RateLimiter.Limiter
    var socketToUser: map<SocketId, UserId>
    var socketToRoom: map<SocketId, Room>

    constructor (worker: WorkerId, cluster: Cluster, db: Database)
      ensures this.worker == worker && this.cluster == cluster && this.db == db
      ensures Valid() && fresh(strokes) && fresh(clears)
      ensures View() == Node(Local(map[], map[]), cluster.View())
    {
      this.worker, this.cluster, this.db := worker, cluster, db;
      strokes := new RateLimiter.Limiter(RateLimiter.STROKE);
      clears := new RateLimiter.Limiter(RateLimiter.CLEAR);
      socketToUser, socketToRoom := map[], map[];
    }

    ghost predicate Valid() {
      strokes != clears && strokes.policy == RateLimiter.STROKE && clears.policy == RateLimiter.CLEAR
    }

    ghost function View(): Node
      reads this, cluster
    {
      Node(Local(socketToUser, socketToRoom), cluster.View())
    }

    method HandleConnection(s: SocketId, token: Option<Token>) returns (ok: bool)
      modifies this, cluster
      ensures ok == MayConnect(db.View(), token)
      ensures View() == Connect(db.View(), old(View()), worker, s, token)
    {
      if token.None? || token.value.sub !in db.users {
        return false;
      }
      var u := token.value.sub;
      if db.users[u].banned || token.value.sessionVersion != db.users[u].sessionVersion {
        return false;
      }
      if u in cluster.userSocket && cluster.userSocket[u] != s {
        cluster.ordered := cluster.ordered + {cluster.userSocket[u]};
      }
      socketToUser := socketToUser[s := u];
      cluster.home := cluster.home[s := worker];
      cluster.userSocket := cluster.userSocket[u := s];
      cluster.socketUser := cluster.socketUser[s := u];
      cluster.admitted := cluster.admitted + [(u, s)];
      return true;
    }

    method HandleDisconnect(s: SocketId)
      requires Valid()
      modifies this, cluster, strokes, clears
      ensures View() == Disconnect(old(View()), s)
      ensures s in old(socketToUser) ==> s !in strokes.entries && s !in clears.entries
    {
      cluster.home := cluster.home - {s};
      cluster.members := set m | m in cluster.members && m.0 != s;
      if s !in socketToUser {
        return;
      }
      var u := socketToUser[s];
      if s in socketToRoom {
        socketToRoom := socketToRoom - {s};
      }
      assert socketToRoom == old(socketToRoom) - {s};
      socketToUser := socketToUser - {s};
      clears.Forget(s);
      strokes.Forget(s);
      if u in cluster.userSocket && cluster.userSocket[u] == s {
        cluster.userSocket := cluster.userSocket - {u};
      }
      cluster.socketUser := cluster.socketUser - {s};
    }

    /** Leave the cached room first, then join and cache the new one. */
    method JoinRoom(s: SocketId, room: Room)
      modifies this, cluster
      ensures View() == EnterRoom(old(View()), s, room)
    {
      if s in socketToRoom && socketToRoom[s] != room {
        cluster.members := cluster.members - {(s, socketToRoom[s])};
      }
      cluster.members := cluster.members + {(s, room)};
      socketToRoom := socketToRoom[s := room];
    }

    method JoinGroup(s: SocketId, g: GroupId, verdict: Reply) returns (reply: Reply)
      modifies this, cluster
      ensures (View(), reply) == RealtimeModel.JoinGroup(old(View()), s, g, verdict)
    {
      if s !in socketToUser {
        return Unauthorized;
      }
      if verdict != Done {
        return verdict;
      }
      JoinRoom(s, Group(g));
      return Done;
    }

    method LeaveChat(s: SocketId)
      modifies this, cluster
      ensures View() == LeaveRoom(old(View()), s)
    {
      if s in socketToRoom {
        cluster.members := cluster.members - {(s, socketToRoom[s])};
        socketToRoom := socketToRoom - {s};
      }
    }

    /** Throws everybody out of a room; returns the users whose leaving is announced. */
    method ForceCloseRoom(room: Room) returns (users: set<UserId>)
      modifies this, cluster
      ensures View() == CloseRooms(old(View()), {room})
      ensures users == old(set m | m in cluster.members && m.1 == room &&
          (m.0 in socketToUser || m.0 in cluster.socketUser)
                               :: if m.0 in socketToUser then socketToUser[m.0] else cluster.socketUser[m.0])
    {
      var roomSockets := set m | m in cluster.members && m.1 == room :: m.0;
      assert forall s :: s in roomSockets <==> (s, room) in cluster.members;
      users := UsersOf(roomSockets);
      cluster.members := set m | m in cluster.members && m.1 != room;
      ForgetRoom(roomSockets, room);
      assert View().shared.members == CloseRooms(old(View()), {room}).shared.members;
      assert View().local.socketToRoom == CloseRooms(old(View()), {room}).local.socketToRoom;
    }

    method UsersOf(roomSockets: set<SocketId>) returns (users: set<UserId>)
      ensures users == set s | s in roomSockets && (s in socketToUser || s in cluster.socketUser)
                            :: if s in socketToUser then socketToUser[s] else cluster.socketUser[s]
    {
      users := {};
      var pending := roomSockets;
      while pending != {}
        invariant pending <= roomSockets
        invariant users == set s | s in roomSockets - pending && (s in socketToUser || s in cluster.socketUser)
                               :: if s in socketToUser then socketToUser[s] else cluster.socketUser[s]
        decreases pending
      {
        var s :| s in pending;
        pending := pending - {s};
        if s in socketToUser {
          users := users + {socketToUser[s]};
        } else if s in cluster.socketUser {
          users := users + {cluster.socketUser[s]};
        }
      }
    }

    /** Clears this worker's cache entries of the sockets thrown out. */
    method ForgetRoom(roomSockets: set<SocketId>, room: Room)
      modifies this`socketToRoom
      ensures socketToRoom == map s | s in old(socketToRoom) && !(old(socketToRoom)[s] == room && s in roomSockets)
                                   :: old(socketToRoom)[s]
    {
      var pending := roomSockets;
      while pending != {}
        invariant pending <= roomSockets
        invariant socketToRoom == map s | s in old(socketToRoom) &&
            !(old(socketToRoom)[s] == room && s in roomSockets - pending)
                                       :: old(socketToRoom)[s]
        decreases pending
      {
        var s :| s in pending;
        pending := pending - {s};
        if s in socketToRoom && socketToRoom[s] == room {
          socketToRoom := socketToRoom - {s};
        }
      }
    }

    method ForceRemoveUserFromRoom(u: UserId, room: Room)
      modifies this, cluster
      ensures View() == ForceRemove(old(View()), u, room)
    {
      if u !in cluster.userSocket {
        return;
      }
      var s := cluster.userSocket[u];
      cluster.members := cluster.members - {(s, room)};
      if s in socketToRoom && socketToRoom[s] == room {
        socketToRoom := socketToRoom - {s};
      }
    }

    /** Rate limit first, then relay to everybody else in the cached room. */
    method DrawStroke(s: SocketId, now: int) returns (relay: Relay)
      requires Valid()
      modifies strokes
      ensures relay == if RateLimiter.Limited(RateLimiter.STROKE, old(strokes.entries), s, now) then Dropped
                       else match Recipients(View(), s) case None => NotInRoom case Some(sockets) => To(sockets)
      ensures strokes.entries == old(strokes.entries)
          [s := RateLimiter.EntryAfter(RateLimiter.STROKE, old(strokes.entries), s, now)]
    {
      var limited := strokes.IsRateLimited(s, now);
      if limited {
        return Dropped;
      }
      relay := RelayFrom(s);
    }

    method ClearCanvas(s: SocketId, now: int) returns (relay: Relay)
      requires Valid()
      modifies clears
      ensures relay == if RateLimiter.Limited(RateLimiter.CLEAR, old(clears.entries), s, now) then Dropped
                       else match Recipients(View(), s) case None => NotInRoom case Some(sockets) => To(sockets)
      ensures clears.entries == old(clears.entries)
          [s := RateLimiter.EntryAfter(RateLimiter.CLEAR, old(clears.entries), s, now)]
    {
      var limited := clears.IsRateLimited(s, now);
      if limited {
        return Dropped;
      }
      relay := RelayFrom(s);
    }

    method RelayFrom(s: SocketId) returns (relay: Relay)
      ensures relay == match Recipients(View(), s) case None => NotInRoom case Some(sockets) => To(sockets)
    {
      if s !in socketToRoom {
        return NotInRoom;
      }
      var room := socketToRoom[s];
      return To(set m | m in cluster.members && m.1 == room && m.0 != s :: m.0);
    }
  }

  class ChatService {
    const db: Database
    const gateway: Gateway

    constructor (db: Database, gateway: Gateway)
      ensures this.db == db && this.gateway == gateway
    {
      this.db, this.gateway := db, gateway;
    }

    method CreateRequest(from: UserId, to: Option<UserId>, accepting: bool, id: RequestId) returns (reply: Reply)
      modifies db
      ensures (db.View(), reply) == RealtimeModel.CreateRequest(old(db.View()), from, to, accepting, id)
    {
      if from !in db.users || to.None? {
        return NotFound;
      }
      if to.value == from {
        return BadRequest;
      }
      if (from, to.value) in db.blocks || (to.value, from) in db.blocks {
        return Forbidden;
      }
      if !accepting {
        return Forbidden;
      }
      var duplicates := set r | r in db.requests && db.requests[r].from == from && db.requests[r].to == to.value
                                && db.requests[r].status == Pending;
      if duplicates != {} {
        var r :| r in duplicates;
        assert db.requests[r] == Request(from, to.value, Pending);
        return BadRequest;
      }
      forall r | r in db.requests ensures db.requests[r] != Request(from, to.value, Pending)
      {
        assert r !in duplicates;
      }
      if to.value !in db.users {
        return ConstraintViolation;
      }
      db.requests := db.requests[id := Request(from, to.value, Pending)];
      db.issued := db.issued + {id};
      return Done;
    }

    method RespondToRequest(id: RequestId, responder: UserId, accept: bool) returns (reply: Reply)
      modifies db
      ensures (db.View(), reply) == Respond(old(db.View()), id, responder, accept)
    {
      if id !in db.requests {
        return NotFound;
      }
      var request := db.requests[id];
      if request.to != responder {
        return Forbidden;
      }
      if request.status != Pending {
        return BadRequest;
      }
      if accept {
        if (request.from, request.to) in db.blocks || (request.to, request.from) in db.blocks {
          db.requests := db.requests - {id};
          return Forbidden;
        }
      }
      request := request.(status := if accept then Accepted else Rejected);
      db.requests := db.requests[id := request];
      return Done;
    }

    method CancelRequest(id: RequestId, u: UserId) returns (reply: Reply)
      modifies db
      ensures (db.View(), reply) == Cancel(old(db.View()), id, u)
    {
      if id !in db.requests {
        return NotFound;
      }
      if db.requests[id].from != u {
        return Forbidden;
      }
      if db.requests[id].status != Pending {
        return BadRequest;
      }
      db.requests := db.requests - {id};
      return Done;
    }

    method GetAcceptedRoomForUser(id: RequestId, u: UserId) returns (reply: Reply, room: Option<Room>)
      modifies db
      ensures (db.View(), reply) == AdmitToChat(old(db.View()), id, u)
      ensures room == if reply == Done then Some(Chat(id)) else None
    {
      if id !in db.requests {
        return NotFound, None;
      }
      var request := db.requests[id];
      if request.from != u && request.to != u {
        return Forbidden, None;
      }
      if request.status != Accepted {
        return Forbidden, None;
      }
      if (request.from, request.to) in db.blocks || (request.to, request.from) in db.blocks {
        db.requests := db.requests - {id};
        return Forbidden, None;
      }
      return Done, Some(Chat(id));
    }

    method JoinChat(s: SocketId, id: RequestId) returns (reply: Reply)
      modifies db, gateway, gateway.cluster
      ensures (db.View(), gateway.View(), reply) == RealtimeModel.JoinChat(old(db.View()), old(gateway.View()), s, id)
    {
      if s !in gateway.socketToUser {
        return Unauthorized;
      }
      var room;
      reply, room := GetAcceptedRoomForUser(id, gateway.socketToUser[s]);
      if reply != Done {
        return;
      }
      gateway.JoinRoom(s, room.value);
    }

    method RemoveAcceptedChat(id: RequestId, u: UserId) returns (reply: Reply)
      modifies db, gateway, gateway.cluster
      ensures (db.View(), gateway.View(), reply) == RemoveChat(old(db.View()), old(gateway.View()), id, u)
    {
      if id !in db.requests {
        return NotFound;
      }
      var request := db.requests[id];
      if request.from != u && request.to != u {
        return Forbidden;
      }
      if request.status != Accepted {
        return BadRequest;
      }
      var _ := gateway.ForceCloseRoom(Chat(id));
      db.requests := db.requests - {id};
      return Done;
    }

    /** Closes the room of each of the given chats in turn. */
    method CloseEach(chats: set<RequestId>)
      modifies gateway, gateway.cluster
      ensures gateway.View() == CloseRooms(old(gateway.View()), set r | r in chats :: Chat(r))
    {
      var pending := chats;
      CloseNothing(gateway.View());
      assert (set r | r in chats - pending :: Chat(r)) == {};
      while pending != {}
        invariant pending <= chats
        invariant gateway.View() == CloseRooms(old(gateway.View()), set r | r in chats - pending :: Chat(r))
        decreases pending
      {
        var r :| r in pending;
        ghost var closed := set r | r in chats - pending :: Chat(r);
        pending := pending - {r};
        var _ := gateway.ForceCloseRoom(Chat(r));
        CloseInTurn(old(gateway.View()), closed, {Chat(r)});
        assert closed + {Chat(r)} == set r | r in chats - pending :: Chat(r);
      }
      assert chats - pending == chats;
    }

    method CloseRoomsBetweenUsers(a: UserId, b: UserId)
      modifies gateway, gateway.cluster
      ensures gateway.View() == CloseRooms(old(gateway.View()), RoomsBetween(old(db.View()), a, b))
    {
      var activeChats := set r | r in db.requests && db.requests[r].status == Accepted
                                 && ((db.requests[r].from == a && db.requests[r].to == b) ||
                                     (db.requests[r].from == b && db.requests[r].to == a));
      assert (set r | r in activeChats :: Chat(r)) == RoomsBetween(db.View(), a, b);
      CloseEach(activeChats);
    }

    method CloseAllRoomsForUser(u: UserId)
      modifies gateway, gateway.cluster
      ensures gateway.View() == CloseRooms(old(gateway.View()), RoomsOf(old(db.View()), u))
    {
      var activeChats := set r | r in db.requests && db.requests[r].status == Accepted
                                 && (db.requests[r].from == u || db.requests[r].to == u);
      assert (set r | r in activeChats :: Chat(r)) == RoomsOf(db.View(), u);
      CloseEach(activeChats);
    }
  }

  class UsersService {
    const db: Database
    const chat: ChatService

    constructor (db: Database, chat: ChatService)
      ensures this.db == db && this.chat == chat
    {
      this.db, this.chat := db, chat;
    }

    method IsBlocked(a: UserId, b: UserId) returns (blocked: bool)
      ensures blocked == Blocked(db.View(), a, b)
      ensures blocked <==> (a, b) in db.blocks || (b, a) in db.blocks
    {
      var rows := set p | p in db.blocks && (p == (a, b) || p == (b, a));
      if (a, b) in db.blocks { assert (a, b) in rows; }
      if (b, a) in db.blocks { assert (b, a) in rows; }
      return |rows| > 0;
    }

    method BlockUser(a: UserId, b: UserId) returns (reply: Reply)
      requires chat.db == db
      modifies db, chat.gateway, chat.gateway.cluster
      ensures (db.View(), chat.gateway.View(), reply) == Block(old(db.View()), old(chat.gateway.View()), a, b)
    {
      if a == b {
        return BadRequest;
      }
      if b !in db.users {
        return NotFound;
      }
      if (a, b) in db.blocks {
        return Done;
      }
      if a !in db.users {
        return ConstraintViolation;
      }
      db.blocks := db.blocks + {(a, b)};
      chat.CloseRoomsBetweenUsers(a, b);
      return Done;
    }

    method UnblockUser(a: UserId, b: UserId)
      modifies db
      ensures db.View() == Unblock(old(db.View()), a, b)
    {
      db.blocks := db.blocks - {(a, b)};
    }

    method DeleteAccount(u: UserId) returns (reply: Reply)
      requires chat.db == db
      modifies db, chat.gateway, chat.gateway.cluster
      ensures (db.View(), chat.gateway.View(), reply) ==
          RealtimeModel.DeleteAccount(old(db.View()), old(chat.gateway.View()), u)
    {
      if u !in db.users {
        return NotFound;
      }
      chat.CloseAllRoomsForUser(u);
      db.RemoveUser(u);
      return Done;
    }
  }

  lemma CloseNothing(n: Node)
    ensures CloseRooms(n, {}) == n
  {
  }

  /** Closing rooms one after the other is closing them all at once. */
  lemma CloseInTurn(n: Node, a: set<Room>, b: set<Room>)
    ensures CloseRooms(CloseRooms(n, a), b) == CloseRooms(n, a + b)
  {
    var one, all := CloseRooms(CloseRooms(n, a), b), CloseRooms(n, a + b);
    assert one.shared.members == all.shared.members;
    assert one.local.socketToRoom == all.local.socketToRoom;
  }
}
